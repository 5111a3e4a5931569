/**
 * The open-port extractor: `re.findall(r'(\d+)/open', content)` followed by
 * `",".join(...)`.
 *
 * `FindAllFrom` is the scanner (what the regex engine does, position by
 * position, resuming after each match); `Ports` is the declarative
 * specification (the maximal decimal-digit runs immediately followed by
 * "/open", in order of appearance). `ExtractOpenPorts` is proved to be the
 * join of the specification.
 *
 * Python's `\d` on `str` also accepts non-ASCII decimal digits; this model
 * recognises the ASCII digits '0'..'9' only.
 */
module PortExtractor {
  import opened TextMode

  /** An ASCII decimal digit. */
  predicate IsDigit(c: char) {
    '0' <= c <= '9'
  }

  predicate IsDigits(t: string) {
    forall k :: 0 <= k < |t| ==> IsDigit(t[k])
  }

  /** A text without digits. */
  predicate DigitFree(t: string) {
    forall k :: 0 <= k < |t| ==> !IsDigit(t[k])
  }

  /** The literal that follows a port number reported as open. */
  const Marker: string := "/open"

  lemma MarkerHasNoDigit()
    ensures |Marker| == 5
    ensures forall k :: 0 <= k < |Marker| ==> !IsDigit(Marker[k]) && Marker[k] != ','
  {
  }

  /** True when the marker occurs at position `k` of `s`. */
  predicate MarkerAt(s: string, k: nat) {
    k + |Marker| <= |s| && s[k..k + |Marker|] == Marker
  }

  /** The end (exclusive) of the run of digits that begins at `i`. */
  function RunEnd(s: string, i: nat): (e: nat)
    requires i <= |s|
    ensures i <= e <= |s|
    ensures IsDigits(s[i..e])
    ensures e == |s| || !IsDigit(s[e])
    decreases |s| - i
  {
    if i < |s| && IsDigit(s[i]) then
      var e := RunEnd(s, i + 1);
      assert s[i..e] == [s[i]] + s[i + 1..e];
      e
    else i
  }

  // ---------------------------------------------------------------------------
  // Specification: the ports are the maximal digit runs followed by the marker
  // ---------------------------------------------------------------------------

  /** A port match starts at `i`: a maximal run of digits begins there and the marker follows it. */
  predicate IsPortAt(s: string, i: nat) {
    i < |s| && IsDigit(s[i]) && (i == 0 || !IsDigit(s[i - 1])) && MarkerAt(s, RunEnd(s, i))
  }

  predicate HasOpenPort(s: string) {
    exists i: nat :: i < |s| && IsPortAt(s, i)
  }

  /** Every position at or after `i` where a port match starts, in increasing order. */
  function PortStarts(s: string, i: nat): (r: seq<nat>)
    requires i <= |s|
    ensures forall k :: 0 <= k < |r| ==> i <= r[k] < |s|
    decreases |s| - i
  {
    if i == |s| then []
    else if IsPortAt(s, i) then [i] + PortStarts(s, i + 1)
    else PortStarts(s, i + 1)
  }

  /** The match starts are listed in strictly increasing order, and they are exactly the positions where a port match starts. */
  lemma {:induction false} PortStartsSpec(s: string, i: nat)
    requires i <= |s|
    ensures forall k, l :: 0 <= k < l < |PortStarts(s, i)| ==> PortStarts(s, i)[k] < PortStarts(s, i)[l]
    ensures forall j: nat :: j in PortStarts(s, i) <==> i <= j && IsPortAt(s, j)
    decreases |s| - i
  {
    if i < |s| {
      PortStartsSpec(s, i + 1);
    }
  }

  /** The digit runs that begin at the given positions. */
  function RunsAt(s: string, starts: seq<nat>): (r: seq<string>)
    requires forall k :: 0 <= k < |starts| ==> starts[k] < |s|
  {
    if starts == [] then []
    else [s[starts[0]..RunEnd(s, starts[0])]] + RunsAt(s, starts[1..])
  }

  /** The port numbers reported as open in `s`, as text, in order of appearance, duplicates kept. */
  function Ports(s: string): seq<string> {
    RunsAt(s, PortStarts(s, 0))
  }

  // ---------------------------------------------------------------------------
  // The scanner: re.findall(r'(\d+)/open', s)
  // ---------------------------------------------------------------------------

  /** One attempt of the pattern at position `p` succeeds; the group `\d+` then ends at `RunEnd(s, p)`. */
  predicate MatchesAt(s: string, p: nat)
    requires p <= |s|
  {
    p < |s| && IsDigit(s[p]) && MarkerAt(s, RunEnd(s, p))
  }

  /**
   * `MatchesAt` is the regex attempt: the greedy group `\d+` backtracks over
   * every digit prefix, so the attempt succeeds exactly when some digit prefix
   * is followed by the marker, and the only such prefix is the whole run.
   */
  lemma MatchesAtIsRegexAttempt(s: string, p: nat)
    requires p <= |s|
    ensures MatchesAt(s, p) <==> exists e :: p < e <= |s| && IsDigits(s[p..e]) && MarkerAt(s, e)
    ensures forall e :: p < e <= |s| && IsDigits(s[p..e]) && MarkerAt(s, e) ==> e == RunEnd(s, p)
  {
    forall e | p < e <= |s| && IsDigits(s[p..e]) && MarkerAt(s, e) ensures e == RunEnd(s, p) {
      DigitPrefixEndsAtRunEnd(s, p, e);
    }
    if MatchesAt(s, p) {
      assert p < RunEnd(s, p);
    } else {
      forall e | p < e <= |s| && IsDigits(s[p..e]) ensures !MarkerAt(s, e) {
        DigitPrefixEndsAtRunEnd(s, p, e);
        assert s[p] == s[p..e][0];
      }
    }
  }

  /** A digit prefix of the run at `p` can be followed by the marker only where the run ends. */
  lemma DigitPrefixEndsAtRunEnd(s: string, p: nat, e: nat)
    requires p < e <= |s| && IsDigits(s[p..e])
    ensures e <= RunEnd(s, p)
    ensures MarkerAt(s, e) ==> e == RunEnd(s, p)
  {
    forall k | p <= k < e ensures IsDigit(s[k]) {
      assert s[k] == s[p..e][k - p];
    }
    if MarkerAt(s, e) {
      assert s[e] == s[e..e + |Marker|][0] == '/';
    }
  }

  /** Every item is a non-empty run of decimal digits. */
  predicate DigitRuns(r: seq<string>) {
    forall k :: 0 <= k < |r| ==> r[k] != "" && IsDigits(r[k])
  }

  /**
   * The matches of the pattern in `s[p..]`, scanning left to right and resuming
   * after each match. Every match is a non-empty digit run and uses up at least
   * its own digit and the five characters of the marker.
   */
  function FindAllFrom(s: string, p: nat): (r: seq<string>)
    requires p <= |s|
    ensures DigitRuns(r)
    decreases |s| - p
  {
    if p == |s| then []
    else if MatchesAt(s, p) then [s[p..RunEnd(s, p)]] + FindAllFrom(s, RunEnd(s, p) + |Marker|)
    else FindAllFrom(s, p + 1)
  }

  // ---------------------------------------------------------------------------
  // ",".join and str.split(",")
  // ---------------------------------------------------------------------------

  /** `",".join(parts)`. */
  function Join(parts: seq<string>): string {
    if |parts| == 0 then ""
    else if |parts| == 1 then parts[0]
    else parts[0] + "," + Join(parts[1..])
  }

  /** Python's `t.split(",")`: the comma-free pieces between commas; "" gives [""]. */
  function Split(t: string): (r: seq<string>)
    ensures |r| >= 1
    ensures forall k :: 0 <= k < |r| ==> ',' !in r[k]
  {
    if t == [] then [""]
    else
      var rest := Split(t[1..]);
      if t[0] == ',' then [""] + rest
      else [[t[0]] + rest[0]] + rest[1..]
  }

  /** A port list as the second scan takes it: empty, or digits and commas with no empty item. */
  predicate WellFormedPortList(r: string) {
    r == [] ||
    ((forall k :: 0 <= k < |r| ==> IsDigit(r[k]) || r[k] == ',') &&
     r[0] != ',' && r[|r| - 1] != ',' &&
     (forall k :: 0 <= k < |r| - 1 ==> !(r[k] == ',' && r[k + 1] == ',')))
  }

  /** `extract_open_ports` applied to the text of the first scan's output. */
  function ExtractOpenPorts(content: string): (r: string)
    ensures r == Join(Ports(content))
    ensures r == "" <==> !HasOpenPort(content)
    ensures WellFormedPortList(r)
  {
    FindAllMatchesSpec(content, 0);
    PortsAreDigitRuns(content);
    JoinWellFormed(Ports(content));
    PortsEmptyIff(content);
    Join(FindAllFrom(content, 0))
  }

  // ---------------------------------------------------------------------------
  // The scanner meets the specification
  // ---------------------------------------------------------------------------

  /**
   * The scanner may resume at `p`: either `p` is not inside a digit run, or the
   * run it is inside is not followed by the marker.
   */
  predicate ResumeOk(s: string, p: nat)
    requires p <= |s|
  {
    0 < p < |s| && IsDigit(s[p - 1]) ==> !MarkerAt(s, RunEnd(s, p))
  }

  /** Positions with no match start between them have the same remaining match starts. */
  lemma {:induction false} SkipNoStarts(s: string, a: nat, b: nat)
    requires a <= b <= |s|
    requires forall j: nat :: a <= j < b ==> !IsPortAt(s, j)
    ensures PortStarts(s, a) == PortStarts(s, b)
    decreases b - a
  {
    if a < b {
      SkipNoStarts(s, a + 1, b);
    }
  }

  /** After a match ending at `e`, no match starts before the scan resumes, and it may resume there. */
  lemma SkipMatch(s: string, p: nat, e: nat)
    requires p < |s| && MarkerAt(s, e) && e == RunEnd(s, p) && p < e
    ensures PortStarts(s, p + 1) == PortStarts(s, e + |Marker|)
    ensures ResumeOk(s, e + |Marker|)
  {
    MarkerHasNoDigit();
    forall j: nat | p + 1 <= j < e ensures !IsPortAt(s, j) {
      assert s[j - 1] == s[p..e][j - 1 - p];
    }
    forall j: nat | e <= j < e + |Marker| ensures !IsDigit(s[j]) {
      assert s[j] == s[e..e + |Marker|][j - e] == Marker[j - e];
    }
    SkipNoStarts(s, p + 1, e + |Marker|);
  }

  /** A successful attempt at a position the scanner may resume from is a specified match start. */
  lemma StepMatch(s: string, p: nat)
    requires p < |s| && ResumeOk(s, p) && MatchesAt(s, p)
    ensures RunEnd(s, p) + |Marker| <= |s|
    ensures FindAllFrom(s, p) == [s[p..RunEnd(s, p)]] + FindAllFrom(s, RunEnd(s, p) + |Marker|)
    ensures PortStarts(s, p) == [p] + PortStarts(s, RunEnd(s, p) + |Marker|)
    ensures ResumeOk(s, RunEnd(s, p) + |Marker|)
  {
    assert IsPortAt(s, p);
    SkipMatch(s, p, RunEnd(s, p));
  }

  /** A failed attempt is not a specified match start, and the scanner may resume at the next position. */
  lemma StepNoMatch(s: string, p: nat)
    requires p < |s| && !MatchesAt(s, p)
    ensures FindAllFrom(s, p) == FindAllFrom(s, p + 1)
    ensures PortStarts(s, p) == PortStarts(s, p + 1)
    ensures ResumeOk(s, p + 1)
  {
    if p + 1 < |s| && IsDigit(s[p]) {
      assert RunEnd(s, p) == RunEnd(s, p + 1);
    }
  }

  lemma RunsAtCons(s: string, p: nat, starts: seq<nat>)
    requires p < |s| && forall k :: 0 <= k < |starts| ==> starts[k] < |s|
    ensures RunsAt(s, [p] + starts) == [s[p..RunEnd(s, p)]] + RunsAt(s, starts)
  {
    assert ([p] + starts)[1..] == starts;
  }

  /** The scanner returns the runs at exactly the specified match starts. */
  lemma {:induction false} FindAllMatchesSpec(s: string, p: nat)
    requires p <= |s| && ResumeOk(s, p)
    ensures FindAllFrom(s, p) == RunsAt(s, PortStarts(s, p))
    decreases |s| - p
  {
    if p < |s| {
      if MatchesAt(s, p) {
        var next := RunEnd(s, p) + |Marker|;
        var rest := PortStarts(s, next);
        StepMatch(s, p);
        FindAllMatchesSpec(s, next);
        RunsAtCons(s, p, rest);
        assert PortStarts(s, p) == [p] + rest;
        assert FindAllFrom(s, p) == RunsAt(s, [p] + rest);
      } else {
        StepNoMatch(s, p);
        FindAllMatchesSpec(s, p + 1);
      }
    }
  }

  /** Every extracted item is a non-empty run of decimal digits. */
  lemma PortsAreDigitRuns(s: string)
    ensures forall k :: 0 <= k < |Ports(s)| ==> Ports(s)[k] != "" && IsDigits(Ports(s)[k])
  {
    var st := PortStarts(s, 0);
    PortStartsSpec(s, 0);
    forall k | 0 <= k < |st| ensures st[k] < |s| && IsDigit(s[st[k]]) {
      assert st[k] in st;
    }
    RunsAreDigits(s, st);
  }

  lemma {:induction false} RunsAreDigits(s: string, starts: seq<nat>)
    requires forall k :: 0 <= k < |starts| ==> starts[k] < |s| && IsDigit(s[starts[k]])
    ensures |RunsAt(s, starts)| == |starts|
    ensures forall k :: 0 <= k < |starts| ==>
      RunsAt(s, starts)[k] != "" && IsDigits(RunsAt(s, starts)[k])
  {
    if starts != [] {
      RunsAreDigits(s, starts[1..]);
      var head := s[starts[0]..RunEnd(s, starts[0])];
      assert RunsAt(s, starts) == [head] + RunsAt(s, starts[1..]);
      assert head != "" && IsDigits(head);
    }
  }

  /**
   * The `k`-th extracted item is the digit run at the `k`-th match start: with
   * `PortStartsSpec`, this locates every reported port in the scanned text.
   */
  lemma {:induction false} PortsAt(s: string, k: nat)
    requires k < |Ports(s)|
    ensures k < |PortStarts(s, 0)|
    ensures Ports(s)[k] == s[PortStarts(s, 0)[k]..RunEnd(s, PortStarts(s, 0)[k])]
  {
    RunsAtIndex(s, PortStarts(s, 0), k);
  }

  lemma {:induction false} RunsAtIndex(s: string, starts: seq<nat>, k: nat)
    requires forall j :: 0 <= j < |starts| ==> starts[j] < |s|
    requires k < |RunsAt(s, starts)|
    ensures k < |starts|
    ensures RunsAt(s, starts)[k] == s[starts[k]..RunEnd(s, starts[k])]
  {
    if k > 0 {
      RunsAtIndex(s, starts[1..], k - 1);
    }
  }

  lemma PortsEmptyIff(s: string)
    ensures Ports(s) == [] <==> !HasOpenPort(s)
  {
    var st := PortStarts(s, 0);
    PortStartsSpec(s, 0);
    PortsAreDigitRuns(s);
    if st == [] {
      forall i: nat | i < |s| ensures !IsPortAt(s, i) {
        assert i !in st;
      }
    } else {
      assert st[0] in st;
      assert Ports(s) == [s[st[0]..RunEnd(s, st[0])]] + RunsAt(s, st[1..]);
    }
  }

  // ---------------------------------------------------------------------------
  // Join and split
  // ---------------------------------------------------------------------------

  /** Joining non-empty digit strings gives a well-formed, non-empty-iff-non-empty port list. */
  lemma {:induction false} JoinWellFormed(xs: seq<string>)
    requires forall k :: 0 <= k < |xs| ==> xs[k] != "" && IsDigits(xs[k])
    ensures WellFormedPortList(Join(xs))
    ensures Join(xs) == "" <==> xs == []
  {
    if |xs| > 1 {
      var x, j := xs[0], Join(xs[1..]);
      JoinWellFormed(xs[1..]);
      var r := x + "," + j;
      assert r == Join(xs);
      forall k | 0 <= k < |r| ensures IsDigit(r[k]) || r[k] == ',' {
        if k < |x| {
          assert r[k] == x[k];
        } else if k > |x| {
          assert r[k] == j[k - |x| - 1];
        }
      }
      forall k | 0 <= k < |r| - 1 ensures !(r[k] == ',' && r[k + 1] == ',') {
        if k < |x| {
          assert r[k] == x[k];
        } else {
          assert r[k + 1] == j[k - |x|];
        }
      }
      assert r[|r| - 1] == j[|j| - 1];
    }
  }

  /** A piece without commas splits to itself. */
  lemma {:induction false} SplitCommaFree(x: string)
    requires ',' !in x
    ensures Split(x) == [x]
  {
    if x != [] {
      SplitCommaFree(x[1..]);
      assert [x[0]] + x[1..] == x;
    }
  }

  /** Splitting at the first comma separates the comma-free head from the rest. */
  lemma {:induction false} SplitAtFirstComma(x: string, rest: string)
    requires ',' !in x
    ensures Split(x + "," + rest) == [x] + Split(rest)
  {
    if x == [] {
      assert ("" + "," + rest)[1..] == rest;
    } else {
      SplitAtFirstComma(x[1..], rest);
      var t := x + "," + rest;
      assert t[1..] == x[1..] + "," + rest;
      assert [x[0]] + x[1..] == x;
    }
  }

  /** Splitting a join of comma-free items gives the items back; an empty list joins to "", which splits to [""]. */
  lemma {:induction false} SplitJoin(xs: seq<string>)
    requires xs != []
    requires forall k :: 0 <= k < |xs| ==> ',' !in xs[k]
    ensures Split(Join(xs)) == xs
  {
    if |xs| == 1 {
      SplitCommaFree(xs[0]);
    } else {
      SplitJoin(xs[1..]);
      SplitAtFirstComma(xs[0], Join(xs[1..]));
      assert [xs[0]] + xs[1..] == xs;
    }
  }

  /** Joining the pieces of any split gives back the original text. */
  lemma {:induction false} JoinSplit(t: string)
    ensures Join(Split(t)) == t
  {
    if t != [] {
      JoinSplit(t[1..]);
      var rest := Split(t[1..]);
      if t[0] == ',' {
        assert ([""] + rest)[1..] == rest;
        assert [t[0]] + t[1..] == t;
      } else if |rest| == 1 {
        assert [t[0]] + t[1..] == t;
      } else {
        var r := [[t[0]] + rest[0]] + rest[1..];
        assert r[1..] == rest[1..];
        assert Join(rest) == rest[0] + "," + Join(rest[1..]);
        assert [t[0]] + t[1..] == t;
      }
    }
  }

  /** The extracted string splits back into exactly the matched port numbers. */
  lemma ExtractRoundTrip(content: string)
    requires HasOpenPort(content)
    ensures Split(ExtractOpenPorts(content)) == Ports(content)
  {
    PortsAreDigitRuns(content);
    PortsEmptyIff(content);
    var ps := Ports(content);
    forall k | 0 <= k < |ps| ensures ',' !in ps[k] {
      assert forall i :: 0 <= i < |ps[k]| ==> IsDigit(ps[k][i]);
    }
    SplitJoin(ps);
  }

  // ---------------------------------------------------------------------------
  // The scanner only looks ahead: what it finds decomposes along the text
  // ---------------------------------------------------------------------------

  /** The matches of the pattern in the whole of `s`. */
  function FindAll(s: string): seq<string> {
    FindAllFrom(s, 0)
  }

  lemma {:induction false} RunEndShift(pre: string, u: string, j: nat)
    requires j <= |u|
    ensures RunEnd(pre + u, |pre| + j) == |pre| + RunEnd(u, j)
    decreases |u| - j
  {
    if j < |u| {
      assert (pre + u)[|pre| + j] == u[j];
      RunEndShift(pre, u, j + 1);
    }
  }

  lemma MarkerAtShift(pre: string, u: string, e: nat)
    ensures MarkerAt(pre + u, |pre| + e) <==> MarkerAt(u, e)
  {
    if e + |Marker| <= |u| {
      assert (pre + u)[|pre| + e..|pre| + e + |Marker|] == u[e..e + |Marker|];
    }
  }

  /** An attempt inside `u` behaves the same whatever text precedes `u`. */
  lemma MatchesAtShift(pre: string, u: string, j: nat)
    requires j < |u|
    ensures RunEnd(pre + u, |pre| + j) == |pre| + RunEnd(u, j)
    ensures MatchesAt(pre + u, |pre| + j) == MatchesAt(u, j)
    ensures (pre + u)[|pre| + j..RunEnd(pre + u, |pre| + j)] == u[j..RunEnd(u, j)]
  {
    RunEndShift(pre, u, j);
    MarkerAtShift(pre, u, RunEnd(u, j));
    assert (pre + u)[|pre| + j] == u[j];
  }

  /** Once the scanner is past `pre`, it finds in `pre + u` what it finds in `u`. */
  lemma {:induction false} FindAllShift(pre: string, u: string, j: nat)
    requires j <= |u|
    ensures FindAllFrom(pre + u, |pre| + j) == FindAllFrom(u, j)
    decreases |u| - j
  {
    if j < |u| {
      MatchesAtShift(pre, u, j);
      if MatchesAt(u, j) {
        FindAllShift(pre, u, RunEnd(u, j) + |Marker|);
      } else {
        FindAllShift(pre, u, j + 1);
      }
    }
  }

  /** A digit run followed by the marker is found, and scanning resumes right after the marker. */
  lemma PortThenRest(d: string, rest: string)
    requires d != "" && IsDigits(d)
    ensures FindAll(d + Marker + rest) == [d] + FindAll(rest)
  {
    var s := d + Marker + rest;
    assert s[..|d|] == d;
    assert s[|d|..|d| + |Marker|] == Marker;
    assert s[|d|] == '/';
    DigitPrefixEndsAtRunEnd(s, 0, |d|);
    assert MatchesAt(s, 0) && RunEnd(s, 0) == |d|;
    FindAllShift(d + Marker, rest, 0);
  }

  /** A character that is not a digit contributes nothing. */
  lemma SkipNonDigit(c: char, rest: string)
    requires !IsDigit(c)
    ensures FindAll([c] + rest) == FindAll(rest)
  {
    FindAllShift([c], rest, 0);
  }

  /** A maximal digit run that the marker does not follow contributes nothing. */
  lemma UnmarkedRun(d: string, rest: string)
    requires d != "" && IsDigits(d)
    requires rest == "" || !IsDigit(rest[0])
    requires !MarkerAt(rest, 0)
    ensures FindAll(d + rest) == FindAll(rest)
  {
    var s := d + rest;
    RunEndShift(d, rest, 0);
    forall p | 0 <= p <= |d| ensures RunEnd(s, p) == |d| {
      forall k | p <= k < |d| ensures IsDigit(s[k]) {
        assert s[k] == d[k];
      }
      UnmarkedRunEnd(s, |d|, p);
    }
    MarkerAtShift(d, rest, 0);
    UnmarkedRunScan(s, |d|, 0);
    FindAllShift(d, rest, 0);
  }

  lemma {:induction false} UnmarkedRunEnd(s: string, n: nat, p: nat)
    requires p <= n <= |s|
    requires forall k :: p <= k < n ==> IsDigit(s[k])
    requires RunEnd(s, n) == n
    ensures RunEnd(s, p) == n
    decreases n - p
  {
    if p < n {
      UnmarkedRunEnd(s, n, p + 1);
    }
  }

  lemma {:induction false} UnmarkedRunScan(s: string, n: nat, p: nat)
    requires p <= n <= |s|
    requires forall q :: p <= q <= n ==> RunEnd(s, q) == n
    requires !MarkerAt(s, n)
    ensures FindAllFrom(s, p) == FindAllFrom(s, n)
    decreases n - p
  {
    if p < n {
      UnmarkedRunScan(s, n, p + 1);
    }
  }

  /** Text without digits has no matches. */
  lemma {:induction false} NoDigitNoPort(s: string)
    requires DigitFree(s)
    ensures FindAll(s) == []
    decreases |s|
  {
    if s != [] {
      assert [s[0]] + s[1..] == s;
      SkipNonDigit(s[0], s[1..]);
      NoDigitNoPort(s[1..]);
    }
  }

  /** A stretch of text without digits in front of the rest contributes nothing. */
  lemma {:induction false} DigitFreePrefix(pre: string, rest: string)
    requires DigitFree(pre)
    ensures FindAll(pre + rest) == FindAll(rest)
    decreases |pre|
  {
    if pre != [] {
      var tail := pre[1..] + rest;
      assert pre + rest == [pre[0]] + tail;
      SkipNonDigit(pre[0], tail);
      DigitFreePrefix(pre[1..], rest);
      assert FindAll(pre + rest) == FindAll(tail);
    } else {
      assert pre + rest == rest;
    }
  }

  // ---------------------------------------------------------------------------
  // Reading the first scan's file in text mode
  // ---------------------------------------------------------------------------

  /**
   * The newline translation of a text-mode read finds the same matches as the
   * file's raw characters: neither digits nor the marker hold a line break.
   */
  lemma {:induction false} FindAllReadText(s: string)
    ensures FindAll(ReadText(s)) == FindAll(s)
    decreases |s|
  {
    if s == [] {
    } else if !IsDigit(s[0]) {
      assert s == [s[0]] + s[1..];
      SkipNonDigit(s[0], s[1..]);
      ReadTextNonDigit(s[0], s[1..]);
      FindAllReadText(s[1..]);
    } else {
      var e := RunEnd(s, 0);
      var d, rest := s[..e], s[e..];
      assert s == d + rest;
      if MarkerAt(rest, 0) {
        var after := rest[|Marker|..];
        assert rest == Marker + after;
        assert s == d + Marker + after;
        PortThenRest(d, after);
        ReadTextMarkedRun(d, after);
        FindAllReadText(after);
      } else {
        UnmarkedRun(d, rest);
        ReadTextUnmarkedRun(d, rest);
        FindAllReadText(rest);
      }
    }
  }

  /**
   * A non-digit contributes nothing after the translation either; a "\r" that
   * swallows the "\n" after it leaves a "\n", which contributes nothing too.
   */
  lemma ReadTextNonDigit(c: char, rest: string)
    requires !IsDigit(c)
    ensures FindAll(ReadText([c] + rest)) == FindAll(ReadText(rest))
  {
    var s := [c] + rest;
    assert s[0] == c && s[1..] == rest;
    if c == '\r' && rest != [] && rest[0] == '\n' {
      assert s[2..] == rest[1..];
      assert ReadText(s) == "\n" + ReadText(rest[1..]);
      assert ReadText(rest) == "\n" + ReadText(rest[1..]);
    } else if c == '\r' {
      assert ReadText(s) == "\n" + ReadText(rest);
      SkipNonDigit('\n', ReadText(rest));
    } else {
      assert ReadText(s) == [c] + ReadText(rest);
      SkipNonDigit(c, ReadText(rest));
    }
  }

  /** Digits pass through the translation unchanged. */
  lemma ReadTextDigits(d: string, rest: string)
    requires IsDigits(d)
    ensures ReadText(d + rest) == d + ReadText(rest)
  {
    assert '\r' !in d by {
      forall k | 0 <= k < |d| ensures d[k] != '\r' {
        assert IsDigit(d[k]);
      }
    }
    ReadTextPrefix(d, rest);
  }

  /** A digit run followed by the marker is found after the translation too. */
  lemma ReadTextMarkedRun(d: string, after: string)
    requires d != "" && IsDigits(d)
    ensures FindAll(ReadText(d + Marker + after)) == [d] + FindAll(ReadText(after))
  {
    assert '\r' !in Marker;
    ReadTextPrefix(Marker, after);
    ReadTextDigits(d, Marker + after);
    assert d + Marker + after == d + (Marker + after);
    assert d + (Marker + ReadText(after)) == d + Marker + ReadText(after);
    PortThenRest(d, ReadText(after));
  }

  /** A digit run the marker does not follow contributes nothing after the translation either. */
  lemma ReadTextUnmarkedRun(d: string, rest: string)
    requires d != "" && IsDigits(d)
    requires rest == "" || !IsDigit(rest[0])
    requires !MarkerAt(rest, 0)
    ensures FindAll(ReadText(d + rest)) == FindAll(ReadText(rest))
  {
    ReadTextDigits(d, rest);
    ReadTextBoundary(rest);
    UnmarkedRun(d, ReadText(rest));
  }

  /** The translation neither starts a digit run nor a marker where the raw text did not. */
  lemma ReadTextBoundary(rest: string)
    requires rest == "" || !IsDigit(rest[0])
    requires !MarkerAt(rest, 0)
    ensures ReadText(rest) == "" || !IsDigit(ReadText(rest)[0])
    ensures !MarkerAt(ReadText(rest), 0)
  {
    if rest != [] {
      ReadTextHead(rest);
    }
    assert '\r' !in Marker && '\n' !in Marker;
    ReadTextStartsWith(Marker, rest);
    var read := ReadText(rest);
    if |Marker| <= |read| {
      assert read[0..|Marker|] == read[..|Marker|];
    }
    if |Marker| <= |rest| {
      assert rest[0..|Marker|] == rest[..|Marker|];
    }
  }

  /** `extract_open_ports` reads `initial_scan` in text mode; the result is the one the raw file gives. */
  lemma ExtractFromFile(raw: string)
    ensures ExtractOpenPorts(ReadText(raw)) == ExtractOpenPorts(raw)
    ensures HasOpenPort(ReadText(raw)) <==> HasOpenPort(raw)
  {
    FindAllReadText(raw);
  }

  // ---------------------------------------------------------------------------
  // Worked inputs
  // ---------------------------------------------------------------------------

  /** Scanner output listing the given ports, each followed by the marker, separated by spaces. */
  function Listing(ps: seq<string>): string {
    if ps == [] then ""
    else if |ps| == 1 then ps[0] + Marker
    else ps[0] + Marker + " " + Listing(ps[1..])
  }

  /** Every listed port is found, in order, duplicates included, whatever its value. */
  lemma {:induction false} ListingScan(ps: seq<string>)
    requires forall k :: 0 <= k < |ps| ==> ps[k] != "" && IsDigits(ps[k])
    ensures FindAll(Listing(ps)) == ps
  {
    if |ps| == 1 {
      PortThenRest(ps[0], "");
      assert ps[0] + Marker + "" == ps[0] + Marker;
    } else if |ps| > 1 {
      var rest := Listing(ps[1..]);
      ListingScan(ps[1..]);
      SkipNonDigit(' ', rest);
      PortThenRest(ps[0], [' '] + rest);
      assert ps[0] + Marker + " " + rest == ps[0] + Marker + ([' '] + rest);
      assert ps == [ps[0]] + ps[1..];
    }
  }

  /** Matches are kept in order of appearance and duplicates are kept. */
  lemma ExampleOrderAndDuplicates()
    ensures ExtractOpenPorts("22/open 80/open 22/open") == "22,80,22"
  {
    var xs := ["22", "80", "22"];
    assert Listing(xs) == "22/open 80/open 22/open" by {
      assert xs[1..] == ["80", "22"] && xs[1..][1..] == ["22"];
    }
    assert Join(xs) == "22,80,22" by {
      assert xs[1..] == ["80", "22"] && xs[1..][1..] == ["22"];
    }
    ListingScan(xs);
  }

  /** A run followed by another state contributes nothing. */
  lemma ExampleClosed()
    ensures ExtractOpenPorts("22/closed") == ""
  {
    assert "22/closed" == "22" + "/closed";
    assert "/closed"[1] != Marker[1];
    UnmarkedRun("22", "/closed");
    NoDigitNoPort("/closed");
  }

  /** The marker is only a prefix: "/opened" matches too. */
  lemma ExampleOpened()
    ensures ExtractOpenPorts("22/opened") == "22"
  {
    assert "22/opened" == "22" + Marker + "ed";
    PortThenRest("22", "ed");
    NoDigitNoPort("ed");
  }

  /** Scanning resumes right after the marker, so adjacent matches are both found. */
  lemma ExampleAdjacent()
    ensures ExtractOpenPorts("22/open80/open") == "22,80"
  {
    var xs := ["22", "80"];
    assert xs[1..] == ["80"];
    assert Adjacent(xs) == "22/open80/open";
    AdjacentScan(xs);
  }

  /** The given ports, each followed by the marker, with nothing between them. */
  function Adjacent(ps: seq<string>): string {
    if ps == [] then "" else ps[0] + Marker + Adjacent(ps[1..])
  }

  lemma {:induction false} AdjacentScan(ps: seq<string>)
    requires forall k :: 0 <= k < |ps| ==> ps[k] != "" && IsDigits(ps[k])
    ensures FindAll(Adjacent(ps)) == ps
  {
    if ps != [] {
      AdjacentScan(ps[1..]);
      PortThenRest(ps[0], Adjacent(ps[1..]));
      assert ps == [ps[0]] + ps[1..];
    }
  }

  /** Numbers are not range-checked: 99999 is not a valid port, and it is extracted. */
  lemma ExampleNoRangeCheck()
    ensures ExtractOpenPorts("99999/open") == "99999"
  {
    assert "99999/open" == "99999" + Marker + "";
    PortThenRest("99999", "");
  }

  /** One entry of the "Ports:" field of nmap's greppable output (`-oG`), for an open TCP port: `22/open/tcp//ssh///`. */
  function Entry(port: string, service: string): string {
    port + Marker + "/tcp//" + service + "///"
  }

  /** The "Ports:" field as the first scan writes it: `Ports: 22/open/tcp//ssh///, 80/open/tcp//http///`. */
  function PortsField(entries: seq<(string, string)>): string {
    "Ports: " + Entries(entries)
  }

  function Entries(entries: seq<(string, string)>): string {
    if entries == [] then ""
    else if |entries| == 1 then Entry(entries[0].0, entries[0].1)
    else Entry(entries[0].0, entries[0].1) + ", " + Entries(entries[1..])
  }

  /** The port column of the entries. */
  function PortColumn(entries: seq<(string, string)>): (r: seq<string>)
    ensures |r| == |entries|
    ensures forall k :: 0 <= k < |r| ==> r[k] == entries[k].0
  {
    if entries == [] then [] else [entries[0].0] + PortColumn(entries[1..])
  }

  /**
   * On nmap's greppable output the extractor finds exactly the port column, in
   * order. Service names may hold digits (`pop3`, `x11`); they never hold '/',
   * the field separator of the format.
   */
  lemma {:induction false} PortsFieldScan(entries: seq<(string, string)>)
    requires forall k :: 0 <= k < |entries| ==> entries[k].0 != "" && IsDigits(entries[k].0)
    requires forall k :: 0 <= k < |entries| ==> '/' !in entries[k].1
    ensures FindAll(PortsField(entries)) == PortColumn(entries)
  {
    EntriesScan(entries);
    DigitFreePrefix("Ports: ", Entries(entries));
  }

  lemma {:induction false} EntriesScan(entries: seq<(string, string)>)
    requires forall k :: 0 <= k < |entries| ==> entries[k].0 != "" && IsDigits(entries[k].0)
    requires forall k :: 0 <= k < |entries| ==> '/' !in entries[k].1
    ensures FindAll(Entries(entries)) == PortColumn(entries)
  {
    if |entries| == 1 {
      EntryThenRest(entries[0].0, entries[0].1, "");
      assert Entries(entries) == Entry(entries[0].0, entries[0].1) + "";
    } else if |entries| > 1 {
      var (port, service) := entries[0];
      var tail := entries[1..];
      var more := Entries(tail);
      assert Entries(entries) == Entry(port, service) + (", " + more);
      assert PortColumn(entries) == [port] + PortColumn(tail);
      assert forall k :: 0 <= k < |tail| ==> tail[k] == entries[k + 1];
      EntriesScan(tail);
      DigitFreePrefix(", ", more);
      EntryThenRest(port, service, ", " + more);
    }
  }

  /** An entry contributes its port, and the scan goes on after it. */
  lemma EntryThenRest(port: string, service: string, rest: string)
    requires port != "" && IsDigits(port) && '/' !in service
    ensures FindAll(Entry(port, service) + rest) == [port] + FindAll(rest)
  {
    var tail := "///" + rest;
    if |tail| >= 5 {
      assert tail[0..5][1] == '/' != Marker[1];
    }
    DigitFreePrefix("///", rest);
    NoSlashNoPort(service, tail);
    DigitFreePrefix("/tcp//", service + tail);
    PortThenRest(port, "/tcp//" + (service + tail));
    assert Entry(port, service) + rest == port + Marker + ("/tcp//" + (service + tail));
  }

  /**
   * Text without '/' contributes nothing when what follows it neither continues
   * a digit run nor starts with the marker: no digit run inside it can be
   * followed by "/open".
   */
  lemma {:induction false} NoSlashNoPort(t: string, rest: string)
    requires '/' !in t
    requires rest == "" || !IsDigit(rest[0])
    requires !MarkerAt(rest, 0)
    ensures FindAll(t + rest) == FindAll(rest)
    decreases |t|
  {
    if t == "" {
      assert t + rest == rest;
    } else if !IsDigit(t[0]) {
      assert t + rest == [t[0]] + (t[1..] + rest);
      SkipNonDigit(t[0], t[1..] + rest);
      NoSlashNoPort(t[1..], rest);
    } else {
      var e := RunEnd(t, 0);
      var d, u := t[..e], t[e..];
      assert t + rest == d + (u + rest);
      if u != "" {
        assert (u + rest)[0] == t[e] != Marker[0];
        if |u + rest| >= 5 {
          assert (u + rest)[0..5][0] == (u + rest)[0];
        }
      } else {
        assert u + rest == rest;
      }
      UnmarkedRun(d, u + rest);
      NoSlashNoPort(u, rest);
    }
  }

  /** A realistic first-scan line: the ports of a mail and a web server. */
  lemma ExampleGreppable()
    ensures ExtractOpenPorts(PortsField([("25", "smtp"), ("80", "http")])) == "25,80"
  {
    var entries := [("25", "smtp"), ("80", "http")];
    PortsFieldScan(entries);
    assert PortColumn(entries) == ["25", "80"];
    assert Join(["25", "80"]) == "25,80" by {
      assert ["25", "80"][1..] == ["80"];
    }
  }

  /** A service name holding digits does not add a port: `110/open/tcp//pop3///` gives `110`. */
  lemma ExampleDigitInService()
    ensures ExtractOpenPorts(PortsField([("110", "pop3")])) == "110"
  {
    var entries := [("110", "pop3")];
    PortsFieldScan(entries);
    assert PortColumn(entries) == ["110"];
  }
}
