/**
 * Reading a file in text mode (`open(path, 'r')` then `read()`): Python's
 * universal newlines turn every "\r\n" and every lone "\r" into "\n". Both
 * files the program reads back go through this translation.
 */
module TextMode {

  /** The text `read()` returns for a file whose characters are `raw`. */
  function ReadText(raw: string): (r: string)
    ensures '\r' !in r
    ensures |r| <= |raw|
    decreases |raw|
  {
    if raw == [] then []
    else if raw[0] == '\r' then
      if |raw| >= 2 && raw[1] == '\n' then "\n" + ReadText(raw[2..])
      else "\n" + ReadText(raw[1..])
    else [raw[0]] + ReadText(raw[1..])
  }

  /** The first character read: a line break for "\r", the character itself otherwise. */
  lemma ReadTextHead(raw: string)
    requires raw != []
    ensures ReadText(raw) != [] && ReadText(raw)[0] == (if raw[0] == '\r' then '\n' else raw[0])
  {
  }

  /** Text without a carriage return is read back unchanged. */
  lemma {:induction false} ReadTextIdentity(raw: string)
    requires '\r' !in raw
    ensures ReadText(raw) == raw
    decreases |raw|
  {
    if raw != [] {
      assert raw[0] in raw;
      ReadTextIdentity(raw[1..]);
    }
  }

  /** Reading what was read changes nothing more. */
  lemma ReadTextIdempotent(raw: string)
    ensures ReadText(ReadText(raw)) == ReadText(raw)
  {
    ReadTextIdentity(ReadText(raw));
  }

  /** A stretch without carriage returns passes through unchanged, whatever follows it. */
  lemma {:induction false} ReadTextPrefix(p: string, rest: string)
    requires '\r' !in p
    ensures ReadText(p + rest) == p + ReadText(rest)
    decreases |p|
  {
    if p == [] {
      assert p + rest == rest;
    } else {
      assert p[0] in p;
      assert (p + rest)[0] == p[0];
      assert (p + rest)[1..] == p[1..] + rest;
      ReadTextPrefix(p[1..], rest);
      assert p == [p[0]] + p[1..];
    }
  }

  /** The text read starts with a line-break-free `p` only if the file does. */
  lemma {:induction false} ReadTextStartsWith(p: string, raw: string)
    requires '\r' !in p && '\n' !in p
    ensures |p| <= |ReadText(raw)| && ReadText(raw)[..|p|] == p ==> |p| <= |raw| && raw[..|p|] == p
    decreases |p|
  {
    var r := ReadText(raw);
    if p != [] && |p| <= |r| && r[..|p|] == p {
      assert r[0] == p[0] && p[0] in p;
      assert raw != [] && raw[0] != '\r';
      assert r == [raw[0]] + ReadText(raw[1..]);
      assert ReadText(raw[1..])[..|p| - 1] == p[1..];
      ReadTextStartsWith(p[1..], raw[1..]);
      assert raw[..|p|] == [raw[0]] + raw[1..][..|p| - 1];
      assert p == [p[0]] + p[1..];
    }
  }
}
