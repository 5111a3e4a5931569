/**
 * The decisions `main` takes and the strings it builds, once the outside world is
 * reduced to parameters: the argument vector, the characters the first nmap scan
 * left in `initial_scan`, and the characters the second scan printed. Both files
 * are read back in text mode (`ReadText`).
 *
 * `os.chdir` into the scan folder is replaced by explicit paths: every command
 * listed in an outcome runs in the scan folder, and every file is named by its
 * full path.
 */
module Esdras {
  import opened Wrappers
  import opened PortExtractor
  import opened DirectoryTree
  import opened TextMode

  /** The file the first scan writes its greppable output to (`-oG`). */
  const InitialScanFile: string := "initial_scan"
  /** The file that receives the second scan's output, standard error included. */
  const SecondResultFile: string := "nmap_second_result.txt"
  const HtmlFile: string := "scan_result.html"
  const CssFile: string := "scan_result.css"
  /** The stylesheet written beside the report. */
  const Stylesheet: string := "pre { font-family: monospace; white-space: pre-wrap; }"

  /** The workspace folder of an engagement, relative to the directory the program starts in. */
  function BasePath(name: string): string {
    "Pentest-" + name
  }

  /** `os.path.join(base_path, "Results", "Scan-Folder")`: where both scans run and every file is written. */
  function ScanFolder(name: string): Path {
    [BasePath(name), "Results", "Scan-Folder"]
  }

  /** The first scan: every TCP port, open ones only, at least 1000 packets a second, no ping, no DNS. */
  function InitialScanCommand(ip: string): seq<string> {
    ["nmap", "-p-", "--open", "--min-rate=1000", "-oG", InitialScanFile, ip, "-Pn", "-n"]
  }

  /** The `-p` option of the second scan, built with an f-string from the extracted list. */
  function PortArgument(ports: string): string {
    "-p" + ports
  }

  /** The second scan: default scripts and version detection on the ports found open. */
  function SecondScanCommand(ports: string, ip: string): seq<string> {
    ["nmap", "-sC", "-sV", PortArgument(ports), ip, "-Pn"]
  }

  /** Opens the report in the desktop's browser. */
  const ViewerCommand: seq<string> := ["xdg-open", HtmlFile]

  /** The HTML page before the `<pre>` element that holds the scan text. */
  const PageTop: string :=
    "\n        <html>\n        <head>\n"
    + "            <link rel='stylesheet' type='text/css' href='scan_result.css'>\n"
    + "        </head>\n        <body>\n            <br>\n"
    + "            <h1 style='text-align:center;'>Esdras Report</h1>\n"
    + "            <div style='display: block; margin-left: auto; width: 80%;'>\n"
    + "                "

  /** The HTML page after the `<pre>` element. */
  const PageBottom: string := "\n            </div>\n        </body>\n        </html>\n        "

  const PreOpen: string := "<pre>"
  const PreClose: string := "</pre>"

  /** Everything up to the scan text, and everything after it. */
  const ReportHead: string := PageTop + PreOpen
  const ReportTail: string := PreClose + PageBottom

  /** The report page: the second scan's text dropped into the `<pre>` element, not escaped. */
  function HtmlReport(text: string): string {
    ReportHead + text + ReportTail
  }

  /** Reads the scan text back out of a report page; `None` when the page is not one. */
  function ReportText(page: string): (r: Option<string>)
    ensures r.Some? ==> HtmlReport(r.value) == page
  {
    if |ReportHead| + |ReportTail| <= |page|
       && page[..|ReportHead|] == ReportHead
       && page[|page| - |ReportTail|..] == ReportTail
    then
      SplitInThree(page, |ReportHead|, |ReportTail|);
      Some(page[|ReportHead|..|page| - |ReportTail|])
    else None
  }

  lemma SplitInThree(s: string, h: nat, t: nat)
    requires h + t <= |s|
    ensures s == s[..h] + s[h..|s| - t] + s[|s| - t..]
  {
  }

  /** What the program writes into a file, before it is spelled out as text by `Render`. */
  datatype FileContents =
    | ScanOutput(output: string)   // the second scan's output, as nmap printed it
    | ReportPage(text: string)     // the HTML report around the text read back from the result file
    | ReportStyle                  // the report's stylesheet

  /** The text of a file. */
  function Render(c: FileContents): string {
    match c
    case ScanOutput(output) => output
    case ReportPage(text) => HtmlReport(text)
    case ReportStyle => Stylesheet
  }

  /** What a run of the program amounts to. */
  datatype Outcome =
      /** Wrong number of arguments: usage message, exit status 1, nothing else. */
    | UsageError
      /**
       * A normal end: the commands started, in order, and the files written
       * (full path and contents) besides the first scan's own output file.
       */
    | Finished(commands: seq<seq<string>>, files: map<Path, FileContents>)

  /** The process exit status. */
  function ExitStatus(o: Outcome): int {
    if o.UsageError? then 1 else 0
  }

  /** The commands started once the workspace exists, given the extracted port list. */
  function Commands(ip: string, ports: string): seq<seq<string>> {
    if ports != "" then [InitialScanCommand(ip), SecondScanCommand(ports, ip), ViewerCommand]
    else [InitialScanCommand(ip)]
  }

  /**
   * The files written into `folder`, given the extracted port list and the
   * second scan's output; the page holds that output as read back from the
   * result file.
   */
  function Files(folder: Path, ports: string, secondScan: string): (files: map<Path, FileContents>)
    ensures forall f :: f in files ==> |f| == |folder| + 1 && f[..|folder|] == folder
  {
    if ports != "" then
      var files := map[folder + [SecondResultFile] := ScanOutput(secondScan),
                       folder + [HtmlFile] := ReportPage(ReadText(secondScan)),
                       folder + [CssFile] := ReportStyle];
      assert forall x :: (folder + [x])[..|folder|] == folder;
      files
    else map[]
  }

  /**
   * `main`, given `sys.argv`, the contents of `initial_scan` after the first scan,
   * and the output of the second scan. `extract_open_ports` reads `initial_scan`
   * in text mode, which `ExtractFromFile` shows changes nothing.
   */
  function Run(argv: seq<string>, initialScan: string, secondScan: string): (o: Outcome)
    ensures ExitStatus(o) != 0 <==> |argv| != 3
    ensures o.Finished? ==> |o.commands| >= 1 && o.commands[0] == InitialScanCommand(argv[2])
    ensures o.Finished? ==> (|o.commands| == 3 <==> HasOpenPort(initialScan))
  {
    if |argv| != 3 then UsageError
    else
      ExtractFromFile(initialScan);
      var ports := ExtractOpenPorts(ReadText(initialScan));
      Finished(Commands(argv[2], ports), Files(ScanFolder(argv[1]), ports, secondScan))
  }

  /**
   * `main` against an abstract filesystem: checks the arguments, builds the
   * workspace, then takes the same decisions as `Run`.
   */
  method Execute(fs: FileSystem, argv: seq<string>, initialScan: string, secondScan: string) returns (o: Outcome)
    modifies fs
    ensures o == Run(argv, initialScan, secondScan)
    ensures |argv| != 3 ==> fs.dirs == old(fs.dirs)
    ensures |argv| == 3 ==> fs.dirs == old(fs.dirs) + Created([BasePath(argv[1])], DirectoryStructure)
    ensures o.Finished? ==> ScanFolder(argv[1]) in fs.dirs
    ensures o.Finished? ==> forall f :: f in o.files ==> f[..|f| - 1] in fs.dirs
  {
    if |argv| != 3 {
      return UsageError;
    }
    var name, ip := argv[1], argv[2];
    var base := BasePath(name);
    fs.CreateDirectories([base], DirectoryStructure);
    ScanFolderCreated(name);
    var ports := ExtractOpenPorts(ReadText(initialScan));
    o := Finished(Commands(ip, ports), Files(ScanFolder(name), ports, secondScan));
  }

  // ---------------------------------------------------------------------------
  // Properties
  // ---------------------------------------------------------------------------

  /** The scan folder exists once the workspace is built, so `os.chdir` into it succeeds. */
  lemma ScanFolderCreated(name: string)
    ensures ScanFolder(name) in Created([BasePath(name)], DirectoryStructure)
  {
    ScanFolderInTemplate();
    CreatedCoversTemplate([BasePath(name)], DirectoryStructure);
    assert [BasePath(name)] + ["Results", "Scan-Folder"] == ScanFolder(name);
  }

  /** Building the workspace touches nothing outside the engagement's own folder. */
  lemma WorkspaceContained(name: string)
    ensures forall q :: q in Created([BasePath(name)], DirectoryStructure) ==> q != [] && q[0] == BasePath(name)
  {
    var base := [BasePath(name)];
    CreatedOnlyTemplate(base, DirectoryStructure);
    forall q | q in Created(base, DirectoryStructure) ensures q != [] && q[0] == BasePath(name) {
      var p :| p in NodePaths(DirectoryStructure) && q in Prefixes(base + p);
      var k :| 1 <= k <= |base + p| && q == (base + p)[..k];
      assert q[0] == (base + p)[0];
    }
  }

  /** The `-p` argument names exactly the ports found open in the first scan, in order, duplicates included. */
  lemma PortArgumentRoundTrip(initialScan: string)
    requires HasOpenPort(initialScan)
    ensures var arg := PortArgument(ExtractOpenPorts(initialScan));
      |arg| > 2 && arg[..2] == "-p" && Split(arg[2..]) == Ports(initialScan)
  {
    var ports := ExtractOpenPorts(initialScan);
    ExtractRoundTrip(initialScan);
    assert PortArgument(ports)[2..] == ports;
  }

  /** The second scan probes exactly the ports found open by the first, on the target given on the command line. */
  lemma SecondScanPorts(argv: seq<string>, initialScan: string, secondScan: string)
    requires |argv| == 3 && HasOpenPort(initialScan)
    ensures var o := Run(argv, initialScan, secondScan);
      o.Finished? && |o.commands| == 3 && |o.commands[1]| == 6 && o.commands[1][4] == argv[2] &&
      |o.commands[1][3]| > 2 && o.commands[1][3][..2] == "-p" && Split(o.commands[1][3][2..]) == Ports(initialScan)
  {
    ExtractFromFile(initialScan);
    var ports := ExtractOpenPorts(initialScan);
    var o := Run(argv, initialScan, secondScan);
    var arg := PortArgument(ports);
    assert o.Finished? && |o.commands| == 3 && o.commands[1] == ["nmap", "-sC", "-sV", arg, argv[2], "-Pn"] by {
      assert o.commands == Commands(argv[2], ports) && ports != "";
    }
    assert |arg| > 2 && arg[..2] == "-p" && Split(arg[2..]) == Ports(initialScan) by {
      PortArgumentRoundTrip(initialScan);
    }
  }

  /** Files are written only when the first scan found an open port, and only into the scan folder. */
  lemma FilesOnlyWithOpenPorts(argv: seq<string>, initialScan: string, secondScan: string)
    requires |argv| == 3
    ensures var o := Run(argv, initialScan, secondScan);
      o.Finished? && (o.files != map[] <==> HasOpenPort(initialScan)) &&
      forall f :: f in o.files ==> |f| == 4 && f[..3] == ScanFolder(argv[1])
  {
    ExtractFromFile(initialScan);
    var folder, ports := ScanFolder(argv[1]), ExtractOpenPorts(initialScan);
    assert Run(argv, initialScan, secondScan).files == Files(folder, ports, secondScan);
    if ports != "" {
      assert folder + [SecondResultFile] in Files(folder, ports, secondScan);
    }
  }

  /** When the first scan finds nothing open, only the first scan runs and no file is written. */
  lemma NothingOpenNothingMore(argv: seq<string>, initialScan: string, secondScan: string)
    requires |argv| == 3 && !HasOpenPort(initialScan)
    ensures Run(argv, initialScan, secondScan) == Finished([InitialScanCommand(argv[2])], map[])
  {
    ExtractFromFile(initialScan);
  }

  /** The report shows the second scan's text exactly as nmap printed it, between `<pre>` and `</pre>`. */
  lemma ReportEmbedsVerbatim(text: string)
    ensures var page, i := HtmlReport(text), |ReportHead|;
      |PreOpen| <= i && i + |text| + |PreClose| <= |page| &&
      page[i - |PreOpen|..i] == PreOpen && page[i..i + |text|] == text &&
      page[i + |text|..i + |text| + |PreClose|] == PreClose
  {
    var page, i := HtmlReport(text), |ReportHead|;
    assert page == PageTop + PreOpen + text + PreClose + PageBottom;
    assert page[i - |PreOpen|..i] == PreOpen;
    assert page[i..i + |text|] == text;
    assert page[i + |text|..i + |text| + |PreClose|] == PreClose;
  }

  /** The scan text can be read back out of the report: the page loses nothing and adds nothing to it. */
  lemma ReportRoundTrip(text: string)
    ensures ReportText(HtmlReport(text)) == Some(text)
  {
    var page := HtmlReport(text);
    assert page[..|ReportHead|] == ReportHead;
    assert page[|page| - |ReportTail|..] == ReportTail;
    assert page[|ReportHead|..|page| - |ReportTail|] == text;
  }

  /** The three files of a run with open ports, under their full paths. */
  lemma RunFiles(argv: seq<string>, initialScan: string, secondScan: string)
    requires |argv| == 3 && HasOpenPort(initialScan)
    ensures var o, folder := Run(argv, initialScan, secondScan), ScanFolder(argv[1]);
      o.Finished? &&
      o.files == map[folder + [SecondResultFile] := ScanOutput(secondScan),
                     folder + [HtmlFile] := ReportPage(ReadText(secondScan)),
                     folder + [CssFile] := ReportStyle]
  {
    ExtractFromFile(initialScan);
    var o := Run(argv, initialScan, secondScan);
    assert o.files == Files(ScanFolder(argv[1]), ExtractOpenPorts(initialScan), secondScan);
  }

  /** The paths of the three files differ, so none overwrites another. */
  lemma FilesDistinct(folder: Path)
    ensures folder + [SecondResultFile] != folder + [HtmlFile]
    ensures folder + [SecondResultFile] != folder + [CssFile]
    ensures folder + [HtmlFile] != folder + [CssFile]
  {
    var result, html, css := folder + [SecondResultFile], folder + [HtmlFile], folder + [CssFile];
    assert result[|folder|] == SecondResultFile && html[|folder|] == HtmlFile && css[|folder|] == CssFile;
    assert |SecondResultFile| == 22 && |HtmlFile| == 16 && |CssFile| == 15;
  }

  /** On a run with open ports, `nmap_second_result.txt` holds the second scan's output and the stylesheet sits beside the report. */
  lemma SecondScanSaved(argv: seq<string>, initialScan: string, secondScan: string)
    requires |argv| == 3 && HasOpenPort(initialScan)
    ensures var o, folder := Run(argv, initialScan, secondScan), ScanFolder(argv[1]);
      o.Finished? && folder + [SecondResultFile] in o.files && folder + [CssFile] in o.files &&
      Render(o.files[folder + [SecondResultFile]]) == secondScan &&
      Render(o.files[folder + [CssFile]]) == Stylesheet
  {
    RunFiles(argv, initialScan, secondScan);
    FilesDistinct(ScanFolder(argv[1]));
  }

  /**
   * On a run with open ports, the report page shows the second scan's output as
   * read back from the result file (unchanged when it holds no carriage return,
   * by `ReadTextIdentity`).
   */
  lemma ReportShowsSecondScan(argv: seq<string>, initialScan: string, secondScan: string)
    requires |argv| == 3 && HasOpenPort(initialScan)
    ensures var o, folder := Run(argv, initialScan, secondScan), ScanFolder(argv[1]);
      o.Finished? && folder + [HtmlFile] in o.files &&
      ReportText(Render(o.files[folder + [HtmlFile]])) == Some(ReadText(secondScan))
  {
    RunFiles(argv, initialScan, secondScan);
    FilesDistinct(ScanFolder(argv[1]));
    PageReadsBack(Run(argv, initialScan, secondScan), ScanFolder(argv[1]) + [HtmlFile], ReadText(secondScan));
  }

  lemma PageReadsBack(o: Outcome, page: Path, text: string)
    requires o.Finished? && page in o.files && o.files[page] == ReportPage(text)
    ensures ReportText(Render(o.files[page])) == Some(text)
  {
    ReportRoundTrip(text);
  }

  /** A mail and a web server: the second scan is asked for exactly ports 25 and 80 on the given target. */
  lemma ExampleMailAndWeb(argv: seq<string>, initialScan: string, secondScan: string)
    requires |argv| == 3 && initialScan == PortsField([("25", "smtp"), ("80", "http")])
    ensures var o := Run(argv, initialScan, secondScan);
      ExitStatus(o) == 0 && o.Finished? && |o.commands| == 3 &&
      o.commands[1] == ["nmap", "-sC", "-sV", "-p" + "25,80", argv[2], "-Pn"]
  {
    ExampleGreppable();
    ExtractFromFile(initialScan);
    assert ExtractOpenPorts(initialScan) == "25,80";
    var o := Run(argv, initialScan, secondScan);
    assert o.Finished? && o.commands == Commands(argv[2], "25,80");
    assert o.commands[1] == SecondScanCommand("25,80", argv[2]);
  }
}
