# Esdras in Dafny

Esdras (`esdras.py`) prepares a penetration-testing engagement. It builds a
fixed folder tree `Pentest-<name>/…`, runs a quick nmap scan of every TCP port
of the target, extracts the ports reported open from nmap's greppable output,
runs a second, detailed nmap scan restricted to those ports, and wraps that
scan's output in an HTML page with a stylesheet, which it opens in a browser.

This project models the three pieces of logic in that script and proves what
they promise:

- `port_extractor.dfy` (module `PortExtractor`): `extract_open_ports`, that is
  `re.findall(r'(\d+)/open', content)` then `",".join(...)`. `FindAllFrom` is
  the scanner, position by position as the regex engine works: greedy `\d+`,
  resumption right after each match. `Ports` is the declarative meaning: the
  maximal runs of decimal digits immediately followed by `/open`, in order of
  appearance, duplicates kept. The two are proved equal. `Join` and `Split`
  (Python's `str.split(",")`) are proved inverse on port lists.
- `directory_tree.dfy` (module `DirectoryTree`): the template
  `directory_structure` as an ordered tree, and `create_directories` as a
  method of a `FileSystem` class. The class holds the set of existing
  directory paths; a path is the list of its components. `MakeDirs` is
  `os.makedirs(path, exist_ok=True)`. The loop of `CreateDirectories` is
  proved against `Created`, the set of directories a run makes sure exist.
  `Created` is then characterised by the template's node paths.
- `esdras.dfy` (module `Esdras`): the decisions and strings of `main`. `Run`
  is a pure function from `sys.argv`, the text of `initial_scan` and the
  second scan's output to an `Outcome`. The outcome is the usage error, or the
  commands started and the files written. `Execute` is `main` against a
  `FileSystem`: it builds the workspace, then decides as `Run` does.
- `text_mode.dfy` (module `TextMode`): `ReadText`, what `read()` returns for a
  file opened in text mode. Python's universal newlines turn `\r\n` and a lone
  `\r` into `\n`. The program reads both scan files back this way.
- `wrappers.dfy`: `Option`.

External programs and files become parameters and results. The first scan's
output file is an input string. The second scan's output is an input string.
Commands are recorded as argument vectors. Files are recorded as full paths
with their contents. `os.chdir` is replaced by those explicit paths.

### Two behaviours a reader might not expect

- One might expect the workspace builder to create the base folder first.
  `create_directories` (esdras.py:38-42) never calls `os.makedirs(base_path)`
  itself. The base exists afterwards only because `os.makedirs` creates the
  missing parents of the first child. With an empty template nothing at all is
  created (`BaseCreatedIffTemplateNotEmpty`).
- One might expect only the exact state `open` to count. The pattern at
  esdras.py:48 only needs `/open` at the start of what follows the digits, so
  `22/opened` yields `22` (`ExampleOpened`).

## Model

| member | source | states |
|---|---|---|
| PortExtractor.RunEnd | esdras.py:48 | the greedy `\d+` starting at a position ends at the first non-digit: everything before is a digit, the end is the text's end or a non-digit |
| PortExtractor.FindAllFrom | esdras.py:48 | the scanner returns only non-empty digit runs; `FindAllMatchesSpec` proves it returns exactly `Ports` |
| PortExtractor.MatchesAtIsRegexAttempt | esdras.py:48 | an attempt of `(\d+)/open` at a position succeeds iff some digit prefix there is followed by `/open`, and backtracking can only succeed at the end of the whole digit run |
| PortExtractor.PortStartsSpec | esdras.py:48 | the match starts are strictly increasing and are exactly the positions that begin a maximal digit run followed by `/open` |
| PortExtractor.FindAllMatchesSpec | esdras.py:48 | scanning left to right and resuming after each `/open` yields exactly the maximal digit runs followed by `/open`, in order |
| PortExtractor.ExtractOpenPorts | esdras.py:45-49 | the result is the comma join of those runs; it is empty iff the text has no open port; it is digits and commas without a leading, trailing or doubled comma |
| PortExtractor.PortsAt | esdras.py:48 | the k-th extracted port is the digit run at the k-th match start |
| PortExtractor.PortsEmptyIff | esdras.py:48 | no run is found iff no position begins a digit run followed by `/open` |
| PortExtractor.PortsAreDigitRuns | esdras.py:48 | every extracted port is a non-empty run of digits, so it contains no comma |
| PortExtractor.Join | esdras.py:49 | `",".join`; its contract is carried by `JoinWellFormed`, `SplitJoin` and `JoinSplit` |
| PortExtractor.Split | esdras.py:49 | splitting on `,` gives at least one piece and no piece contains a comma |
| PortExtractor.JoinWellFormed | esdras.py:49 | joining non-empty digit strings gives a well-formed port list, empty iff the list is empty |
| PortExtractor.SplitJoin | esdras.py:49 | splitting the join of a non-empty list of comma-free strings gives the list back |
| PortExtractor.JoinSplit | esdras.py:49 | joining the pieces of a split gives the text back |
| PortExtractor.ExtractRoundTrip | esdras.py:48-49 | when a port is open, splitting the extracted string on `,` gives exactly the matched digit runs |
| PortExtractor.FindAllShift | esdras.py:48 | the scan of a text's suffix does not depend on the text before it |
| PortExtractor.PortThenRest | esdras.py:48 | a digit run followed by `/open` is reported, and scanning resumes right after the marker |
| PortExtractor.SkipNonDigit | esdras.py:48 | a non-digit character contributes nothing |
| PortExtractor.UnmarkedRun | esdras.py:48 | a maximal digit run not followed by `/open` contributes nothing |
| PortExtractor.NoDigitNoPort | esdras.py:48 | a text without digits has no match |
| PortExtractor.DigitFreePrefix | esdras.py:48 | a digit-free stretch before the rest of the text contributes nothing |
| PortExtractor.ListingScan | esdras.py:48 | in `p1/open p2/open …` every listed port is found, in order, duplicates kept, whatever its value |
| PortExtractor.AdjacentScan | esdras.py:48 | in `p1/openp2/open…` every port is found: scanning resumes right after each marker |
| PortExtractor.PortsFieldScan | esdras.py:48 | on nmap's greppable `Ports:` field the extractor finds exactly the port column, in order; service names may hold digits and hold no `/`, the format's separator |
| PortExtractor.EntryThenRest | esdras.py:48 | one greppable entry `port/open/tcp//service///` contributes its port and nothing else, even when the service name holds digits |
| PortExtractor.NoSlashNoPort | esdras.py:48 | text without `/`, followed by neither a digit nor the marker, contributes nothing |
| PortExtractor.FindAllReadText | esdras.py:46-48 | the text-mode newline translation leaves the matches unchanged |
| PortExtractor.ExtractFromFile | esdras.py:45-49 | extracting from the text read gives the result the raw file gives, and the same open-port decision |
| PortExtractor.ExampleOrderAndDuplicates | esdras.py:48-49 | `22/open 80/open 22/open` gives `22,80,22` |
| PortExtractor.ExampleClosed | esdras.py:48-49 | `22/closed` gives the empty string |
| PortExtractor.ExampleOpened | esdras.py:48-49 | `22/opened` gives `22` |
| PortExtractor.ExampleAdjacent | esdras.py:48-49 | `22/open80/open` gives `22,80` |
| PortExtractor.ExampleNoRangeCheck | esdras.py:48-49 | `99999/open` gives `99999`: no range check |
| PortExtractor.ExampleGreppable | esdras.py:48-49 | the field `Ports: 25/open/tcp//smtp///, 80/open/tcp//http///` gives `25,80` |
| PortExtractor.ExampleDigitInService | esdras.py:48-49 | the field `Ports: 110/open/tcp//pop3///` gives `110`: the digit in `pop3` adds no port |
| TextMode.ReadText | esdras.py:106-107 | the text read holds no `\r` and is no longer than the file |
| TextMode.ReadTextHead | esdras.py:106-107 | the first character read is `\n` for a `\r` and the file's own character otherwise |
| TextMode.ReadTextIdentity | esdras.py:106-107 | a file without `\r` is read back unchanged |
| TextMode.ReadTextIdempotent | esdras.py:106-107 | reading the text read changes nothing more |
| TextMode.ReadTextPrefix | esdras.py:46-47 | a stretch without `\r` passes through unchanged, whatever follows it |
| TextMode.ReadTextStartsWith | esdras.py:46-47 | the text read starts with a line-break-free string only if the file does |
| DirectoryTree.FileSystem.MakeDirs | esdras.py:41 | `os.makedirs(path, exist_ok=True)` adds the path and all its ancestors, removes nothing, and keeps every directory's parent present |
| DirectoryTree.FileSystem.CreateDirectories | esdras.py:38-42 | the new directory set is the old one plus `Created(base, structure)`; parents stay present; a run whose directories all exist changes nothing |
| DirectoryTree.PrefixesClosed | esdras.py:41 | adding a path with all its ancestors keeps the set closed under parents |
| DirectoryTree.CreatedUpToCovers | esdras.py:38-42 | every node path of the template under the base, with all its ancestors, is created |
| DirectoryTree.CreatedUpToOnly | esdras.py:38-42 | every created directory is a node path under the base or an ancestor of one |
| DirectoryTree.CreatedCoversTemplate | esdras.py:38-42 | after a run every node of the template exists under the base |
| DirectoryTree.CreatedOnlyTemplate | esdras.py:38-42 | a run adds nothing but node paths under the base and their ancestors |
| DirectoryTree.BaseCreatedIffTemplateNotEmpty | esdras.py:38-42 | the base folder is among the created directories iff the template has a folder |
| DirectoryTree.ScanFolderInTemplate | esdras.py:26-27 | the template contains `Results/Scan-Folder` |
| DirectoryTree.PhasesUnderEachSystem | esdras.py:9-35 | in `directory_structure` each of the five phase folders lies under both `Linux` and `Windows` |
| DirectoryTree.ChildPath | esdras.py:38-42 | every top-level folder of a template is one of its node paths |
| DirectoryTree.SubtreePath | esdras.py:38-42 | a node path of a sub-folder's template, behind that folder's name, is a node path of the whole template |
| Esdras.BasePath | esdras.py:75 | `Pentest-<name>`; `WorkspaceContained` and `Execute` carry its contract |
| Esdras.ScanFolder | esdras.py:81 | the scan folder under the base; `ScanFolderCreated` and `Files` carry its contract |
| Esdras.InitialScanCommand | esdras.py:89 | the first scan's argument vector; `Run` states that every normal run starts with it |
| Esdras.PortArgument | esdras.py:102 | the `-p` option; `PortArgumentRoundTrip` states that it names exactly the open ports |
| Esdras.SecondScanCommand | esdras.py:102 | the second scan's argument vector; `SecondScanPorts` and `ExampleMailAndWeb` carry its contract |
| Esdras.Commands | esdras.py:89-136 | the commands started, ending with the browser command `ViewerCommand` (esdras.py:136); `Run` states that there are three iff a port is open |
| Esdras.HtmlReport | esdras.py:110-123 | the page template; `ReportEmbedsVerbatim`, `ReportRoundTrip` and `ReportText` carry its contract |
| Esdras.ReportText | esdras.py:110-123 | whatever a report page yields as its text, wrapping that text again gives the same page |
| Esdras.Files | esdras.py:100-132 | every file the run writes lies directly inside the scan folder |
| Esdras.Run | esdras.py:54-140 | the exit status is non-zero iff the argument vector does not have exactly 3 entries; a normal run starts with the first scan on the given target and has three commands iff the first scan's file, read in text mode, holds an open port |
| Esdras.Execute | esdras.py:52-142 | the outcome is `Run`'s; with a wrong argument count no directory is created, otherwise exactly `Created` under `Pentest-<name>` is added; the scan folder and every written file's folder exist |
| Esdras.ScanFolderCreated | esdras.py:78-84 | `Pentest-<name>/Results/Scan-Folder` exists after the tree is built, so the `chdir` can succeed |
| Esdras.WorkspaceContained | esdras.py:75-78 | building the workspace creates nothing outside `Pentest-<name>` |
| Esdras.PortArgumentRoundTrip | esdras.py:95-102 | the `-p` argument, split after `-p` on `,`, gives exactly the ports found open, in order |
| Esdras.SecondScanPorts | esdras.py:97-102 | when a port is open the second scan runs against the given target with that `-p` argument |
| Esdras.FilesOnlyWithOpenPorts | esdras.py:97-132 | files are written iff a port was found open, and only into the scan folder |
| Esdras.NothingOpenNothingMore | esdras.py:97-140 | without an open port only the first scan runs and no file is written |
| Esdras.ReportEmbedsVerbatim | esdras.py:110-123 | the page holds the scan text unchanged and unescaped, right between `<pre>` and `</pre>` |
| Esdras.ReportRoundTrip | esdras.py:110-123 | the scan text can be read back from the page exactly |
| Esdras.RunFiles | esdras.py:100-132 | with an open port the run writes the result file, the page around the result file's text as read back, and the stylesheet, under the scan folder |
| Esdras.FilesDistinct | esdras.py:100-131 | the three file paths differ, so no file overwrites another |
| Esdras.SecondScanSaved | esdras.py:100-132 | the result file holds the second scan's output, and the stylesheet is the fixed CSS rule |
| Esdras.ReportShowsSecondScan | esdras.py:106-127 | the report page shows the second scan's output as read back in text mode, which is the output unchanged when it holds no `\r` (`ReadTextIdentity`) |
| Esdras.ExampleMailAndWeb | esdras.py:86-102 | first-scan output listing 25 and 80 open leads to `nmap -sC -sV -p25,80 <target> -Pn` and exit status 0 |

## Left out

- The `nmap` and `xdg-open` processes (esdras.py:89-91, 102, 136) are not run. Their argument vectors are recorded. The text the scans produce is a parameter. Their exit status is ignored by the source and not modelled.
- Writing files (esdras.py:90, 101, 126-132) is modelled by the contents written (`FileContents`, `Render`). Reading files back (esdras.py:46-47, 106-107) is modelled by `ReadText`. A missing `initial_scan` file, which makes the source raise, is not modelled.
- TextMode.ReadText: works on characters already decoded. A file that is not valid in the locale's encoding makes `read()` raise; that is not modelled.
- Esdras.Run: assumes every command can be started. When `nmap` or `xdg-open` is missing, `subprocess.run` (esdras.py:91, 102, 136) raises `FileNotFoundError` and the program ends with status 1. So "non-zero iff the argument count is wrong" holds only when both programs are installed.
- `os.chdir` (esdras.py:84) is replaced by full paths. The model proves the target folder exists.
- Filesystem errors (permissions, invalid names, disk full) are not modelled. `MakeDirs` always succeeds.
- Console output is not modelled: the banner, progress messages, the usage text and the final message (esdras.py:55, 58-71, 88, 92, 99, 103, 135, 138, 140, 142).
- Python's `\d` also accepts non-ASCII decimal digits. The model accepts ASCII `0`-`9` only.
- The engagement name is taken as one path component. A name containing a path separator would make `os.path.join` produce deeper folders; that is not modelled.
- DirectoryTree.FileSystem.MakeDirs: requires a non-empty path. The source never passes an empty one.
- PortExtractor.ExtractRoundTrip: is stated only when at least one port is open, because `"".split(",")` is `[""]` and not the empty list.
