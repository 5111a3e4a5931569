/**
 * The workspace scaffold: `create_directories(base_path, structure)` walking the
 * fixed template `directory_structure` and calling `os.makedirs(path,
 * exist_ok=True)` for every node.
 *
 * The filesystem is abstract: the set of directory paths that exist. A path is
 * the list of its components, so `os.path.join(base, name)` is `base + [name]`.
 * Creating a directory never fails here (permissions, invalid names and other
 * filesystem errors are outside the model).
 */
module DirectoryTree {

  /** A directory path, as the list of its components. */
  type Path = seq<string>

  /** A template node: its sub-folders in the order of the source's dict literal (dicts keep insertion order). */
  datatype Tree = Node(children: seq<(string, Tree)>)

  /** The five engagement phases, listed under both "Linux" and "Windows". */
  const Phases: seq<(string, Tree)> := [
    ("Information-Gathering", Node([])),
    ("Vulnerability-Assessment", Node([])),
    ("Exploitation", Node([])),
    ("Post-Exploitation", Node([])),
    ("Lateral-Movement", Node([]))
  ]

  /** `directory_structure`. */
  const DirectoryStructure: Tree := Node([
    ("Pre-Engagement", Node([])),
    ("Linux", Node(Phases)),
    ("Windows", Node(Phases)),
    ("Reporting", Node([])),
    ("Results", Node([
      ("Scan-Folder", Node([])),
      ("Discovered-Information", Node([
        ("New-IPs", Node([])),
        ("Usernames", Node([])),
        ("Passwords", Node([])),
        ("Source-Code", Node([]))
      ]))
    ]))
  ])

  /** The non-empty prefixes of `p`: the directories `os.makedirs(p)` leaves in place. */
  function Prefixes(p: Path): set<Path> {
    set k | 1 <= k <= |p| :: p[..k]
  }

  /** Every existing directory's parent exists. */
  ghost predicate PrefixClosed(dirs: set<Path>) {
    forall p, k :: p in dirs && 1 <= k < |p| ==> p[..k] in dirs
  }

  // ---------------------------------------------------------------------------
  // Specification: the paths a template names, and what a run creates
  // ---------------------------------------------------------------------------

  /** The relative paths of the first `n` children of `t` and of everything below them. */
  function NodePathsUpTo(t: Tree, n: nat): set<Path>
    requires n <= |t.children|
    decreases t, n
  {
    if n == 0 then {}
    else
      var (name, sub) := t.children[n - 1];
      assert t.children[n - 1] in t.children;
      NodePathsUpTo(t, n - 1) + {[name]} + Under(name, NodePathsUpTo(sub, |sub.children|))
  }

  /** The relative paths `ps` moved one level down, under the folder `name`. */
  function Under(name: string, ps: set<Path>): set<Path> {
    set p | p in ps :: [name] + p
  }

  /** The relative path of every node of the template below its root. */
  function NodePaths(t: Tree): set<Path> {
    NodePathsUpTo(t, |t.children|)
  }

  /** The directories a run over the first `n` children of `t` under `base` makes sure exist. */
  function CreatedUpTo(base: Path, t: Tree, n: nat): set<Path>
    requires n <= |t.children|
    decreases t, n
  {
    if n == 0 then {}
    else
      var (name, sub) := t.children[n - 1];
      assert t.children[n - 1] in t.children;
      CreatedUpTo(base, t, n - 1) + Prefixes(base + [name]) +
      CreatedUpTo(base + [name], sub, |sub.children|)
  }

  /** The directories `create_directories(base, t)` makes sure exist. */
  function Created(base: Path, t: Tree): set<Path> {
    CreatedUpTo(base, t, |t.children|)
  }

  // ---------------------------------------------------------------------------
  // The filesystem and the builder
  // ---------------------------------------------------------------------------

  class FileSystem {
    /** The directories that exist. */
    var dirs: set<Path>

    constructor (existing: set<Path>)
      ensures dirs == existing
    {
      dirs := existing;
    }

    /** `os.makedirs(path, exist_ok=True)`: creates `path` and its missing ancestors; existing ones are fine. */
    method MakeDirs(path: Path)
      requires path != []
      modifies this
      ensures dirs == old(dirs) + Prefixes(path)
      ensures PrefixClosed(old(dirs)) ==> PrefixClosed(dirs)
    {
      dirs := dirs + Prefixes(path);
      PrefixesClosed(old(dirs), path);
    }

    /** `create_directories(base, structure)`. */
    method CreateDirectories(base: Path, structure: Tree)
      modifies this
      ensures dirs == old(dirs) + Created(base, structure)
      ensures PrefixClosed(old(dirs)) ==> PrefixClosed(dirs)
      ensures Created(base, structure) <= old(dirs) ==> dirs == old(dirs)
      decreases structure
    {
      var i := 0;
      while i < |structure.children|
        invariant 0 <= i <= |structure.children|
        invariant dirs == old(dirs) + CreatedUpTo(base, structure, i)
        invariant PrefixClosed(old(dirs)) ==> PrefixClosed(dirs)
      {
        var (directory, subdirs) := structure.children[i];
        assert structure.children[i] in structure.children;
        var path := base + [directory];
        MakeDirs(path);
        CreateDirectories(path, subdirs);
        i := i + 1;
      }
    }
  }

  // ---------------------------------------------------------------------------
  // Properties
  // ---------------------------------------------------------------------------

  /** Adding a path with all its ancestors keeps every parent in place. */
  lemma PrefixesClosed(dirs: set<Path>, path: Path)
    ensures PrefixClosed(dirs) ==> PrefixClosed(dirs + Prefixes(path))
  {
    if PrefixClosed(dirs) {
      forall p, k | p in dirs + Prefixes(path) && 1 <= k < |p| ensures p[..k] in dirs + Prefixes(path) {
        if p in Prefixes(path) {
          var j :| 1 <= j <= |path| && p == path[..j];
          assert p[..k] == path[..k];
        }
      }
    }
  }

  /** Every node path under `base`, with all its ancestors, is among the directories a run makes sure exist. */
  lemma {:induction false} CreatedUpToCovers(base: Path, t: Tree, n: nat)
    requires n <= |t.children|
    ensures forall p :: p in NodePathsUpTo(t, n) ==> Prefixes(base + p) <= CreatedUpTo(base, t, n)
    decreases t, n
  {
    if n > 0 {
      var (name, sub) := t.children[n - 1];
      assert t.children[n - 1] in t.children;
      var here := base + [name];
      CreatedUpToCovers(base, t, n - 1);
      CreatedUpToCovers(here, sub, |sub.children|);
      forall p | p in NodePathsUpTo(t, n) ensures Prefixes(base + p) <= CreatedUpTo(base, t, n) {
        if p !in NodePathsUpTo(t, n - 1) && p != [name] {
          var r :| r in NodePathsUpTo(sub, |sub.children|) && p == [name] + r;
          assert base + p == here + r;
        }
      }
    }
  }

  /** Every directory a run makes sure exist is an ancestor (or itself) of a node path under `base`. */
  lemma {:induction false} CreatedUpToOnly(base: Path, t: Tree, n: nat)
    requires n <= |t.children|
    ensures forall q :: q in CreatedUpTo(base, t, n) ==>
      exists p :: p in NodePathsUpTo(t, n) && q in Prefixes(base + p)
    decreases t, n
  {
    if n > 0 {
      var (name, sub) := t.children[n - 1];
      assert t.children[n - 1] in t.children;
      var here := base + [name];
      CreatedUpToOnly(base, t, n - 1);
      CreatedUpToOnly(here, sub, |sub.children|);
      assert CreatedUpTo(base, t, n) ==
        CreatedUpTo(base, t, n - 1) + Prefixes(here) + CreatedUpTo(here, sub, |sub.children|);
      forall q | q in CreatedUpTo(base, t, n)
        ensures exists p :: p in NodePathsUpTo(t, n) && q in Prefixes(base + p)
      {
        if q in CreatedUpTo(base, t, n - 1) {
          var p :| p in NodePathsUpTo(t, n - 1) && q in Prefixes(base + p);
          assert p in NodePathsUpTo(t, n);
        } else if q in Prefixes(here) {
          assert [name] in NodePathsUpTo(t, n);
        } else {
          var r :| r in NodePathsUpTo(sub, |sub.children|) && q in Prefixes(here + r);
          assert base + ([name] + r) == here + r;
          assert [name] + r in Under(name, NodePathsUpTo(sub, |sub.children|));
          assert [name] + r in NodePathsUpTo(t, n);
        }
      }
    }
  }

  /** After `create_directories(base, t)` every node of the template exists under `base`. */
  lemma CreatedCoversTemplate(base: Path, t: Tree)
    ensures forall p :: p in NodePaths(t) ==> base + p in Created(base, t)
  {
    CreatedUpToCovers(base, t, |t.children|);
    forall p | p in NodePaths(t) ensures base + p in Created(base, t) {
      NodePathNotEmpty(t, |t.children|, p);
      assert (base + p)[..|base + p|] == base + p;
    }
  }

  /** `create_directories(base, t)` adds nothing but node paths under `base` and their ancestors. */
  lemma CreatedOnlyTemplate(base: Path, t: Tree)
    ensures forall q :: q in Created(base, t) ==> exists p :: p in NodePaths(t) && q in Prefixes(base + p)
  {
    CreatedUpToOnly(base, t, |t.children|);
  }

  /**
   * `create_directories` never calls `os.makedirs(base)` itself: the base folder
   * exists afterwards exactly when the template has at least one folder.
   */
  lemma BaseCreatedIffTemplateNotEmpty(base: Path, t: Tree)
    requires base != []
    ensures base in Created(base, t) <==> t.children != []
  {
    if t.children != [] {
      var name := t.children[0].0;
      CreatedUpToCovers(base, t, |t.children|);
      ChildPath(t, |t.children|, 0);
      assert (base + [name])[..|base|] == base;
      assert base in Prefixes(base + [name]);
    }
  }

  /** Every child of the root is a node path of its own. */
  lemma {:induction false} ChildPath(t: Tree, n: nat, i: nat)
    requires i < n <= |t.children|
    ensures [t.children[i].0] in NodePathsUpTo(t, n)
    decreases n
  {
    if i < n - 1 {
      ChildPath(t, n - 1, i);
    }
  }

  /** A node path of a child's subtree, behind the child's name, is a node path of the tree. */
  lemma {:induction false} SubtreePath(t: Tree, n: nat, i: nat, p: Path)
    requires i < n <= |t.children| && p in NodePaths(t.children[i].1)
    ensures [t.children[i].0] + p in NodePathsUpTo(t, n)
    decreases n
  {
    if i < n - 1 {
      SubtreePath(t, n - 1, i, p);
    } else {
      var (name, sub) := t.children[i];
      assert [name] + p in Under(name, NodePathsUpTo(sub, |sub.children|));
    }
  }

  lemma {:induction false} NodePathNotEmpty(t: Tree, n: nat, p: Path)
    requires n <= |t.children| && p in NodePathsUpTo(t, n)
    ensures p != []
    decreases n
  {
    if p in NodePathsUpTo(t, n - 1) {
      NodePathNotEmpty(t, n - 1, p);
    }
  }

  /** The template names the scan folder that the scans run in. */
  lemma ScanFolderInTemplate()
    ensures ["Results", "Scan-Folder"] in NodePaths(DirectoryStructure)
  {
    var results := DirectoryStructure.children[4].1;
    ChildPath(results, |results.children|, 0);
    SubtreePath(DirectoryStructure, |DirectoryStructure.children|, 4, ["Scan-Folder"]);
    assert ["Results"] + ["Scan-Folder"] == ["Results", "Scan-Folder"];
  }

  /** Each of the five phase folders exists under both "Linux" and "Windows". */
  lemma PhasesUnderEachSystem()
    ensures forall k :: 0 <= k < |Phases| ==>
      ["Linux", Phases[k].0] in NodePaths(DirectoryStructure) &&
      ["Windows", Phases[k].0] in NodePaths(DirectoryStructure)
  {
    var t := DirectoryStructure;
    forall k | 0 <= k < |Phases|
      ensures ["Linux", Phases[k].0] in NodePaths(t) && ["Windows", Phases[k].0] in NodePaths(t)
    {
      ChildPath(Node(Phases), |Phases|, k);
      SubtreePath(t, |t.children|, 1, [Phases[k].0]);
      SubtreePath(t, |t.children|, 2, [Phases[k].0]);
      assert ["Linux"] + [Phases[k].0] == ["Linux", Phases[k].0];
      assert ["Windows"] + [Phases[k].0] == ["Windows", Phases[k].0];
    }
  }
}
