/** Copying the skill by a pruning walk, against the flat filter that verifies the copy. */
module SkillTree {
  import opened TextLines

  datatype Entry = Entry(name: string, node: Node)
  datatype Node = File(data: string) | Dir(entries: seq<Entry>)

  type Path = seq<string>

  const EXCLUDED_DIRS := {
    "__pycache__", ".pytest_cache", ".ruff_cache", ".state", "dist", "build", "node_modules", ".venv", "venv", ".git",
    ".mypy_cache"
  }
  const EXCLUDED_SUFFIXES := {".pyc", ".pyo", ".log"}

  /** A name whose last dotted part is excluded; a leading dot alone makes no suffix. */
  predicate HasExcludedSuffix(name: string) {
    exists suffix | suffix in EXCLUDED_SUFFIXES :: |name| > |suffix| && EndsWith(name, suffix)
  }

  predicate ShouldExclude(path: Path)
    requires path != []
  {
    (exists part | part in path :: part in EXCLUDED_DIRS) || HasExcludedSuffix(path[|path| - 1])
  }

  /** The names in one directory that the copy leaves out. */
  method Ignored(directory: Path, names: seq<string>) returns (ignored: set<string>)
    ensures ignored == set name | name in names && ShouldExclude(directory + [name])
  {
    hide ShouldExclude;
    ignored := {};
    var k := 0;
    while k < |names|
      invariant 0 <= k <= |names|
      invariant ignored == set name | name in names[..k] && ShouldExclude(directory + [name])
    {
      if ShouldExclude(directory + [names[k]]) {
        ignored := ignored + {names[k]};
      }
      assert names[..k + 1] == names[..k] + [names[k]];
      k := k + 1;
    }
    assert names[..k] == names;
  }

  /** What the copy keeps: an excluded name is not entered. */
  function Walk(entries: seq<Entry>, base: Path): map<Path, string> {
    if entries == [] then map[] else WalkEntry(entries[0], base) + Walk(entries[1..], base)
  }

  function WalkEntry(e: Entry, base: Path): map<Path, string> {
    var path := base + [e.name];
    if ShouldExclude(path) then map[]
    else
      match e.node
      case File(data) => map[path := data]
      case Dir(entries) => Walk(entries, path)
  }

  /** Every file of a tree by its path. */
  function AllFiles(entries: seq<Entry>, base: Path): map<Path, string> {
    if entries == [] then map[] else EntryFiles(entries[0], base) + AllFiles(entries[1..], base)
  }

  function EntryFiles(e: Entry, base: Path): map<Path, string> {
    match e.node
    case File(data) => map[base + [e.name] := data]
    case Dir(entries) => AllFiles(entries, base + [e.name])
  }

  /** What verification expects: the files whose own path is not excluded. */
  function Flat(entries: seq<Entry>): map<Path, string> {
    Filtered(AllFiles(entries, []))
  }

  function Filtered(files: map<Path, string>): map<Path, string> {
    map p | p in files && p != [] && !ShouldExclude(p) :: files[p]
  }

  /** A file is expected unless a step of its path is an excluded directory name, or its own name carries an excluded suffix. */
  lemma ExpectedExactly(entries: seq<Entry>, p: Path)
    ensures p in Flat(entries) <==>
      && p in AllFiles(entries, []) && p != []
      && (forall k | 0 <= k < |p| :: p[k] !in EXCLUDED_DIRS)
      && (forall stem, suffix | suffix in EXCLUDED_SUFFIXES && stem != "" :: p[|p| - 1] != stem + suffix)
    ensures p in Flat(entries) ==> Flat(entries)[p] == AllFiles(entries, [])[p]
  {
    if p != [] {
      var name := p[|p| - 1];
      if suffix :| suffix in EXCLUDED_SUFFIXES && |name| > |suffix| && EndsWith(name, suffix) {
        assert name == name[..|name| - |suffix|] + suffix;
      }
      forall stem, suffix | suffix in EXCLUDED_SUFFIXES && stem != "" && name == stem + suffix
        ensures HasExcludedSuffix(name)
      {
        assert name[|name| - |suffix|..] == suffix;
      }
    }
  }

  // -------------------------------------------------------------- properties

  /** No step below `depth` on the way to a path is excluded. */
  predicate IsReached(p: Path, depth: nat) {
    forall k | depth < k <= |p| :: !ShouldExclude(p[..k])
  }

  function Reached(files: map<Path, string>, depth: nat): map<Path, string> {
    map p | p in files && IsReached(p, depth) :: files[p]
  }

  lemma {:induction false} FilesLieBelow(entries: seq<Entry>, base: Path)
    ensures forall p | p in AllFiles(entries, base) :: base < p
    decreases entries
  {
    if entries != [] {
      FilesLieBelow(entries[1..], base);
      match entries[0].node
      case File(_) =>
      case Dir(inner) =>
        var path := base + [entries[0].name];
        FilesLieBelow(inner, path);
        assert forall p | p in AllFiles(inner, path) :: p[..|base|] == path[..|base|] == base;
    }
  }

  lemma ReachedIsPiecewise(a: map<Path, string>, b: map<Path, string>, depth: nat)
    ensures Reached(a + b, depth) == Reached(a, depth) + Reached(b, depth)
  {
    hide IsReached;
  }

  lemma ReachedBelow(files: map<Path, string>, path: Path)
    requires path != [] && forall p | p in files :: path <= p
    ensures Reached(files, |path| - 1) == if ShouldExclude(path) then map[] else Reached(files, |path|)
  {
    hide ShouldExclude;
    forall p | p in files ensures IsReached(p, |path| - 1) <==> !ShouldExclude(path) && IsReached(p, |path|) {
      assert p[..|path|] == path;
    }
  }

  /** The walk keeps exactly the files that can be reached without entering an excluded name. */
  lemma {:induction false} WalkIsReached(entries: seq<Entry>, base: Path)
    ensures Walk(entries, base) == Reached(AllFiles(entries, base), |base|)
    decreases entries, 1
  {
    hide ShouldExclude, IsReached;
    if entries != [] {
      WalkIsReached(entries[1..], base);
      EntryIsReached(entries[0], base);
      ReachedIsPiecewise(EntryFiles(entries[0], base), AllFiles(entries[1..], base), |base|);
    }
  }

  lemma {:induction false} EntryIsReached(e: Entry, base: Path)
    ensures WalkEntry(e, base) == Reached(EntryFiles(e, base), |base|)
    decreases e, 0
  {
    hide ShouldExclude;
    var path := base + [e.name];
    match e.node
    case File(data) =>
      ReachedBelow(map[path := data], path);
      assert IsReached(path, |path|);
    case Dir(entries) =>
      FilesLieBelow(entries, path);
      ReachedBelow(AllFiles(entries, path), path);
      WalkIsReached(entries, path);
  }

  /** A kept file below a directory whose name carries an excluded suffix. */
  predicate IsPruned(p: Path) {
    p != [] && exists part | part in p[..|p| - 1] :: HasExcludedSuffix(part)
  }

  lemma ReachedMeansUnpruned(p: Path)
    requires p != [] && !ShouldExclude(p)
    ensures IsReached(p, 0) <==> !IsPruned(p)
  {
    hide HasExcludedSuffix;
    forall k | 0 < k <= |p| ensures ShouldExclude(p[..k]) <==> HasExcludedSuffix(p[k - 1]) {
      assert forall part | part in p[..k] :: part in p;
    }
    if IsPruned(p) {
      var part :| part in p[..|p| - 1] && HasExcludedSuffix(part);
      var k :| 0 <= k < |p| - 1 && p[k] == part;
      assert ShouldExclude(p[..k + 1]);
    } else {
      forall k | 0 < k <= |p| ensures !ShouldExclude(p[..k]) {
        if k < |p| {
          assert p[k - 1] in p[..|p| - 1];
        } else {
          assert p[..k] == p;
        }
      }
    }
  }

  /**
    The walk keeps what verification expects exactly when no expected file lies below a directory
    whose name carries an excluded suffix.
  */
  lemma WalkMatchesFilter(entries: seq<Entry>)
    ensures Walk(entries, []) == Flat(entries) <==> forall p | p in Flat(entries) :: !IsPruned(p)
  {
    WalkIsReached(entries, []);
    FilesLieBelow(entries, []);
    hide ShouldExclude, IsPruned, Walk, AllFiles;
    var files := AllFiles(entries, []);
    forall p | p in Reached(files, 0) ensures p in Flat(entries) {
      assert p[..|p|] == p;
    }
    forall p | p in Flat(entries) ensures p in Reached(files, 0) <==> !IsPruned(p) {
      ReachedMeansUnpruned(p);
    }
  }

  /** Directory names without an excluded suffix are enough. */
  predicate PlainDirectories(entries: seq<Entry>) {
    forall e | e in entries ::
      e.node.Dir? ==> !HasExcludedSuffix(e.name) && PlainDirectories(e.node.entries)
  }

  lemma {:induction false} PlainFilesAreUnpruned(entries: seq<Entry>, base: Path)
    requires PlainDirectories(entries) && forall name | name in base :: !HasExcludedSuffix(name)
    ensures forall p | p in AllFiles(entries, base) :: !IsPruned(p)
    decreases entries
  {
    hide HasExcludedSuffix;
    if entries != [] {
      var e := entries[0];
      assert e in entries && forall x | x in entries[1..] :: x in entries;
      PlainFilesAreUnpruned(entries[1..], base);
      match e.node
      case File(_) =>
        assert (base + [e.name])[..|base|] == base;
      case Dir(inner) =>
        PlainFilesAreUnpruned(inner, base + [e.name]);
    }
  }

  lemma PlainTreesMatch(entries: seq<Entry>)
    requires PlainDirectories(entries)
    ensures Walk(entries, []) == Flat(entries)
  {
    PlainFilesAreUnpruned(entries, []);
    WalkMatchesFilter(entries);
  }

  function Nested(directory: string, file: string, data: string): seq<Entry> {
    [Entry(directory, Dir([Entry(file, File(data))]))]
  }

  lemma NestedFiles(directory: string, file: string, data: string)
    ensures AllFiles(Nested(directory, file, data), []) == map[[directory, file] := data]
  {
    var inner := [Entry(file, File(data))];
    var entries := Nested(directory, file, data);
    assert inner[1..] == [] && entries[1..] == [];
    assert [directory] + [file] == [directory, file] && [] + [directory] == [directory];
    assert AllFiles(inner[1..], [directory]) == map[];
    assert EntryFiles(inner[0], [directory]) == map[[directory, file] := data];
    assert AllFiles(inner, [directory]) == map[[directory, file] := data];
    assert AllFiles(entries[1..], []) == map[];
  }

  /** A good file in a directory whose name carries an excluded suffix is expected but not copied. */
  lemma SuffixedDirectoryIsLost(directory: string, file: string, data: string)
    requires HasExcludedSuffix(directory) && !HasExcludedSuffix(file)
    requires directory !in EXCLUDED_DIRS && file !in EXCLUDED_DIRS
    ensures [directory, file] in Flat(Nested(directory, file, data))
    ensures [directory, file] !in Walk(Nested(directory, file, data), [])
  {
    var p := [directory, file];
    NestedFiles(directory, file, data);
    hide HasExcludedSuffix, AllFiles, Walk, Nested;
    assert !ShouldExclude(p);
    assert p[..1] == [directory] && ShouldExclude(p[..1]);
    WalkIsReached(Nested(directory, file, data), []);
  }

  lemma NineLettersAreNoDirectory(name: string)
    requires |name| == 9
    ensures name !in EXCLUDED_DIRS
  {
  }

  lemma LogNames()
    ensures HasExcludedSuffix("notes.log") && !HasExcludedSuffix("readme.md")
  {
    assert EndsWith("notes.log", ".log") by { assert "notes.log"[5..] == ".log"; }
    assert "readme.md"[8] == 'd' && ".pyc"[3] == 'c' && ".pyo"[3] == 'o' && ".log"[3] == 'g';
    forall suffix | suffix in EXCLUDED_SUFFIXES ensures !EndsWith("readme.md", suffix) {
      assert "readme.md"[5..][3] == "readme.md"[8];
    }
  }

  lemma LogDirectoryIsLost(data: string)
    ensures Walk(Nested("notes.log", "readme.md", data), []) != Flat(Nested("notes.log", "readme.md", data))
  {
    LogNames();
    NineLettersAreNoDirectory("notes.log");
    NineLettersAreNoDirectory("readme.md");
    hide HasExcludedSuffix, Walk, Flat, Nested;
    SuffixedDirectoryIsLost("notes.log", "readme.md", data);
  }
}
