/**
  Updates of the Homebrew tap: stable, development and foreign writers race on `main`.
  Every update starts from the latest tree, changes one formula file and pushes without force.
*/
module Tap {
  import opened Wrappers
  import opened GitBranch
  import opened Versions

  /** The version a formula file shows: its version line, else the one in its source URL. */
  datatype Shown = At(version: Version) | Unknown | Unparsable

  datatype Content = Content(shown: Shown, rebuild: Option<nat>, text: string)

  datatype Path = StableFormula | DevFormula | Other(path: string)

  type Tree = map<Path, Content>

  datatype Name = Stable | Dev

  function PathOf(name: Name): Path {
    if name.Stable? then StableFormula else DevFormula
  }

  /**
    A requested update: which formula, its new bytes, and the version announced for them, which is
    compared for the stable formula only.
  */
  datatype Job = Job(name: Name, content: Content, version: Version) {
    /** The version announced for a stable formula is the one its content shows. */
    predicate Honest() {
      name.Stable? ==> content.shown == At(version)
    }
  }

  datatype Plan = Present | Refuse | Write(tree: Tree)

  function Rebuild(c: Content): nat {
    if c.rebuild.Some? then c.rebuild.value else 0
  }

  /** What one attempt does on the tree it checked out. */
  function Attempt(tree: Tree, job: Job): Plan {
    var path := PathOf(job.name);
    var written := Write(tree[path := job.content]);
    if path !in tree then written
    else if tree[path] == job.content then Present
    else if job.name.Dev? then written
    else
      match tree[path].shown
      case Unparsable => Refuse
      case Unknown => written
      case At(current) =>
        if job.version.Less(current) then Refuse
        else if current == job.version && Rebuild(tree[path]) > Rebuild(job.content) then Refuse
        else written
  }

  /** The (version, rebuild) pair of the stable formula, when it can be read. */
  function Rank(tree: Tree): Option<(Version, nat)> {
    if StableFormula in tree && tree[StableFormula].shown.At?
    then Some((tree[StableFormula].shown.version, Rebuild(tree[StableFormula])))
    else None
  }

  predicate NotLower(before: Tree, after: Tree) {
    Rank(before).Some? ==>
      && Rank(after).Some?
      && var (v, r) := Rank(before).value;
         var (v', r') := Rank(after).value;
         v.Less(v') || (v == v' && r <= r')
  }

  /** `after` differs from `before` in one formula file, or in no formula file. */
  predicate OneWriter(before: Tree, after: Tree) {
    || (StableFormula in after && after == before[StableFormula := after[StableFormula]])
    || (DevFormula in after && after == before[DevFormula := after[DevFormula]])
    || FormulasAgree(before, after)
  }

  predicate FormulasAgree(before: Tree, after: Tree) {
    forall path | path in {StableFormula, DevFormula} ::
      (path in before <==> path in after) && (path in before ==> before[path] == after[path])
  }

  /** An honest update changes only its own file, and never lowers the stable pair; a development one needs no honesty. */
  lemma WriteKeepsOrder(tree: Tree, job: Job)
    requires job.Honest() && Attempt(tree, job).Write?
    ensures Attempt(tree, job).tree == tree[PathOf(job.name) := job.content]
    ensures NotLower(tree, Attempt(tree, job).tree)
    ensures OneWriter(tree, Attempt(tree, job).tree)
  {
  }

  /** A development update is never refused, and writes exactly when its bytes are not there. */
  lemma DevelopmentIsNeverRefused(tree: Tree, job: Job)
    requires job.name.Dev?
    ensures if DevFormula in tree && tree[DevFormula] == job.content then Attempt(tree, job).Present?
            else Attempt(tree, job) == Write(tree[DevFormula := job.content])
  {
  }

  /**
    A stable update with new bytes writes where no version can be read, fails where the version is no
    version at all, and otherwise fails exactly below the announced version and rebuild.
  */
  lemma StableIsRefusedExactly(tree: Tree, job: Job)
    requires job.name.Stable? && (StableFormula in tree ==> tree[StableFormula] != job.content)
    ensures Attempt(tree, job) in {Refuse, Write(tree[StableFormula := job.content])}
    ensures Attempt(tree, job).Refuse? <==>
      && StableFormula in tree
      && var was := tree[StableFormula];
         || was.shown.Unparsable?
         || (was.shown.At? && (job.version.Less(was.shown.version)
                               || (job.version == was.shown.version && IsRebuiltBefore(job.content, was))))
  {
  }

  /** A lower rebuild number; a formula without one was never rebuilt. */
  predicate IsRebuiltBefore(c: Content, other: Content) {
    other.rebuild.Some? && (if c.rebuild.Some? then c.rebuild.value < other.rebuild.value else other.rebuild.value > 0)
  }

  /** On a readable tap, an honest stable update is refused exactly when it would lower the pair. */
  lemma RefusesExactlyLowering(tree: Tree, job: Job)
    requires job.Honest() && job.name.Stable? && Rank(tree).Some?
    ensures Attempt(tree, job).Refuse? <==> !NotLower(tree, tree[StableFormula := job.content])
    ensures Attempt(tree, job).Present? <==> tree[StableFormula] == job.content
  {
    var was := tree[StableFormula].shown.version;
    VersionOrder(was, job.version, was);
  }

  /**
    The announced version, not the content, is what is compared: an update whose content shows
    another version is accepted and lowers the pair exactly when that content is older.
  */
  lemma AnnouncedVersionIsTrusted(tree: Tree, job: Job, shown: Version)
    requires job.name.Stable? && job.content.shown == At(shown) && Rank(tree).Some?
    requires Rank(tree).value.0.Less(job.version)
    requires tree[StableFormula] != job.content
    ensures Attempt(tree, job).Write?
    ensures NotLower(tree, Attempt(tree, job).tree)
       <==> !shown.Less(Rank(tree).value.0)
            && (shown == Rank(tree).value.0 ==> Rank(tree).value.1 <= Rebuild(job.content))
  {
  }

  ghost predicate Lawful(c: Commit<Tree>)
    decreases c
  {
    c.parent.Some? ==>
      && Lawful(c.parent.value)
      && OneWriter(c.parent.value.tree, c.tree)
      && NotLower(c.parent.value.tree, c.tree)
  }

  ghost predicate LawfulHead(head: Head<Tree>) {
    head.Some? ==> Lawful(head.value)
  }

  /** `changed` is what the update reports: the bytes were pushed, or were there already. */
  datatype Phase =
    | Ready(attempts: nat)
    | Pushing(left: nat, commit: Commit<Tree>)
    | Returned(changed: bool, commit: Commit<Tree>)
    | Raised

  datatype Writer = Writer(job: Job, phase: Phase)

  datatype World = World(main: Commit<Tree>, writers: map<nat, Writer>)

  datatype Move =
    | Start(id: nat, job: Job, attempts: nat)
    | Fetch(id: nat, stamp: int)
    | Push(id: nat, applied: bool, reported: bool)
    | Crash(id: nat)
    | Outsider(tree: Tree, stamp: int)

  function Decide(job: Job, head: Commit<Tree>, left: nat, stamp: int): Phase {
    match Attempt(head.tree, job)
    case Present => Returned(false, head)
    case Refuse => Raised
    case Write(tree) => Pushing(left, Commit(tree, Some(head), stamp))
  }

  ghost predicate Next(w: World, w': World, m: Move) {
    match m
    case Start(id, job, attempts) =>
      && id !in w.writers && job.Honest()
      && w' == World(w.main, w.writers[id := Writer(job, Ready(attempts))])
    case Fetch(id, stamp) =>
      && id in w.writers && w.writers[id].phase.Ready?
      && var p := w.writers[id];
         var phase := if p.phase.attempts == 0 then Raised
                      else Decide(p.job, w.main, p.phase.attempts - 1, stamp);
         w' == World(w.main, w.writers[id := p.(phase := phase)])
    case Push(id, applied, reported) =>
      && id in w.writers && w.writers[id].phase.Pushing?
      && var p := w.writers[id];
         var c := p.phase.commit;
         && (applied ==> FastForward(Some(w.main), c))
         && (reported ==> applied)
         && w' == World(if applied then c else w.main,
                        w.writers[id := p.(phase := if reported then Returned(true, c) else Ready(p.phase.left))])
    case Crash(id) =>
      && id in w.writers
      && w' == World(w.main, w.writers[id := w.writers[id].(phase := Raised)])
    case Outsider(tree, stamp) =>
      && FormulasAgree(w.main.tree, tree)
      && w' == World(Commit(tree, Some(w.main), stamp), w.writers)
  }

  ghost predicate Moves(w: World, w': World) {
    exists m :: Next(w, w', m)
  }

  ghost predicate IsRun(run: seq<World>) {
    && |run| > 0
    && Lawful(run[0].main) && run[0].writers == map[]
    && forall i | 0 < i < |run| :: Moves(run[i - 1], run[i])
  }

  predicate Holds(c: Commit<Tree>, job: Job) {
    PathOf(job.name) in c.tree && c.tree[PathOf(job.name)] == job.content
  }

  /** The commit replaces the job's own file in its parent's tree and nothing else. */
  predicate OnlyItsFile(c: Commit<Tree>, job: Job) {
    c.parent.Some? && c.tree == c.parent.value.tree[PathOf(job.name) := job.content]
  }

  /** What a writer knows, whatever the others did since. */
  ghost predicate WriterSound(p: Writer, main: Commit<Tree>) {
    && p.job.Honest()
    && match p.phase
       case Pushing(_, c) => Lawful(c) && OnlyItsFile(c, p.job) && Extends(c.parent, Some(main))
       case Returned(changed, c) => Ancestor(c, main) && Holds(c, p.job) && (changed ==> OnlyItsFile(c, p.job))
       case _ => true
  }

  ghost predicate Inv(w: World) {
    && Lawful(w.main)
    && forall id | id in w.writers :: WriterSound(w.writers[id], w.main)
  }

  lemma DecisionIsSound(job: Job, main: Commit<Tree>, left: nat, stamp: int)
    requires job.Honest() && Lawful(main)
    ensures WriterSound(Writer(job, Decide(job, main, left, stamp)), main)
  {
    if Attempt(main.tree, job).Write? {
      WriteKeepsOrder(main.tree, job);
    }
  }

  lemma SoundnessIsStable(p: Writer, before: Commit<Tree>, after: Commit<Tree>)
    requires WriterSound(p, before) && Ancestor(before, after)
    ensures WriterSound(p, after)
  {
    match p.phase
    case Pushing(_, c) => ExtendsTransitive(c.parent, Some(before), Some(after));
    case Returned(_, c) => AncestorTransitive(c, before, after);
    case _ =>
  }

  lemma StepPreservesInv(w: World, w': World, m: Move)
    requires Inv(w) && Next(w, w', m)
    ensures Inv(w') && Ancestor(w.main, w'.main)
  {
    match m
    case Fetch(id, stamp) =>
      var p := w.writers[id];
      if p.phase.attempts > 0 {
        DecisionIsSound(p.job, w.main, p.phase.attempts - 1, stamp);
      }
    case Push(_, _, _) =>
      forall id | id in w.writers { SoundnessIsStable(w.writers[id], w.main, w'.main); }
    case Outsider(_, _) =>
      assert Ancestor(w.main, w.main);
      forall id | id in w.writers { SoundnessIsStable(w.writers[id], w.main, w'.main); }
    case _ =>
  }

  /**
    Every run of stable, development and foreign writers: `main` only grows, every commit
    changes at most one formula file and never lowers the stable pair, and a normal return
    means the requested bytes were the file's content on `main` at the last read or push.
  */
  lemma {:induction false} EveryRunKeepsOrder(run: seq<World>, i: nat, j: nat)
    requires IsRun(run) && i <= j < |run|
    ensures Inv(run[i]) && Inv(run[j])
    ensures Ancestor(run[i].main, run[j].main)
    ensures NotLower(run[i].main.tree, run[j].main.tree)
    decreases j
  {
    if j > 0 {
      var k := if i == j then 0 else i;
      EveryRunKeepsOrder(run, k, j - 1);
      assert Moves(run[j - 1], run[j]);
      var m :| Next(run[j - 1], run[j], m);
      StepPreservesInv(run[j - 1], run[j], m);
      AncestorTransitive(run[k].main, run[j - 1].main, run[j].main);
      PairNeverGoesDown(run[k].main, run[j].main);
    }
  }

  lemma {:induction false} PairNeverGoesDown(a: Commit<Tree>, c: Commit<Tree>)
    requires Lawful(c) && Ancestor(a, c)
    ensures NotLower(a.tree, c.tree)
    decreases c
  {
    if a != c {
      PairNeverGoesDown(a, c.parent.value);
    }
  }

  ghost predicate IsPath(path: seq<World>) {
    path != [] && forall k | 0 < k < |path| :: Moves(path[k - 1], path[k])
  }

  /** Left alone, an update that is not refused returns with its bytes on `main` and every other file as it was. */
  lemma UncontestedUpdateSucceeds(w: World, id: nat, job: Job, attempts: nat, stamp: int)
    requires id !in w.writers && job.Honest() && attempts > 0 && !Attempt(w.main.tree, job).Refuse?
    ensures exists path: seq<World> ::
      && IsPath(path) && path[0] == w
      && id in path[|path| - 1].writers && path[|path| - 1].writers[id].job == job
      && path[|path| - 1].writers[id].phase.Returned?
      && path[|path| - 1].main.tree == w.main.tree[PathOf(job.name) := job.content]
  {
    var started := World(w.main, w.writers[id := Writer(job, Ready(attempts))]);
    assert Next(w, started, Start(id, job, attempts));
    var phase := Decide(job, w.main, attempts - 1, stamp);
    var fetched := World(w.main, started.writers[id := Writer(job, phase)]);
    assert Next(started, fetched, Fetch(id, stamp));
    if phase.Pushing? {
      var c := phase.commit;
      var pushed := World(c, fetched.writers[id := Writer(job, Returned(true, c))]);
      assert Ancestor(w.main, w.main);
      assert Next(fetched, pushed, Push(id, true, true));
      assert IsPath([w, started, fetched, pushed]);
    } else {
      assert w.main.tree == w.main.tree[PathOf(job.name) := job.content];
      assert IsPath([w, started, fetched]);
    }
  }

  /**
    An update run again after its push took effect changes nothing, on its own commit and on every
    later one whose writers left its file alone.
  */
  lemma RepeatedUpdateIsIdle(job: Job, before: Commit<Tree>, later: Commit<Tree>, left: nat, stamp: int, again: int)
    requires Decide(job, before, left, stamp).Pushing?
    requires var (path, pushed) := (PathOf(job.name), Decide(job, before, left, stamp).commit.tree);
             path in pushed && path in later.tree && later.tree[path] == pushed[path]
    ensures Decide(job, later, left, again) == Returned(false, later)
  {
  }

  /** The tap repository as one writer sees it. */
  class Repository {
    var main: Commit<Tree>

    constructor (initial: Commit<Tree>)
      ensures main == initial
    {
      main := initial;
    }

    /** Other writers may act here unless it is quiet; a caller knows only that they keep the law and only add. */
    method Rivals(quiet: bool)
      requires Lawful(main)
      modifies this
      ensures Lawful(main) && Ancestor(old(main), main)
      ensures quiet ==> main == old(main)
    {
    }

    /** A push without force. Unless it is quiet, a failed report says nothing about whether it took effect. */
    method Push(c: Commit<Tree>, quiet: bool) returns (reported: bool)
      modifies this
      ensures main == old(main) || (Ancestor(old(main), c) && main == c)
      ensures reported ==> main == c
      ensures quiet && FastForward(Some(old(main)), c) ==> reported
    {
      reported := false;
      if FastForward(Some(main), c) {
        if quiet {
          main := c;
          return true;
        }
        if * {
          main := c;
          if * {
            reported := true;
          }
        }
      }
    }

    /**
      The update loop. `Ok(true)`: pushed; `Ok(false)`: the bytes were there when last read. Where
      nobody interferes it fails only when the update is refused.
    */
    method UpdateTap(job: Job, attempts: nat, stamp: int, quiet: bool) returns (r: Result<bool, string>)
      requires job.Honest() && Lawful(main)
      modifies this
      ensures Lawful(main) && Ancestor(old(main), main)
      ensures NotLower(old(main).tree, main.tree)
      ensures r.Ok? ==> Holds(main, job)
      ensures quiet && attempts > 0 ==>
                if Attempt(old(main).tree, job).Refuse? then r.Err? && main == old(main)
                else && r == Ok(Attempt(old(main).tree, job).Write?)
                     && main.tree == old(main).tree[PathOf(job.name) := job.content]
    {
      ghost var start := main;
      var left := attempts;
      while left > 0
        invariant Lawful(main) && Ancestor(start, main)
        invariant quiet ==> main == start && left == attempts
        decreases left
      {
        left := left - 1;
        ghost var before := main;
        Rivals(quiet);
        AncestorTransitive(start, before, main);
        var phase := Decide(job, main, left, stamp);
        DecisionIsSound(job, main, left, stamp);
        match phase
        case Returned(_, _) =>
          PairNeverGoesDown(start, main);
          return Ok(false);
        case Raised =>
          PairNeverGoesDown(start, main);
          return Err("refusing to replace a newer tap version");
        case Pushing(_, c) =>
          ghost var fetched := main;
          Rivals(quiet);
          AncestorTransitive(start, fetched, main);
          ghost var contested := main;
          var reported := Push(c, quiet);
          AncestorTransitive(start, contested, main);
          if reported {
            PairNeverGoesDown(start, main);
            return Ok(true);
          }
        case Ready(_) =>
      }
      PairNeverGoesDown(start, main);
      r := Err("tap changed concurrently; retry publication");
    }
  }
}
