/**
  Crash-recoverable publication of Homebrew bottles to a release whose assets can be created
  but never replaced. One sealed bundle per target decides which build wins; everything else
  published for that target must agree with it.
*/
module Bottles {
  import opened Wrappers

  datatype Target = MacOS15 | MacOS15Intel | MacOS26 | MacOS26Intel

  const TARGETS := [MacOS15, MacOS15Intel, MacOS26, MacOS26Intel]

  lemma EveryTargetIsListed(t: Target)
    ensures t in TARGETS
  {
    match t
    case MacOS15 => assert t == TARGETS[0];
    case MacOS15Intel => assert t == TARGETS[1];
    case MacOS26 => assert t == TARGETS[2];
    case MacOS26Intel => assert t == TARGETS[3];
  }

  /** SHA-256 taken as collision free: a digest is named by the bytes it digests. */
  datatype Digest = Sha256(of: Content)

  /** A build record with its single bottle row; `log` is whatever differs between builds. */
  datatype Record = Record(target: Target, formula: Digest, filename: string, sha256: Digest, log: string)

  /** Asset bytes; the bundle encoding is a function of the two files it seals. */
  datatype Content =
    | Raw(bytes: string)
    | RecordFile(record: Record)
    | Bundle(record: Record, name: string, bottle: Content)

  datatype Asset = BundleOf(target: Target) | RecordOf(target: Target) | BottleNamed(name: string)

  type Store = map<Asset, Content>

  /** Which target a bottle filename is for. Names of different targets are distinct. */
  type Naming = map<string, Target>

  /** The files of one finished build. */
  datatype Build = Build(record: Record, bottle: Content) {
    predicate Valid(target: Target, naming: Naming) {
      && record.target == target
      && record.sha256 == Sha256(bottle)
      && record.filename in naming && naming[record.filename] == target
    }

    function Seal(): Content {
      Bundle(record, record.filename, bottle)
    }

    /** The assets published for this build, in order: the bundle is always first. */
    function Plan(): seq<(Asset, Content)> {
      [(BundleOf(record.target), Seal()),
       (BottleNamed(record.filename), bottle),
       (RecordOf(record.target), RecordFile(record))]
    }
  }

  /** Restoring checks target, snapshot, file list and checksum before it gives the files back. */
  function Restore(c: Content, target: Target, formula: Digest): Option<Build> {
    if && c.Bundle?
       && c.record.target == target
       && c.record.formula == formula
       && c.name == c.record.filename
       && c.record.sha256 == Sha256(c.bottle)
    then Some(Build(c.record, c.bottle)) else None
  }

  /** Restoring a sealed build gives exactly its files; what restores seals to the same bytes. */
  lemma RestoreInvertsSeal(c: Content, b: Build, naming: Naming)
    requires b.Valid(b.record.target, naming)
    ensures Restore(c, b.record.target, b.record.formula) == Some(b) <==> c == b.Seal()
  {
  }

  /** A build comes out exactly of its own seal, for its own target and snapshot, with its own digest. */
  lemma RestoresExactly(c: Content, target: Target, formula: Digest, b: Build)
    ensures Restore(c, target, formula) == Some(b) <==>
              && c == Bundle(b.record, b.record.filename, b.bottle)
              && b.record.target == target && b.record.formula == formula && b.record.sha256 == Sha256(b.bottle)
  {
  }

  datatype Phase =
    | Starting
    | Uploading(build: Build, next: nat)
    | Verifying(build: Build, next: nat)
    | Finished(build: Build)
    | Orphaned
    | Stopped

  datatype Job = Job(target: Target, formula: Digest, phase: Phase)

  datatype World = World(store: Store, jobs: map<nat, Job>)

  /** What a job finds when it starts: a bundle to restore, or a fresh build to make. */
  function Begin(store: Store, target: Target, formula: Digest, made: Build): Phase {
    if BundleOf(target) in store then
      var restored := Restore(store[BundleOf(target)], target, formula);
      if restored.Some? then Uploading(restored.value, 0) else Stopped
    else if RecordOf(target) in store then Orphaned
    else Uploading(made, 0)
  }

  datatype Move =
    | Launch(id: nat, target: Target, formula: Digest)
    | Start(id: nat, made: Build)
    | Upload(id: nat, sawAbsent: bool, applied: bool, reported: bool)
    | Verify(id: nat)
    | Crash(id: nat)

  /**
    One step. An upload creates an asset only when it is absent, and may be applied without
    being reported; a job that gets no clean report stops and may be launched again.
  */
  ghost predicate Next(w: World, w': World, m: Move, naming: Naming) {
    match m
    case Launch(id, target, formula) =>
      id !in w.jobs && w' == World(w.store, w.jobs[id := Job(target, formula, Starting)])
    case Start(id, made) =>
      && id in w.jobs && w.jobs[id].phase.Starting?
      && var j := w.jobs[id];
         && made.Valid(j.target, naming) && made.record.formula == j.formula
         && w' == World(w.store, w.jobs[id := j.(phase := Begin(w.store, j.target, j.formula, made))])
    case Upload(id, sawAbsent, applied, reported) =>
      && id in w.jobs && w.jobs[id].phase.Uploading?
      && var j := w.jobs[id];
         var (build, next) := (j.phase.build, j.phase.next);
         if next >= 3 then w' == World(w.store, w.jobs[id := j.(phase := Finished(build))])
         else
           var (asset, content) := build.Plan()[next];
           && (asset !in w.store ==> sawAbsent)
           && (applied ==> sawAbsent && asset !in w.store)
           && (reported ==> applied)
           && w' == World(if applied then w.store[asset := content] else w.store,
                          w.jobs[id := j.(phase := if !sawAbsent || reported then Verifying(build, next) else Stopped)])
    case Verify(id) =>
      && id in w.jobs && w.jobs[id].phase.Verifying?
      && var j := w.jobs[id];
         var (build, next) := (j.phase.build, j.phase.next);
         && next < 3
         && var (asset, content) := build.Plan()[next];
            w' == World(w.store, w.jobs[id := j.(phase :=
                    if asset in w.store && w.store[asset] == content then Uploading(build, next + 1) else Stopped)])
    case Crash(id) =>
      id in w.jobs && w' == World(w.store, w.jobs[id := w.jobs[id].(phase := Stopped)])
  }

  ghost predicate Moves(w: World, w': World, naming: Naming) {
    exists m :: Next(w, w', m, naming)
  }

  ghost predicate IsRun(run: seq<World>, naming: Naming) {
    && |run| > 0
    && run[0] == World(map[], map[])
    && forall i | 0 < i < |run| :: Moves(run[i - 1], run[i], naming)
  }

  /** The sealed build of a target, when its bundle is published. */
  predicate SealedAs(store: Store, target: Target, b: Build) {
    BundleOf(target) in store && store[BundleOf(target)] == b.Seal()
  }

  ghost predicate BundleSound(store: Store, target: Target, naming: Naming) {
    BundleOf(target) in store ==> exists b: Build :: b.Valid(target, naming) && SealedAs(store, target, b)
  }

  /** A published record has the bytes in its target's bundle, and never stands without it. */
  ghost predicate RecordSound(store: Store, target: Target) {
    RecordOf(target) in store ==>
      exists b: Build :: SealedAs(store, target, b) && store[RecordOf(target)] == RecordFile(b.record)
  }

  /** A published bottle has the bytes held in its target's bundle under its own name. */
  ghost predicate BottleSound(store: Store, name: string, naming: Naming) {
    BottleNamed(name) in store ==>
      name in naming &&
      exists b: Build :: && SealedAs(store, naming[name], b) && b.record.filename == name
                         && store[BottleNamed(name)] == b.bottle
  }

  ghost predicate StoreSound(store: Store, naming: Naming) {
    && (forall target :: BundleSound(store, target, naming))
    && (forall target :: RecordSound(store, target))
    && (forall name :: BottleSound(store, name, naming))
  }

  /** The first `n` planned assets of a build are published with exactly its bytes. */
  predicate PublishedUpTo(store: Store, b: Build, n: nat) {
    forall k | 0 <= k < n && k < 3 :: b.Plan()[k].0 in store && store[b.Plan()[k].0] == b.Plan()[k].1
  }

  ghost predicate JobSound(store: Store, j: Job, naming: Naming) {
    match j.phase
    case Uploading(b, next) => b.Valid(j.target, naming) && PublishedUpTo(store, b, next)
    case Verifying(b, next) => b.Valid(j.target, naming) && PublishedUpTo(store, b, next) && next < 3
    case Finished(b) => b.Valid(j.target, naming) && PublishedUpTo(store, b, 3)
    case Orphaned => false
    case _ => true
  }

  ghost predicate Inv(w: World, naming: Naming) {
    StoreSound(w.store, naming) && forall id | id in w.jobs :: JobSound(w.store, w.jobs[id], naming)
  }

  ghost predicate Grows(before: Store, after: Store) {
    forall a | a in before :: a in after && after[a] == before[a]
  }

  /** Creating the next planned asset keeps the store sound: the bundle went first. */
  lemma CreateKeepsStoreSound(store: Store, b: Build, n: nat, target: Target, naming: Naming)
    requires StoreSound(store, naming) && b.Valid(target, naming)
    requires n < 3 && PublishedUpTo(store, b, n)
    requires b.Plan()[n].0 !in store
    ensures StoreSound(store[b.Plan()[n].0 := b.Plan()[n].1], naming)
  {
    var (asset, content) := b.Plan()[n];
    var after := store[asset := content];
    if n > 0 {
      assert b.Plan()[0].0 in store && store[b.Plan()[0].0] == b.Plan()[0].1;
    }
    assert SealedAs(after, target, b);
    forall t ensures BundleSound(after, t, naming) {
      if t != target && BundleOf(t) in store {
        assert BundleSound(store, t, naming);
        var other: Build :| other.Valid(t, naming) && SealedAs(store, t, other);
        assert SealedAs(after, t, other);
      }
    }
    forall t ensures RecordSound(after, t) {
      if RecordOf(t) in store {
        assert RecordSound(store, t);
        var other: Build :| SealedAs(store, t, other) && store[RecordOf(t)] == RecordFile(other.record);
        assert SealedAs(after, t, other);
      }
    }
    forall name ensures BottleSound(after, name, naming) {
      if BottleNamed(name) in store {
        assert BottleSound(store, name, naming);
        var other: Build :| && SealedAs(store, naming[name], other) && other.record.filename == name
                            && store[BottleNamed(name)] == other.bottle;
        assert SealedAs(after, naming[name], other);
      }
    }
  }

  lemma SoundnessIsStable(before: Store, after: Store, j: Job, naming: Naming)
    requires JobSound(before, j, naming) && Grows(before, after)
    ensures JobSound(after, j, naming)
  {
  }

  lemma StepPreservesInv(w: World, w': World, m: Move, naming: Naming)
    requires Inv(w, naming) && Next(w, w', m, naming)
    ensures Inv(w', naming) && Grows(w.store, w'.store)
  {
    match m
    case Start(id, made) =>
      var j := w.jobs[id];
      assert BundleSound(w.store, j.target, naming);
      assert RecordSound(w.store, j.target);
    case Upload(id, sawAbsent, applied, reported) =>
      var j := w.jobs[id];
      if j.phase.next < 3 && applied {
        CreateKeepsStoreSound(w.store, j.phase.build, j.phase.next, j.target, naming);
        forall other | other in w.jobs ensures JobSound(w'.store, w.jobs[other], naming) {
          SoundnessIsStable(w.store, w'.store, w.jobs[other], naming);
        }
      }
    case _ =>
  }

  /**
    Every run of builders that race, crash and retry: the store only grows and is never
    rewritten, every bottle and record agrees with its target's one sealed bundle, a record is
    never present without its bundle, and so no job ever takes the orphaned-record error.
  */
  lemma {:induction false} EveryRunIsSound(run: seq<World>, i: nat, j: nat, naming: Naming)
    requires IsRun(run, naming) && i <= j < |run|
    ensures Inv(run[i], naming) && Inv(run[j], naming)
    ensures Grows(run[i].store, run[j].store)
    ensures forall id | id in run[j].jobs :: !run[j].jobs[id].phase.Orphaned?
    decreases j
  {
    if j > 0 {
      var k := if i == j then 0 else i;
      EveryRunIsSound(run, k, j - 1, naming);
      assert Moves(run[j - 1], run[j], naming);
      var m :| Next(run[j - 1], run[j], m, naming);
      StepPreservesInv(run[j - 1], run[j], m, naming);
    }
  }

  /** Any two jobs that finish for one target, in one run, published the same build. */
  lemma SingleWinner(run: seq<World>, j: nat, first: nat, second: nat, naming: Naming)
    requires IsRun(run, naming) && j < |run|
    requires first in run[j].jobs && second in run[j].jobs
    requires run[j].jobs[first].phase.Finished? && run[j].jobs[second].phase.Finished?
    requires run[j].jobs[first].target == run[j].jobs[second].target
    ensures run[j].jobs[first].phase.build == run[j].jobs[second].phase.build
  {
    EveryRunIsSound(run, j, j, naming);
    var (a, b) := (run[j].jobs[first].phase.build, run[j].jobs[second].phase.build);
    assert JobSound(run[j].store, run[j].jobs[first], naming);
    assert JobSound(run[j].store, run[j].jobs[second], naming);
    assert a.Plan()[0].1 == b.Plan()[0].1;
  }

  /**
    Once a bundle is sealed, a retry for the same snapshot restores exactly the sealed build,
    and none of its uploads can meet different bytes: interruption never needs a new build.
  */
  lemma RetryNeverConflicts(store: Store, b: Build, made: Build, naming: Naming, k: nat)
    requires StoreSound(store, naming) && b.Valid(b.record.target, naming)
    requires SealedAs(store, b.record.target, b)
    requires k < 3
    ensures Begin(store, b.record.target, b.record.formula, made) == Uploading(b, 0)
    ensures b.Plan()[k].0 in store ==> store[b.Plan()[k].0] == b.Plan()[k].1
  {
    assert RecordSound(store, b.record.target);
    assert BottleSound(store, b.record.filename, naming);
  }

  /** No planned asset of the build is there with other bytes. */
  predicate Agrees(store: Store, b: Build) {
    forall k | 0 <= k < 3 :: b.Plan()[k].0 in store ==> store[b.Plan()[k].0] == b.Plan()[k].1
  }

  /** Uploading one build's asset disturbs no other build: their assets are distinct. */
  lemma UploadKeepsAgreement(store: Store, b: Build, n: nat, other: Build, target: Target, otherTarget: Target, naming: Naming)
    requires n < 3 && b.Valid(target, naming) && other.Valid(otherTarget, naming)
    requires target == otherTarget ==> b == other
    requires Agrees(store, other)
    ensures Agrees(store[b.Plan()[n].0 := b.Plan()[n].1], other)
  {
  }

  /** A first build for a target starts uploading itself; a sealed one is restored or stops the job. */
  lemma FirstBuildIsUploaded(store: Store, target: Target, formula: Digest, made: Build, naming: Naming)
    requires StoreSound(store, naming) && made.Valid(target, naming) && made.record.formula == formula
    ensures BundleOf(target) !in store ==> Begin(store, target, formula, made) == Uploading(made, 0)
    ensures BundleOf(target) in store ==>
              exists b: Build :: b.Valid(target, naming) && SealedAs(store, target, b)
                && Begin(store, target, formula, made) == if b.record.formula == formula then Uploading(b, 0) else Stopped
  {
    assert BundleSound(store, target, naming) && RecordSound(store, target);
  }

  ghost predicate IsPath(path: seq<World>, naming: Naming) {
    path != [] && forall k | 0 < k < |path| :: Moves(path[k - 1], path[k], naming)
  }

  lemma PathGoesOn(path: seq<World>, w: World, naming: Naming)
    requires IsPath(path, naming) && Moves(path[|path| - 1], w, naming)
    ensures IsPath(path + [w], naming)
  {
    hide Moves;
  }

  /** Left alone, a job that starts on a target without assets finishes with its own build published. */
  lemma UncontestedBuildFinishes(w: World, id: nat, made: Build, naming: Naming)
    requires StoreSound(w.store, naming) && id in w.jobs && w.jobs[id].phase.Starting?
    requires var j := w.jobs[id];
             made.Valid(j.target, naming) && made.record.formula == j.formula
             && forall k | 0 <= k < 3 :: made.Plan()[k].0 !in w.store
    ensures exists path: seq<World> :: && IsPath(path, naming) && path[0] == w && id in path[|path| - 1].jobs
                           && path[|path| - 1].jobs[id].phase == Finished(made)
                           && PublishedUpTo(path[|path| - 1].store, made, 3)
  {
    var j := w.jobs[id];
    assert made.Plan()[0].0 == BundleOf(j.target) && made.Plan()[2].0 == RecordOf(j.target);
    var w1 := World(w.store, w.jobs[id := j.(phase := Uploading(made, 0))]);
    assert Next(w, w1, Start(id, made), naming);
    PathGoesOn([w], w1, naming);
    var path := UploadsFinish([w] + [w1], id, made, 0, naming);
  }

  /** The same from its launch on. */
  lemma LaunchedBuildFinishes(w: World, id: nat, made: Build, naming: Naming)
    requires StoreSound(w.store, naming) && id !in w.jobs
    requires made.Valid(made.record.target, naming) && forall k | 0 <= k < 3 :: made.Plan()[k].0 !in w.store
    ensures exists path: seq<World> :: && IsPath(path, naming) && path[0] == w && id in path[|path| - 1].jobs
                           && path[|path| - 1].jobs[id].phase == Finished(made)
                           && PublishedUpTo(path[|path| - 1].store, made, 3)
  {
    var (target, formula) := (made.record.target, made.record.formula);
    var launched := World(w.store, w.jobs[id := Job(target, formula, Starting)]);
    assert Next(w, launched, Launch(id, target, formula), naming);
    UncontestedBuildFinishes(launched, id, made, naming);
    var path: seq<World> :|
      && IsPath(path, naming) && path[0] == launched && id in path[|path| - 1].jobs
      && path[|path| - 1].jobs[id].phase == Finished(made)
      && PublishedUpTo(path[|path| - 1].store, made, 3);
    var whole := [w] + path;
    PathStartsEarlier(path, w, naming);
    assert whole[|whole| - 1] == path[|path| - 1];
  }

  lemma PathStartsEarlier(path: seq<World>, w: World, naming: Naming)
    requires IsPath(path, naming) && Moves(w, path[0], naming)
    ensures IsPath([w] + path, naming)
  {
    hide Moves;
  }

  lemma UploadsFinish(path: seq<World>, id: nat, made: Build, n: nat, naming: Naming) returns (longer: seq<World>)
    requires IsPath(path, naming) && n <= 3
    requires var w := path[|path| - 1];
             && id in w.jobs && w.jobs[id].phase == Uploading(made, n) && PublishedUpTo(w.store, made, n)
             && forall k | n <= k < 3 :: made.Plan()[k].0 !in w.store
    ensures IsPath(longer, naming) && longer[0] == path[0] && id in longer[|longer| - 1].jobs
    ensures longer[|longer| - 1].jobs[id].phase == Finished(made) && PublishedUpTo(longer[|longer| - 1].store, made, 3)
    decreases 3 - n
  {
    var w := path[|path| - 1];
    if n == 3 {
      var last := World(w.store, w.jobs[id := w.jobs[id].(phase := Finished(made))]);
      assert Next(w, last, Upload(id, false, false, false), naming);
      PathGoesOn(path, last, naming);
      longer := path + [last];
    } else {
      var after := UploadedAndChecked(w, id, made, n, naming);
      PathGoesOn(path, after.0, naming);
      PathGoesOn(path + [after.0], after.1, naming);
      longer := UploadsFinish(path + [after.0] + [after.1], id, made, n + 1, naming);
    }
  }

  lemma UploadedAndChecked(w: World, id: nat, made: Build, n: nat, naming: Naming) returns (after: (World, World))
    requires n < 3 && id in w.jobs && w.jobs[id].phase == Uploading(made, n)
    requires PublishedUpTo(w.store, made, n) && forall k | n <= k < 3 :: made.Plan()[k].0 !in w.store
    ensures Moves(w, after.0, naming) && Moves(after.0, after.1, naming)
    ensures id in after.1.jobs && after.1.jobs[id].phase == Uploading(made, n + 1)
    ensures PublishedUpTo(after.1.store, made, n + 1) && forall k | n < k < 3 :: made.Plan()[k].0 !in after.1.store
  {
    var j := w.jobs[id];
    var (asset, content) := made.Plan()[n];
    var store := w.store[asset := content];
    var uploaded := World(store, w.jobs[id := j.(phase := Verifying(made, n))]);
    assert Next(w, uploaded, Upload(id, true, true, true), naming);
    var checked := World(store, uploaded.jobs[id := j.(phase := Uploading(made, n + 1))]);
    assert Next(uploaded, checked, Verify(id), naming);
    after := (uploaded, checked);
  }

  /** The release as one publishing process sees it. */
  class ReleaseAssets {
    var store: Store
    const naming: Naming

    constructor (naming: Naming)
      ensures this.naming == naming && store == map[]
    {
      this.naming := naming;
      store := map[];
    }

    /** Other builders may act here unless it is quiet; a caller knows only that assets are never replaced. */
    method Rivals(quiet: bool)
      requires StoreSound(store, naming)
      modifies this
      ensures StoreSound(store, naming) && Grows(old(store), store)
      ensures quiet ==> store == old(store)
    {
    }

    /** Uploads the `n`-th planned asset when its name is absent, then compares what is there. */
    method Upload(b: Build, n: nat, quiet: bool) returns (ok: bool)
      requires StoreSound(store, naming) && b.Valid(b.record.target, naming)
      requires n < 3 && PublishedUpTo(store, b, n)
      modifies this
      ensures StoreSound(store, naming) && Grows(old(store), store)
      ensures ok ==> PublishedUpTo(store, b, n + 1)
      ensures quiet ==>
                var (asset, content) := b.Plan()[n];
                && (ok <==> asset in old(store) ==> old(store)[asset] == content)
                && store == if asset in old(store) then old(store) else old(store)[asset := content]
    {
      var (asset, content) := b.Plan()[n];
      if asset !in store {
        Rivals(quiet);
        // Creation fails when a rival made the asset first; a failed response stops the job.
        if asset in store {
          return false;
        }
        var applied, lost: bool := *, *;
        if quiet || applied {
          CreateKeepsStoreSound(store, b, n, b.record.target, naming);
          store := store[asset := content];
        }
        if asset !in store {
          return false;
        }
        if !quiet && lost {
          return false;
        }
      }
      Rivals(quiet);
      ok := asset in store && store[asset] == content;
    }

    /**
      Publishes one build per target; success means every planned asset has exactly its bytes. Where
      nobody interferes it succeeds exactly when no asset is there with other bytes.
    */
    method PublishBottles(builds: map<Target, Build>, quiet: bool) returns (ok: bool)
      requires StoreSound(store, naming)
      requires forall t | t in TARGETS :: t in builds && builds[t].Valid(t, naming)
      modifies this
      ensures StoreSound(store, naming) && Grows(old(store), store)
      ensures ok ==> forall t | t in TARGETS :: PublishedUpTo(store, builds[t], 3)
      ensures quiet ==> (ok <==> forall t | t in TARGETS :: Agrees(old(store), builds[t]))
    {
      ghost var start := store;
      for i := 0 to |TARGETS|
        invariant StoreSound(store, naming) && Grows(start, store)
        invariant forall k | 0 <= k < i :: PublishedUpTo(store, builds[TARGETS[k]], 3)
        invariant quiet && (forall t | t in TARGETS :: Agrees(start, builds[t])) ==>
                    forall t | t in TARGETS :: Agrees(store, builds[t])
      {
        var b := builds[TARGETS[i]];
        for n := 0 to 3
          invariant StoreSound(store, naming) && Grows(start, store)
          invariant PublishedUpTo(store, b, n)
          invariant forall k | 0 <= k < i :: PublishedUpTo(store, builds[TARGETS[k]], 3)
          invariant quiet && (forall t | t in TARGETS :: Agrees(start, builds[t])) ==>
                      forall t | t in TARGETS :: Agrees(store, builds[t])
        {
          ghost var before := store;
          var done := Upload(b, n, quiet);
          if !done {
            return false;
          }
          if quiet && forall t | t in TARGETS :: Agrees(start, builds[t]) {
            forall t | t in TARGETS ensures Agrees(store, builds[t]) {
              UploadKeepsAgreement(before, b, n, builds[t], TARGETS[i], t, naming);
            }
          }
        }
      }
      ok := true;
    }
  }
}
