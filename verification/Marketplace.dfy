/**
  Publishers of plugin snapshots racing on one shared branch. Every publisher fetches the
  head, decides by version, commits on that head and pushes without force; a push may take
  effect and still be reported as failed.
*/
module Marketplace {
  import opened Wrappers
  import opened GitBranch
  import opened PluginBundle
  import opened Versions

  /** What the branch says about a commit: the version of the receipt it carries. */
  function VersionOf(c: Commit<Tree>): Version {
    var r := ValidateRemoteTree(c.tree);
    if r.Some? then r.value.version else Version(0, 0, 0)
  }

  /** A history of complete snapshots of valid bundles with strictly increasing versions. */
  ghost predicate Lawful(c: Commit<Tree>)
    decreases c
  {
    && (exists b: Bundle :: b.Valid() && c.tree == b.Snapshot())
    && (c.parent.Some? ==> Lawful(c.parent.value) && VersionOf(c.parent.value).Less(VersionOf(c)))
  }

  ghost predicate LawfulHead(head: Head<Tree>) {
    head.Some? ==> Lawful(head.value)
  }

  datatype Outcome =
    | Published(commit: Commit<Tree>)
    | AlreadyThere(commit: Commit<Tree>)
    | Newer(commit: Commit<Tree>)
    | Failed

  /** Where one publisher stands; `Ready` counts the attempts it still has. */
  datatype Phase =
    | Ready(attempts: nat)
    | Pushing(left: nat, commit: Commit<Tree>)
    | Confirming(commit: Commit<Tree>, outcome: Outcome)
    | Done(outcome: Outcome)

  /** The decision a publisher takes on the head it just fetched. */
  function Decide(b: Bundle, head: Head<Tree>, left: nat, stamp: int): Phase {
    var current := if head.None? then None else ValidateRemoteTree(head.value.tree);
    if head.Some? && current.None? then Done(Failed)
    else
      match PublicationPolicy(current, b.receipt)
      case Err(_) => Done(Failed)
      case Ok(Superseded) => Done(Newer(head.value))
      case Ok(Unchanged) => Confirming(head.value, AlreadyThere(head.value))
      case Ok(Publish) => Pushing(left, Commit(b.Snapshot(), head, stamp))
  }

  /** The read-back: only the exact commit, holding the exact bytes, proves the publication. */
  function Confirm(b: Bundle, head: Head<Tree>, c: Commit<Tree>, outcome: Outcome): Outcome {
    if head == Some(c) && c.tree == b.Snapshot() then outcome else Failed
  }

  datatype Publisher = Publisher(bundle: Bundle, phase: Phase)

  datatype World = World(branch: Head<Tree>, publishers: map<nat, Publisher>)

  datatype Move =
    | Join(id: nat, bundle: Bundle)
    | Fetch(id: nat, stamp: int)
    | Push(id: nat, applied: bool, reported: bool)
    | ReadBack(id: nat)
    | Crash(id: nat)

  ghost predicate Next(w: World, w': World, m: Move) {
    match m
    case Join(id, b) =>
      && id !in w.publishers && b.Valid()
      && w' == World(w.branch, w.publishers[id := Publisher(b, Ready(3))])
    case Fetch(id, stamp) =>
      && id in w.publishers && w.publishers[id].phase.Ready?
      && var p := w.publishers[id];
         var phase := if p.phase.attempts == 0 then Done(Failed)
                      else Decide(p.bundle, w.branch, p.phase.attempts - 1, stamp);
         w' == World(w.branch, w.publishers[id := p.(phase := phase)])
    case Push(id, applied, reported) =>
      && id in w.publishers && w.publishers[id].phase.Pushing?
      && var p := w.publishers[id];
         var c := p.phase.commit;
         && (applied ==> FastForward(w.branch, c))
         && (reported ==> applied)
         && w' == World(if applied then Some(c) else w.branch,
                        w.publishers[id := p.(phase := if reported then Confirming(c, Published(c))
                                                       else Ready(p.phase.left))])
    case ReadBack(id) =>
      && id in w.publishers && w.publishers[id].phase.Confirming?
      && var p := w.publishers[id];
         w' == World(w.branch, w.publishers[id := p.(phase := Done(
                 Confirm(p.bundle, w.branch, p.phase.commit, p.phase.outcome)))])
    case Crash(id) =>
      && id in w.publishers
      && w' == World(w.branch, w.publishers[id := w.publishers[id].(phase := Done(Failed))])
  }

  ghost predicate Init(w: World) {
    LawfulHead(w.branch) && w.publishers == map[]
  }

  ghost predicate Moves(w: World, w': World) {
    exists m :: Next(w, w', m)
  }

  ghost predicate IsRun(run: seq<World>) {
    && |run| > 0
    && Init(run[0])
    && forall i | 0 < i < |run| :: Moves(run[i - 1], run[i])
  }

  /** `c` is, or was, on the branch. */
  predicate OnBranch(c: Commit<Tree>, branch: Head<Tree>) {
    branch.Some? && Ancestor(c, branch.value)
  }

  /** What a final outcome says about the branch, now and for good. */
  ghost predicate OutcomeSound(b: Bundle, branch: Head<Tree>, o: Outcome) {
    match o
    case Published(c) => OnBranch(c, branch) && c.tree == b.Snapshot()
    case AlreadyThere(c) => OnBranch(c, branch) && c.tree == b.Snapshot()
    case Newer(c) => OnBranch(c, branch) && b.receipt.version.Less(VersionOf(c))
    case Failed => true
  }

  ghost predicate PublisherSound(p: Publisher, branch: Head<Tree>) {
    && p.bundle.Valid()
    && match p.phase
       case Ready(_) => true
       case Pushing(_, c) => Lawful(c) && c.tree == p.bundle.Snapshot() && Extends(c.parent, branch)
       case Confirming(c, o) => OutcomeSound(p.bundle, branch, o) && (o == Published(c) || o == AlreadyThere(c))
       case Done(o) => OutcomeSound(p.bundle, branch, o)
  }

  ghost predicate Inv(w: World) {
    && LawfulHead(w.branch)
    && forall id | id in w.publishers :: PublisherSound(w.publishers[id], w.branch)
  }

  lemma SnapshotVersion(b: Bundle, c: Commit<Tree>)
    requires b.Valid() && c.tree == b.Snapshot()
    ensures ValidateRemoteTree(c.tree) == Some(b.receipt)
    ensures VersionOf(c) == b.receipt.version
  {
    SnapshotReadsBack(b);
  }

  /** On a lawful head the decision is sound whatever it is. */
  lemma DecisionIsSound(b: Bundle, head: Head<Tree>, left: nat, stamp: int)
    requires b.Valid() && LawfulHead(head)
    ensures PublisherSound(Publisher(b, Decide(b, head, left, stamp)), head)
  {
    var phase := Decide(b, head, left, stamp);
    if head.Some? {
      var held: Bundle :| held.Valid() && head.value.tree == held.Snapshot();
      SnapshotVersion(held, head.value);
      if phase.Pushing? {
        SnapshotVersion(b, phase.commit);
      } else if phase.Confirming? {
        ReceiptDeterminesTree(head.value.tree, b);
      }
    } else {
      SnapshotVersion(b, Commit(b.Snapshot(), head, stamp));
    }
  }

  /** On a lawful head the version decides, and an equal version only for the very same tree. */
  lemma DecisionIsExact(b: Bundle, head: Head<Tree>, left: nat, stamp: int)
    requires b.Valid() && LawfulHead(head)
    ensures var phase := Decide(b, head, left, stamp);
            && (phase.Pushing? <==> head.None? || VersionOf(head.value).Less(b.receipt.version))
            && (phase.Confirming? <==> head.Some? && head.value.tree == b.Snapshot())
            && (phase == Done(Failed) <==>
                  head.Some? && VersionOf(head.value) == b.receipt.version && head.value.tree != b.Snapshot())
            && (head.Some? && b.receipt.version.Less(VersionOf(head.value)) ==> phase == Done(Newer(head.value)))
  {
    if head.Some? {
      var held: Bundle :| held.Valid() && head.value.tree == held.Snapshot();
      SnapshotVersion(held, head.value);
      SnapshotVersion(b, Commit(b.Snapshot(), head, stamp));
      VersionOrder(held.receipt.version, b.receipt.version, held.receipt.version);
      if held.receipt == b.receipt {
        ReceiptDeterminesTree(head.value.tree, b);
      }
    }
  }

  /** Left alone, a publisher with a newer version gets its exact snapshot onto the branch. */
  lemma UncontestedPublishSucceeds(b: Bundle, head: Head<Tree>, left: nat, stamp: int)
    requires b.Valid() && LawfulHead(head)
    requires head.None? || VersionOf(head.value).Less(b.receipt.version)
    ensures var c := Commit(b.Snapshot(), head, stamp);
            && Decide(b, head, left, stamp) == Pushing(left, c)
            && FastForward(head, c)
            && Confirm(b, Some(c), c, Published(c)) == Published(c)
  {
    DecisionIsExact(b, head, left, stamp);
    if head.Some? {
      assert Ancestor(head.value, head.value);
    }
  }

  ghost predicate Follows(path: seq<World>, moves: seq<Move>) {
    |path| == |moves| + 1 && forall k | 0 <= k < |moves| :: Next(path[k], path[k + 1], moves[k])
  }

  lemma FollowsOn(path: seq<World>, moves: seq<Move>, w: World, m: Move)
    requires Follows(path, moves) && Next(path[|moves|], w, m)
    ensures Follows(path + [w], moves + [m])
  {
    hide Next;
  }

  /** What a publisher does after joining, while `losses` of its pushes are refused. */
  function Attempts(id: nat, b: Bundle, losses: nat, stamp: int): seq<Move> {
    if losses == 0 then [Join(id, b)] else Attempts(id, b, losses - 1, stamp) + [Fetch(id, stamp), Push(id, false, false)]
  }

  lemma {:induction false} LosesAttempts(w: World, id: nat, b: Bundle, losses: nat, stamp: int) returns (path: seq<World>)
    requires LawfulHead(w.branch) && id !in w.publishers && b.Valid() && losses <= 3
    requires w.branch.None? || VersionOf(w.branch.value).Less(b.receipt.version)
    ensures Follows(path, Attempts(id, b, losses, stamp)) && path[0] == w
    ensures path[|path| - 1] == World(w.branch, w.publishers[id := Publisher(b, Ready(3 - losses))])
  {
    if losses == 0 {
      var joined := World(w.branch, w.publishers[id := Publisher(b, Ready(3))]);
      assert Next(w, joined, Join(id, b));
      path := [w, joined];
    } else {
      var before := LosesAttempts(w, id, b, losses - 1, stamp);
      var (moves, ready) := (Attempts(id, b, losses - 1, stamp), before[|before| - 1]);
      UncontestedPublishSucceeds(b, w.branch, 3 - losses, stamp);
      var c := Commit(b.Snapshot(), w.branch, stamp);
      var fetched := World(w.branch, w.publishers[id := Publisher(b, Pushing(3 - losses, c))]);
      var refused := World(w.branch, w.publishers[id := Publisher(b, Ready(3 - losses))]);
      assert Next(ready, fetched, Fetch(id, stamp));
      FollowsOn(before, moves, fetched, Fetch(id, stamp));
      assert Next(fetched, refused, Push(id, false, false));
      FollowsOn(before + [fetched], moves + [Fetch(id, stamp)], refused, Push(id, false, false));
      path := before + [fetched] + [refused];
      assert moves + [Fetch(id, stamp)] + [Push(id, false, false)] == Attempts(id, b, losses, stamp);
    }
  }

  /** A newer bundle whose first pushes are refused is still published by the second or third attempt. */
  lemma PublishedByThirdAttempt(w: World, id: nat, b: Bundle, losses: nat, stamp: int)
    requires LawfulHead(w.branch) && id !in w.publishers && b.Valid() && losses < 3
    requires w.branch.None? || VersionOf(w.branch.value).Less(b.receipt.version)
    ensures var c := Commit(b.Snapshot(), w.branch, stamp);
            exists path :: && Follows(path, Attempts(id, b, losses, stamp) + [Fetch(id, stamp)] + [Push(id, true, true)] + [ReadBack(id)])
                           && path[0] == w
                           && path[|path| - 1] == World(Some(c), w.publishers[id := Publisher(b, Done(Published(c)))])
  {
    var before := LosesAttempts(w, id, b, losses, stamp);
    var (moves, ready) := (Attempts(id, b, losses, stamp), before[|before| - 1]);
    var c := Commit(b.Snapshot(), w.branch, stamp);
    var fetched, pushed, done := LastAttempt(w, ready, id, b, 2 - losses, stamp);
    hide Next;
    FollowsOn(before, moves, fetched, Fetch(id, stamp));
    FollowsOn(before + [fetched], moves + [Fetch(id, stamp)], pushed, Push(id, true, true));
    FollowsOn(before + [fetched] + [pushed], moves + [Fetch(id, stamp)] + [Push(id, true, true)], done, ReadBack(id));
  }

  lemma LastAttempt(w: World, ready: World, id: nat, b: Bundle, left: nat, stamp: int) returns (fetched: World, pushed: World, done: World)
    requires LawfulHead(w.branch) && b.Valid()
    requires w.branch.None? || VersionOf(w.branch.value).Less(b.receipt.version)
    requires ready == World(w.branch, w.publishers[id := Publisher(b, Ready(left + 1))])
    ensures Next(ready, fetched, Fetch(id, stamp)) && Next(fetched, pushed, Push(id, true, true)) && Next(pushed, done, ReadBack(id))
    ensures var c := Commit(b.Snapshot(), w.branch, stamp);
            done == World(Some(c), w.publishers[id := Publisher(b, Done(Published(c)))])
  {
    var c := Commit(b.Snapshot(), w.branch, stamp);
    UncontestedPublishSucceeds(b, w.branch, left, stamp);
    fetched := World(w.branch, w.publishers[id := Publisher(b, Pushing(left, c))]);
    pushed := World(Some(c), w.publishers[id := Publisher(b, Confirming(c, Published(c)))]);
    done := World(Some(c), w.publishers[id := Publisher(b, Done(Published(c)))]);
    hide Decide, FastForward, Lawful, VersionOf;
  }

  /** After three refused pushes the publisher gives up and leaves the branch as it was. */
  lemma GivesUpAfterThree(w: World, id: nat, b: Bundle, stamp: int)
    requires LawfulHead(w.branch) && id !in w.publishers && b.Valid()
    requires w.branch.None? || VersionOf(w.branch.value).Less(b.receipt.version)
    ensures exists path :: && Follows(path, Attempts(id, b, 3, stamp) + [Fetch(id, stamp)]) && path[0] == w
                           && path[|path| - 1] == World(w.branch, w.publishers[id := Publisher(b, Done(Failed))])
  {
    var before := LosesAttempts(w, id, b, 3, stamp);
    var ready := before[|before| - 1];
    var failed := World(w.branch, w.publishers[id := Publisher(b, Done(Failed))]);
    assert Next(ready, failed, Fetch(id, stamp));
    hide Next;
    FollowsOn(before, Attempts(id, b, 3, stamp), failed, Fetch(id, stamp));
  }

  lemma SoundnessIsStable(p: Publisher, before: Head<Tree>, after: Head<Tree>)
    requires PublisherSound(p, before) && Extends(before, after)
    ensures PublisherSound(p, after)
  {
    match p.phase
    case Ready(_) =>
    case Pushing(_, c) => ExtendsTransitive(c.parent, before, after);
    case Confirming(_, o) => OutcomeIsStable(p.bundle, o, before, after);
    case Done(o) => OutcomeIsStable(p.bundle, o, before, after);
  }

  lemma OutcomeIsStable(b: Bundle, o: Outcome, before: Head<Tree>, after: Head<Tree>)
    requires OutcomeSound(b, before, o) && Extends(before, after)
    ensures OutcomeSound(b, after, o)
  {
    if !o.Failed? {
      AncestorTransitive(o.commit, before.value, after.value);
    }
  }

  lemma DecisionStopsEarly(b: Bundle, head: Head<Tree>, left: nat, stamp: int)
    ensures var phase := Decide(b, head, left, stamp);
            phase.Done? ==> phase.outcome.Newer? || phase.outcome.Failed?
  {
  }

  /** A push that takes effect keeps everything its rivals know. */
  lemma PushPreservesInv(w: World, w': World, id: nat, applied: bool, reported: bool)
    requires Inv(w) && Next(w, w', Push(id, applied, reported))
    ensures Inv(w') && Extends(w.branch, w'.branch)
  {
    hide Lawful, Decide, Ancestor, VersionOf;
    ExtendsReflexive(w.branch);
    var p := w.publishers[id];
    if applied {
      ExtendsReflexive(w'.branch);
      forall other | other in w.publishers ensures PublisherSound(w.publishers[other], w'.branch) {
        SoundnessIsStable(w.publishers[other], w.branch, w'.branch);
      }
    }
  }

  lemma StepPreservesInv(w: World, w': World, m: Move)
    requires Inv(w) && Next(w, w', m)
    ensures Inv(w') && Extends(w.branch, w'.branch)
  {
    hide Lawful, Decide, Ancestor, VersionOf;
    ExtendsReflexive(w.branch);
    match m
    case Fetch(id, stamp) =>
      var p := w.publishers[id];
      if p.phase.attempts > 0 {
        DecisionIsSound(p.bundle, w.branch, p.phase.attempts - 1, stamp);
      }
    case Push(id, applied, reported) =>
      PushPreservesInv(w, w', id, applied, reported);
    case _ =>
  }

  /**
    Every run, with any number of publishers and lost push responses: the branch only grows,
    every head is the exact snapshot of a valid bundle, versions strictly increase along it,
    and every outcome reported by a publisher stays true.
  */
  lemma {:induction false} EveryRunIsSound(run: seq<World>, i: nat, j: nat)
    requires IsRun(run) && i <= j < |run|
    ensures Inv(run[i]) && Inv(run[j])
    ensures Extends(run[i].branch, run[j].branch)
    decreases j
  {
    if j == 0 {
      assert Inv(run[0]);
    } else {
      var k := if i == j then 0 else i;
      EveryRunIsSound(run, k, j - 1);
      assert Moves(run[j - 1], run[j]);
      var m :| Next(run[j - 1], run[j], m);
      StepPreservesInv(run[j - 1], run[j], m);
      ExtendsTransitive(run[k].branch, run[j - 1].branch, run[j].branch);
      if i < j {
        assert k == i;
      }
    }
  }

  lemma {:induction false} VersionsIncrease(a: Commit<Tree>, c: Commit<Tree>)
    requires Lawful(c) && Ancestor(a, c)
    ensures Lawful(a)
    ensures a == c || VersionOf(a).Less(VersionOf(c))
    decreases c
  {
    if a != c {
      VersionsIncrease(a, c.parent.value);
    }
  }

  /** No version is on the branch twice, so never with two receipts. */
  lemma VersionIsPublishedOnce(head: Commit<Tree>, a: Commit<Tree>, b: Commit<Tree>)
    requires Lawful(head) && Ancestor(a, head) && Ancestor(b, head)
    requires VersionOf(a) == VersionOf(b)
    ensures a == b
  {
    HistoryIsLinear(a, b, head);
    VersionsIncrease(a, head);
    VersionsIncrease(b, head);
    if Ancestor(a, b) {
      VersionsIncrease(a, b);
    } else {
      VersionsIncrease(b, a);
    }
    VersionOrder(VersionOf(a), VersionOf(b), VersionOf(a));
  }

  /**
    After a push that took effect, with its response lost or not, a re-read never leads to a
    second commit for that version: the bundle is found unchanged at the head, or superseded.
  */
  lemma LostPushIsNotRepeated(b: Bundle, mine: Commit<Tree>, head: Commit<Tree>, left: nat, stamp: int)
    requires b.Valid() && Lawful(head)
    requires Ancestor(mine, head) && mine.tree == b.Snapshot()
    ensures Decide(b, Some(head), left, stamp)
         == if mine == head then Confirming(head, AlreadyThere(head)) else Done(Newer(head))
  {
    SnapshotVersion(b, mine);
    VersionsIncrease(mine, head);
    var held: Bundle :| held.Valid() && head.tree == held.Snapshot();
    SnapshotVersion(held, head);
    VersionOrder(b.receipt.version, held.receipt.version, b.receipt.version);
  }

  /** Every commit the branch gained in a run was its head at some point of the run. */
  lemma {:induction false} GainedCommitsWereHeads(run: seq<World>, j: nat, c: Commit<Tree>) returns (at: nat)
    requires IsRun(run) && j < |run|
    requires OnBranch(c, run[j].branch) && !OnBranch(c, run[0].branch)
    ensures at <= j && run[at].branch == Some(c)
    decreases j
  {
    if run[j].branch == Some(c) {
      at := j;
    } else {
      EveryRunIsSound(run, 0, j - 1);
      assert Moves(run[j - 1], run[j]);
      var m :| Next(run[j - 1], run[j], m);
      if m.Push? && m.applied {
        var pushed := run[j - 1].publishers[m.id].phase.commit;
        PushIsCompareAndSwap(pushed.parent, run[j - 1].branch, pushed);
      }
      at := GainedCommitsWereHeads(run, j - 1, c);
    }
  }

  /** What the decision comes to when nothing happens between the fetch and the read-back. */
  lemma QuietDecision(b: Bundle, head: Head<Tree>, left: nat, stamp: int)
    requires b.Valid() && LawfulHead(head)
    ensures Decide(b, head, left, stamp) ==
            if head.None? || VersionOf(head.value).Less(b.receipt.version)
            then Pushing(left, Commit(b.Snapshot(), head, stamp))
            else if head.value.tree == b.Snapshot() then Confirming(head.value, AlreadyThere(head.value))
            else if b.receipt.version.Less(VersionOf(head.value)) then Done(Newer(head.value))
            else Done(Failed)
    ensures FastForward(head, Commit(b.Snapshot(), head, stamp))
  {
    DecisionIsExact(b, head, left, stamp);
    if head.Some? {
      VersionOrder(VersionOf(head.value), b.receipt.version, VersionOf(head.value));
      assert Ancestor(head.value, head.value);
    }
    hide Lawful;
  }

  /** The remote branch as one publisher sees it between its own calls. */
  class RemoteBranch {
    var head: Head<Tree>

    constructor (initial: Head<Tree>)
      ensures head == initial
    {
      head := initial;
    }

    /** Other publishers may act here unless it is quiet; a caller knows only that they keep the law and only add. */
    method Rivals(quiet: bool)
      requires LawfulHead(head)
      modifies this
      ensures LawfulHead(head) && Extends(old(head), head)
      ensures quiet ==> head == old(head)
    {
    }

    /** A push without force. Unless it is quiet, a failed report says nothing about whether it took effect. */
    method Push(c: Commit<Tree>, quiet: bool) returns (reported: bool)
      modifies this
      ensures head == old(head) || (FastForward(old(head), c) && head == Some(c))
      ensures reported ==> head == Some(c)
      ensures quiet && FastForward(old(head), c) ==> reported
    {
      reported := false;
      if FastForward(head, c) {
        if quiet {
          head := Some(c);
          return true;
        }
        if * {
          head := Some(c);
          if * {
            reported := true;
          }
        }
      }
    }

    /**
      One publisher's loop of at most three attempts, with rivals acting before every access.
      Whatever happens, the branch stays lawful and only grows, and the outcome is sound. Where nobody
      interferes, a newer version is published on the old head and nothing else is written.
    */
    method PublishGit(bundle: Bundle, stamp: int, quiet: bool) returns (outcome: Outcome)
      requires bundle.Valid() && LawfulHead(head)
      modifies this
      ensures LawfulHead(head) && Extends(old(head), head)
      ensures OutcomeSound(bundle, head, outcome)
      ensures outcome.Published? || outcome.AlreadyThere? ==> head == Some(outcome.commit)
      ensures quiet ==>
                if old(head).None? || VersionOf(old(head).value).Less(bundle.receipt.version)
                then outcome == Published(Commit(bundle.Snapshot(), old(head), stamp)) && head == Some(outcome.commit)
                else head == old(head)
                     && outcome == if old(head).value.tree == bundle.Snapshot() then AlreadyThere(old(head).value)
                                   else if bundle.receipt.version.Less(VersionOf(old(head).value)) then Newer(old(head).value)
                                   else Failed
    {
      hide Decide, Lawful, Ancestor;
      ghost var start := head;
      ExtendsReflexive(start);
      for attempt := 0 to 3
        invariant LawfulHead(head) && Extends(start, head)
        invariant quiet ==> head == start && attempt == 0
      {
        ghost var before := head;
        Rivals(quiet);
        ExtendsTransitive(start, before, head);
        var phase := Decide(bundle, head, 2 - attempt, stamp);
        DecisionIsSound(bundle, head, 2 - attempt, stamp);
        DecisionStopsEarly(bundle, head, 2 - attempt, stamp);
        if quiet {
          QuietDecision(bundle, head, 2 - attempt, stamp);
        }
        ghost var fetched := head;
        Rivals(quiet);
        ExtendsTransitive(start, fetched, head);
        SoundnessIsStable(Publisher(bundle, phase), fetched, head);
        match phase
        case Done(o) =>
          return o;
        case Confirming(c, o) =>
          return Confirm(bundle, head, c, o);
        case Pushing(_, c) =>
          ghost var contested := head;
          var reported := Push(c, quiet);
          ExtendsReflexive(contested);
          assert Extends(contested, head);
          ExtendsTransitive(start, contested, head);
          if reported {
            ghost var pushed := head;
            Rivals(quiet);
            ExtendsTransitive(start, pushed, head);
            return Confirm(bundle, head, c, Published(c));
          }
        case Ready(_) =>
      }
      outcome := Failed;
    }
  }
}
