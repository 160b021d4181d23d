/**
  What the publisher, the gate refresh, the producer sync and the evidence reconciliation write on
  items, and when the ledger still replays an item in full.
*/
module OutsideWrites {
  import opened Wrappers
  import opened Protocol
  import opened Submission
  import opened ProtocolRuns
  import opened ProtocolSteps
  import opened ProtocolWorld

  /** A write on one item by a command that records no answer. */
  datatype Write =
    | Publish(at: int)                          // a thread whose reply was posted and that was resolved
    | Refresh(resolved: bool, outdated: bool)   // a thread as GitHub shows it now
    | Ingest                                    // a finding reported again
    | SyncAway(at: int)                         // a finding no longer reported
    | Reconcile(validation: Json, binding: Option<Json>)

  function Written(item: Item, w: Write): Item {
    match w
    case Publish(at) =>
      item.(phase := Terminal("closed"), status := IsClosed, blocking := false, claimedBy := None, activeLease := None,
            evidence := item.evidence.(handled := true, handledAt := Some(at)))
    case Refresh(resolved, outdated) => Refreshed(item, resolved, outdated)
    case Ingest =>
      item.(phase := Open, status := IsOpen, blocking := true, evidence := item.evidence.(handled := false))
    case SyncAway(at) =>
      item.(phase := Terminal("closed"), status := IsClosed, blocking := false,
            evidence := item.evidence.(handled := true, handledAt := Some(at)))
    case Reconcile(validation, binding) =>
      item.(evidence := item.evidence.(validation := validation,
                                       binding := if binding.Some? then binding else item.evidence.binding))
  }

  function Refreshed(before: Item, resolved: bool, outdated: bool): Item {
    var item := before.(outdated := outdated);
    if resolved then
      item.(phase := if IsTerminal(item.phase) then item.phase else Terminal("closed"), status := IsClosed,
            blocking := false, evidence := item.evidence.(handled := true))
    else if item.evidence.accepted.Some? || item.evidence.publish.Some? then
      item.(phase := PublishReady, status := if item.status == NoStatus then IsOpen else item.status, blocking := true)
    else if outdated then item.(phase := Stale, status := IsStale, blocking := true)
    else item.(phase := Open, status := IsOpen, blocking := true)
  }

  /** Every such write is an observation, so every run may hold it anywhere. */
  lemma WritesAreObservations(s: State, i: string, w: Write)
    requires i in s.items
    ensures Observes(s, s.items[i := Written(s.items[i], w)])
  {
  }

  /** What a write means for the claimants of an item and for the gate. */
  lemma WritesSettleOrReopen(item: Item, w: Write)
    requires item.resolved.None? && item.phase != Claimed && (w.Ingest? ==> !item.thread)
    ensures var after := Written(item, w);
            && after.thread == item.thread && after.path == item.path && after.keys == item.keys
            && after.classification == item.classification && after.decision == item.decision
            && match w
               case Publish(at) =>
                 && !IsClaimable(after) && !after.blocking && after.activeLease.None? && after.claimedBy.None?
                 && after.status == IsClosed
                 && after.evidence.handled && after.evidence.handledAt == Some(at)
               case Refresh(true, outdated) =>
                 && !(after.thread && IsClaimable(after)) && !after.blocking && after.evidence.handled && after.outdated == outdated
                 && after.status == IsClosed
                 && after.phase == (if item.phase.Terminal? || item.phase == Handled(Fix) then item.phase else Terminal("closed"))
               case Refresh(false, outdated) =>
                 && after.blocking && after.outdated == outdated && after.evidence == item.evidence
                 && (item.thread ==> (IsClaimable(after) <==> item.evidence.accepted.None? && item.evidence.publish.None?))
                 && (if item.evidence.accepted.Some? || item.evidence.publish.Some?
                     then after.phase == PublishReady && after.status == if item.status.NoStatus? then IsOpen else item.status
                     else after.phase == (if outdated then Stale else Open) && after.status == if outdated then IsStale else IsOpen)
               case Ingest =>
                 IsClaimable(after) && after.blocking && !after.evidence.handled && after.status == IsOpen
               case SyncAway(at) =>
                 && !IsClaimable(after) && !after.blocking && after.evidence.handled && after.evidence.handledAt == Some(at)
                 && after.status == IsClosed
               case Reconcile(validation, binding) =>
                 && after.evidence.validation == validation && (binding.Some? ==> after.evidence.binding == binding)
                 && (binding.None? ==> after.evidence.binding == item.evidence.binding)
                 && after == item.(evidence := after.evidence)
  {
  }

  // ------------------------------------------------------------------ replay

  /** The ledger replays the whole evidence of an item, timestamp and bindings aside. */
  predicate Replays(s: State, i: string)
    requires i in s.items
  {
    Timeless(s.items[i].evidence) == EvidenceOf(s.ledger, i, s.items[i].thread)
  }

  /** The last answer on record for an item. */
  function LastAnswer(ledger: seq<Event>, i: string): Option<Snapshot> {
    if ledger == [] then None
    else
      var e := ledger[|ledger| - 1];
      if e.ResponseAccepted? && e.itemId == i then Some(e.snapshot) else LastAnswer(ledger[..|ledger| - 1], i)
  }

  /** The handled mark and the validation are those that the last recorded answer left. */
  predicate MarksAreAnswered(s: State, i: string)
    requires i in s.items
  {
    var item := s.items[i];
    var last := if item.thread then None else LastAnswer(s.ledger, i);
    item.evidence.handled == last.Some? && item.evidence.validation == if last.Some? then last.value.validation else Null
  }

  lemma {:induction false} ReplayedMarks(ledger: seq<Event>, i: string, thread: bool)
    ensures var e := EvidenceOf(ledger, i, thread);
            var last := if thread then None else LastAnswer(ledger, i);
            && e.handled == last.Some? && e.validation == (if last.Some? then last.value.validation else Null)
            && Timeless(e) == e
  {
    if ledger != [] {
      ReplayedMarks(ledger[..|ledger| - 1], i, thread);
    }
  }

  /**
    In every run, at every moment, the ledger replays an item in full exactly when the item's handled
    mark and validation are the ones its last recorded answer left: no write since has changed them.
  */
  lemma FullReplayExactly(run: seq<World>, k: nat, i: string)
    requires IsRun(run) && WorldSound(run[0]) && k < |run| && i in run[k].store.items
    ensures Replays(run[k].store, i) <==> MarksAreAnswered(run[k].store, i)
  {
    EveryRunIsSound(run);
    var s := run[k].store;
    assert IsRebuilt(s, i) by { assert WorldSound(run[k]); }
    ReplayedMarks(s.ledger, i, s.items[i].thread);
    hide WorldSound, IsRun;
    LastingAndMarks(s.items[i].evidence, EvidenceOf(s.ledger, i, s.items[i].thread));
  }

  lemma LastingAndMarks(a: Evidence, b: Evidence)
    requires Lasting(a) == Lasting(b) && Timeless(b) == b
    ensures Timeless(a) == b <==> a.handled == b.handled && a.validation == b.validation
  {
  }

  /** The writes that change a mark. */
  predicate Disturbs(item: Item, w: Write) {
    match w
    case Publish(_) => !item.evidence.handled
    case Refresh(resolved, _) => resolved && !item.evidence.handled
    case Ingest => item.evidence.handled
    case SyncAway(_) => !item.evidence.handled
    case Reconcile(validation, _) => validation != item.evidence.validation
  }

  /** A write ends the full replay of an item exactly when it changes a mark. */
  lemma WriteKeepsReplay(s: State, i: string, w: Write)
    requires i in s.items && Replays(s, i)
    ensures Replays(s.(items := s.items[i := Written(s.items[i], w)]), i) <==> !Disturbs(s.items[i], w)
  {
  }

  /** Publishing an answered thread always ends its full replay: replay never marks a thread handled. */
  lemma PublishEndsReplay(s: State, i: string, at: int)
    requires i in s.items && s.items[i].thread
    ensures !Replays(s.(items := s.items[i := Written(s.items[i], Publish(at))]), i)
  {
    ReplayedMarks(s.ledger, i, true);
  }

  /** An accepted answer brings a local finding back to full replay, whatever was written before. */
  lemma AnswerRestoresReplay(s: State, t: State, id: string)
    requires Sound(s) && Accepts(s, t, id) && t.ledger[|s.ledger|].ResponseAccepted?
    ensures var i := t.ledger[|s.ledger|].itemId;
            && i in t.items
            && (Replays(t, i) <==> !t.items[i].thread || Replays(s, i))
  {
    var e := t.ledger[|s.ledger|];
    var i := e.itemId;
    assert IsRebuilt(s, i);
    assert t.ledger[..|t.ledger| - 1] == s.ledger;
    ReplayedMarks(s.ledger, i, s.items[i].thread);
    hide Sound;
    AnswerOverwrites(s.items[i].evidence, EvidenceOf(s.ledger, i, s.items[i].thread), s.items[i].thread, Replayed(e.snapshot));
  }

  lemma AnswerOverwrites(a: Evidence, b: Evidence, thread: bool, answer: Answer)
    requires Lasting(a) == Lasting(b) && Timeless(b) == b
    ensures Timeless(ApplyEvidence(a, thread, answer, 0)) == Timeless(ApplyEvidence(b, thread, answer, 0))
       <==> !thread || Timeless(a) == b
  {
  }

  /** A refresh of an unresolved thread makes a reopened answer ready to publish again. */
  lemma RefreshRestoresAnswer(item: Item, outdated: bool)
    requires item.evidence.accepted.Some?
    ensures Written(item, Refresh(false, outdated)).phase == PublishReady
    ensures Written(item, Refresh(false, outdated)).evidence == item.evidence
  {
  }
}
