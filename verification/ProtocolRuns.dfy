/** Everything agents do to one session, in any order and from any number of processes. */
module ProtocolRuns {
  import opened Wrappers
  import opened Protocol
  import opened Leases
  import opened Submission
  import opened BatchClaim
  import opened BatchSubmit

  // ----------------------------------------------------------------- effects

  predicate IsTriageOn(s: State, id: string, itemId: string) {
    LiveOn(s, id, itemId) && s.leases[id].role == Triage
  }

  /** Record a classification and give back the triage lease it answers. */
  ghost function Classify(s: State, i: string, agentId: string, verdict: Resolution): Option<State> {
    if i !in s.items then None
    else
      var item := s.items[i].(classification := Some(verdict), decision := Some(verdict));
      var noted := s.(items := s.items[i := item], ledger := s.ledger + [ClassificationRecorded(i, agentId, verdict)]);
      if id :| IsTriageOn(s, id, i) then
        Some(noted.(items := s.items[i := Reopened(item)],
                    leases := s.leases[id := s.leases[id].(status := Released)],
                    ledger := noted.ledger + [ClassificationLeaseReleased(i, id)]))
      else Some(noted)
  }

  /** An unclassified item takes the classification that the request restored from its snapshot. */
  function Restored(s: State, i: string, local: Option<Resolution>): State
    requires i in s.items
  {
    var item := s.items[i];
    s.(items := s.items[i := if item.classification.None? && local.Some?
                             then item.(classification := local, decision := local) else item])
  }

  /** The claim transaction of a single request. */
  function ClaimOne(s: State, g: Grant, local: Option<Resolution>, now: int): Option<State> {
    if g.itemId !in s.items then None
    else
      var claimed := Claim(Restored(Expire(s, now), g.itemId, local), g, now);
      if claimed.None? then None
      else
        var t := claimed.value;
        Some(t.(items := t.items[g.itemId := t.items[g.itemId].(phase := Claimed, activeLease := Some(g.leaseId))],
                ledger := t.ledger + [RequestIssued(g.itemId, g.leaseId, g.agentId, g.requestId, false)]))
  }

  /** A request that ends without a claim keeps the expiries it noticed. */
  function TurnAway(s: State, now: int, rejected: Option<(string, string)>): State {
    var e := Expire(s, now);
    if rejected.Some? then e.(ledger := e.ledger + [RequestRejected(rejected.value.0, rejected.value.1)]) else e
  }

  /** Re-entry by the holder after its request file had to be rebuilt. */
  ghost function Reenter(s: State, i: string, agentId: string, now: int, rebuilt: Hash): Option<State> {
    var e := Expire(s, now);
    var own := OwnOn(e, i, agentId);
    if own.None? || i !in e.items then None
    else
      var lease := e.leases[own.value];
      Some(e.(leases := e.leases[own.value := lease.(hash := rebuilt)],
              ledger := e.ledger + [RequestIssued(i, own.value, agentId, lease.requestId, true)]))
  }

  /** One response submitted on its own, with the verdict on its revision binding and cited commit. */
  ghost function SubmitSingle(s: State, r: Response, files: map<string, File>, judge: Judge, verdict: Option<Reason>, now: int)
    : Option<State>
  {
    var prepared := Prepare(s, r, files, judge);
    if r.leaseId == "" then Some(s)
    else if prepared.Err? then Some(Record(s, ItemOfRejection(s, r, prepared.error), Signer(r), prepared.error))
    else
      PreparedIsConsistent(s, r, files, judge);
      var p := prepared.value;
      if verdict.Some? then
        var noted := Record(s, p.itemId, r.agentId, verdict.value);
        Some(if IsIrrecoverable(verdict.value) then ReleaseIrrecoverable(noted, p.leaseId, p.itemId) else noted)
      else
        match AcceptSubmission(s, r, p, now)
        case Answered(t, _) => Some(t)
        case VerifierRejected(t, _) => Some(t)
        case Refused(t, _) => Some(t)
        case Aborted => None
  }

  datatype Action =
    | DoClassify(itemId: string, agentId: string, verdict: Resolution)
    | DoClaim(grant: Grant, local: Option<Resolution>, now: int)
    | DoTurnAway(now: int, rejected: Option<(string, string)>)
    | DoReenter(itemId: string, agentId: string, now: int, rebuilt: Hash)
    | DoClaimBatch(order: seq<string>, call: Call)
    | DoSubmit(response: Response, files: map<string, File>, judge: Judge, refused: Option<Reason>, now: int)
    | DoSubmitBatch(responses: seq<Response>, context: Context)
    | DoRelease(leaseId: string)
    | DoReleaseSelfStale(itemId: string, agentId: string)
    | DoReclaim(now: int, visited: seq<string>)
    | DoCompensate(entries: seq<Entry>)
    | DoObserve(items: map<string, Item>)

  /** What an action does to the session it works on; `None` when it aborts. */
  ghost function Effect(s: State, a: Action): Option<State> {
    match a
    case DoClassify(i, agentId, verdict) => Classify(s, i, agentId, verdict)
    case DoClaim(g, local, now) => ClaimOne(s, g, local, now)
    case DoTurnAway(now, rejected) => Some(TurnAway(s, now, rejected))
    case DoReenter(i, agentId, now, rebuilt) => Reenter(s, i, agentId, now, rebuilt)
    case DoClaimBatch(order, call) =>
      var done := CommitBatch(s, order, call);
      if done.Some? then Some(done.value.0) else None
    case DoSubmit(r, files, judge, verdict, now) => SubmitSingle(s, r, files, judge, verdict, now)
    case DoSubmitBatch(rs, c) =>
      (match SubmitBatch(s, rs, c)
       case AcceptedAll(t) => Some(t)
       case RejectedAll(t, _) => Some(t)
       case Malformed(t) => Some(t)
       case Unexpected => None)
    case DoRelease(id) => Some(ReleaseClaimed(s, id))
    case DoReleaseSelfStale(i, agentId) => Some(ReleaseSelfStale(s, i, agentId))
    case DoReclaim(now, visited) => if forall id | id in visited :: id in s.leases then Some(Reclaim(s, now, visited)) else None
    case DoCompensate(entries) => Some(Undo(s, entries))
    case DoObserve(items) => if Observes(s, items) then Some(s.(items := items)) else None
  }

  /** The answer on an item is left alone; its handled mark, validation and revision binding may change. */
  predicate KeepsAnswer(before: Evidence, after: Evidence) {
    after == before.(handled := after.handled, handledAt := after.handledAt, validation := after.validation,
                     binding := after.binding)
  }

  /** Other commands see new items, change old ones and mark them handled, but answer none of them. */
  predicate Observes(s: State, items: map<string, Item>) {
    && s.items.Keys <= items.Keys
    && forall i | i in items ::
         if i in s.items then KeepsAnswer(s.items[i].evidence, items[i].evidence) && items[i].thread == s.items[i].thread
         else KeepsAnswer(BLANK, items[i].evidence)
  }

  // -------------------------------------------------------------- invariants

  /** The evidence that a ledger's accepted snapshots rebuild for an item. */
  function EvidenceOf(ledger: seq<Event>, i: string, thread: bool): Evidence {
    if ledger == [] then BLANK
    else
      var before := EvidenceOf(ledger[..|ledger| - 1], i, thread);
      var e := ledger[|ledger| - 1];
      if e.ResponseAccepted? && e.itemId == i
      then Timeless(ApplyEvidence(before, thread, Replayed(e.snapshot), 0)) else before
  }

  predicate AtRest(s: State) {
    forall id | id in s.leases :: s.leases[id].status != Submitted && s.leases[id].status != Status.Rejected
  }

  /** An acceptance event names an accepted lease of that agent on that item, or one taken away since. */
  predicate IsAccounted(s: State, e: Event)
    requires e.Accepts()
  {
    && e.itemId in s.items
    && (e.leaseId in s.leases ==>
          && s.leases[e.leaseId].status == Accepted
          && s.leases[e.leaseId].agentId == e.agentId && s.leases[e.leaseId].itemId == e.itemId)
  }

  /** Each acceptance is recorded once, and every accepted lease is on record. */
  ghost predicate Accounted(s: State) {
    && (forall e | e in s.ledger && e.Accepts() :: IsAccounted(s, e))
    && (forall j, k | 0 <= j < k < |s.ledger| && s.ledger[j].Accepts() && s.ledger[k].Accepts() ::
          s.ledger[j].leaseId != s.ledger[k].leaseId)
    && (forall id | id in s.leases && s.leases[id].status == Accepted :: IsOnRecord(s, id))
  }

  predicate IsOnRecord(s: State, id: string) {
    exists e | e in s.ledger :: e.Accepts() && e.leaseId == id
  }

  /** The part of the evidence that answers alone write. */
  function Lasting(e: Evidence): Evidence {
    Timeless(e).(handled := false, validation := Null)
  }

  predicate IsRebuilt(s: State, i: string)
    requires i in s.items
  {
    Lasting(s.items[i].evidence) == Lasting(EvidenceOf(s.ledger, i, s.items[i].thread))
  }

  ghost predicate Rebuilt(s: State) {
    forall i | i in s.items :: IsRebuilt(s, i)
  }

  ghost predicate Peaceful(s: State) {
    forall a, b | a in s.leases && b in s.leases && a != b && s.leases[a].Live() && s.leases[b].Live() ::
      Compatible(s.leases[a], s.leases[b])
  }

  ghost predicate IssuedOnce(s: State) {
    forall id | id in s.leases :: IssueCount(s.ledger, id) == 1
  }

  /** What every stored session satisfies, whatever happened before. */
  ghost predicate Sound(s: State) {
    AtRest(s) && Accounted(s) && Rebuilt(s) && Peaceful(s) && IssuedOnce(s)
  }

  lemma PeacefulHoldsOne(s: State)
    requires Peaceful(s)
    ensures OneLive(s)
  {
  }
}
