/** Checking a response, taking its lease and applying it to the item it answers. */
module Submission {
  import opened Wrappers
  import opened Protocol
  import opened Leases

  datatype Choice = Absent | Unknown(text: string) | Known(resolution: Resolution)

  /** A response as an agent wrote it, with any evidence profile already filled in. */
  datatype Response = Response(
    requestId: string,
    leaseId: string,
    agentId: string,
    itemId: string,
    choice: Choice,
    note: Json,
    files: Option<Json>,
    validation: Option<Json>,
    replyMarkdown: Option<Json>,
    fixReply: Option<Json>,
    evidenceRef: Option<Json>,
    binding: Option<Json>
  )

  /** The verdict on the evidence in a response, beyond its required fields. */
  type Judge = (Response, Item) -> Option<Reason>

  // ---------------------------------------------------------------- applying

  datatype Answer = Answer(
    resolution: Resolution,
    note: Json,
    files: Option<Json>,
    validation: Option<Json>,
    replyMarkdown: Option<Json>,
    fixReply: Option<Json>,
    evidenceRef: Option<Json>,
    binding: Option<Json>
  )

  function AnswerWith(resolution: Resolution, r: Response): Answer {
    Answer(resolution, r.note, r.files, r.validation, r.replyMarkdown, r.fixReply, r.evidenceRef, r.binding)
  }

  function AnswerOf(r: Response): Answer
    requires r.choice.Known?
  {
    AnswerWith(r.choice.resolution, r)
  }

  function OrEmpty(v: Option<Json>): Json {
    if v.Some? then v.value else List([])
  }

  function WhenTruthy(v: Option<Json>, otherwise: Option<Json>): Option<Json> {
    if Truthy(Get(v)) then v else otherwise
  }

  function ApplyEvidence(e: Evidence, thread: bool, a: Answer, now: int): Evidence {
    if thread then
      e.(publish := Some(a.resolution),
         accepted := Some(AcceptedResponse(
           a.note, a.resolution, OrEmpty(a.files), OrEmpty(a.validation), Get(a.replyMarkdown), Get(a.fixReply),
           WhenTruthy(a.binding, None), WhenTruthy(a.evidenceRef, None))))
    else
      e.(handled := true,
         handledAt := Some(now),
         note := a.note,
         validation := OrEmpty(a.validation),
         binding := WhenTruthy(a.binding, e.binding),
         files := WhenTruthy(a.files, e.files),
         replyMarkdown := WhenTruthy(a.replyMarkdown, e.replyMarkdown),
         fixReply := WhenTruthy(a.fixReply, e.fixReply),
         evidenceRef := WhenTruthy(a.evidenceRef, e.evidenceRef))
  }

  function LocalStatus(r: Resolution): ItemStatus {
    match r
    case Fix => IsClosed
    case Clarify => IsClarified
    case Defer => IsDeferred
    case Reject => IsDropped
  }

  function ApplyAnswer(item: Item, a: Answer, now: int): Item {
    var evidence := ApplyEvidence(item.evidence, item.thread, a, now);
    if item.thread then item.(phase := PublishReady, status := IsOpen, blocking := true, evidence := evidence)
    else item.(phase := Handled(a.resolution), status := LocalStatus(a.resolution), blocking := false,
               claimedBy := None, evidence := evidence)
  }

  /** An answered item cannot be claimed again before something reopens it. */
  lemma AnsweredIsNotClaimable(item: Item, a: Answer, now: int)
    ensures !IsClaimable(ApplyAnswer(item, a, now))
    ensures item.thread ==> ApplyAnswer(item, a, now).blocking && ApplyAnswer(item, a, now).evidence.publish == Some(a.resolution)
    ensures !item.thread ==> !ApplyAnswer(item, a, now).blocking && ApplyAnswer(item, a, now).evidence.handledAt == Some(now)
  {
  }

  // ------------------------------------------------------------------ replay

  function Present(v: Option<Json>): Option<Json> {
    if v == Some(Null) then None else v
  }

  /** What the ledger keeps of an answer. */
  function SnapshotOf(a: Answer): Snapshot {
    Snapshot(a.resolution, a.note, OrEmpty(a.files), OrEmpty(a.validation),
             Present(a.replyMarkdown), Present(a.fixReply), Present(a.evidenceRef))
  }

  /** The answer that a ledger snapshot replays. */
  function Replayed(s: Snapshot): Answer {
    Answer(s.resolution, s.note, Some(s.files), Some(s.validation), s.replyMarkdown, s.fixReply, s.evidenceRef, None)
  }

  /** Evidence without the timestamp and the revision bindings, which snapshots omit. */
  function Timeless(e: Evidence): Evidence {
    e.(handledAt := None, binding := None,
       accepted := if e.accepted.Some? then Some(e.accepted.value.(binding := None)) else None)
  }

  function TimelessItem(item: Item): Item {
    item.(evidence := Timeless(item.evidence))
  }

  /** One answer applied live and replayed from its snapshot leaves the same evidence. */
  lemma SnapshotReplaysEvidence(live: Evidence, rebuilt: Evidence, thread: bool, a: Answer, now: int, later: int)
    requires Timeless(live) == Timeless(rebuilt)
    ensures Timeless(ApplyEvidence(live, thread, a, now))
         == Timeless(ApplyEvidence(rebuilt, thread, Replayed(SnapshotOf(a)), later))
  {
  }

  datatype Acceptance = Acceptance(itemId: string, answer: Answer, at: int)

  function ApplyAll(items: map<string, Item>, accepted: seq<Acceptance>): (r: map<string, Item>)
    requires forall a | a in accepted :: a.itemId in items
    ensures r.Keys == items.Keys
  {
    if accepted == [] then items
    else
      var before := ApplyAll(items, accepted[..|accepted| - 1]);
      var a := accepted[|accepted| - 1];
      before[a.itemId := ApplyAnswer(before[a.itemId], a.answer, a.at)]
  }

  /** Items rebuilt from recorded snapshots, at some later time. */
  function ReplayAll(items: map<string, Item>, recorded: seq<(string, Snapshot)>, later: int): (r: map<string, Item>)
    requires forall s | s in recorded :: s.0 in items
    ensures r.Keys == items.Keys
  {
    if recorded == [] then items
    else
      var before := ReplayAll(items, recorded[..|recorded| - 1], later);
      var s := recorded[|recorded| - 1];
      before[s.0 := ApplyAnswer(before[s.0], Replayed(s.1), later)]
  }

  function Recorded(accepted: seq<Acceptance>): (r: seq<(string, Snapshot)>)
    ensures |r| == |accepted|
    ensures forall k | 0 <= k < |r| :: r[k] == (accepted[k].itemId, SnapshotOf(accepted[k].answer))
  {
    if accepted == [] then []
    else
      var a := accepted[|accepted| - 1];
      Recorded(accepted[..|accepted| - 1]) + [(a.itemId, SnapshotOf(a.answer))]
  }

  /** The ledger rebuilds every item, on all fields but the timestamp and the bindings. */
  lemma {:induction false} LedgerRebuildsItems(items: map<string, Item>, accepted: seq<Acceptance>, later: int)
    requires forall a | a in accepted :: a.itemId in items
    ensures forall s | s in Recorded(accepted) :: s.0 in items
    ensures forall i | i in items ::
              TimelessItem(ApplyAll(items, accepted)[i]) == TimelessItem(ReplayAll(items, Recorded(accepted), later)[i])
  {
    var recorded := Recorded(accepted);
    assert forall k | 0 <= k < |recorded| :: accepted[k] in accepted;
    if accepted != [] {
      var n := |accepted| - 1;
      LedgerRebuildsItems(items, accepted[..n], later);
      assert recorded[..n] == Recorded(accepted[..n]);
      var a := accepted[n];
      var live := ApplyAll(items, accepted[..n])[a.itemId];
      var rebuilt := ReplayAll(items, recorded[..n], later)[a.itemId];
      SnapshotReplaysEvidence(live.evidence, rebuilt.evidence, live.thread, a.answer, a.at, later);
    }
  }

  // --------------------------------------------------------------- preparing

  /** What identifies an accepted submission. */
  datatype Prepared = Prepared(leaseId: string, itemId: string, hash: Hash)

  function Read(files: map<string, File>, path: string): File {
    if path in files then files[path] else Missing
  }

  /** The hash the lease must carry for a response to its request file. */
  function ExpectedHash(r: Response, l: Lease, files: map<string, File>): Result<Hash, Reason> {
    match Read(files, l.requestPath)
    case Missing => Err(RequestContextNotFound)
    case Superseded => Err(RequestProtocolSuperseded)
    case Invalid => Err(InvalidRequestContext)
    case Stored(request) =>
      if r.requestId != request.requestId then Err(StaleRequestContext) else Ok(HashOf(request))
  }

  function Validate(r: Response, item: Item, judge: Judge): Option<Reason> {
    if r.requestId == "" then Some(MissingField("request_id"))
    else if r.leaseId == "" then Some(MissingField("lease_id"))
    else if r.agentId == "" then Some(MissingField("agent_id"))
    else if r.choice.Absent? then Some(MissingField("resolution"))
    else if !Truthy(r.note) then Some(MissingField("note"))
    else if r.choice.Unknown? then Some(InvalidResponse("UNSUPPORTED_RESOLUTION"))
    else judge(r, item)
  }

  /** A live fixer lease of the responding agent that replaced the lease it names. */
  predicate IsRebound(s: State, r: Response, itemId: string, current: string, id: string) {
    && itemId != "" && itemId in s.items && s.items[itemId].thread
    && r.choice == Known(Fix)
    && (s.items[itemId].phase in {Stale, Claimed} || s.items[itemId].outdated)
    && id in s.leases && s.leases[id].itemId == itemId && s.leases[id].status == Active
    && s.leases[id].role == Fixer && s.leases[id].agentId == r.agentId
    && id != "" && id != current
  }

  ghost function Rebound(s: State, r: Response, itemId: string, current: string): (o: Option<string>)
    ensures o.Some? <==> exists id :: IsRebound(s, r, itemId, current, id)
    ensures o.Some? ==> IsRebound(s, r, itemId, current, o.value)
  {
    if exists id :: IsRebound(s, r, itemId, current, id) then
      var id :| IsRebound(s, r, itemId, current, id);
      Some(id)
    else None
  }

  ghost function Prepare(s: State, r: Response, files: map<string, File>, judge: Judge): Result<Prepared, Reason> {
    if r.leaseId == "" then Err(MissingField("lease_id"))
    else if r.leaseId !in s.leases then
      var rebound := Rebound(s, r, r.itemId, r.leaseId);
      if rebound.None? then Err(LeaseNotFound)
      else
        var refusal := Validate(r, s.items[r.itemId], judge);
        if refusal.Some? then Err(refusal.value)
        else Ok(Prepared(rebound.value, r.itemId, s.leases[rebound.value].hash))
    else
      var lease := s.leases[r.leaseId];
      if r.itemId != "" && r.itemId != lease.itemId then Err(ItemIdMismatch)
      else if lease.itemId !in s.items then Err(ItemNotFound)
      else
        var refusal := Validate(r, s.items[lease.itemId], judge);
        if refusal.Some? then Err(refusal.value)
        else
          var hash := ExpectedHash(r, lease, files);
          if hash.Err? then Err(hash.error) else Ok(Prepared(r.leaseId, lease.itemId, hash.value))
  }

  /** The item that a recorded rejection names, when the response could not be prepared. */
  function ItemOfRejection(s: State, r: Response, reason: Reason): string {
    if r.leaseId in s.leases then s.leases[r.leaseId].itemId
    else if reason == LeaseNotFound || reason == BatchDuplicateLease then ""
    else r.itemId
  }

  function Signer(r: Response): string {
    if r.agentId == "" then "unknown" else r.agentId
  }

  // --------------------------------------------------------------- accepting

  /** Submit and accept in one go. */
  function Take(s: State, id: string, agentId: string, itemId: string, hash: Hash, now: int): (State, Option<Reason>) {
    if id !in s.leases then (s, Some(LeaseNotFound))
    else
      var (t, why) := Submit(s, id, agentId, s.leases[id].role, itemId, hash, now);
      if why.Some? || Accept(t, id).None? then (t, why) else (Accept(t, id).value, None)
  }

  /** A lease that is taken goes from active to accepted; nothing else changes. */
  lemma TakeAccepts(s: State, id: string, agentId: string, itemId: string, hash: Hash, now: int)
    requires Take(s, id, agentId, itemId, hash, now).1.None?
    ensures Take(s, id, agentId, itemId, hash, now).0 == s.(leases := s.leases[id := s.leases[id].(status := Accepted)])
  {
    var t := Submit(s, id, agentId, s.leases[id].role, itemId, hash, now).0;
    assert Accept(t, id).value.leases == s.leases[id := s.leases[id].(status := Accepted)];
  }

  datatype Outcome =
    | Answered(state: State, leaseId: string)
    | VerifierRejected(state: State, leaseId: string)
    | Refused(state: State, reason: Reason)
    | Aborted

  /** The item and the ledger after a lease was taken. */
  function Conclude(s: State, r: Response, id: string, itemId: string, now: int): Outcome
    requires id in s.leases && itemId in s.items && r.choice.Known?
  {
    var lease := s.leases[id];
    var item := s.items[itemId];
    if lease.role == Verifier && r.choice == Known(Reject) then
      VerifierRejected(
        s.(items := s.items[itemId := item.(phase := Open, blocking := true, rejectionNote := Some(r.note))],
           ledger := s.ledger + [VerificationRejected(itemId, id, r.agentId, r.note)]),
        id)
    else
      Answered(
        s.(items := s.items[itemId := ApplyAnswer(item, AnswerOf(r), now)],
           ledger := s.ledger + [ResponseAccepted(itemId, id, r.agentId, lease.role, SnapshotOf(AnswerOf(r)))]),
        id)
  }

  ghost function AcceptSubmission(s: State, r: Response, p: Prepared, now: int): Outcome
    requires p.itemId in s.items && r.choice.Known?
  {
    var (t, why) := Take(s, p.leaseId, r.agentId, p.itemId, p.hash, now);
    if why.None? then Conclude(t, r, p.leaseId, p.itemId, now)
    else
      var rebound := if why.value in {StaleLease, LeaseNotFound} then Rebound(t, r, p.itemId, p.leaseId) else None;
      if rebound.None? then Refused(t.(ledger := t.ledger + [ResponseRejected(p.itemId, r.agentId, why.value)]), why.value)
      else
        var (u, whyNot) := Take(t, rebound.value, r.agentId, p.itemId, t.leases[rebound.value].hash, now);
        if whyNot.Some? then Aborted else Conclude(u, r, rebound.value, p.itemId, now)
  }

  // -------------------------------------------------------------- properties

  /** The read-only check a batch makes before it accepts anything. */
  function LeaseRefusal(r: Response, l: Lease, p: Prepared, now: int): Option<Reason> {
    if l.status == Submitted then Some(DuplicateSubmission)
    else if l.status != Active then Some(StaleLease)
    else if l.expiresAt <= now then Some(ExpiredLease)
    else if l.agentId != r.agentId then Some(WrongAgent)
    else if l.itemId != p.itemId then Some(WrongItem)
    else if l.hash != p.hash then Some(StaleRequestContext)
    else None
  }

  /** The check and the submission agree: one passes exactly when the other does. */
  lemma PreCheckIsExact(s: State, r: Response, p: Prepared, now: int)
    requires p.leaseId in s.leases
    ensures LeaseRefusal(r, s.leases[p.leaseId], p, now).None?
        <==> Take(s, p.leaseId, r.agentId, p.itemId, p.hash, now).1.None?
  {
  }

  /** A prepared submission names a lease and the item that lease is on. */
  lemma PreparedIsConsistent(s: State, r: Response, files: map<string, File>, judge: Judge)
    requires Prepare(s, r, files, judge).Ok?
    ensures var p := Prepare(s, r, files, judge).value;
            && r.choice.Known? && p.itemId in s.items && p.leaseId in s.leases && s.leases[p.leaseId].itemId == p.itemId
            && (if p.leaseId == r.leaseId
                then Read(files, s.leases[p.leaseId].requestPath) == Stored(p.hash.request)
                     && p.hash.request.requestId == r.requestId
                else r.leaseId !in s.leases && s.leases[p.leaseId].agentId == r.agentId
                     && s.leases[p.leaseId].hash == p.hash)
  {
  }

  /** The lease that an outcome closed. */
  predicate Closes(o: Outcome) {
    o.Answered? || o.VerifierRejected?
  }

  /**
    Acceptance turns exactly one lease from active to accepted: unexpired, of the responding
    agent, on the prepared item. It adds one event that says so and touches no other item.
  */
  lemma AcceptanceTakesOneLease(s: State, r: Response, p: Prepared, now: int)
    requires p.itemId in s.items && r.choice.Known?
    requires Closes(AcceptSubmission(s, r, p, now))
    ensures var o := AcceptSubmission(s, r, p, now);
            var l := s.leases[o.leaseId];
            && o.leaseId in s.leases && l.status == Active && l.expiresAt > now
            && l.agentId == r.agentId && l.itemId == p.itemId
            && o.state.leases == s.leases[o.leaseId := l.(status := Accepted)]
            && o.state.items.Keys == s.items.Keys
            && (forall i | i in s.items && i != p.itemId :: o.state.items[i] == s.items[i])
            && |o.state.ledger| == |s.ledger| + 1 && o.state.ledger[..|s.ledger|] == s.ledger
            && var e := o.state.ledger[|s.ledger|];
               e.Accepts() && e.leaseId == o.leaseId && e.agentId == r.agentId && e.itemId == p.itemId
               && (e.ResponseAccepted? <==> o.Answered?)
  {
    var (t, why) := Take(s, p.leaseId, r.agentId, p.itemId, p.hash, now);
    if why.Some? {
      assert t == s;
    }
  }

  /** A refused submission accepts nothing; at most it expires the lease it named. */
  lemma RefusalTakesNothing(s: State, r: Response, p: Prepared, now: int)
    requires p.itemId in s.items && r.choice.Known?
    requires AcceptSubmission(s, r, p, now).Refused?
    ensures var t := AcceptSubmission(s, r, p, now).state;
            && t.ledger == s.ledger + [ResponseRejected(p.itemId, r.agentId, AcceptSubmission(s, r, p, now).reason)]
            && (t.leases == s.leases
                || (p.leaseId in s.leases && s.leases[p.leaseId].Overdue(now)
                    && t.leases == s.leases[p.leaseId := s.leases[p.leaseId].(status := Expired)]))
            && t.items.Keys == s.items.Keys
            && (forall i | i in s.items :: t.items[i].evidence == s.items[i].evidence && t.items[i].thread == s.items[i].thread)
  {
  }
}
