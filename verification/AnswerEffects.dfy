/** What a response leaves on its item when its lease is accepted, and exactly which responses get there. */
module AnswerEffects {
  import opened Wrappers
  import opened Protocol
  import opened Leases
  import opened Submission
  import opened BatchClaim
  import opened SessionEffects

  function OrNull(v: Option<Json>): Json {
    match v
    case Some(value) => value
    case None => Null
  }

  function OrNothing(v: Option<Json>): Json {
    match v
    case Some(value) => value
    case None => List([])
  }

  /** A value that is kept when it says something, and otherwise leaves what was there. */
  predicate IsKeptIfSaid(given: Option<Json>, before: Option<Json>, after: Option<Json>) {
    after == if given.Some? && Truthy(given.value) then given else before
  }

  /** A thread holds the response for publication; nothing else about it is written. */
  predicate HoldsForPublishing(before: Item, r: Response, resolution: Resolution, after: Item) {
    && after.phase == PublishReady && after.status == IsOpen && after.blocking
    && after.evidence.publish == Some(resolution)
    && after.evidence.accepted.Some?
    && var kept := after.evidence.accepted.value;
       && kept.note == r.note && kept.resolution == resolution
       && kept.files == OrNothing(r.files) && kept.validation == OrNothing(r.validation)
       && kept.replyMarkdown == OrNull(r.replyMarkdown) && kept.fixReply == OrNull(r.fixReply)
       && IsKeptIfSaid(r.binding, None, kept.binding) && IsKeptIfSaid(r.evidenceRef, None, kept.evidenceRef)
       && after == before.(phase := PublishReady, status := IsOpen, blocking := true,
                           evidence := before.evidence.(publish := Some(resolution), accepted := Some(kept)))
  }

  /** A local finding is answered at once, and stops blocking. */
  predicate IsAnsweredAtOnce(before: Item, r: Response, resolution: Resolution, now: int, after: Item) {
    && after.phase == Handled(resolution) && !after.blocking && after.claimedBy.None?
    && after.status == (match resolution
                        case Fix => IsClosed
                        case Clarify => IsClarified
                        case Defer => IsDeferred
                        case Reject => IsDropped)
    && var (was, kept) := (before.evidence, after.evidence);
       && kept.handled && kept.handledAt == Some(now) && kept.note == r.note && kept.validation == OrNothing(r.validation)
       && IsKeptIfSaid(r.files, was.files, kept.files) && IsKeptIfSaid(r.replyMarkdown, was.replyMarkdown, kept.replyMarkdown)
       && IsKeptIfSaid(r.fixReply, was.fixReply, kept.fixReply) && IsKeptIfSaid(r.evidenceRef, was.evidenceRef, kept.evidenceRef)
       && IsKeptIfSaid(r.binding, was.binding, kept.binding)
       && kept.publish == was.publish && kept.accepted == was.accepted
       && after == before.(phase := after.phase, status := after.status, blocking := false, claimedBy := None,
                           evidence := kept)
  }

  /** What the ledger keeps of an accepted response. */
  predicate IsOnLedger(e: Event, r: Response, p: Prepared, id: string, role: Role) {
    && e.ResponseAccepted? && e.itemId == p.itemId && e.leaseId == id && e.agentId == r.agentId && e.role == role
    && r.choice == Known(e.snapshot.resolution) && e.snapshot.note == r.note
    && e.snapshot.files == OrNothing(r.files) && e.snapshot.validation == OrNothing(r.validation)
    && OrNull(e.snapshot.replyMarkdown) == OrNull(r.replyMarkdown) && OrNull(e.snapshot.fixReply) == OrNull(r.fixReply)
    && OrNull(e.snapshot.evidenceRef) == OrNull(r.evidenceRef)
  }

  /**
    An accepted response shows on its item field by field. Only a verifier who rejects is treated
    otherwise: the item is open and blocking again with the note, and its evidence is untouched.
  */
  lemma AcceptedAnswerShows(s: State, r: Response, p: Prepared, now: int)
    requires p.itemId in s.items && r.choice.Known? && Closes(AcceptSubmission(s, r, p, now))
    ensures var (o, item, resolution) := (AcceptSubmission(s, r, p, now), s.items[p.itemId], r.choice.resolution);
            && o.leaseId in s.leases && p.itemId in o.state.items && |o.state.ledger| == |s.ledger| + 1
            && (o.VerifierRejected? <==> s.leases[o.leaseId].role == Verifier && resolution == Reject)
            && var (after, event) := (o.state.items[p.itemId], o.state.ledger[|s.ledger|]);
               if o.VerifierRejected? then
                 && event == VerificationRejected(p.itemId, o.leaseId, r.agentId, r.note)
                 && after == item.(phase := Open, blocking := true, rejectionNote := Some(r.note))
               else
                 && IsOnLedger(event, r, p, o.leaseId, s.leases[o.leaseId].role)
                 && if item.thread then HoldsForPublishing(item, r, resolution, after)
                    else IsAnsweredAtOnce(item, r, resolution, now, after)
  {
    AcceptanceTakesOneLease(s, r, p, now);
    var (t, why) := Take(s, p.leaseId, r.agentId, p.itemId, p.hash, now);
    if why.None? {
      TakeAccepts(s, p.leaseId, r.agentId, p.itemId, p.hash, now);
      ConcludedAnswerShows(t, r, p.leaseId, p, now);
    } else {
      var id := Rebound(t, r, p.itemId, p.leaseId).value;
      TakeAccepts(t, id, r.agentId, p.itemId, t.leases[id].hash, now);
      var u := Take(t, id, r.agentId, p.itemId, t.leases[id].hash, now).0;
      ConcludedAnswerShows(u, r, id, p, now);
    }
    hide Take, Conclude, HoldsForPublishing, IsAnsweredAtOnce, IsOnLedger, Rebound;
  }

  lemma ConcludedAnswerShows(s: State, r: Response, id: string, p: Prepared, now: int)
    requires id in s.leases && p.itemId in s.items && r.choice.Known?
    ensures var (o, item, resolution) := (Conclude(s, r, id, p.itemId, now), s.items[p.itemId], r.choice.resolution);
            && Closes(o) && o.leaseId == id && p.itemId in o.state.items && |o.state.ledger| == |s.ledger| + 1
            && (o.VerifierRejected? <==> s.leases[id].role == Verifier && resolution == Reject)
            && var (after, event) := (o.state.items[p.itemId], o.state.ledger[|s.ledger|]);
               if o.VerifierRejected? then
                 && event == VerificationRejected(p.itemId, id, r.agentId, r.note)
                 && after == item.(phase := Open, blocking := true, rejectionNote := Some(r.note))
               else
                 && IsOnLedger(event, r, p, id, s.leases[id].role)
                 && if item.thread then HoldsForPublishing(item, r, resolution, after)
                    else IsAnsweredAtOnce(item, r, resolution, now, after)
  {
  }

  // -------------------------------------------------- who gets this far

  /** A live fixer lease of the responding agent on a thread that was claimed afresh. */
  predicate Replaces(s: State, r: Response, i: string, missing: string, id: string) {
    && i != "" && i in s.items && s.items[i].thread && r.choice == Known(Fix)
    && (s.items[i].phase == Stale || s.items[i].phase == Claimed || s.items[i].outdated)
    && id != "" && id != missing && id in s.leases
    && s.leases[id].itemId == i && s.leases[id].agentId == r.agentId
    && s.leases[id].role == Fixer && s.leases[id].status == Active
  }

  lemma ReboundIsReplacement(s: State, r: Response, i: string, missing: string)
    ensures Rebound(s, r, i, missing).Some? <==> exists id :: Replaces(s, r, i, missing, id)
    ensures Rebound(s, r, i, missing).Some? ==> Replaces(s, r, i, missing, Rebound(s, r, i, missing).value)
  {
    assert forall id :: IsRebound(s, r, i, missing, id) == Replaces(s, r, i, missing, id);
  }

  /** Every required field is there, and the content checks find no fault. */
  predicate IsComplete(r: Response, item: Item, judge: Judge) {
    && r.requestId != "" && r.leaseId != "" && r.agentId != "" && Truthy(r.note) && r.choice.Known?
    && judge(r, item).None?
  }

  /** The lease's own request is on disk, and it is the one answered. */
  predicate AnswersItsRequest(r: Response, l: Lease, files: map<string, File>) {
    && l.requestPath in files && files[l.requestPath].Stored?
    && files[l.requestPath].request.requestId == r.requestId
  }

  /**
    A response is prepared exactly when it is complete and either answers the request of the lease
    it names, on that lease's item, or names a lease that is gone while another replaced it.
  */
  lemma PreparesExactly(s: State, r: Response, files: map<string, File>, judge: Judge)
    ensures Prepare(s, r, files, judge).Ok? <==>
      if r.leaseId in s.leases then
        var l := s.leases[r.leaseId];
        && (r.itemId == "" || r.itemId == l.itemId) && l.itemId in s.items
        && IsComplete(r, s.items[l.itemId], judge) && AnswersItsRequest(r, l, files)
      else
        && (exists id :: Replaces(s, r, r.itemId, r.leaseId, id))
        && r.itemId in s.items && IsComplete(r, s.items[r.itemId], judge)
  {
    ReboundIsReplacement(s, r, r.itemId, r.leaseId);
    hide Rebound;
  }

  /** The first thing that is wrong with a response to an item, its request aside. */
  predicate LacksFirst(r: Response, item: Item, judge: Judge, why: Reason) {
    || (r.requestId == "" && why == MissingField("request_id"))
    || (r.requestId != "" && r.agentId == "" && why == MissingField("agent_id"))
    || (r.requestId != "" && r.agentId != "" && r.choice.Absent? && why == MissingField("resolution"))
    || (r.requestId != "" && r.agentId != "" && !r.choice.Absent? && !Truthy(r.note) && why == MissingField("note"))
    || (r.requestId != "" && r.agentId != "" && Truthy(r.note)
        && (if r.choice.Unknown? then why == InvalidResponse("UNSUPPORTED_RESOLUTION")
            else !r.choice.Absent? && judge(r, item) == Some(why)))
  }

  /** What a response that cannot be prepared is refused for. */
  lemma PreparationRefusals(s: State, r: Response, files: map<string, File>, judge: Judge)
    ensures var prepared := Prepare(s, r, files, judge);
            if r.leaseId == "" then prepared == Err(MissingField("lease_id"))
            else if r.leaseId in s.leases then
              var l := s.leases[r.leaseId];
              && (prepared == Err(ItemIdMismatch) <== r.itemId !in {"", l.itemId})
              && (prepared == Err(ItemNotFound) <== r.itemId in {"", l.itemId} && l.itemId !in s.items)
              && (r.itemId in {"", l.itemId} && l.itemId in s.items ==>
                    if IsComplete(r, s.items[l.itemId], judge) then
                      AnswersItsRequest(r, l, files) || prepared == Err(ExpectedHash(r, l, files).error)
                    else prepared.Err? && LacksFirst(r, s.items[l.itemId], judge, prepared.error))
            else if r.itemId in s.items && exists id :: Replaces(s, r, r.itemId, r.leaseId, id) then
              IsComplete(r, s.items[r.itemId], judge)
              || (prepared.Err? && LacksFirst(r, s.items[r.itemId], judge, prepared.error))
            else prepared == Err(LeaseNotFound)
  {
    ReboundIsReplacement(s, r, r.itemId, r.leaseId);
    hide Rebound;
  }

  /** An unexpired active lease of the responding agent on the prepared item, with the prepared hash. */
  predicate IsTakeable(s: State, id: string, agentId: string, itemId: string, hash: Hash, now: int) {
    && id in s.leases && s.leases[id].status == Active && s.leases[id].agentId == agentId
    && s.leases[id].itemId == itemId && s.leases[id].expiresAt > now && s.leases[id].hash == hash
  }

  /** Every refusal says what is wrong with the lease. */
  lemma RefusalsMeanWhatTheySay(s: State, id: string, agentId: string, itemId: string, hash: Hash, now: int)
    ensures var why := Take(s, id, agentId, itemId, hash, now).1;
            && (why.None? <==> IsTakeable(s, id, agentId, itemId, hash, now))
            && (why == Some(LeaseNotFound) <==> id !in s.leases)
            && (id in s.leases ==>
                  var l := s.leases[id];
                  && (why == Some(DuplicateSubmission) <==> l.status == Submitted)
                  && (why == Some(StaleLease) <==> l.status !in {Active, Submitted})
                  && (why == Some(WrongAgent) <==> l.status == Active && l.agentId != agentId)
                  && (why == Some(WrongItem) <==> l.status == Active && l.agentId == agentId && l.itemId != itemId)
                  && (why == Some(ExpiredLease) <==>
                        l.status == Active && l.agentId == agentId && l.itemId == itemId && l.expiresAt <= now)
                  && (why == Some(StaleRequestContext) <==>
                        l.status == Active && l.agentId == agentId && l.itemId == itemId && l.expiresAt > now && l.hash != hash))
  {
  }

  /**
    A prepared response is accepted exactly when its lease can be taken, or its lease is gone or
    ended and an unexpired one replaced it.
  */
  lemma AcceptedExactly(s: State, r: Response, p: Prepared, now: int)
    requires p.itemId in s.items && r.choice.Known? && OneLive(s)
    ensures Closes(AcceptSubmission(s, r, p, now)) <==>
      || IsTakeable(s, p.leaseId, r.agentId, p.itemId, p.hash, now)
      || ((p.leaseId !in s.leases || s.leases[p.leaseId].status !in {Active, Submitted})
          && exists id :: Replaces(s, r, p.itemId, p.leaseId, id) && s.leases[id].expiresAt > now)
  {
    RefusalsMeanWhatTheySay(s, p.leaseId, r.agentId, p.itemId, p.hash, now);
    var (t, why) := Take(s, p.leaseId, r.agentId, p.itemId, p.hash, now);
    if why.Some? && why.value in {StaleLease, LeaseNotFound} {
      assert t == s;
      ReboundIsReplacement(s, r, p.itemId, p.leaseId);
      var rebound := Rebound(s, r, p.itemId, p.leaseId);
      if rebound.Some? {
        RefusalsMeanWhatTheySay(s, rebound.value, r.agentId, p.itemId, s.leases[rebound.value].hash, now);
        assert forall id :: Replaces(s, r, p.itemId, p.leaseId, id) ==> LiveOn(s, id, p.itemId);
      }
    }
    hide Take, Rebound;
  }

  /** The item of a lease that expired when it was submitted: freed if the lease marks it or nobody else does. */
  predicate IsLeftBehind(before: Item, after: Item, id: string, agentId: string) {
    if before.activeLease == Some(id) then IsFreed(before, after)
    else if before.phase == Claimed && before.activeLease.None? && (before.claimedBy.None? || before.claimedBy == Some(agentId))
    then after == before.(phase := Open, claimedBy := None)
    else after == before
  }

  /** A refused submission changes nothing, unless its lease is overdue: that lease expires and leaves its item behind. */
  lemma RefusalShows(s: State, id: string, agentId: string, itemId: string, hash: Hash, now: int)
    ensures var (t, why) := Take(s, id, agentId, itemId, hash, now);
            && (why.Some? && why != Some(ExpiredLease) ==> t == s)
            && (why == Some(ExpiredLease) ==>
                  && id in s.leases && t.ledger == s.ledger
                  && t.leases == s.leases[id := s.leases[id].(status := Expired)]
                  && var i := s.leases[id].itemId;
                     if i in s.items
                     then i in t.items && t.items == s.items[i := t.items[i]] && IsLeftBehind(s.items[i], t.items[i], id, agentId)
                     else t.items == s.items)
  {
  }
}
