/** What each operation leaves on the items, leases and ledger of a session, field by field. */
module SessionEffects {
  import opened Wrappers
  import opened Protocol
  import opened Leases
  import opened Submission
  import opened BatchClaim
  import opened BatchSubmit
  import opened ProtocolRuns
  import opened ProtocolSafety

  /** Everything but the claim, the phase, the status and the blocking mark. */
  predicate SameButClaim(before: Item, after: Item) {
    && after.thread == before.thread && after.outdated == before.outdated && after.resolved == before.resolved
    && after.path == before.path && after.keys == before.keys
    && after.classification == before.classification && after.decision == before.decision
    && after.rejectionNote == before.rejectionNote && after.evidence == before.evidence
  }

  // ------------------------------------------------------------------- expiry

  /** Exactly the live leases past their time end, and exactly the items they mark are freed. */
  lemma ExpiryShows(s: State, now: int)
    ensures var e := Expire(s, now);
            && e.ledger == s.ledger && e.leases.Keys == s.leases.Keys && e.items.Keys == s.items.Keys
            && (forall id | id in s.leases ::
                  if s.leases[id].status in {Active, Submitted} && s.leases[id].expiresAt <= now
                  then e.leases[id] == s.leases[id].(status := Expired) else e.leases[id] == s.leases[id])
            && (forall i | i in s.items ::
                  if exists id :: s.items[i].activeLease == Some(id) && id in s.leases
                                  && s.leases[id].status in {Active, Submitted} && s.leases[id].expiresAt <= now
                  then IsFreed(s.items[i], e.items[i]) else e.items[i] == s.items[i])
  {
  }

  // ------------------------------------------------------------------- claims

  /** The item that a claim marks, its classification restored from `local` when it has none. */
  predicate IsMarkedBy(before: Item, after: Item, local: Option<Resolution>, leaseId: string) {
    && after.phase == Claimed && after.activeLease == Some(leaseId)
    && after.classification == (if before.classification.Some? then before.classification else local)
    && after.decision == (if before.classification.None? && local.Some? then local else before.decision)
    && SameButClaim(before, after.(classification := before.classification, decision := before.decision))
    && after.blocking == before.blocking
  }

  lemma ExpiryKeepsTheRest(s: State, now: int, i: string)
    requires i in s.items
    ensures var e := Expire(s, now);
            && i in e.items && SameButClaim(s.items[i], e.items[i]) && e.items[i].blocking == s.items[i].blocking
            && e.ledger == s.ledger
  {
  }

  lemma MarkingShows(before: Item, freed: Item, local: Option<Resolution>, id: string)
    requires SameButClaim(before, freed) && freed.blocking == before.blocking
    ensures var taken := if freed.classification.None? && local.Some? then freed.(classification := local, decision := local) else freed;
            IsMarkedBy(before, taken.(phase := Claimed, activeLease := Some(id)), local, id)
  {
  }

  /** A single claim: the new lease in full, its item marked with it, and one request recorded. */
  lemma ClaimShows(s: State, g: Grant, local: Option<Resolution>, now: int)
    requires Effect(s, DoClaim(g, local, now)).Some? && g.leaseId !in s.leases
    ensures var (t, e) := (Effect(s, DoClaim(g, local, now)).value, Expire(s, now));
            && g.itemId in s.items && g.itemId in t.items && g.leaseId in t.leases
            && t.leases == e.leases[g.leaseId := t.leases[g.leaseId]]
            && t.leases[g.leaseId]
            == Lease(g.itemId, g.agentId, g.role, Active, now + 3600, g.hash, g.requestId, g.requestPath,
                     {ItemKey(g.itemId)} + s.items[g.itemId].keys)
            && t.items == e.items[g.itemId := t.items[g.itemId]]
            && IsMarkedBy(s.items[g.itemId], t.items[g.itemId], local, g.leaseId)
            && t.ledger == s.ledger + [RequestIssued(g.itemId, g.leaseId, g.agentId, g.requestId, false)]
  {
    var e := Expire(s, now);
    ExpiryKeepsTheRest(s, now, g.itemId);
    MarkingShows(s.items[g.itemId], e.items[g.itemId], local, g.leaseId);
    ExpireLeavesNothingOverdue(s, now);
    NothingLeftToExpire(Restored(e, g.itemId, local), now);
    hide Expire, IsBlocked, IsMarkedBy;
    assert Restored(e, g.itemId, local).items[g.itemId].keys == s.items[g.itemId].keys;
  }

  /** Classification writes the verdict; when it answers a triage lease it ends it and gives the item back. */
  lemma ClassifyShows(s: State, i: string, agentId: string, verdict: Resolution, id: string)
    requires i in s.items && OneLive(s)
    ensures Effect(s, DoClassify(i, agentId, verdict)).Some?
    ensures var t := Effect(s, DoClassify(i, agentId, verdict)).value;
            var judged := s.items[i].(classification := Some(verdict), decision := Some(verdict));
            var recorded := ClassificationRecorded(i, agentId, verdict);
            && i in t.items && t.items == s.items[i := t.items[i]]
            && (LiveOn(s, id, i) && s.leases[id].role == Triage ==>
                  && t.leases == s.leases[id := s.leases[id].(status := Released)]
                  && t.ledger == s.ledger + [recorded, ClassificationLeaseReleased(i, id)]
                  && IsReopened(judged, t.items[i]))
            && ((forall l :: !(LiveOn(s, l, i) && s.leases[l].role == Triage)) ==>
                  t == s.(items := s.items[i := judged], ledger := s.ledger + [recorded]))
  {
    FreeingFrees(s.items[i].(classification := Some(verdict), decision := Some(verdict)));
    assert forall l | IsTriageOn(s, l, i) && IsTriageOn(s, id, i) :: l == id;
    if IsTriageOn(s, id, i) {
      assert exists l :: IsTriageOn(s, l, i);
    }
    hide Reopened, IsReopened;
  }

  /** The agent's own active fixer lease on the item takes the new hash, and nothing else changes. */
  predicate IsReentry(e: State, t: State, i: string, agentId: string, rebuilt: Hash, id: string) {
    && id in e.leases && e.leases[id].itemId == i && e.leases[id].agentId == agentId
    && e.leases[id].role == Fixer && e.leases[id].status == Active
    && t.leases == e.leases[id := e.leases[id].(hash := rebuilt)] && t.items == e.items
    && t.ledger == e.ledger + [RequestIssued(i, id, agentId, e.leases[id].requestId, true)]
  }

  /** Re-entry needs a lease of the agent's own, moves nothing but its hash, and records the rebuilt request. */
  lemma ReentryShows(s: State, i: string, agentId: string, now: int, rebuilt: Hash)
    ensures var (e, done) := (Expire(s, now), Effect(s, DoReenter(i, agentId, now, rebuilt)));
            && (done.Some? <==> i in s.items && exists id :: IsOwnOn(e, id, i, agentId))
            && (done.Some? ==> exists id :: IsReentry(e, done.value, i, agentId, rebuilt, id))
  {
    var (e, done) := (Expire(s, now), Effect(s, DoReenter(i, agentId, now, rebuilt)));
    assert e.items.Keys == s.items.Keys;
    hide Expire;
    if done.Some? {
      assert IsReentry(e, done.value, i, agentId, rebuilt, OwnOn(e, i, agentId).value);
    }
  }

  /** A request that is turned away keeps the expiries it noticed, and records its rejection if there is one. */
  lemma TurningAwayShows(s: State, now: int, i: string, agentId: string)
    ensures Effect(s, DoTurnAway(now, None)) == Some(Expire(s, now))
    ensures Effect(s, DoTurnAway(now, Some((i, agentId))))
         == Some(Expire(s, now).(ledger := s.ledger + [RequestRejected(i, agentId)]))
  {
  }

  // ----------------------------------------------------------------- releases

  /** Giving up a live lease releases it and frees the item it marks; anything else is left alone. */
  lemma ReleaseShows(s: State, id: string)
    ensures Effect(s, DoRelease(id)).Some?
    ensures var t := Effect(s, DoRelease(id)).value;
            && t.ledger == s.ledger
            && (if id in s.leases && s.leases[id].status in {Active, Submitted}
                then && t.leases == s.leases[id := s.leases[id].(status := Released)]
                     && var i := s.leases[id].itemId;
                        if i in s.items && s.items[i].activeLease == Some(id)
                        then i in t.items && t.items == s.items[i := t.items[i]] && IsFreed(s.items[i], t.items[i])
                        else t.items == s.items
                else t == s)
  {
  }

  /** Giving up an irrecoverable lease frees the item unless another lease marks it. */
  lemma IrrecoverableShows(s: State, id: string, i: string)
    requires i in s.items
    ensures var t := ReleaseIrrecoverable(s, id, i);
            && t.ledger == s.ledger
            && t.leases == (if id in s.leases && s.leases[id].status in {Active, Submitted}
                            then s.leases[id := s.leases[id].(status := Released)] else s.leases)
            && (if s.items[i].activeLease.None? || s.items[i].activeLease == Some(id)
                then i in t.items && t.items == s.items[i := t.items[i]] && IsFreed(s.items[i], t.items[i])
                else t.items == s.items)
  {
  }

  /** A live fixer lease of the agent on the item. */
  predicate IsOwnWork(l: Lease, i: string, agentId: string) {
    l.itemId == i && l.agentId == agentId && l.role == Fixer && l.status in {Active, Submitted}
  }

  /** Giving up a stale thread releases exactly the agent's own work on it and marks it stale; without any it does nothing. */
  lemma SelfStaleShows(s: State, i: string, agentId: string)
    ensures Effect(s, DoReleaseSelfStale(i, agentId)).Some?
    ensures var t := Effect(s, DoReleaseSelfStale(i, agentId)).value;
            if exists id | id in s.leases :: IsOwnWork(s.leases[id], i, agentId) then
              && t.ledger == s.ledger && t.leases.Keys == s.leases.Keys && t.items.Keys == s.items.Keys
              && (forall id | id in s.leases ::
                    t.leases[id] == if IsOwnWork(s.leases[id], i, agentId) then s.leases[id].(status := Released) else s.leases[id])
              && (forall j | j in s.items ::
                    t.items[j] == if j == i then s.items[j].(activeLease := None, phase := Stale, status := IsStale) else s.items[j])
            else t == s
  {
    assert forall id | id in s.leases :: IsOwnWork(s.leases[id], i, agentId) == IsOwnFixer(s, id, i, agentId);
  }

  // ---------------------------------------------------------------- the store

  /** What the store derives: the holder's claim on a held item, and no claim on any other. */
  lemma CommitShows(s: State, i: string)
    requires OneLive(s) && i in s.items
    ensures var (item, after) := (s.items[i], Commit(s).value.items[i]);
            && SameButClaim(item, after) && after.blocking == item.blocking
            && (forall id | id in s.leases && s.leases[id].status in {Active, Submitted} && s.leases[id].itemId == i ::
                  && after.phase == Claimed && after.activeLease == Some(id) && after.claimedBy == Some(s.leases[id].agentId)
                  && after.status == item.status)
            && ((forall id | id in s.leases && s.leases[id].itemId == i :: s.leases[id].status !in {Active, Submitted}) ==>
                  if item.phase == Claimed then IsFreed(item, after)
                  else after == item.(activeLease := None, claimedBy := None))
  {
    assert Commit(s).value.items[i] == Derived(s, i, s.items[i]);
    assert forall id | id in s.leases && s.leases[id].itemId == i && s.leases[id].Live() :: LiveOn(s, id, i);
    if IsHeld(s, i) {
      assert LiveOn(s, Holder(s, i), i);
      forall id | id in s.leases && s.leases[id].status in {Active, Submitted} && s.leases[id].itemId == i
        ensures id == Holder(s, i)
      {
        assert LiveOn(s, id, i);
      }
    }
  }
}
