/** Every action keeps every session sound, in any interleaving of processes. */
module ProtocolSafety {
  import opened Wrappers
  import opened Protocol
  import opened Leases
  import opened Submission
  import opened BatchClaim
  import opened BatchSubmit
  import opened ProtocolRuns
  import opened ProtocolSteps

  // ------------------------------------------------------------ calm actions

  lemma ExpiryIsCalm(s: State, now: int)
    ensures Calm(s, Expire(s, now))
  {
  }

  lemma ClassifyIsCalm(s: State, i: string, agentId: string, verdict: Resolution)
    requires Classify(s, i, agentId, verdict).Some?
    ensures Calm(s, Classify(s, i, agentId, verdict).value)
  {
  }

  lemma TurnAwayIsCalm(s: State, now: int, rejected: Option<(string, string)>)
    ensures Calm(s, TurnAway(s, now, rejected))
  {
  }

  lemma ReenterIsCalm(s: State, i: string, agentId: string, now: int, rebuilt: Hash)
    requires Reenter(s, i, agentId, now, rebuilt).Some?
    ensures Calm(s, Reenter(s, i, agentId, now, rebuilt).value)
  {
    ExpiryIsCalm(s, now);
    hide Expire;
    var e := Expire(s, now);
    CalmIsTransitive(s, e, Reenter(s, i, agentId, now, rebuilt).value);
  }

  lemma ReleaseClaimedIsCalm(s: State, id: string)
    ensures Calm(s, ReleaseClaimed(s, id))
  {
  }

  lemma ReleaseSelfStaleIsCalm(s: State, i: string, agentId: string)
    ensures Calm(s, ReleaseSelfStale(s, i, agentId))
  {
  }

  lemma ReleaseIrrecoverableIsCalm(s: State, id: string, i: string)
    requires i in s.items
    ensures Calm(s, ReleaseIrrecoverable(s, id, i))
  {
  }

  lemma {:induction false} ExpiryEventsAreCalm(s: State, order: seq<string>)
    requires forall id | id in order :: id in s.leases
    ensures forall e | e in ExpiryEvents(s, order) :: IsCalm(e)
  {
    if order != [] {
      ExpiryEventsAreCalm(s, order[..|order| - 1]);
    }
  }

  lemma ReclaimIsCalm(s: State, now: int, order: seq<string>)
    requires forall id | id in order :: id in s.leases
    ensures Calm(s, Reclaim(s, now, order))
  {
    ExpiryIsCalm(s, now);
    ExpiryEventsAreCalm(s, order);
    hide Expire, ExpiryEvents;
  }

  lemma {:induction false} ReleasedRowsAreCalm(s: State, rows: seq<Row>)
    requires forall row | row in rows :: row.prepared.itemId in s.items
    ensures Calm(s, ReleaseRows(s, rows))
  {
    if rows != [] {
      var n := |rows| - 1;
      var t := ReleaseRows(s, rows[..n]);
      ReleasedRowsAreCalm(s, rows[..n]);
      ReleaseIrrecoverableIsCalm(t, rows[n].prepared.leaseId, rows[n].prepared.itemId);
      hide ReleaseIrrecoverable, Calm;
      CalmIsTransitive(s, t, ReleaseRows(s, rows));
    }
  }

  lemma RecordIsCalm(s: State, itemId: string, agentId: string, reason: Reason)
    ensures Calm(s, Record(s, itemId, agentId, reason))
  {
  }

  // ------------------------------------------------------------------ grants

  /** All of soundness that does not count issue events. */
  ghost predicate Secure(s: State) {
    AtRest(s) && Accounted(s) && Rebuilt(s) && Peaceful(s)
  }

  lemma GrantKeepsSecure(s: State, t: State, id: string)
    requires Secure(s) && Grants(s, t, id) && AcceptsNothingMore(s, t)
    ensures Secure(t)
  {
    GrantKeepsPeace(s, t, id);
    GrantKeepsAccounts(s, t, id);
    QuietKeepsEvidence(s, t);
  }

  lemma CalmKeepsSecure(s: State, t: State)
    requires Secure(s) && Calm(s, t)
    ensures Secure(t)
  {
    CalmKeepsAccounts(s, t);
    CalmKeepsEvidence(s, t);
    CalmKeepsPeace(s, t);
    CalmKeepsRest(s, t);
  }

  lemma ClaimGrants(s: State, g: Grant, now: int)
    requires g.itemId in s.items && Claim(s, g, now).Some?
    requires g.leaseId !in s.leases && forall e | e in s.ledger && e.Accepts() :: e.leaseId != g.leaseId
    ensures Grants(s, Claim(s, g, now).value, g.leaseId)
    ensures Claim(s, g, now).value.ledger == s.ledger
  {
    ExpiryIsCalm(s, now);
    var e := Expire(s, now);
    var keys := ConflictKeys(g.itemId, e.items[g.itemId]);
    hide Expire, IsBlocked, Compatible;
    var t := Claim(s, g, now).value;
    forall l | l in s.leases && t.leases[l].Live()
      ensures Compatible(t.leases[g.leaseId], t.leases[l]) && Compatible(t.leases[l], t.leases[g.leaseId])
    {
      GrantIsCompatible(e, g, keys, now, l);
    }
  }

  /** A grant between calm changes, with events that accept nothing, is still a grant. */
  lemma GrantAmidCalm(s: State, u: State, t: State, v: State, id: string)
    requires Calm(s, u) && CalmItems(t, v) && v.leases == t.leases
    requires Grants(u, t, id) && forall e | e in s.ledger && e.Accepts() :: e.leaseId != id
    ensures Grants(s, v, id)
  {
    hide Compatible;
    forall l | l in s.leases ensures Calmed(s.leases[l], v.leases[l]) {
      assert Calmed(s.leases[l], u.leases[l]) && Calmed(u.leases[l], t.leases[l]);
    }
  }

  lemma RestoredIsCalm(s: State, i: string, local: Option<Resolution>)
    requires i in s.items
    ensures Calm(s, Restored(s, i, local)) && Restored(s, i, local).items.Keys == s.items.Keys
    ensures Restored(s, i, local).ledger == s.ledger && Restored(s, i, local).leases == s.leases
  {
  }

  lemma ClaimOneGrants(s: State, g: Grant, local: Option<Resolution>, now: int)
    requires IsNew(s, g.leaseId) && ClaimOne(s, g, local, now).Some?
    ensures var t := ClaimOne(s, g, local, now).value;
            && Grants(s, t, g.leaseId)
            && t.ledger == s.ledger + [RequestIssued(g.itemId, g.leaseId, g.agentId, g.requestId, false)]
  {
    hide Expire, Claim, Grants, Restored, Calm, IsNew;
    var e := Expire(s, now);
    ExpireShape(s, now);
    ExpiryIsCalm(s, now);
    NewIsUnnamed(s, g.leaseId);
    var u := Restored(e, g.itemId, local);
    RestoredIsCalm(e, g.itemId, local);
    CalmIsTransitive(s, e, u);
    ClaimGrants(u, g, now);
    ClaimKeepsItems(u, g, now);
    MarkedClaimGrants(s, u, g, now, ClaimOne(s, g, local, now).value);
  }

  lemma ClaimKeepsItems(s: State, g: Grant, now: int)
    requires g.itemId in s.items && Claim(s, g, now).Some?
    ensures Claim(s, g, now).value.items.Keys == s.items.Keys
  {
  }

  lemma ExpireShape(s: State, now: int)
    ensures var e := Expire(s, now);
            e.leases.Keys == s.leases.Keys && e.ledger == s.ledger && e.items.Keys == s.items.Keys
  {
  }

  lemma NewIsUnnamed(s: State, id: string)
    requires IsNew(s, id)
    ensures id !in s.leases && forall e | e in s.ledger && e.Accepts() :: e.leaseId != id
  {
    assert forall x | x in s.ledger && x.Accepts() :: x.Names(x.leaseId);
  }

  lemma MarkedClaimGrants(s: State, u: State, g: Grant, now: int, v: State)
    requires Calm(s, u) && g.itemId in u.items && Claim(u, g, now).Some?
    requires forall e | e in s.ledger && e.Accepts() :: e.leaseId != g.leaseId
    requires var t := Claim(u, g, now).value;
             Grants(u, t, g.leaseId) && v.leases == t.leases && v.items.Keys == t.items.Keys
             && forall i | i in t.items :: v.items[i].evidence == t.items[i].evidence && v.items[i].thread == t.items[i].thread
    ensures Grants(s, v, g.leaseId)
  {
    hide Grants, Calm, Claim;
    GrantAmidCalm(s, u, Claim(u, g, now).value, v, g.leaseId);
  }

  lemma IssueKeepsCount(s: State, t: State, id: string, event: Event)
    requires IssuedOnce(s) && IsNew(s, id) && t.leases.Keys == s.leases.Keys + {id}
    requires t.ledger == s.ledger + [event] && event.RequestIssued? && event.leaseId == id && !event.rebuilt
    ensures IssuedOnce(t)
  {
    assert t.ledger[..|t.ledger| - 1] == s.ledger;
    assert forall e | e in s.ledger :: e.Issues(id) ==> e.Names(id);
    NoIssueCounts(s.ledger, id);
  }

  lemma ClaimOneKeepsSound(s: State, g: Grant, local: Option<Resolution>, now: int)
    requires Sound(s) && IsNew(s, g.leaseId) && ClaimOne(s, g, local, now).Some?
    ensures Sound(ClaimOne(s, g, local, now).value)
  {
    ClaimOneGrants(s, g, local, now);
    var t := ClaimOne(s, g, local, now).value;
    hide ClaimOne;
    GrantKeepsSecure(s, t, g.leaseId);
    IssueKeepsCount(s, t, g.leaseId, t.ledger[|s.ledger|]);
  }

  // ------------------------------------------------------------ batch claims

  lemma ReconcileIsCalm(s: State, i: string, id: string, c: Call)
    requires i in s.items && id in s.leases && s.leases[id].Live()
    ensures Calm(s, Reconcile(s, i, id, c).0)
  {
  }

  lemma ClassifiedIsCalm(s: State, i: string, agentId: string)
    requires i in s.items
    ensures Calm(s, Classified(s, i, agentId)) && AcceptsNothingMore(s, Classified(s, i, agentId))
    ensures Classified(s, i, agentId).leases == s.leases && Classified(s, i, agentId).items.Keys == s.items.Keys
  {
  }

  lemma LeaseNewShape(s: State, i: string, c: Call)
    requires i in s.items && LeaseNew(s, i, c).Made?
    ensures var u := Classified(s, i, c.agentId);
            var g := NewGrant(i, u.items[i], c);
            var t := Claim(u, g, c.now);
            var v := LeaseNew(s, i, c).state;
            && g.leaseId == c.mint(i) && g.itemId == i && t.Some?
            && v.leases == t.value.leases && v.items.Keys == t.value.items.Keys && v.ledger == t.value.ledger
            && forall j | j in v.items ::
                 v.items[j].evidence == t.value.items[j].evidence && v.items[j].thread == t.value.items[j].thread
  {
    hide Classified, Claim, Calm;
    ClassifiedIsCalm(s, i, c.agentId);
    var u := Classified(s, i, c.agentId);
    ClaimKeepsItems(u, NewGrant(i, u.items[i], c), c.now);
  }

  lemma LeaseNewGrants(s: State, i: string, c: Call)
    requires i in s.items && LeaseNew(s, i, c).Made?
    requires c.mint(i) !in s.leases && forall e | e in s.ledger && e.Accepts() :: e.leaseId != c.mint(i)
    ensures Grants(s, LeaseNew(s, i, c).state, c.mint(i)) && AcceptsNothingMore(s, LeaseNew(s, i, c).state)
  {
    LeaseNewShape(s, i, c);
    ClassifiedIsCalm(s, i, c.agentId);
    hide Classified, Grants, Calm, Claim, LeaseNew, NewGrant;
    var u := Classified(s, i, c.agentId);
    var g := NewGrant(i, u.items[i], c);
    UnacceptedStays(s, u, c.mint(i));
    ClaimGrants(u, g, c.now);
    MarkedClaimGrants(s, u, g, c.now, LeaseNew(s, i, c).state);
  }

  lemma UnacceptedStays(s: State, t: State, id: string)
    requires AcceptsNothingMore(s, t) && forall e | e in s.ledger && e.Accepts() :: e.leaseId != id
    ensures forall e | e in t.ledger && e.Accepts() :: e.leaseId != id
  {
    forall e | e in t.ledger && e.Accepts() ensures e.leaseId != id {
      var k :| 0 <= k < |t.ledger| && t.ledger[k] == e;
      assert k < |s.ledger| && s.ledger[k] == e;
    }
  }

  lemma VisitKeepsSecure(s: State, quota: nat, visited: seq<string>, c: Call, p: Progress, i: string)
    requires MintsFresh(s, c) && Kept(s, quota, visited, c, p) && p.Going? && i in s.items && i !in visited
    requires Secure(p.state)
    ensures Visit(p, i, c).Going? ==> Secure(Visit(p, i, c).state)
  {
    hide LeasesKept, EntriesHold, RestKept, NothingOverdue, Reconcile, LeaseNew, Secure, MintsFresh, Grants, Calm,
         Created, AcceptsNothingMore;
    MintIsUnnamed(s, visited, c, p.state, i);
    MintedIsNew(s, visited, c, p.state, p.entries, i);
    var own := OwnOn(p.state, i, c.agentId);
    if own.Some? {
      ReconcileIsCalm(p.state, i, own.value, c);
      CalmKeepsSecure(p.state, Reconcile(p.state, i, own.value, c).0);
    } else if p.quota > 0 && LeaseNew(p.state, i, c).Made? {
      LeaseNewGrants(p.state, i, c);
      GrantKeepsSecure(p.state, LeaseNew(p.state, i, c).state, c.mint(i));
    }
  }

  lemma MintIsUnnamed(s: State, visited: seq<string>, c: Call, p: State, i: string)
    requires MintsFresh(s, c) && RestKept(s, visited, p) && i in s.items
    ensures i in p.items && forall e | e in p.ledger && e.Accepts() :: e.leaseId != c.mint(i)
  {
    assert IsNew(s, c.mint(i));
    NewIsUnnamed(s, c.mint(i));
    UnacceptedStays(s, p, c.mint(i));
  }

  lemma {:induction false} VisitsKeepSecure(s: State, quota: nat, targets: seq<string>, c: Call)
    requires Secure(s) && NothingOverdue(s, c.now) && MintsFresh(s, c)
    requires NoRepeats(targets) && forall i | i in targets :: i in s.items
    ensures var p := VisitAll(s, quota, targets, c); p.Going? ==> Secure(p.state)
  {
    hide Secure, NothingOverdue, MintsFresh, Visit, Kept;
    if targets != [] {
      var n := |targets| - 1;
      VisitsKeepSecure(s, quota, targets[..n], c);
      BatchKeeps(s, quota, targets[..n], c);
      var p := VisitAll(s, quota, targets[..n], c);
      assert targets[n] !in targets[..n];
      if p.Going? {
        VisitKeepsSecure(s, quota, targets[..n], c, p, targets[n]);
      } else {
        FailedStays(p, targets[n], c);
      }
    }
  }

  lemma FailedStays(p: Progress, i: string, c: Call)
    requires p.Failed?
    ensures Visit(p, i, c).Failed?
  {
  }

  lemma {:induction false} IssueEventsAcceptNothing(entries: seq<Entry>, agentId: string)
    ensures forall e | e in IssueEvents(entries, agentId) :: !e.Accepts()
  {
    if entries != [] {
      IssueEventsAcceptNothing(entries[..|entries| - 1], agentId);
    }
  }

  lemma AppendKeepsSecure(s: State, events: seq<Event>)
    requires Secure(s) && forall e | e in events :: !e.Accepts()
    ensures Secure(s.(ledger := s.ledger + events))
  {
    var t := s.(ledger := s.ledger + events);
    QuietKeepsEvidence(s, t);
    forall e | e in t.ledger && e.Accepts() ensures IsAccounted(t, e) {
      assert e in s.ledger && IsAccounted(s, e);
    }
    forall l | l in t.leases && t.leases[l].status == Accepted ensures IsOnRecord(t, l) {
      assert IsOnRecord(s, l);
    }
  }

  lemma ClaimBatchKeepsSecure(s: State, order: seq<string>, c: Call)
    requires Secure(s) && NoRepeats(order) && MintsFresh(s, c) && CommitBatch(s, order, c).Some?
    ensures Secure(CommitBatch(s, order, c).value.0)
  {
    var e := Expire(s, c.now);
    var targets := Targets(e, order, c);
    var quota := Quota(|OwnActive(e, c.agentId)|);
    hide Secure, Expire, Targets, VisitAll, NothingOverdue, MintsFresh, IssueEvents, Calm, OwnActive;
    ExpiryIsCalm(s, c.now);
    CalmKeepsSecure(s, e);
    StillFresh(s, c);
    ExpireLeavesNothingOverdue(s, c.now);
    VisitsKeepSecure(e, quota, targets, c);
    var p := VisitAll(e, quota, targets, c);
    IssueEventsAcceptNothing(p.entries, c.agentId);
    AppendKeepsSecure(p.state, IssueEvents(p.entries, c.agentId));
  }

  lemma ClaimBatchKeepsSound(s: State, order: seq<string>, c: Call)
    requires Sound(s) && NoRepeats(order) && MintsFresh(s, c) && CommitBatch(s, order, c).Some?
    ensures Sound(CommitBatch(s, order, c).value.0)
  {
    var (t, entries) := CommitBatch(s, order, c).value;
    ClaimBatchKeepsSecure(s, order, c);
    BatchClaimIsBounded(s, order, c);
    var e := Expire(s, c.now);
    assert e.leases.Keys == s.leases.Keys;
    CreatedLeasesAreUnissued(s, e, t, entries, c);
    hide CommitBatch, Expire;
    BatchKeepsIssues(s, e, t, entries);
  }

  lemma BatchKeepsIssues(s: State, e: State, t: State, entries: seq<Entry>)
    requires IssuedOnce(s) && t.leases.Keys == e.leases.Keys + Created(entries) && e.leases.Keys == s.leases.Keys
    requires forall id :: IssueCount(t.ledger, id) == IssueCount(s.ledger, id) + if id in Created(entries) then 1 else 0
    requires forall id | id in Created(entries) :: id !in s.leases && IssueCount(s.ledger, id) == 0
    ensures IssuedOnce(t)
  {
    hide IssueCount, Created;
  }

  lemma CreatedLeasesAreUnissued(s: State, e: State, t: State, entries: seq<Entry>, c: Call)
    requires MintsFresh(s, c) && forall entry | entry in entries :: EntryHolds(e, t, entry, c)
    ensures forall id | id in Created(entries) :: IssueCount(s.ledger, id) == 0
  {
    forall id | id in Created(entries) ensures IssueCount(s.ledger, id) == 0 {
      var entry :| entry in entries && entry.created && entry.leaseId == id;
      assert EntryHolds(e, t, entry, c) && IsNew(s, c.mint(entry.itemId));
      assert forall x | x in s.ledger :: x.Issues(id) ==> x.Names(id);
      NoIssueCounts(s.ledger, id);
    }
  }

  // ------------------------------------------------------------- submissions

  lemma ConcludedAccepts(s: State, t: State, r: Response, id: string, itemId: string, now: int)
    requires id in s.leases && s.leases[id].status == Active && s.leases[id].agentId == r.agentId
    requires s.leases[id].itemId == itemId && itemId in s.items && r.choice.Known?
    requires t == s.(leases := s.leases[id := s.leases[id].(status := Accepted)])
    requires Closes(Conclude(t, r, id, itemId, now))
    ensures Accepts(s, Conclude(t, r, id, itemId, now).state, id)
  {
    SnapshotReplaysEvidence(s.items[itemId].evidence, s.items[itemId].evidence, s.items[itemId].thread, AnswerOf(r), now, 0);
  }

  lemma SubmissionAccepts(s: State, r: Response, p: Prepared, now: int)
    requires p.itemId in s.items && r.choice.Known? && Closes(AcceptSubmission(s, r, p, now))
    ensures Accepts(s, AcceptSubmission(s, r, p, now).state, AcceptSubmission(s, r, p, now).leaseId)
  {
    var (t, why) := Take(s, p.leaseId, r.agentId, p.itemId, p.hash, now);
    if why.None? {
      TakeAccepts(s, p.leaseId, r.agentId, p.itemId, p.hash, now);
      hide Conclude, Accepts;
      ConcludedAccepts(s, t, r, p.leaseId, p.itemId, now);
    } else {
      var id := Rebound(t, r, p.itemId, p.leaseId).value;
      TakeAccepts(t, id, r.agentId, p.itemId, t.leases[id].hash, now);
      var u := Take(t, id, r.agentId, p.itemId, t.leases[id].hash, now).0;
      assert t == s;
      hide Conclude, Accepts;
      ConcludedAccepts(s, u, r, id, p.itemId, now);
    }
  }

  lemma RefusalIsCalm(s: State, r: Response, p: Prepared, now: int)
    requires p.itemId in s.items && r.choice.Known? && AcceptSubmission(s, r, p, now).Refused?
    ensures Calm(s, AcceptSubmission(s, r, p, now).state)
  {
    RefusalTakesNothing(s, r, p, now);
    hide AcceptSubmission;
  }

  lemma SubmitSingleKeepsSound(s: State, r: Response, files: map<string, File>, judge: Judge, verdict: Option<Reason>, now: int)
    requires Sound(s) && SubmitSingle(s, r, files, judge, verdict, now).Some?
    ensures Sound(SubmitSingle(s, r, files, judge, verdict, now).value)
  {
    hide Prepare, Sound, AcceptSubmission, Calm, ReleaseIrrecoverable, Accepts;
    var prepared := Prepare(s, r, files, judge);
    var t := SubmitSingle(s, r, files, judge, verdict, now).value;
    if r.leaseId == "" {
    } else if prepared.Err? {
      RecordIsCalm(s, ItemOfRejection(s, r, prepared.error), Signer(r), prepared.error);
      CalmKeepsSound(s, t);
    } else {
      PreparedIsConsistent(s, r, files, judge);
      var p := prepared.value;
      if verdict.Some? {
        var noted := Record(s, p.itemId, r.agentId, verdict.value);
        RecordIsCalm(s, p.itemId, r.agentId, verdict.value);
        CalmKeepsSound(s, noted);
        ReleaseIrrecoverableIsCalm(noted, p.leaseId, p.itemId);
        CalmKeepsSound(noted, ReleaseIrrecoverable(noted, p.leaseId, p.itemId));
      } else if Closes(AcceptSubmission(s, r, p, now)) {
        SubmissionAccepts(s, r, p, now);
        AcceptKeepsSound(s, t, AcceptSubmission(s, r, p, now).leaseId);
      } else {
        RefusalIsCalm(s, r, p, now);
        CalmKeepsSound(s, t);
      }
    }
  }

  lemma {:induction false} AcceptedRowsKeepSound(s: State, rows: seq<Row>, now: int)
    requires Sound(s)
    ensures AcceptRows(s, rows, now).Some? ==> Sound(AcceptRows(s, rows, now).value)
  {
    hide Sound, AcceptSubmission, Accepts;
    if rows != [] {
      var n := |rows| - 1;
      AcceptedRowsKeepSound(s, rows[..n], now);
      if AcceptRows(s, rows, now).Some? {
        var t := AcceptRows(s, rows[..n], now).value;
        var o := AcceptSubmission(t, rows[n].response, rows[n].prepared, now);
        SubmissionAccepts(t, rows[n].response, rows[n].prepared, now);
        AcceptKeepsSound(t, o.state, o.leaseId);
      }
    }
  }

  lemma RejectedRowsKeepSound(s: State, rows: seq<Row>, itemId: string, agentId: string, reason: Reason)
    requires Sound(s) && forall row | row in rows :: row.prepared.itemId in s.items
    ensures Sound(RejectRows(s, rows, itemId, agentId, reason))
    ensures forall k | 0 <= k < |rows| :: Sound(RejectBinding(s, rows, k, reason))
  {
    hide Sound, Calm, ReleaseIrrecoverable, ReleaseRows;
    var noted := Record(s, itemId, agentId, reason);
    RecordIsCalm(s, itemId, agentId, reason);
    CalmKeepsSound(s, noted);
    ReleasedRowsAreCalm(noted, rows);
    CalmKeepsSound(noted, ReleaseRows(noted, rows));
    forall k | 0 <= k < |rows| ensures Sound(RejectBinding(s, rows, k, reason)) {
      UnboundKeepsSound(s, rows, k, reason);
    }
  }

  lemma UnboundKeepsSound(s: State, rows: seq<Row>, k: nat, reason: Reason)
    requires Sound(s) && k < |rows| && forall row | row in rows :: row.prepared.itemId in s.items
    ensures Sound(RejectBinding(s, rows, k, reason))
  {
    hide Sound, Calm, ReleaseIrrecoverable, ReleaseRows;
    var p := rows[k].prepared;
    assert rows[k] in rows;
    var noted := Record(s, p.itemId, rows[k].response.agentId, reason);
    RecordIsCalm(s, p.itemId, rows[k].response.agentId, reason);
    CalmKeepsSound(s, noted);
    var t := ReleaseIrrecoverable(noted, p.leaseId, p.itemId);
    ReleaseIrrecoverableIsCalm(noted, p.leaseId, p.itemId);
    CalmKeepsSound(noted, t);
    assert t.items.Keys == s.items.Keys by { ReleaseTouchesOne(noted, p.leaseId, p.itemId); }
    ReleasedRowsAreCalm(t, rows);
    CalmKeepsSound(t, ReleaseRows(t, rows));
  }

  lemma SubmitBatchKeepsSound(s: State, rs: seq<Response>, c: Context)
    requires Sound(s) && !SubmitBatch(s, rs, c).Unexpected?
    ensures Sound(SubmitBatch(s, rs, c).state)
  {
    hide Sound, CheckRows, AcceptRows, RejectRows, RejectBinding, Ready;
    var checked := CheckRows(s, rs, c);
    CheckedRowsAreReady(s, rs, c);
    ReadyItemsExist(s, checked.rows, c.now);
    var k := FirstUnbound(checked.rows, c);
    if checked.Stopped? {
      RejectedRowsKeepSound(s, checked.rows, checked.itemId, Signer(checked.response), checked.reason);
    } else if k < |checked.rows| {
      UnboundKeepsSound(s, checked.rows, k, c.revision(checked.rows[k]).value);
    } else {
      AcceptedRowsKeepSound(s, Bound(checked.rows, c), c.now);
    }
  }

  // --------------------------------------------------- a batch and its singles

  /** The checks on a response do not read the binding that is recorded on it afterwards. */
  ghost predicate IgnoresBinding(judge: Judge) {
    forall r: Response, item, b :: judge(r.(binding := b), item) == judge(r, item)
  }

  lemma BindingIsNotPrepared(s: State, r: Response, b: Option<Json>, files: map<string, File>, judge: Judge)
    requires OneLive(s) && IgnoresBinding(judge)
    ensures Prepare(s, r.(binding := b), files, judge) == Prepare(s, r, files, judge)
  {
    var bound := r.(binding := b);
    assert forall id :: IsRebound(s, bound, r.itemId, r.leaseId, id) == IsRebound(s, r, r.itemId, r.leaseId, id);
    var before, after := Rebound(s, r, r.itemId, r.leaseId), Rebound(s, bound, r.itemId, r.leaseId);
    assert before.Some? && after.Some? ==> LiveOn(s, before.value, r.itemId) && LiveOn(s, after.value, r.itemId);
    assert forall item :: Validate(bound, item, judge) == Validate(r, item, judge);
  }

  /** A response with the binding that the batch recorded on it. */
  ghost function BoundResponse(s: State, r: Response, c: Context): Response {
    var prepared := Prepare(s, r, c.files, c.judge);
    if prepared.Ok? then BoundRow(Row(r, prepared.value), c).response else r
  }

  /** What a batch does for one row is the single submission that runs hold, with no verdict against it. */
  lemma SubmitOneIsSingle(s: State, r: Response, c: Context)
    requires OneLive(s) && IgnoresBinding(c.judge) && SubmitOne(s, r, c).Some?
    ensures SubmitSingle(s, BoundResponse(s, r, c), c.files, c.judge, None, c.now) == SubmitOne(s, r, c)
  {
    var p := Prepare(s, r, c.files, c.judge).value;
    BindingIsNotPrepared(s, r, c.binding(Row(r, p)), c.files, c.judge);
    hide Prepare, AcceptSubmission, OneLive, IgnoresBinding;
    PrepareNeedsLease(s, r, c.files, c.judge);
  }

  lemma PrepareNeedsLease(s: State, r: Response, files: map<string, File>, judge: Judge)
    requires Prepare(s, r, files, judge).Ok?
    ensures r.leaseId != ""
  {
  }

  /** The single submissions of the responses, one after the other, each prepared when its turn comes. */
  ghost function SubmitSingles(s: State, rs: seq<Response>, c: Context): Option<State> {
    if rs == [] then Some(s)
    else
      var before := SubmitSingles(s, rs[..|rs| - 1], c);
      if before.None? then None
      else SubmitSingle(before.value, BoundResponse(before.value, rs[|rs| - 1], c), c.files, c.judge, None, c.now)
  }

  lemma {:induction false} SubmitEachIsSingles(s: State, rs: seq<Response>, c: Context)
    requires Sound(s) && IgnoresBinding(c.judge) && SubmitEach(s, rs, c).Some?
    ensures SubmitSingles(s, rs, c) == SubmitEach(s, rs, c) && Sound(SubmitEach(s, rs, c).value)
  {
    hide SubmitSingle, SubmitOne, Sound, IgnoresBinding, BoundResponse;
    if rs != [] {
      var n := |rs| - 1;
      SubmitEachIsSingles(s, rs[..n], c);
      var t := SubmitEach(s, rs[..n], c).value;
      assert OneLive(t) by { assert Peaceful(t) by { SoundHasPeace(t); } PeacefulHoldsOne(t); }
      SubmitOneIsSingle(t, rs[n], c);
      SubmitSingleKeepsSound(t, BoundResponse(t, rs[n], c), c.files, c.judge, None, c.now);
    }
  }

  lemma SoundHasPeace(s: State)
    requires Sound(s)
    ensures Peaceful(s)
  {
  }

  /** An accepted batch leaves exactly the session that its single submissions leave, in the order of its rows. */
  lemma AcceptedBatchIsSingles(s: State, rs: seq<Response>, c: Context)
    requires Sound(s) && IgnoresBinding(c.judge) && SubmitBatch(s, rs, c).AcceptedAll?
    ensures SubmitSingles(s, rs, c) == Some(SubmitBatch(s, rs, c).state)
  {
    hide Sound, IgnoresBinding, CheckRows, AcceptRows, Ready, IsWellFormed;
    SoundHasPeace(s);
    PeacefulHoldsOne(s);
    BatchRefinesSingleSubmits(s, rs, c);
    SubmitEachIsSingles(s, rs, c);
  }

  // ------------------------------------------------------------ compensation

  /** Leases removed by a compensation: those it created whose item is still known. */
  function Removed(s: State, entries: seq<Entry>): set<string> {
    set e | e in entries && e.created && e.itemId in s.items :: e.leaseId
  }

  /** No lease that a compensation would remove has been accepted. */
  predicate SparesAccepted(s: State, entries: seq<Entry>) {
    forall id | id in Removed(s, entries) && id in s.leases :: s.leases[id].status != Accepted
  }

  /** Every acceptance on record still has its lease. */
  predicate Whole(s: State) {
    forall e | e in s.ledger && e.Accepts() :: e.leaseId in s.leases
  }

  predicate IsUndone(s: State, entries: seq<Entry>, i: string) {
    exists e | e in entries :: e.created && e.itemId == i && e.leaseId in s.leases
  }

  lemma ReopeningAgain(before: Item, after: Item)
    ensures IsReopened(before, Reopened(before))
    ensures IsReopened(before, after) ==> IsReopened(before, Reopened(after))
  {
  }

  lemma {:induction false} UndoneLeases(s: State, entries: seq<Entry>)
    ensures Undo(s, entries).leases == s.leases - Removed(s, entries)
  {
    if entries != [] {
      var n := |entries| - 1;
      UndoneLeases(s, entries[..n]);
      assert forall x :: x in entries <==> x in entries[..n] || x == entries[n];
      assert Removed(s, entries)
          == Removed(s, entries[..n]) + if entries[n].created && entries[n].itemId in s.items then {entries[n].leaseId} else {};
    }
  }

  lemma {:induction false} UndoneItem(s: State, entries: seq<Entry>, i: string)
    requires i in s.items
    ensures if IsUndone(s, entries, i) then IsReopened(s.items[i], Undo(s, entries).items[i])
            else Undo(s, entries).items[i] == s.items[i]
  {
    if entries != [] {
      var n := |entries| - 1;
      UndoneItem(s, entries[..n], i);
      hide Reopened, IsReopened;
      ReopeningAgain(s.items[i], Undo(s, entries[..n]).items[i]);
      assert forall x :: x in entries <==> x in entries[..n] || x == entries[n];
      assert entries[n] in entries;
    }
  }

  /** Compensation removes what the batch created and nothing else, and reopens those items only. */
  lemma UndoRemovesExactlyCreated(s: State, entries: seq<Entry>)
    ensures Undo(s, entries).leases == s.leases - Removed(s, entries)
    ensures forall i | i in s.items ::
              if IsUndone(s, entries, i) then IsReopened(s.items[i], Undo(s, entries).items[i])
              else Undo(s, entries).items[i] == s.items[i]
  {
    hide Undo, IsUndone, IsReopened;
    UndoneLeases(s, entries);
    forall i | i in s.items
      ensures if IsUndone(s, entries, i) then IsReopened(s.items[i], Undo(s, entries).items[i])
              else Undo(s, entries).items[i] == s.items[i]
    {
      UndoneItem(s, entries, i);
    }
  }

  lemma UndoIsRemoval(s: State, entries: seq<Entry>)
    ensures Removes(s, Undo(s, entries))
  {
    UndoRemovesExactlyCreated(s, entries);
    hide Undo;
    var t := Undo(s, entries);
    forall i | i in s.items ensures t.items[i].evidence == s.items[i].evidence && t.items[i].thread == s.items[i].thread {
      if IsUndone(s, entries, i) {
        assert IsReopened(s.items[i], t.items[i]);
      }
    }
  }

  /**
    Compensation leaves every acceptance its lease exactly when it removes no accepted lease: the
    event of an accepted lease stays in the ledger, but the lease it names would be gone.
  */
  lemma CompensationKeepsAccounts(s: State, entries: seq<Entry>)
    requires Sound(s) && Whole(s)
    ensures Whole(Undo(s, entries)) <==> SparesAccepted(s, entries)
  {
    UndoRemovesExactlyCreated(s, entries);
    hide Undo, Removed;
    var t := Undo(s, entries);
    if SparesAccepted(s, entries) {
      forall e | e in t.ledger && e.Accepts() ensures e.leaseId in t.leases {
        assert IsAccounted(s, e);
      }
    } else {
      var id :| id in Removed(s, entries) && id in s.leases && s.leases[id].status == Accepted;
      assert IsOnRecord(s, id);
      var event :| event in s.ledger && event.Accepts() && event.leaseId == id;
    }
  }
}
