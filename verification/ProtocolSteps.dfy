/** The four kinds of change a session goes through, and why each keeps it sound. */
module ProtocolSteps {
  import opened Wrappers
  import opened Protocol
  import opened Leases
  import opened Submission
  import opened ProtocolRuns

  // ------------------------------------------------------------- calm change

  /** A live lease may end without an answer or have its request reissued; an ended one stays as it is. */
  predicate Calmed(before: Lease, after: Lease) {
    if before.Live() then
      && after == before.(status := after.status, hash := after.hash)
      && (after.status == before.status || after.status == Expired || after.status == Released)
    else after == before
  }

  predicate IsCalm(e: Event) {
    !e.Accepts() && !(e.RequestIssued? && !e.rebuilt)
  }

  predicate CalmLeases(s: State, t: State) {
    t.leases.Keys == s.leases.Keys && forall id | id in s.leases :: Calmed(s.leases[id], t.leases[id])
  }

  predicate CalmLedger(s: State, t: State) {
    s.ledger <= t.ledger && forall k | |s.ledger| <= k < |t.ledger| :: IsCalm(t.ledger[k])
  }

  predicate CalmItems(s: State, t: State) {
    Observes(s, t.items)
  }

  /** No lease granted, accepted or removed; no answer written. */
  predicate Calm(s: State, t: State) {
    CalmLeases(s, t) && CalmLedger(s, t) && CalmItems(s, t)
  }

  lemma CalmIsTransitive(s: State, t: State, u: State)
    requires Calm(s, t) && Calm(t, u)
    ensures Calm(s, u)
  {
    forall id | id in s.leases ensures Calmed(s.leases[id], u.leases[id]) {
      assert Calmed(s.leases[id], t.leases[id]) && Calmed(t.leases[id], u.leases[id]);
    }
    forall k | |s.ledger| <= k < |u.ledger| ensures IsCalm(u.ledger[k]) {
      if k < |t.ledger| {
        assert u.ledger[k] == t.ledger[k];
      }
    }
  }

  lemma {:induction false} CalmEventsRebuildNothing(ledger: seq<Event>, more: seq<Event>, i: string, thread: bool)
    requires ledger <= more && forall k | |ledger| <= k < |more| :: IsCalm(more[k])
    ensures EvidenceOf(more, i, thread) == EvidenceOf(ledger, i, thread)
  {
    if |ledger| == |more| {
      assert ledger == more;
    } else {
      CalmEventsRebuildNothing(ledger, more[..|more| - 1], i, thread);
    }
  }

  lemma {:induction false} CalmEventsIssueNothing(ledger: seq<Event>, more: seq<Event>, id: string)
    requires ledger <= more && forall k | |ledger| <= k < |more| :: IsCalm(more[k])
    ensures IssueCount(more, id) == IssueCount(ledger, id)
  {
    if |ledger| == |more| {
      assert ledger == more;
    } else {
      CalmEventsIssueNothing(ledger, more[..|more| - 1], id);
    }
  }

  lemma {:induction false} UnnamedItemIsBlank(ledger: seq<Event>, i: string, thread: bool)
    requires forall e | e in ledger && e.Accepts() :: e.itemId != i
    ensures EvidenceOf(ledger, i, thread) == BLANK
  {
    if ledger != [] {
      UnnamedItemIsBlank(ledger[..|ledger| - 1], i, thread);
      assert ledger[|ledger| - 1] in ledger;
    }
  }

  lemma CalmKeepsAccounts(s: State, t: State)
    requires Accounted(s) && CalmLeases(s, t) && CalmLedger(s, t) && s.items.Keys <= t.items.Keys
    ensures Accounted(t)
  {
    forall e | e in t.ledger && e.Accepts() ensures IsAccounted(t, e) {
      var k :| 0 <= k < |t.ledger| && t.ledger[k] == e;
      assert k < |s.ledger| && s.ledger[k] == e;
      assert IsAccounted(s, e);
    }
    forall id | id in t.leases && t.leases[id].status == Accepted ensures IsOnRecord(t, id) {
      assert Calmed(s.leases[id], t.leases[id]) && IsOnRecord(s, id);
      var e :| e in s.ledger && e.Accepts() && e.leaseId == id;
      var k :| 0 <= k < |s.ledger| && s.ledger[k] == e;
      assert t.ledger[k] == e;
    }
  }

  lemma CalmKeepsEvidence(s: State, t: State)
    requires Rebuilt(s) && Accounted(s) && CalmLedger(s, t) && CalmItems(s, t)
    ensures Rebuilt(t)
  {
    forall i | i in t.items ensures IsRebuilt(t, i) {
      CalmEventsRebuildNothing(s.ledger, t.ledger, i, t.items[i].thread);
      if i !in s.items {
        forall e | e in s.ledger && e.Accepts() ensures e.itemId != i {
          assert IsAccounted(s, e);
        }
        UnnamedItemIsBlank(s.ledger, i, t.items[i].thread);
      }
    }
  }

  lemma CalmKeepsPeace(s: State, t: State)
    requires Peaceful(s) && CalmLeases(s, t)
    ensures Peaceful(t)
  {
    forall a, b | a in t.leases && b in t.leases && a != b && t.leases[a].Live() && t.leases[b].Live()
      ensures Compatible(t.leases[a], t.leases[b])
    {
      assert Calmed(s.leases[a], t.leases[a]) && Calmed(s.leases[b], t.leases[b]);
      assert Compatible(s.leases[a], s.leases[b]);
    }
  }

  lemma CalmKeepsIssues(s: State, t: State)
    requires IssuedOnce(s) && t.leases.Keys == s.leases.Keys && CalmLedger(s, t)
    ensures IssuedOnce(t)
  {
    forall id | id in t.leases ensures IssueCount(t.ledger, id) == 1 {
      CalmEventsIssueNothing(s.ledger, t.ledger, id);
    }
  }

  lemma CalmKeepsRest(s: State, t: State)
    requires AtRest(s) && CalmLeases(s, t)
    ensures AtRest(t)
  {
    forall id | id in t.leases ensures t.leases[id].status != Submitted && t.leases[id].status != Status.Rejected {
      assert Calmed(s.leases[id], t.leases[id]);
    }
  }

  lemma CalmKeepsSound(s: State, t: State)
    requires Sound(s) && Calm(s, t)
    ensures Sound(t)
  {
    CalmKeepsAccounts(s, t);
    CalmKeepsEvidence(s, t);
    CalmKeepsPeace(s, t);
    CalmKeepsIssues(s, t);
    CalmKeepsRest(s, t);
  }

  lemma CommitKeepsLeases(s: State)
    requires OneLive(s)
    ensures var t := Commit(s).value;
            && t.leases == s.leases && t.ledger == s.ledger && t.items.Keys == s.items.Keys
            && (forall i | i in s.items :: t.items[i] == Derived(s, i, s.items[i]))
            && (forall id, i :: LiveOn(t, id, i) == LiveOn(s, id, i))
  {
  }

  lemma DerivingTwice(s: State, t: State, i: string, item: Item)
    requires OneLive(s) && t.leases == s.leases
    ensures Derived(t, i, Derived(s, i, item)) == Derived(s, i, item)
  {
    assert forall id :: LiveOn(t, id, i) == LiveOn(s, id, i);
    if IsHeld(s, i) {
      assert LiveOn(t, Holder(s, i), i) && LiveOn(s, Holder(t, i), i);
    }
  }

  /** Deriving the claim fields is a calm change, and always possible in a peaceful session. */
  lemma CommitIsCalm(s: State)
    requires Peaceful(s)
    ensures Commit(s).Some? && Calm(s, Commit(s).value) && Marked(Commit(s).value)
  {
    PeacefulHoldsOne(s);
    CommitKeepsLeases(s);
    var t := Commit(s).value;
    assert Commit(s).Some?;
    hide Commit, Peaceful;
    assert OneLive(t);
    forall i | i in t.items ensures t.items[i] == Derived(t, i, t.items[i]) {
      DerivingTwice(s, t, i, s.items[i]);
    }
    forall i | i in s.items ensures t.items[i].evidence == s.items[i].evidence && t.items[i].thread == s.items[i].thread {
      DerivedKeepsEvidence(s, i, s.items[i]);
    }
    hide Derived, OneLive, LiveOn;
  }

  lemma DerivedKeepsEvidence(s: State, i: string, item: Item)
    ensures Derived(s, i, item).evidence == item.evidence && Derived(s, i, item).thread == item.thread
  {
  }

  // ------------------------------------------------------------------- grant

  /** A new lease beside compatible ones; the rest is calm. */
  ghost predicate Grants(s: State, t: State, id: string) {
    && id !in s.leases && t.leases.Keys == s.leases.Keys + {id}
    && (forall l | l in s.leases :: Calmed(s.leases[l], t.leases[l]))
    && t.leases[id].status == Active
    && (forall l | l in s.leases && t.leases[l].Live() ::
          Compatible(t.leases[id], t.leases[l]) && Compatible(t.leases[l], t.leases[id]))
    && (forall e | e in s.ledger && e.Accepts() :: e.leaseId != id)
    && CalmItems(s, t)
  }

  lemma GrantKeepsPeace(s: State, t: State, id: string)
    requires Peaceful(s) && AtRest(s) && Grants(s, t, id)
    ensures Peaceful(t) && AtRest(t)
  {
    forall a, b | a in t.leases && b in t.leases && a != b && t.leases[a].Live() && t.leases[b].Live()
      ensures Compatible(t.leases[a], t.leases[b])
    {
      if a != id && b != id {
        assert Calmed(s.leases[a], t.leases[a]) && Calmed(s.leases[b], t.leases[b]);
        assert Compatible(s.leases[a], s.leases[b]);
      }
    }
    forall l | l in t.leases ensures t.leases[l].status != Submitted && t.leases[l].status != Status.Rejected {
      if l != id {
        assert Calmed(s.leases[l], t.leases[l]);
      }
    }
  }

  predicate AcceptsNothingMore(s: State, t: State) {
    s.ledger <= t.ledger && forall k | |s.ledger| <= k < |t.ledger| :: !t.ledger[k].Accepts()
  }

  lemma GrantKeepsAccounts(s: State, t: State, id: string)
    requires Accounted(s) && Grants(s, t, id) && AcceptsNothingMore(s, t)
    ensures Accounted(t)
  {
    forall e | e in t.ledger && e.Accepts() ensures IsAccounted(t, e) {
      var k :| 0 <= k < |t.ledger| && t.ledger[k] == e;
      assert k < |s.ledger| && s.ledger[k] == e;
      assert IsAccounted(s, e);
    }
    forall l | l in t.leases && t.leases[l].status == Accepted ensures IsOnRecord(t, l) {
      assert Calmed(s.leases[l], t.leases[l]) && IsOnRecord(s, l);
      var e :| e in s.ledger && e.Accepts() && e.leaseId == l;
      var k :| 0 <= k < |s.ledger| && s.ledger[k] == e;
      assert t.ledger[k] == e;
    }
  }

  lemma {:induction false} UnacceptedEventsRebuildNothing(ledger: seq<Event>, more: seq<Event>, i: string, thread: bool)
    requires ledger <= more && forall k | |ledger| <= k < |more| :: !more[k].Accepts()
    ensures EvidenceOf(more, i, thread) == EvidenceOf(ledger, i, thread)
  {
    if |ledger| == |more| {
      assert ledger == more;
    } else {
      UnacceptedEventsRebuildNothing(ledger, more[..|more| - 1], i, thread);
    }
  }

  lemma QuietKeepsEvidence(s: State, t: State)
    requires Rebuilt(s) && Accounted(s) && AcceptsNothingMore(s, t) && CalmItems(s, t)
    ensures Rebuilt(t)
  {
    forall i | i in t.items ensures IsRebuilt(t, i) {
      UnacceptedEventsRebuildNothing(s.ledger, t.ledger, i, t.items[i].thread);
      if i !in s.items {
        forall e | e in s.ledger && e.Accepts() ensures e.itemId != i {
          assert IsAccounted(s, e);
        }
        UnnamedItemIsBlank(s.ledger, i, t.items[i].thread);
      }
    }
  }

  // -------------------------------------------------------------- acceptance

  /** One active lease accepted, with its event and the evidence of its answer. */
  ghost predicate Accepts(s: State, t: State, id: string) {
    && id in s.leases && s.leases[id].status == Active
    && t.leases == s.leases[id := s.leases[id].(status := Accepted)]
    && |t.ledger| == |s.ledger| + 1 && s.ledger <= t.ledger
    && t.items.Keys == s.items.Keys
    && var e := t.ledger[|s.ledger|];
       && e.Accepts() && e.leaseId == id && e.agentId == s.leases[id].agentId && e.itemId == s.leases[id].itemId
       && e.itemId in s.items
       && (forall i | i in s.items :: t.items[i].thread == s.items[i].thread)
       && (forall i | i in s.items && (i != e.itemId || e.VerificationRejected?) :: t.items[i].evidence == s.items[i].evidence)
       && (e.ResponseAccepted? ==>
             Timeless(t.items[e.itemId].evidence)
             == Timeless(ApplyEvidence(s.items[e.itemId].evidence, s.items[e.itemId].thread, Replayed(e.snapshot), 0)))
  }

  lemma AcceptKeepsEvidence(s: State, t: State, id: string)
    requires Rebuilt(s) && Accepts(s, t, id)
    ensures Rebuilt(t)
  {
    var e := t.ledger[|s.ledger|];
    assert t.ledger[..|t.ledger| - 1] == s.ledger;
    forall i | i in t.items ensures IsRebuilt(t, i) {
      if e.ResponseAccepted? && i == e.itemId {
        LastingCongruence(s.items[i].evidence, EvidenceOf(s.ledger, i, s.items[i].thread), s.items[i].thread, Replayed(e.snapshot));
      }
    }
  }

  lemma LastingCongruence(a: Evidence, b: Evidence, thread: bool, answer: Answer)
    requires Lasting(a) == Lasting(b)
    ensures Lasting(ApplyEvidence(a, thread, answer, 0)) == Lasting(ApplyEvidence(b, thread, answer, 0))
  {
  }

  lemma ActiveIsUnaccepted(s: State, id: string)
    requires Accounted(s) && id in s.leases && s.leases[id].status == Active
    ensures forall k | 0 <= k < |s.ledger| && s.ledger[k].Accepts() :: s.ledger[k].leaseId != id
  {
    forall k | 0 <= k < |s.ledger| && s.ledger[k].Accepts() ensures s.ledger[k].leaseId != id {
      assert IsAccounted(s, s.ledger[k]);
    }
  }

  lemma AcceptedEventsStand(s: State, t: State, id: string, k: nat)
    requires Accounted(s) && Accepts(s, t, id) && k < |t.ledger| && t.ledger[k].Accepts()
    ensures IsAccounted(t, t.ledger[k])
  {
    ActiveIsUnaccepted(s, id);
    if k < |s.ledger| {
      assert s.ledger[k] == t.ledger[k] && IsAccounted(s, s.ledger[k]);
    }
  }

  lemma AcceptedLeasesStand(s: State, t: State, id: string, l: string)
    requires Accounted(s) && Accepts(s, t, id) && l in t.leases && t.leases[l].status == Accepted
    ensures IsOnRecord(t, l)
  {
    if l == id {
      assert t.ledger[|s.ledger|] in t.ledger;
    } else {
      assert IsOnRecord(s, l);
      var e :| e in s.ledger && e.Accepts() && e.leaseId == l;
      var k :| 0 <= k < |s.ledger| && s.ledger[k] == e;
      assert t.ledger[k] == e;
    }
  }

  lemma AcceptKeepsAccounts(s: State, t: State, id: string)
    requires Accounted(s) && Accepts(s, t, id)
    ensures Accounted(t)
  {
    ActiveIsUnaccepted(s, id);
    forall e | e in t.ledger && e.Accepts() ensures IsAccounted(t, e) {
      var k :| 0 <= k < |t.ledger| && t.ledger[k] == e;
      AcceptedEventsStand(s, t, id, k);
    }
    forall l | l in t.leases && t.leases[l].status == Accepted ensures IsOnRecord(t, l) {
      AcceptedLeasesStand(s, t, id, l);
    }
    hide IsAccounted, IsOnRecord;
    forall j, k | 0 <= j < k < |t.ledger| && t.ledger[j].Accepts() && t.ledger[k].Accepts()
      ensures t.ledger[j].leaseId != t.ledger[k].leaseId
    {
      assert t.ledger[j] == s.ledger[j];
      if k < |s.ledger| {
        assert t.ledger[k] == s.ledger[k];
      }
    }
  }

  lemma AcceptKeepsPeace(s: State, t: State, id: string)
    requires Peaceful(s) && AtRest(s) && Accepts(s, t, id)
    ensures Peaceful(t) && AtRest(t)
  {
    hide Compatible, Observes, Lasting;
  }

  lemma AcceptKeepsSound(s: State, t: State, id: string)
    requires Sound(s) && Accepts(s, t, id)
    ensures Sound(t)
  {
    AcceptKeepsEvidence(s, t, id);
    AcceptKeepsAccounts(s, t, id);
    AcceptKeepsPeace(s, t, id);
    hide Rebuilt, Accounted, Peaceful, AtRest;
    forall l | l in t.leases ensures IssueCount(t.ledger, l) == 1 {
      assert t.ledger[..|t.ledger| - 1] == s.ledger;
    }
  }

  // ----------------------------------------------------------------- removal

  /** Leases taken away, and nothing else but claims given back. */
  ghost predicate Removes(s: State, t: State) {
    && t.leases.Keys <= s.leases.Keys
    && (forall id | id in t.leases :: t.leases[id] == s.leases[id])
    && t.ledger == s.ledger && CalmItems(s, t) && t.items.Keys == s.items.Keys
  }

  lemma RemovalKeepsSound(s: State, t: State)
    requires Sound(s) && Removes(s, t)
    ensures Sound(t)
  {
    forall e | e in t.ledger && e.Accepts() ensures IsAccounted(t, e) {
      assert IsAccounted(s, e);
    }
    forall l | l in t.leases && t.leases[l].status == Accepted ensures IsOnRecord(t, l) {
      assert IsOnRecord(s, l);
    }
    CalmKeepsEvidence(s, t);
  }
}
