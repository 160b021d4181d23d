/** Any number of processes over one store: loads, write transactions and compare-and-swap saves. */
module ProtocolWorld {
  import opened Wrappers
  import opened Protocol
  import opened Leases
  import opened Submission
  import opened BatchClaim
  import opened BatchSubmit
  import opened ProtocolRuns
  import opened ProtocolSteps
  import opened ProtocolSafety

  // -------------------------------------------------------------- one action

  /** What an action may count on: fresh lease ids, and each item visited once. */
  ghost predicate Allowed(s: State, a: Action) {
    match a
    case DoClaim(g, _, _) => IsNew(s, g.leaseId)
    case DoClaimBatch(order, call) => NoRepeats(order) && MintsFresh(s, call)
    case _ => true
  }

  lemma EffectKeepsSound(s: State, a: Action)
    requires Sound(s) && Allowed(s, a) && Effect(s, a).Some?
    ensures Sound(Effect(s, a).value)
  {
    hide Sound, Calm, Classify, ClaimOne, TurnAway, Reenter, CommitBatch, SubmitSingle, SubmitBatch, ReleaseClaimed,
         ReleaseSelfStale, Reclaim, Undo, Removes, IsNew, MintsFresh;
    var t := Effect(s, a).value;
    match a
    case DoClassify(i, agentId, verdict) => ClassifyIsCalm(s, i, agentId, verdict); CalmKeepsSound(s, t);
    case DoClaim(g, local, now) => ClaimOneKeepsSound(s, g, local, now);
    case DoTurnAway(now, rejected) => TurnAwayIsCalm(s, now, rejected); CalmKeepsSound(s, t);
    case DoReenter(i, agentId, now, rebuilt) => ReenterIsCalm(s, i, agentId, now, rebuilt); CalmKeepsSound(s, t);
    case DoClaimBatch(order, call) => ClaimBatchKeepsSound(s, order, call);
    case DoSubmit(r, files, judge, verdict, now) => SubmitSingleKeepsSound(s, r, files, judge, verdict, now);
    case DoSubmitBatch(rs, c) => SubmitBatchKeepsSound(s, rs, c);
    case DoRelease(id) => ReleaseClaimedIsCalm(s, id); CalmKeepsSound(s, t);
    case DoReleaseSelfStale(i, agentId) => ReleaseSelfStaleIsCalm(s, i, agentId); CalmKeepsSound(s, t);
    case DoReclaim(now, visited) => ReclaimIsCalm(s, now, visited); CalmKeepsSound(s, t);
    case DoCompensate(entries) => UndoIsRemoval(s, entries); RemovalKeepsSound(s, t);
    case DoObserve(items) => ObservingIsCalm(s, items); CalmKeepsSound(s, t);
  }

  lemma ObservingIsCalm(s: State, items: map<string, Item>)
    requires Observes(s, items)
    ensures Calm(s, s.(items := items))
  {
  }

  /** A lease keeps its terms while it lives, and does not change at all once it has ended. */
  predicate Endures(before: Lease, after: Lease) {
    if before.Live() then before.SameTerms(after) else after == before
  }

  /** Leases endure or are new, none is revived, and the ledger only grows, an acceptance beside its lease. */
  predicate Steady(s: State, t: State) {
    && s.ledger <= t.ledger
    && (forall id | id in t.leases :: if id in s.leases then Endures(s.leases[id], t.leases[id]) else IsNew(s, id))
    && (forall k | |s.ledger| <= k < |t.ledger| && t.ledger[k].Accepts() :: t.ledger[k].leaseId in t.leases)
  }

  /** An accepted lease that is there before and gone after. */
  predicate Loses(s: State, t: State, id: string) {
    id in s.leases && s.leases[id].status == Accepted && id !in t.leases
  }

  /** Steady, and no accepted lease is lost. */
  ghost predicate Firm(s: State, t: State) {
    Steady(s, t) && forall id :: !Loses(s, t, id)
  }

  lemma CalmIsSteady(s: State, t: State)
    requires CalmLeases(s, t) && CalmLedger(s, t)
    ensures Firm(s, t)
  {
    assert forall k | |s.ledger| <= k < |t.ledger| :: IsCalm(t.ledger[k]);
    assert forall id | id in s.leases :: Calmed(s.leases[id], t.leases[id]);
  }

  lemma GrantIsSteady(s: State, t: State, id: string)
    requires Grants(s, t, id) && IsNew(s, id) && AcceptsNothingMore(s, t)
    ensures Firm(s, t)
  {
    hide Compatible;
    assert forall l | l in s.leases :: Calmed(s.leases[l], t.leases[l]);
  }

  /** What a batch leaves of a lease: its terms while it lives, all of it once it has ended. */
  lemma BatchedLeaseEndures(s: State, e: State, t: State, entries: seq<Entry>, c: Call, id: string)
    requires CalmLeases(s, e) && LeasesKept(e, t, entries) && id in s.leases
    requires forall entry | entry in entries :: EntryHolds(e, t, entry, c)
    ensures id in t.leases && Endures(s.leases[id], t.leases[id])
  {
    assert Calmed(s.leases[id], e.leases[id]);
    if id in Touched(entries) {
      var entry :| entry in entries && entry.leaseId == id;
      assert EntryHolds(e, t, entry, c);
    }
  }

  lemma ClaimBatchIsSteady(s: State, order: seq<string>, c: Call)
    requires NoRepeats(order) && MintsFresh(s, c) && CommitBatch(s, order, c).Some?
    ensures Firm(s, CommitBatch(s, order, c).value.0)
  {
    hide CommitBatch, Expire, LeasesKept, EntryHolds, Endures, IsNew, MintsFresh, CalmLeases, CalmLedger, CalmItems,
         OwnActive, Created, IssueCount, NoRepeats;
    BatchClaimIsBounded(s, order, c);
    BatchLedgerGrows(s, order, c);
    ExpiryIsCalm(s, c.now);
    var e := Expire(s, c.now);
    var (t, entries) := CommitBatch(s, order, c).value;
    forall id | id in t.leases ensures if id in s.leases then Endures(s.leases[id], t.leases[id]) else IsNew(s, id) {
      if id in s.leases {
        BatchedLeaseEndures(s, e, t, entries, c, id);
      } else {
        GrantedInBatchIsNew(s, e, t, entries, c, id);
      }
    }
    forall id ensures !Loses(s, t, id) {
      if id in s.leases {
        BatchedLeaseEndures(s, e, t, entries, c, id);
      }
    }
  }

  lemma GrantedInBatchIsNew(s: State, e: State, t: State, entries: seq<Entry>, c: Call, id: string)
    requires CalmLeases(s, e) && LeasesKept(e, t, entries) && MintsFresh(s, c) && id in t.leases && id !in s.leases
    requires forall entry | entry in entries :: EntryHolds(e, t, entry, c)
    ensures IsNew(s, id)
  {
    var entry :| entry in entries && entry.created && entry.leaseId == id;
    assert EntryHolds(e, t, entry, c) && IsNew(s, c.mint(entry.itemId));
  }

  lemma BatchLedgerGrows(s: State, order: seq<string>, c: Call)
    requires NoRepeats(order) && MintsFresh(s, c) && CommitBatch(s, order, c).Some?
    ensures AcceptsNothingMore(s, CommitBatch(s, order, c).value.0)
  {
    var e := Expire(s, c.now);
    StillFresh(s, c);
    ExpireLeavesNothingOverdue(s, c.now);
    ExpireShape(s, c.now);
    hide NothingOverdue, MintsFresh, Expire, Targets, LeasesKept, EntriesHold, VisitAll, IssueEvents, OwnActive, NoRepeats;
    var targets, quota := Targets(e, order, c), Quota(|OwnActive(e, c.agentId)|);
    BatchKeeps(e, quota, targets, c);
    var p := VisitAll(e, quota, targets, c);
    IssueEventsAcceptNothing(p.entries, c.agentId);
    VisitsThenIssues(e, targets, p.state, IssueEvents(p.entries, c.agentId));
  }

  lemma VisitsThenIssues(s: State, visited: seq<string>, t: State, events: seq<Event>)
    requires RestKept(s, visited, t) && forall e | e in events :: !e.Accepts()
    ensures AcceptsNothingMore(s, t.(ledger := t.ledger + events))
  {
  }

  lemma SubmitSingleIsSteady(s: State, r: Response, files: map<string, File>, judge: Judge, verdict: Option<Reason>, now: int)
    requires SubmitSingle(s, r, files, judge, verdict, now).Some?
    ensures Firm(s, SubmitSingle(s, r, files, judge, verdict, now).value)
  {
    hide Prepare, AcceptSubmission, ReleaseIrrecoverable, Calm;
    var prepared := Prepare(s, r, files, judge);
    var t := SubmitSingle(s, r, files, judge, verdict, now).value;
    if r.leaseId == "" {
      SteadyIsReflexive(s);
    } else if prepared.Err? {
      RecordIsCalm(s, ItemOfRejection(s, r, prepared.error), Signer(r), prepared.error);
      CalmChangeIsSteady(s, t);
    } else {
      PreparedIsConsistent(s, r, files, judge);
      var p := prepared.value;
      if verdict.Some? {
        var noted := Record(s, p.itemId, r.agentId, verdict.value);
        RecordIsCalm(s, p.itemId, r.agentId, verdict.value);
        ReleaseIrrecoverableIsCalm(noted, p.leaseId, p.itemId);
        CalmIsTransitive(s, noted, ReleaseIrrecoverable(noted, p.leaseId, p.itemId));
        CalmChangeIsSteady(s, t);
      } else if Closes(AcceptSubmission(s, r, p, now)) {
        AcceptanceTakesOneLease(s, r, p, now);
      } else {
        RefusalIsCalm(s, r, p, now);
        CalmChangeIsSteady(s, t);
      }
    }
  }

  lemma CalmChangeIsSteady(s: State, t: State)
    requires Calm(s, t)
    ensures Firm(s, t)
  {
    CalmIsSteady(s, t);
  }

  lemma SubmitBatchIsSteady(s: State, rs: seq<Response>, c: Context)
    ensures !SubmitBatch(s, rs, c).Unexpected? && Firm(s, SubmitBatch(s, rs, c).state)
  {
    hide AcceptsAll, OnlyRejects, Firm, Ready;
    BatchIsAllOrNothing(s, rs, c);
    var result := SubmitBatch(s, rs, c);
    CheckedRowsAreReady(s, rs, c);
    hide SubmitBatch, CheckRows;
    if result.AcceptedAll? {
      AcceptedBatchIsFirm(s, rs, CheckRows(s, rs, c).rows, c.now, result.state);
    } else if result.RejectedAll? {
      RejectedBatchIsFirm(s, result.state);
    } else {
      SteadyIsReflexive(s);
    }
  }

  lemma AcceptedBatchIsFirm(s: State, rs: seq<Response>, rows: seq<Row>, now: int, t: State)
    requires Ready(s, rows, now) && AcceptsAll(s, rs, rows, t)
    ensures Firm(s, t)
  {
    ReadyLeasesAreLive(s, rows, now);
    hide Ready;
    forall k | |s.ledger| <= k < |t.ledger| ensures t.ledger[k].Accepts() && t.ledger[k].leaseId in t.leases {
      var j := k - |s.ledger|;
      assert IsAcceptanceOf(t.ledger[|s.ledger| + j], rs[j], rows[j].prepared) && rows[j] in rows;
      assert rows[j].prepared.leaseId in LeaseIds(rows);
    }
  }

  lemma RejectedBatchIsFirm(s: State, t: State)
    requires OnlyRejects(s, t)
    ensures Firm(s, t)
  {
    assert forall id | id in s.leases :: AtMostReleased(s.leases[id], t.leases[id]);
  }

  lemma ReadyLeasesAreLive(s: State, rows: seq<Row>, now: int)
    requires Ready(s, rows, now)
    ensures forall id | id in LeaseIds(rows) :: id in s.leases && s.leases[id].status == Active
  {
    forall id | id in LeaseIds(rows) ensures id in s.leases && s.leases[id].status == Active {
      var row :| row in rows && row.prepared.leaseId == id;
      assert IsReady(s, row, now);
    }
  }

  /** The accepted leases that an action takes away. */
  predicate Takes(s: State, a: Action, id: string) {
    a.DoCompensate? && id in Removed(s, a.entries) && id in s.leases && s.leases[id].status == Accepted
  }

  /** No action revives an ended lease, and only compensation takes accepted ones away. */
  lemma EffectIsSteady(s: State, a: Action)
    requires Allowed(s, a) && Effect(s, a).Some?
    ensures Steady(s, Effect(s, a).value)
    ensures forall id :: Loses(s, Effect(s, a).value, id) <==> Takes(s, a, id)
  {
    hide Classify, ClaimOne, TurnAway, Reenter, CommitBatch, SubmitSingle, SubmitBatch, ReleaseClaimed,
         ReleaseSelfStale, Reclaim, Undo, IsNew, MintsFresh, Steady, Calm, Grants, Loses, Removed;
    var t := Effect(s, a).value;
    match a
    case DoClassify(i, agentId, verdict) => ClassifyIsCalm(s, i, agentId, verdict); CalmChangeIsSteady(s, t);
    case DoClaim(g, local, now) => ClaimOneGrants(s, g, local, now); GrantIsSteady(s, t, g.leaseId);
    case DoTurnAway(now, rejected) => TurnAwayIsCalm(s, now, rejected); CalmChangeIsSteady(s, t);
    case DoReenter(i, agentId, now, rebuilt) => ReenterIsCalm(s, i, agentId, now, rebuilt); CalmChangeIsSteady(s, t);
    case DoClaimBatch(order, call) => ClaimBatchIsSteady(s, order, call);
    case DoSubmit(r, files, judge, verdict, now) => SubmitSingleIsSteady(s, r, files, judge, verdict, now);
    case DoSubmitBatch(rs, c) => SubmitBatchIsSteady(s, rs, c);
    case DoRelease(id) => ReleaseClaimedIsCalm(s, id); CalmChangeIsSteady(s, t);
    case DoReleaseSelfStale(i, agentId) => ReleaseSelfStaleIsCalm(s, i, agentId); CalmChangeIsSteady(s, t);
    case DoReclaim(now, visited) => ReclaimIsCalm(s, now, visited); CalmChangeIsSteady(s, t);
    case DoCompensate(entries) =>
      UndoIsRemoval(s, entries);
      UndoRemovesExactlyCreated(s, entries);
      RemovalIsSteady(s, t, Removed(s, entries));
    case DoObserve(items) => ObservingIsCalm(s, items); CalmChangeIsSteady(s, t);
  }

  lemma RemovalIsSteady(s: State, t: State, gone: set<string>)
    requires Removes(s, t) && t.leases == s.leases - gone
    ensures Steady(s, t)
    ensures forall id :: Loses(s, t, id) <==> id in gone && id in s.leases && s.leases[id].status == Accepted
  {
  }

  // ------------------------------------------------------------------- world

  /** A session as a process loaded it, with the revision it was stored under. */
  datatype View = View(state: State, revision: nat)

  datatype World = World(store: State, revision: nat, views: map<string, View>)

  /** One atomic step: a load, a write transaction on the store, or a save of a loaded session. */
  datatype Step = Load(process: string) | Transact(action: Action) | Save(process: string, action: Action)

  /** Actions decided on the committed session; the others are decided on a loaded one and saved. */
  predicate IsTransaction(a: Action) {
    match a
    case DoClassify(_, _, _) => true
    case DoClaim(_, _, _) => true
    case DoClaimBatch(_, _) => true
    case DoRelease(_) => true
    case DoReclaim(_, _) => true
    case DoCompensate(_) => true
    case DoObserve(_) => true
    case _ => false
  }

  /** The store after an action on session `s`; unchanged when it aborts. */
  ghost function Stored(w: World, s: State, a: Action): World {
    var effect := Effect(s, a);
    if effect.None? || Commit(effect.value).None? then w
    else w.(store := Commit(effect.value).value, revision := w.revision + 1)
  }

  ghost predicate CanStep(w: World, step: Step) {
    match step
    case Load(_) => true
    case Transact(a) => IsTransaction(a) && Allowed(w.store, a)
    case Save(p, a) => p in w.views && !IsTransaction(a)
  }

  ghost function After(w: World, step: Step): World
    requires CanStep(w, step)
  {
    match step
    case Load(p) => w.(views := w.views[p := View(w.store, w.revision)])
    case Transact(a) => Stored(w, w.store, a)
    case Save(p, a) => if w.views[p].revision != w.revision then w else Stored(w, w.views[p].state, a)
  }

  ghost predicate Moves(w: World, v: World) {
    exists step :: CanStep(w, step) && v == After(w, step)
  }

  ghost predicate IsRun(run: seq<World>) {
    run != [] && forall i | 0 < i < |run| :: Moves(run[i - 1], run[i])
  }

  /** A view that still has the store's revision is the store. */
  predicate Coherent(w: World) {
    forall p | p in w.views ::
      w.views[p].revision <= w.revision && (w.views[p].revision == w.revision ==> w.views[p].state == w.store)
  }

  ghost predicate WorldSound(w: World) {
    Sound(w.store) && Marked(w.store) && Coherent(w)
  }

  /** An action on a sound store is stored whole, unless it aborts: one item is never held twice. */
  lemma StoringKeepsSound(w: World, a: Action)
    requires Sound(w.store) && Marked(w.store) && Allowed(w.store, a)
    ensures var v := Stored(w, w.store, a);
            && Sound(v.store) && Marked(v.store) && Steady(w.store, v.store) && v.views == w.views
            && (v == w || v.revision == w.revision + 1)
            && (forall id :: Loses(w.store, v.store, id) <==> Effect(w.store, a).Some? && Takes(w.store, a, id))
            && (Effect(w.store, a).Some? ==> Commit(Effect(w.store, a).value).Some?)
  {
    hide Effect, Sound, Commit, Allowed, Marked, Takes;
    if Effect(w.store, a).Some? {
      var t := Effect(w.store, a).value;
      EffectKeepsSound(w.store, a);
      EffectIsSteady(w.store, a);
      SoundIsPeaceful(t);
      CommitIsCalm(t);
      CommitKeepsLedger(t);
      CalmKeepsSound(t, Commit(t).value);
      SteadyThenCalm(w.store, t, Commit(t).value);
    }
  }

  lemma SoundIsPeaceful(s: State)
    requires Sound(s)
    ensures Peaceful(s) && OneLive(s)
  {
    PeacefulHoldsOne(s);
  }

  lemma CommitKeepsLedger(s: State)
    requires OneLive(s)
    ensures Commit(s).value.ledger == s.ledger
  {
  }

  lemma SteadyThenCalm(s: State, t: State, u: State)
    requires Steady(s, t) && CalmLeases(t, u) && t.ledger == u.ledger
    ensures Steady(s, u)
    ensures forall id :: Loses(s, u, id) <==> Loses(s, t, id)
  {
    hide IsNew;
    forall id | id in u.leases ensures if id in s.leases then Endures(s.leases[id], u.leases[id]) else IsNew(s, id) {
      assert Calmed(t.leases[id], u.leases[id]);
      assert if id in s.leases then Endures(s.leases[id], t.leases[id]) else IsNew(s, id);
    }
  }

  lemma StepKeepsWorldSound(w: World, v: World)
    requires WorldSound(w) && Moves(w, v)
    ensures WorldSound(v) && Steady(w.store, v.store)
  {
    hide Stored, Sound, Marked, Allowed, Steady;
    var step :| CanStep(w, step) && v == After(w, step);
    SteadyIsReflexive(w.store);
    match step
    case Load(p) =>
    case Transact(a) => StoringKeepsSound(w, a);
    case Save(p, a) =>
      if w.views[p].revision == w.revision {
        SavesAreAllowed(w.store, a);
        StoringKeepsSound(w, a);
      }
  }

  lemma SavesAreAllowed(s: State, a: Action)
    requires !IsTransaction(a)
    ensures Allowed(s, a)
  {
  }

  lemma SteadyIsReflexive(s: State)
    ensures Firm(s, s)
  {
  }

  /** Every stored session of every run is sound, and carries exactly the claims its leases call for. */
  lemma {:induction false} EveryRunIsSound(run: seq<World>)
    requires IsRun(run) && WorldSound(run[0])
    ensures forall w | w in run :: WorldSound(w)
    decreases |run|
  {
    hide WorldSound, Moves;
    if |run| > 1 {
      var n := |run| - 1;
      EveryRunIsSound(run[..n]);
      assert run[n - 1] in run[..n];
      StepKeepsWorldSound(run[n - 1], run[n]);
      assert run == run[..n] + [run[n]];
    }
  }

  // ------------------------------------------------------------ exactly once

  /** The lease ids of the acceptance events, in ledger order. */
  function AcceptedBy(ledger: seq<Event>): seq<string> {
    if ledger == [] then []
    else
      var e := ledger[|ledger| - 1];
      AcceptedBy(ledger[..|ledger| - 1]) + if e.Accepts() then [e.leaseId] else []
  }

  lemma {:induction false} AcceptedByIsExact(ledger: seq<Event>)
    requires forall j, k | 0 <= j < k < |ledger| && ledger[j].Accepts() && ledger[k].Accepts() ::
               ledger[j].leaseId != ledger[k].leaseId
    ensures NoRepeats(AcceptedBy(ledger))
    ensures forall id :: id in AcceptedBy(ledger) <==> exists e | e in ledger :: e.Accepts() && e.leaseId == id
  {
    if ledger != [] {
      var n := |ledger| - 1;
      AcceptedByIsExact(ledger[..n]);
      var e := ledger[n];
      assert forall x :: x in ledger <==> x in ledger[..n] || x == e;
      assert e.Accepts() ==> e.leaseId !in AcceptedBy(ledger[..n]);
    }
  }

  lemma {:induction false} DistinctCount(names: seq<string>)
    requires NoRepeats(names)
    ensures |(set n | n in names)| == |names|
  {
    if names != [] {
      var n := |names| - 1;
      DistinctCount(names[..n]);
      assert (set x | x in names) == (set x | x in names[..n]) + {names[n]};
    }
  }

  function AcceptedLeaseIds(s: State): set<string> {
    set id | id in s.leases && s.leases[id].status == Accepted
  }

  /** Leases with an acceptance on record that are there no more. */
  function Gone(s: State): set<string> {
    set id | id in AcceptedBy(s.ledger) && id !in s.leases
  }

  lemma RecordedIds(s: State, id: string)
    requires Accounted(s)
    ensures id in AcceptedBy(s.ledger) <==> IsOnRecord(s, id)
    ensures id in AcceptedBy(s.ledger) && id in s.leases <==> id in AcceptedLeaseIds(s)
    ensures id in AcceptedBy(s.ledger) && id !in s.leases <==> id in Gone(s)
  {
    AcceptedByIsExact(s.ledger);
    hide AcceptedBy;
    if IsOnRecord(s, id) {
      var e :| e in s.ledger && e.Accepts() && e.leaseId == id;
      assert IsAccounted(s, e);
    }
  }

  /** Every acceptance on record is one accepted lease, or one lease taken away since; none counts twice. */
  lemma AcceptedExactlyOnce(s: State)
    requires Accounted(s)
    ensures AcceptedLeaseIds(s) + Gone(s) == (set id | id in AcceptedBy(s.ledger)) && AcceptedLeaseIds(s) !! Gone(s)
    ensures |AcceptedLeaseIds(s)| + |Gone(s)| == |AcceptedBy(s.ledger)|
  {
    AcceptedByIsExact(s.ledger);
    DistinctCount(AcceptedBy(s.ledger));
    var recorded := set id | id in AcceptedBy(s.ledger);
    hide AcceptedBy, Accounted, IsOnRecord, AcceptedLeaseIds, Gone;
    forall id
      ensures id in AcceptedLeaseIds(s) || id in Gone(s) <==> id in recorded
      ensures !(id in AcceptedLeaseIds(s) && id in Gone(s))
    {
      RecordedIds(s, id);
    }
    SplitCount(AcceptedLeaseIds(s), Gone(s), recorded);
  }

  lemma SplitCount<T>(a: set<T>, b: set<T>, whole: set<T>)
    requires forall x :: (x in a || x in b <==> x in whole) && !(x in a && x in b)
    ensures a + b == whole && a !! b && |a| + |b| == |whole|
  {
    assert a + b == whole;
  }

  /** The step is a compensation of a batch, and takes away the lease although it was accepted. */
  ghost predicate Compensates(w: World, v: World, id: string) {
    exists entries :: v == Stored(w, w.store, DoCompensate(entries)) && Takes(w.store, DoCompensate(entries), id)
  }

  /** A compensation before moment `i` took the lease away. */
  ghost predicate WasCompensated(run: seq<World>, i: nat, id: string)
    requires i < |run|
  {
    exists k | 0 <= k < i :: Compensates(run[k], run[k + 1], id)
  }

  lemma StepLoses(w: World, v: World, id: string)
    requires WorldSound(w) && Moves(w, v)
    ensures Loses(w.store, v.store, id) <==> Compensates(w, v, id)
  {
    hide Sound, Marked, Allowed, Steady, Stored, Removed, Effect;
    if entries :| v == Stored(w, w.store, DoCompensate(entries)) && Takes(w.store, DoCompensate(entries), id) {
      CompensationGoesThrough(w.store, entries);
      StoringKeepsSound(w, DoCompensate(entries));
    }
    var step :| CanStep(w, step) && v == After(w, step);
    match step
    case Load(p) =>
    case Transact(a) => StoringKeepsSound(w, a);
    case Save(p, a) =>
      if w.views[p].revision == w.revision {
        SavesAreAllowed(w.store, a);
        StoringKeepsSound(w, a);
      }
  }

  lemma CompensationGoesThrough(s: State, entries: seq<Entry>)
    ensures Effect(s, DoCompensate(entries)).Some? && Allowed(s, DoCompensate(entries))
  {
  }

  /** What was recorded of a lease is known at every later moment, so its id is never granted again. */
  lemma RecordedIsNotGranted(run: seq<World>, i: nat, id: string)
    requires IsRun(run) && WorldSound(run[0]) && i + 1 < |run|
    requires IsOnRecord(run[i].store, id) && id !in run[i].store.leases
    ensures IsOnRecord(run[i + 1].store, id) && id !in run[i + 1].store.leases
  {
    hide WorldSound, Moves, Stored;
    EveryRunIsSound(run);
    StepKeepsWorldSound(run[i], run[i + 1]);
    var s, t := run[i].store, run[i + 1].store;
    var e :| e in s.ledger && e.Accepts() && e.leaseId == id;
    var k :| 0 <= k < |s.ledger| && s.ledger[k] == e;
    assert t.ledger[k] == e && e.Names(id);
  }

  lemma StepKeepsRecord(w: World, v: World, id: string)
    requires WorldSound(w) && Moves(w, v)
    requires IsOnRecord(v.store, id) && id !in v.store.leases && (id in w.store.leases || !IsOnRecord(w.store, id))
    ensures Loses(w.store, v.store, id)
  {
    StepKeepsWorldSound(w, v);
    SteadyRecordsBesideLease(w.store, v.store, id);
  }

  lemma SteadyRecordsBesideLease(s: State, t: State, id: string)
    requires Accounted(s) && Steady(s, t) && IsOnRecord(t, id) && id !in t.leases
    ensures IsOnRecord(s, id) && (id in s.leases ==> Loses(s, t, id))
  {
    hide IsNew, Endures;
    var e :| e in t.ledger && e.Accepts() && e.leaseId == id;
    var k :| 0 <= k < |t.ledger| && t.ledger[k] == e;
    assert k < |s.ledger| && s.ledger[k] == e;
    assert IsAccounted(s, e);
  }

  /** The leases that are gone are exactly those that a compensation took after they were accepted. */
  lemma {:induction false} OnlyCompensationTakes(run: seq<World>, i: nat, id: string)
    requires IsRun(run) && WorldSound(run[0]) && Whole(run[0].store) && i < |run|
    ensures (IsOnRecord(run[i].store, id) && id !in run[i].store.leases)
       <==> WasCompensated(run, i, id)
    decreases i
  {
    hide WorldSound, Moves, Stored, Compensates;
    if i > 0 {
      OnlyCompensationTakes(run, i - 1, id);
      EveryRunIsSound(run);
      var w, v := run[i - 1], run[i];
      StepLoses(w, v, id);
      if IsOnRecord(w.store, id) && id !in w.store.leases {
        RecordedIsNotGranted(run, i - 1, id);
      } else if IsOnRecord(v.store, id) && id !in v.store.leases {
        StepKeepsRecord(w, v, id);
      } else if WasCompensated(run, i, id) {
        LostIsOnRecord(w, v, id);
      }
    }
  }

  lemma LostIsOnRecord(w: World, v: World, id: string)
    requires WorldSound(w) && Moves(w, v)
    ensures Loses(w.store, v.store, id) ==> IsOnRecord(v.store, id)
  {
    StepKeepsWorldSound(w, v);
    hide Moves, Stored;
    if Loses(w.store, v.store, id) {
      assert IsOnRecord(w.store, id);
      var e :| e in w.store.ledger && e.Accepts() && e.leaseId == id;
      var k :| 0 <= k < |w.store.ledger| && w.store.ledger[k] == e;
      assert v.store.ledger[k] == e;
    }
  }

  /**
    A lease accepted at one moment is there unchanged at every later one, until a compensation takes
    it away; then it is gone for good.
  */
  lemma {:induction false} AcceptedUntilCompensated(run: seq<World>, i: nat, j: nat, id: string)
    requires IsRun(run) && WorldSound(run[0]) && i <= j < |run|
    requires id in run[i].store.leases && run[i].store.leases[id].status == Accepted
    ensures if exists k :: i <= k < j && Compensates(run[k], run[k + 1], id)
            then id !in run[j].store.leases
            else id in run[j].store.leases && run[j].store.leases[id] == run[i].store.leases[id]
    ensures IsOnRecord(run[j].store, id)
    decreases j
  {
    hide Moves, Stored, Compensates, Sound, Marked;
    EveryRunIsSound(run);
    if i == j {
      AcceptedIsOnRecord(run[i], id);
    } else {
      AcceptedUntilCompensated(run, i, j - 1, id);
      StepLoses(run[j - 1], run[j], id);
      LostIsOnRecord(run[j - 1], run[j], id);
      StepKeepsWorldSound(run[j - 1], run[j]);
      if id !in run[j - 1].store.leases {
        RecordedIsNotGranted(run, j - 1, id);
      } else if id in run[j].store.leases {
        assert Endures(run[j - 1].store.leases[id], run[j].store.leases[id]);
        AcceptedIsOnRecord(run[j], id);
      }
    }
  }

  lemma AcceptedIsOnRecord(w: World, id: string)
    requires WorldSound(w) && id in w.store.leases && w.store.leases[id].status == Accepted
    ensures IsOnRecord(w.store, id)
  {
  }

  /**
    In every run, at every moment: each acceptance on record is one accepted lease of the agent and
    item it names, or one lease that a compensation took away afterwards; so acceptances and accepted
    leases are equal in number exactly when no compensation took an accepted lease.
  */
  lemma AcceptanceIsExactlyOnce(run: seq<World>, i: nat)
    requires IsRun(run) && WorldSound(run[0]) && Whole(run[0].store) && i < |run|
    ensures var s := run[i].store;
            && |AcceptedLeaseIds(s)| + |Gone(s)| == |AcceptedBy(s.ledger)|
            && (forall id :: id in Gone(s) <==> WasCompensated(run, i, id))
            && (|AcceptedLeaseIds(s)| == |AcceptedBy(s.ledger)| <==> forall id :: !WasCompensated(run, i, id))
            && forall e | e in s.ledger && e.Accepts() && !WasCompensated(run, i, e.leaseId) ::
                 && e.leaseId in s.leases && s.leases[e.leaseId].status == Accepted
                 && s.leases[e.leaseId].agentId == e.agentId && s.leases[e.leaseId].itemId == e.itemId
  {
    EveryRunIsSound(run);
    var s := run[i].store;
    assert Accounted(s) by { assert WorldSound(run[i]); }
    AcceptedExactlyOnce(s);
    forall id ensures id in Gone(s) <==> WasCompensated(run, i, id) {
      OnlyCompensationTakes(run, i, id);
      RecordedIds(s, id);
    }
    hide WasCompensated, AcceptedBy, Moves;
    assert |Gone(s)| == 0 <==> Gone(s) == {};
    assert Gone(s) == {} <==> forall id :: id !in Gone(s);
    forall e | e in s.ledger && e.Accepts() && !WasCompensated(run, i, e.leaseId)
      ensures e.leaseId in s.leases && s.leases[e.leaseId].status == Accepted
              && s.leases[e.leaseId].agentId == e.agentId && s.leases[e.leaseId].itemId == e.itemId
    {
      OnlyCompensationTakes(run, i, e.leaseId);
      assert IsAccounted(s, e) && IsOnRecord(s, e.leaseId);
    }
  }

  /** A session begins sound: items without evidence or claims, no lease, an empty ledger. */
  lemma NewSessionIsSound(w: World)
    requires w.store.leases == map[] && w.store.ledger == [] && w.views == map[]
    requires forall i | i in w.store.items ::
               var item := w.store.items[i];
               item.evidence == BLANK && item.phase != Claimed && item.activeLease.None? && item.claimedBy.None?
    ensures WorldSound(w)
  {
    var s := w.store;
    assert forall i :: !IsHeld(s, i);
  }

  // ------------------------------------------------------------ one-shot use

  lemma IssuedIsNamed(s: State, id: string)
    requires IssuedOnce(s) && id in s.leases
    ensures exists e | e in s.ledger :: e.Names(id)
  {
    if forall e | e in s.ledger :: !e.Names(id) {
      NoIssueCounts(s.ledger, id);
    }
  }

  /** A lease id is never used twice: one seen at two moments is one lease, live later only if live before. */
  lemma {:induction false} LeaseIsTheSame(run: seq<World>, j: nat, k: nat, id: string)
    requires IsRun(run) && WorldSound(run[0]) && j <= k < |run|
    requires id in run[j].store.leases
    ensures run[j].store.ledger <= run[k].store.ledger
    ensures id in run[k].store.leases ==> Endures(run[j].store.leases[id], run[k].store.leases[id])
    decreases k
  {
    hide WorldSound, Moves, Sound;
    if j < k {
      LeaseIsTheSame(run, j, k - 1, id);
      EveryRunIsSound(run);
      StepKeepsWorldSound(run[k - 1], run[k]);
      NamedIsNotNew(run[j], run[k - 1].store, id);
    }
  }

  lemma NamedIsNotNew(w: World, t: State, id: string)
    requires WorldSound(w) && id in w.store.leases && w.store.ledger <= t.ledger
    ensures !IsNew(t, id)
  {
    IssuedIsNamed(w.store, id);
    var e :| e in w.store.ledger && e.Names(id);
    var n :| 0 <= n < |w.store.ledger| && w.store.ledger[n] == e;
    assert t.ledger[n] == e;
  }

  /**
    A one-shot composition looks up the caller's own lease at `j` and is handed one at `k`. When it
    is handed an existing lease, its rollback releases that lease exactly when the lease was granted
    in between; a lease that was there at the first look is never released.
  */
  lemma OneShotRollback(run: seq<World>, j: nat, k: nat, itemId: string, agentId: string, handed: string)
    requires IsRun(run) && WorldSound(run[0]) && j <= k < |run|
    requires IsOwnOn(run[k].store, handed, itemId, agentId)
    ensures OwnOn(run[j].store, itemId, agentId) != Some(handed) <==> handed !in run[j].store.leases
  {
    if handed in run[j].store.leases {
      LeaseIsTheSame(run, j, k, handed);
      EveryRunIsSound(run);
      assert WorldSound(run[j]);
      SoundIsPeaceful(run[j].store);
      var own := OwnOn(run[j].store, itemId, agentId);
      assert Endures(run[j].store.leases[handed], run[k].store.leases[handed]);
      assert IsOwnOn(run[j].store, handed, itemId, agentId);
      assert LiveOn(run[j].store, handed, itemId) && LiveOn(run[j].store, own.value, itemId);
    }
  }

  // ------------------------------------------------------------- late claims

  /** A claim transaction looks for leases in its way and never at the state of the item. */
  lemma ClaimIgnoresPhase(s: State, g: Grant, local: Option<Resolution>, now: int)
    ensures ClaimOne(s, g, local, now).Some?
        <==> g.itemId in s.items
             && forall id | id in s.leases && !s.leases[id].Overdue(now) ::
                  !Blocks(s.leases[id], g.itemId, {ItemKey(g.itemId)} + s.items[g.itemId].keys, g.agentId, g.role, g.allow)
  {
    if g.itemId in s.items {
      var u := Restored(Expire(s, now), g.itemId, local);
      NothingLeftToExpire(u, now);
      assert u.items[g.itemId].keys == s.items[g.itemId].keys;
      assert forall id | id in s.leases && s.leases[id].Overdue(now) :: !u.leases[id].Live();
      assert forall id | id in s.leases && !s.leases[id].Overdue(now) :: u.leases[id] == s.leases[id];
    }
  }

  /**
    A claim decided on an old load can land on a thread answered since: once it is given up, the
    thread is open again, with its accepted response still on it but no longer ready to publish.
  */
  lemma LateClaimReopensAnswer(s: State, g: Grant, local: Option<Resolution>, now: int)
    requires Sound(s) && Marked(s) && IsNew(s, g.leaseId) && ClaimOne(s, g, local, now).Some?
    requires s.items[g.itemId].phase == PublishReady && !IsStaleOrOutdated(s.items[g.itemId])
    ensures var claimed := Commit(ClaimOne(s, g, local, now).value);
            && claimed.Some?
            && var after := Commit(ReleaseClaimed(claimed.value, g.leaseId));
               && after.Some? && g.itemId in after.value.items
               && after.value.items[g.itemId].phase == Open
               && after.value.items[g.itemId].evidence == s.items[g.itemId].evidence
  {
    var t := ClaimOne(s, g, local, now).value;
    ClaimOneKeepsSound(s, g, local, now);
    ClaimOneGrants(s, g, local, now);
    ClaimedItem(s, g, local, now);
    SoundIsPeaceful(t);
    hide ClaimOne, Sound, IsNew;
    var claimed := Commit(t).value;
    CommitKeepsLeases(t);
    assert LiveOn(t, g.leaseId, g.itemId);
    GivingUpReopens(claimed, g.leaseId, g.itemId);
  }

  lemma ClaimedItem(s: State, g: Grant, local: Option<Resolution>, now: int)
    requires Marked(s) && IsNew(s, g.leaseId) && ClaimOne(s, g, local, now).Some?
    requires !IsStaleOrOutdated(s.items[g.itemId])
    ensures var t := ClaimOne(s, g, local, now).value;
            && g.itemId in t.items && t.items[g.itemId].evidence == s.items[g.itemId].evidence
            && t.items[g.itemId].phase == Claimed && t.items[g.itemId].status != IsStale && !t.items[g.itemId].outdated
            && LiveOn(t, g.leaseId, g.itemId)
  {
  }

  lemma GivingUpReopens(s: State, id: string, i: string)
    requires OneLive(s) && LiveOn(s, id, i) && i in s.items && s.items[i].activeLease == Some(id)
    requires s.items[i].phase == Claimed && s.items[i].status != IsStale && !s.items[i].outdated
    ensures var after := Commit(ReleaseClaimed(s, id));
            after.Some? && i in after.value.items && after.value.items[i].phase == Open && after.value.items[i].evidence == s.items[i].evidence
  {
    var t := ReleaseClaimed(s, id);
    assert forall a, x :: LiveOn(t, a, x) ==> LiveOn(s, a, x) && a != id;
    assert OneLive(t) && !IsHeld(t, i);
  }
}
