/** Which threads a batch claim takes, and that it passes over none it should take while the quota lasts. */
module BatchTargets {
  import opened Wrappers
  import opened Protocol
  import opened Leases
  import opened BatchClaim
  import opened ProtocolSafety
  import opened SessionEffects
  import opened LeaseRules

  /** A thread on one of the files asked for, or on any file when none is named. */
  predicate IsAskedFor(item: Item, files: seq<string>) {
    item.thread && (|files| > 0 ==> item.path != "" && exists k | 0 <= k < |files| :: files[k] == item.path)
  }

  /** An unresolved thread that nobody works on and that is not out of date. */
  predicate IsFree(item: Item) {
    item.thread && !LooksStale(item) && item.resolved != Some(true) && IsOpenForWork(item)
  }

  predicate IsForFixing(item: Item) {
    item.classification.None? || item.classification == Some(Fix)
  }

  ghost predicate IsHeldBy(s: State, i: string, agentId: string) {
    exists id :: IsOwnOn(s, id, i, agentId)
  }

  lemma TargetsAreFreeOrHeld(s: State, i: string, c: Call)
    ensures IsTarget(s, i, c)
        <==> i in s.items && IsAskedFor(s.items[i], c.files) && (IsHeldBy(s, i, c.agentId) || IsFree(s.items[i]))
  {
    if i in s.items && s.items[i].path in c.files {
      var k :| 0 <= k < |c.files| && c.files[k] == s.items[i].path;
    }
  }

  predicate HasEntry(entries: seq<Entry>, i: string, created: bool) {
    exists e | e in entries :: e.itemId == i && e.created == created
  }

  /** How a visited thread fared. */
  ghost predicate IsServed(s: State, i: string, c: Call, p: Progress)
    requires p.Going? && i in s.items
  {
    if IsHeldBy(s, i, c.agentId) then HasEntry(p.entries, i, false) && !HasEntry(p.entries, i, true)
    else !HasEntry(p.entries, i, false)
         && (HasEntry(p.entries, i, true) ==> IsForFixing(s.items[i]))
         && (IsForFixing(s.items[i]) ==> HasEntry(p.entries, i, true) || p.quota == 0)
  }

  lemma OwnershipOfOthersStays(s: State, visited: seq<string>, c: Call, p: State, entries: seq<Entry>, i: string)
    requires LeasesKept(s, p, entries) && EntriesHold(s, visited, p, entries, c) && i !in visited
    ensures forall id :: IsOwnOn(p, id, i, c.agentId) <==> IsOwnOn(s, id, i, c.agentId)
    ensures !HasEntry(entries, i, true) && !HasEntry(entries, i, false)
  {
    forall id | id in p.leases && id !in s.leases ensures p.leases[id].itemId != i {
      var e :| e in entries && e.created && e.leaseId == id;
      assert EntryHolds(s, p, e, c);
    }
  }

  lemma EntriesGrow(entries: seq<Entry>, e: Entry, j: string, created: bool)
    ensures HasEntry(entries + [e], j, created) <==> HasEntry(entries, j, created) || (e.itemId == j && e.created == created)
  {
    assert forall f :: f in entries + [e] <==> f in entries || f == e;
  }

  lemma VisitServes(s: State, quota: nat, visited: seq<string>, c: Call, p: Progress, i: string, j: string)
    requires p.Going? && Kept(s, quota, visited, c, p) && i in s.items && i !in visited && MintsFresh(s, c)
    requires j in s.items && (j == i || (j in visited && IsServed(s, j, c, p)))
    ensures Visit(p, i, c).Going? ==> IsServed(s, j, c, Visit(p, i, c))
  {
    OwnershipOfOthersStays(s, visited, c, p.state, p.entries, i);
    var own := OwnOn(p.state, i, c.agentId);
    assert own.Some? <==> IsHeldBy(s, i, c.agentId);
    assert p.state.items[i] == s.items[i];
    hide Kept, MintsFresh, IsHeldBy, OwnOn, HasEntry, LeaseNew, Reconcile;
    LeaseNewServes(p.state, i, c);
    if own.Some? {
      ReconcileServes(p.state, i, own.value, c);
    }
    if Visit(p, i, c).Going? && Visit(p, i, c) != p {
      var entry := Visit(p, i, c).entries[|p.entries|];
      EntriesGrow(p.entries, entry, j, true);
      EntriesGrow(p.entries, entry, j, false);
    }
  }

  lemma LeaseNewServes(s: State, i: string, c: Call)
    requires i in s.items
    ensures LeaseNew(s, i, c).Skipped? <==> !IsForFixing(s.items[i])
    ensures LeaseNew(s, i, c).Made? ==> LeaseNew(s, i, c).entry.itemId == i && LeaseNew(s, i, c).entry.created
  {
    hide Claim, Classified, NewGrant;
  }

  lemma ReconcileServes(s: State, i: string, id: string, c: Call)
    requires i in s.items && id in s.leases
    ensures Reconcile(s, i, id, c).1.itemId == i && !Reconcile(s, i, id, c).1.created
  {
  }

  lemma {:induction false} VisitsServe(s: State, quota: nat, targets: seq<string>, c: Call, j: string)
    requires NothingOverdue(s, c.now) && MintsFresh(s, c)
    requires NoRepeats(targets) && (forall i | i in targets :: i in s.items) && j in targets
    ensures VisitAll(s, quota, targets, c).Going? ==> IsServed(s, j, c, VisitAll(s, quota, targets, c))
  {
    hide Visit, Kept, IsServed, MintsFresh, NothingOverdue;
    var n := |targets| - 1;
    BatchKeeps(s, quota, targets[..n], c);
    var p := VisitAll(s, quota, targets[..n], c);
    assert targets[n] !in targets[..n];
    if j != targets[n] {
      VisitsServe(s, quota, targets[..n], c, j);
    }
    if p.Going? {
      VisitServes(s, quota, targets[..n], c, p, targets[n], j);
    } else {
      FailedStays(p, targets[n], c);
    }
  }

  lemma ExpiryKeepsTheAsking(s: State, now: int, i: string, files: seq<string>)
    requires i in s.items
    ensures var e := Expire(s, now);
            && i in e.items && IsForFixing(e.items[i]) == IsForFixing(s.items[i])
            && IsAskedFor(e.items[i], files) == IsAskedFor(s.items[i], files)
  {
  }

  /** How a target fared in a committed batch, and what a used-up quota says. */
  ghost predicate FaresIn(e: State, i: string, c: Call, p: Progress, t: State, entries: seq<Entry>) {
    && p.Going? && p.entries == entries && i in e.items && IsServed(e, i, c, p)
    && (p.quota == 0 ==> |OwnActive(t, c.agentId)| >= MAX_PARALLEL_CLAIMS)
  }

  /** The loop of a committed batch serves every target, and makes entries for targets only. */
  lemma BatchServesTargets(s: State, order: seq<string>, c: Call, i: string)
    requires NoRepeats(order) && MintsFresh(s, c) && CommitBatch(s, order, c).Some?
    ensures var (e, (t, entries)) := (Expire(s, c.now), CommitBatch(s, order, c).value);
            && (i in order && IsTarget(e, i, c) ==> exists p: Progress :: FaresIn(e, i, c, p, t, entries))
            && (HasEntry(entries, i, true) || HasEntry(entries, i, false) ==> i in order && IsTarget(e, i, c))
  {
    var e := Expire(s, c.now);
    var targets := Targets(e, order, c);
    var quota := Quota(|OwnActive(e, c.agentId)|);
    var p := VisitAll(e, quota, targets, c);
    var (t, entries) := CommitBatch(s, order, c).value;
    StillFresh(s, c);
    ExpireLeavesNothingOverdue(s, c.now);
    assert NoRepeats(targets) && forall j | j in targets :: j in e.items;
    assert t == p.state.(ledger := t.ledger) && entries == p.entries && p.Going?;
    assert i in targets <==> i in order && IsTarget(e, i, c);
    hide CommitBatch, Targets, VisitAll, Expire, IsTarget, Quota;
    LoopServesTargets(e, quota, targets, c, p, t, i);
  }

  lemma LoopServesTargets(e: State, quota: nat, targets: seq<string>, c: Call, p: Progress, t: State, i: string)
    requires NothingOverdue(e, c.now) && MintsFresh(e, c) && NoRepeats(targets)
    requires forall j | j in targets :: j in e.items
    requires p == VisitAll(e, quota, targets, c) && p.Going? && quota == Quota(|OwnActive(e, c.agentId)|)
    requires t == p.state.(ledger := t.ledger)
    ensures i in targets ==> FaresIn(e, i, c, p, t, p.entries)
    ensures HasEntry(p.entries, i, true) || HasEntry(p.entries, i, false) ==> i in targets
  {
    hide NothingOverdue, MintsFresh, VisitAll, IsServed, OwnActive, LeasesKept, Created, NoRepeats, RestKept;
    BatchKeeps(e, quota, targets, c);
    if i in targets {
      VisitsServe(e, quota, targets, c, i);
      if p.quota == 0 {
        FullQuotaIsUsed(e, quota, targets, c, p, t);
      }
    }
  }

  lemma FullQuotaIsUsed(e: State, quota: nat, targets: seq<string>, c: Call, p: Progress, t: State)
    requires p.Going? && Kept(e, quota, targets, c, p) && MintsFresh(e, c) && quota == Quota(|OwnActive(e, c.agentId)|)
    requires t == p.state.(ledger := t.ledger) && p.quota == 0
    ensures |OwnActive(t, c.agentId)| >= MAX_PARALLEL_CLAIMS
  {
    hide NothingOverdue, MintsFresh, OwnActive, LeasesKept, EntriesHold, RestKept, Created;
    BatchHolds(e, p.state, p.entries, c, targets);
    EntriesIgnoreLedger(e, p.state, t, p.entries, c, targets);
    assert |OwnActive(e, c.agentId) + Created(p.entries)| == |OwnActive(e, c.agentId)| + |Created(p.entries)|;
  }

  /** Every entry is for a thread that was asked for, and is held by the agent or free and for fixing. */
  lemma BatchTakesOnlyTargets(s: State, order: seq<string>, c: Call, entry: Entry)
    requires NoRepeats(order) && MintsFresh(s, c) && CommitBatch(s, order, c).Some?
    requires entry in CommitBatch(s, order, c).value.1
    ensures var (e, i) := (Expire(s, c.now), entry.itemId);
            && i in order && i in s.items && i in e.items && IsAskedFor(s.items[i], c.files)
            && (if entry.created then !IsHeldBy(e, i, c.agentId) && IsFree(e.items[i]) && IsForFixing(s.items[i])
                else IsHeldBy(e, i, c.agentId))
  {
    var (e, i) := (Expire(s, c.now), entry.itemId);
    BatchServesTargets(s, order, c, i);
    assert HasEntry(CommitBatch(s, order, c).value.1, i, entry.created);
    TargetsAreFreeOrHeld(e, i, c);
    ExpireShape(s, c.now);
    ExpiryKeepsTheAsking(s, c.now, i, c.files);
    hide MintsFresh, CommitBatch, Expire, IsTarget, IsHeldBy, IsFree, HasEntry, NoRepeats, OwnActive, IsAskedFor;
  }

  /**
    Every thread that was asked for is served: one the agent holds gets an entry for re-entry, and a
    free one for fixing gets a new lease unless the agent holds two leases already.
  */
  lemma BatchServesEveryTarget(s: State, order: seq<string>, c: Call, i: string)
    requires NoRepeats(order) && MintsFresh(s, c) && CommitBatch(s, order, c).Some?
    requires i in order && i in s.items && IsAskedFor(s.items[i], c.files)
    ensures var (e, (t, entries)) := (Expire(s, c.now), CommitBatch(s, order, c).value);
            && i in e.items
            && (IsHeldBy(e, i, c.agentId) ==> HasEntry(entries, i, false))
            && (!IsHeldBy(e, i, c.agentId) && IsFree(e.items[i]) && IsForFixing(s.items[i]) ==>
                  HasEntry(entries, i, true) || |OwnActive(t, c.agentId)| >= 2)
  {
    var e := Expire(s, c.now);
    BatchServesTargets(s, order, c, i);
    ExpiryKeepsTheAsking(s, c.now, i, c.files);
    TargetsAreFreeOrHeld(e, i, c);
    hide MintsFresh, CommitBatch, Expire, IsTarget, IsHeldBy, IsFree, HasEntry, NoRepeats, OwnActive, IsAskedFor, IsForFixing;
  }

  // ------------------------------------------------------- what an entry means

  /** A fix classification for a thread that had none, recorded in the ledger. */
  predicate IsFixRecorded(s: State, t: State, i: string, agentId: string) {
    && i in s.items && i in t.items
    && (s.items[i].classification.None? ==> ClassificationRecorded(i, agentId, Fix) in t.ledger)
    && t.items[i].classification == (if s.items[i].classification.None? then Some(Fix) else s.items[i].classification)
    && t.items[i].decision == (if s.items[i].classification.None? then Some(Fix) else s.items[i].decision)
  }

  /**
    What an entry says about the session: a created one is a new lease in full on a thread marked with
    it; a re-entered one is the old lease, its hash moved only when the file on disk is not its own.
  */
  predicate EntryShows(s: State, t: State, e: Entry, c: Call) {
    && IsFixRecorded(s, t, e.itemId, c.agentId) && e.leaseId in t.leases
    && if e.created then
         && !e.rebuild && IsMarkedBy(s.items[e.itemId], t.items[e.itemId], Some(Fix), e.leaseId)
         && e.request == Request("req:" + e.leaseId, e.leaseId, e.request.body)
         && e.requestPath == "action-request-req:" + e.leaseId + ".json"
         && t.leases[e.leaseId]
         == Lease(e.itemId, c.agentId, Fixer, Active, c.now + 3600, HashOf(e.request), "req:" + e.leaseId,
                  e.requestPath, {ItemKey(e.itemId)} + s.items[e.itemId].keys)
       else
         && e.leaseId in s.leases && e.requestPath == s.leases[e.leaseId].requestPath
         && (e.rebuild <==> !IsOwnFile(c.disk, s.leases[e.leaseId], e.leaseId))
         && t.leases[e.leaseId] == s.leases[e.leaseId].(hash := if e.rebuild then HashOf(e.request) else s.leases[e.leaseId].hash)
  }

  /** The lease's request file is there, under its own ids. */
  predicate IsOwnFile(disk: map<string, File>, l: Lease, id: string) {
    && l.requestPath in disk && disk[l.requestPath].Stored?
    && disk[l.requestPath].request.requestId == l.requestId && disk[l.requestPath].request.leaseId == id
  }

  lemma ReenteredEntryShows(s: State, i: string, id: string, c: Call)
    requires i in s.items && id in s.leases
    ensures var (t, e) := Reconcile(s, i, id, c); EntryShows(s, t, e, c) && e.itemId == i && e.leaseId == id && s.ledger <= t.ledger
  {
  }

  lemma CreatedEntryShows(s: State, i: string, c: Call)
    requires i in s.items && NothingOverdue(s, c.now) && c.mint(i) !in s.leases && LeaseNew(s, i, c).Made?
    ensures var made := LeaseNew(s, i, c); EntryShows(s, made.state, made.entry, c) && made.entry.itemId == i
  {
    NothingLeftToExpire(Classified(s, i, c.agentId), c.now);
    PathsRead(c.mint(i));
    hide Expire, IsBlocked, RequestPath, RequestId;
  }

  lemma PathsRead(id: string)
    ensures RequestId(id) == "req:" + id && RequestPath(RequestId(id)) == "action-request-req:" + id + ".json"
  {
    assert "action-request-" + ("req:" + id) + ".json" == "action-request-req:" + id + ".json";
  }

  /** The same item and lease in a later state of the batch show the same entry. */
  lemma EntryStaysShown(s: State, p: State, t: State, e: Entry, c: Call)
    requires EntryShows(s, p, e, c) && e.itemId in t.items && t.items[e.itemId] == p.items[e.itemId]
    requires e.leaseId in t.leases && t.leases[e.leaseId] == p.leases[e.leaseId] && p.ledger <= t.ledger
    ensures EntryShows(s, t, e, c)
  {
    forall event | event in p.ledger ensures event in t.ledger {
      var k :| 0 <= k < |p.ledger| && p.ledger[k] == event;
      assert t.ledger[k] == event;
    }
    hide IsMarkedBy, IsOwnFile;
  }

  /** An entry made from a state that agrees with `s` on the item and the lease shows from `s` too. */
  lemma EntryShowsFrom(s: State, p: State, t: State, e: Entry, c: Call)
    requires EntryShows(p, t, e, c) && e.itemId in s.items && s.items[e.itemId] == p.items[e.itemId]
    requires !e.created ==> e.leaseId in s.leases && p.leases[e.leaseId] == s.leases[e.leaseId]
    ensures EntryShows(s, t, e, c)
  {
  }

  lemma VisitShows(s: State, quota: nat, visited: seq<string>, c: Call, p: Progress, i: string, e: Entry)
    requires p.Going? && Kept(s, quota, visited, c, p) && i in s.items && i !in visited && MintsFresh(s, c)
    requires Visit(p, i, c).Going? && e in Visit(p, i, c).entries
    requires e in p.entries ==> EntryShows(s, p.state, e, c)
    ensures EntryShows(s, Visit(p, i, c).state, e, c)
  {
    hide EntryShows, Reconcile, LeaseNew, Created, LeasesKept, NothingOverdue;
    var own := OwnOn(p.state, i, c.agentId);
    if own.Some? {
      ReenteredIsOld(s, visited, c, p.state, p.entries, i, own.value);
      ReconcileVisits(p.state, i, own.value, c);
      ReenteredEntryShows(p.state, i, own.value, c);
      var (t, made) := Reconcile(p.state, i, own.value, c);
      NewOrOldShows(s, visited, c, p.state, p.entries, t, made, e);
    } else if p.quota > 0 && LeaseNew(p.state, i, c).Made? {
      MintedIsNew(s, visited, c, p.state, p.entries, i);
      LeaseNewVisits(p.state, i, c);
      CreatedEntryShows(p.state, i, c);
      NewOrOldShows(s, visited, c, p.state, p.entries, LeaseNew(p.state, i, c).state, LeaseNew(p.state, i, c).entry, e);
    }
  }

  lemma NewOrOldShows(s: State, visited: seq<string>, c: Call, p: State, entries: seq<Entry>, t: State, made: Entry, e: Entry)
    requires EntriesHold(s, visited, p, entries, c) && RestKept(s, visited, p) && made.itemId !in visited
    requires Visits(p, t, made.itemId, made, c) && EntryShows(p, t, made, c)
    requires !made.created ==> made.leaseId in s.leases && p.leases[made.leaseId] == s.leases[made.leaseId]
    requires e in entries + [made] && (e in entries ==> EntryShows(s, p, e, c))
    ensures EntryShows(s, t, e, c)
  {
    if e in entries {
      assert EntryHolds(s, p, e, c) && e.itemId in visited;
      assert made.leaseId in p.leases ==> p.leases[made.leaseId].itemId == made.itemId;
      hide EntryShows, EntryHolds;
      EntryStaysShown(s, p, t, e, c);
    } else {
      hide EntryShows, EntryHolds;
      EntryShowsFrom(s, p, t, made, c);
    }
  }

  lemma {:induction false} VisitsShow(s: State, quota: nat, targets: seq<string>, c: Call, e: Entry)
    requires NothingOverdue(s, c.now) && MintsFresh(s, c)
    requires NoRepeats(targets) && forall i | i in targets :: i in s.items
    ensures var p := VisitAll(s, quota, targets, c); p.Going? && e in p.entries ==> EntryShows(s, p.state, e, c)
  {
    hide Visit, Kept, EntryShows, MintsFresh, NothingOverdue;
    if targets != [] {
      var n := |targets| - 1;
      BatchKeeps(s, quota, targets[..n], c);
      VisitsShow(s, quota, targets[..n], c, e);
      var p := VisitAll(s, quota, targets[..n], c);
      assert targets[n] !in targets[..n];
      if p.Failed? {
        FailedStays(p, targets[n], c);
      } else if Visit(p, targets[n], c).Going? && e in Visit(p, targets[n], c).entries {
        VisitShows(s, quota, targets[..n], c, p, targets[n], e);
      }
    }
  }

  /** Every entry of a committed batch shows on its thread, its lease and the ledger. */
  lemma BatchEntriesShow(s: State, order: seq<string>, c: Call, entry: Entry)
    requires NoRepeats(order) && MintsFresh(s, c) && CommitBatch(s, order, c).Some?
    requires entry in CommitBatch(s, order, c).value.1
    ensures EntryShows(Expire(s, c.now), CommitBatch(s, order, c).value.0, entry, c)
  {
    var e := Expire(s, c.now);
    var targets := Targets(e, order, c);
    var quota := Quota(|OwnActive(e, c.agentId)|);
    var p := VisitAll(e, quota, targets, c);
    StillFresh(s, c);
    ExpireLeavesNothingOverdue(s, c.now);
    hide NothingOverdue, MintsFresh, Targets, VisitAll, IssueEvents, Expire, EntryShows, OwnActive, NoRepeats, IsTarget;
    VisitsShow(e, quota, targets, c, entry);
    LedgerGrowthShows(e, p.state, CommitBatch(s, order, c).value.0, entry, c);
  }

  lemma LedgerGrowthShows(s: State, p: State, t: State, e: Entry, c: Call)
    requires EntryShows(s, p, e, c) && t == p.(ledger := t.ledger) && p.ledger <= t.ledger
    ensures EntryShows(s, t, e, c)
  {
    EntryStaysShown(s, p, t, e, c);
  }

  /** A new lease for a free thread is refused exactly when some live lease stands in its way, files and hunks of its own aside. */
  lemma NewLeaseConflictsExactly(s: State, i: string, c: Call)
    requires i in s.items && IsForFixing(s.items[i])
    ensures var u := Classified(s, i, c.agentId);
            var g := NewGrant(i, u.items[i], c);
            && g.allow && g.role == Fixer && g.agentId == c.agentId && g.itemId == i
            && (LeaseNew(s, i, c).Conflict? <==>
                  exists id | id in s.leases :: StandsInTheWay(s.leases[id], g, {ItemKey(i)} + s.items[i].keys, c.now))
            && !LeaseNew(s, i, c).Skipped?
  {
    var u := Classified(s, i, c.agentId);
    ClaimIsRefusedExactly(u, NewGrant(i, u.items[i], c), c.now);
    hide Claim, StandsInTheWay;
  }
}
