/** The mutable session that the runtime updates in place inside one write transaction. */
module SessionStore {
  import opened Wrappers
  import opened Protocol
  import opened Leases
  import opened Submission
  import opened BatchClaim
  import opened BatchSubmit
  import opened ProtocolRuns
  import opened ProtocolSteps
  import opened ProtocolSafety

  // ---------------------------------------------------------- loop reasoning

  /** Leases part way through expiring: the overdue ones in `done` have ended. */
  predicate LeasesSoFar(s: State, t: State, now: int, done: set<string>) {
    t.leases.Keys == s.leases.Keys &&
    forall id | id in s.leases ::
      t.leases[id] == if id in done && s.leases[id].Overdue(now) then s.leases[id].(status := Expired) else s.leases[id]
  }

  predicate FreedSoFar(s: State, item: Item, now: int, done: set<string>) {
    HoldsOverdue(s, item, now) && item.activeLease.value in done
  }

  /** Items part way through expiring: those marked by an overdue lease in `done` are free. */
  predicate ItemsSoFar(s: State, t: State, now: int, done: set<string>) {
    t.items.Keys == s.items.Keys &&
    forall i | i in s.items ::
      t.items[i] == if FreedSoFar(s, s.items[i], now, done) then Unmarked(ToClaimable(s.items[i])) else s.items[i]
  }

  predicate ExpiredSoFar(s: State, t: State, now: int, done: set<string>) {
    t.ledger == s.ledger && LeasesSoFar(s, t, now, done) && ItemsSoFar(s, t, now, done)
  }

  /** In a stored session an item names the lease that holds it, and only that one. */
  lemma MarkerIsTheHolder(s: State, id: string)
    requires Marked(s) && id in s.leases && s.leases[id].Live()
    ensures s.leases[id].itemId in s.items ==> s.items[s.leases[id].itemId].activeLease == Some(id)
    ensures forall i | i in s.items && s.items[i].activeLease == Some(id) :: i == s.leases[id].itemId
  {
    var i := s.leases[id].itemId;
    assert LiveOn(s, id, i);
    if i in s.items {
      assert s.items[i] == Derived(s, i, s.items[i]) && LiveOn(s, Holder(s, i), i);
    }
    forall j | j in s.items && s.items[j].activeLease == Some(id) ensures j == i {
      assert s.items[j] == Derived(s, j, s.items[j]);
    }
  }

  /** Freeing the item that an expired lease marks. */
  lemma ExpiryFrees(item: Item, id: string, agentId: string)
    requires item.activeLease == Some(id)
    ensures AfterExpiry(item, id, agentId) == Unmarked(ToClaimable(item))
  {
  }

  lemma LeasesOneMore(s: State, t: State, now: int, done: set<string>, id: string)
    requires LeasesSoFar(s, t, now, done) && id in s.leases && id !in done
    ensures LeasesSoFar(s, if t.leases[id].Overdue(now) then ExpireOne(t, id) else t, now, done + {id})
  {
  }

  lemma ItemsUnmarked(s: State, t: State, now: int, done: set<string>, id: string)
    requires ItemsSoFar(s, t, now, done) && id in s.leases && !s.leases[id].Overdue(now)
    ensures ItemsSoFar(s, t, now, done + {id})
  {
    assert forall j | j in s.items :: FreedSoFar(s, s.items[j], now, done + {id}) == FreedSoFar(s, s.items[j], now, done);
  }

  lemma ItemsOneMore(s: State, t: State, now: int, done: set<string>, id: string)
    requires Marked(s) && ItemsSoFar(s, t, now, done) && LeasesSoFar(s, t, now, done) && id in s.leases && id !in done
    requires s.leases[id].Overdue(now)
    ensures ItemsSoFar(s, ExpireOne(t, id), now, done + {id})
  {
    MarkerIsTheHolder(s, id);
    hide Marked, ToClaimable, AfterExpiry;
    var i := s.leases[id].itemId;
    if i in s.items {
      ExpiryFrees(s.items[i], id, s.leases[id].agentId);
      assert !FreedSoFar(s, s.items[i], now, done) && FreedSoFar(s, s.items[i], now, done + {id});
    }
    forall j | j in s.items && j != i
      ensures FreedSoFar(s, s.items[j], now, done + {id}) == FreedSoFar(s, s.items[j], now, done)
    {
      assert s.items[j].activeLease != Some(id);
    }
  }

  lemma ExpiringOneMore(s: State, t: State, now: int, done: set<string>, id: string)
    requires Marked(s) || NothingOverdue(s, now)
    requires ExpiredSoFar(s, t, now, done) && id in s.leases && id !in done
    ensures ExpiredSoFar(s, if t.leases[id].Overdue(now) then ExpireOne(t, id) else t, now, done + {id})
  {
    assert t.leases[id] == s.leases[id];
    hide LeasesSoFar, ItemsSoFar, Marked;
    LeasesOneMore(s, t, now, done, id);
    if s.leases[id].Overdue(now) {
      ItemsOneMore(s, t, now, done, id);
    } else {
      ItemsUnmarked(s, t, now, done, id);
    }
  }

  lemma AllExpired(s: State, t: State, now: int)
    requires ExpiredSoFar(s, t, now, s.leases.Keys)
    ensures t == Expire(s, now)
  {
    assert t.leases == Expire(s, now).leases;
    assert t.items == Expire(s, now).items;
  }

  lemma OwnIsUnique(s: State, i: string, agentId: string, id: string)
    requires OneLive(s) && IsOwnOn(s, id, i, agentId)
    ensures OwnOn(s, i, agentId) == Some(id)
  {
    var own := OwnOn(s, i, agentId).value;
    assert LiveOn(s, own, i) && LiveOn(s, id, i);
  }

  lemma ReboundIsUnique(s: State, r: Response, i: string, current: string, id: string)
    requires OneLive(s) && IsRebound(s, r, i, current, id)
    ensures Rebound(s, r, i, current) == Some(id)
  {
    var other := Rebound(s, r, i, current).value;
    assert LiveOn(s, other, i) && LiveOn(s, id, i);
  }

  lemma ReversedReading(s: State, order: seq<string>, c: Call, k: nat)
    requires k < |order|
    ensures Targets(s, order[..k + 1], c) == Targets(s, order[..k], c) + if IsTarget(s, order[k], c) then [order[k]] else []
  {
    assert order[..k + 1][..k] == order[..k];
  }

  lemma NextVisit(s: State, quota: nat, targets: seq<string>, c: Call, k: nat)
    requires k < |targets| && forall i | i in targets :: i in s.items
    ensures VisitAll(s, quota, targets[..k + 1], c) == Visit(VisitAll(s, quota, targets[..k], c), targets[k], c)
  {
    assert targets[..k + 1][..k] == targets[..k];
  }

  lemma NextIssue(entries: seq<Entry>, agentId: string, k: nat)
    requires k < |entries|
    ensures IssueEvents(entries[..k + 1], agentId) == IssueEvents(entries[..k], agentId)
              + if entries[k].created
                then [RequestIssued(entries[k].itemId, entries[k].leaseId, agentId, entries[k].request.requestId, false)] else []
  {
    assert entries[..k + 1][..k] == entries[..k];
  }

  /** Once a visit fails, the whole batch fails. */
  lemma {:induction false} FailureLasts(s: State, quota: nat, targets: seq<string>, c: Call, k: nat)
    requires k <= |targets| && forall i | i in targets :: i in s.items
    requires VisitAll(s, quota, targets[..k], c).Failed?
    ensures VisitAll(s, quota, targets, c).Failed?
    decreases |targets| - k
  {
    if k == |targets| {
      assert targets[..k] == targets;
    } else {
      NextVisit(s, quota, targets, c, k);
      FailureLasts(s, quota, targets, c, k + 1);
    }
  }

  lemma NextCheck(s: State, rs: seq<Response>, c: Context, k: nat)
    requires k < |rs| && CheckRows(s, rs[..k], c).Passed?
    ensures CheckRows(s, rs[..k + 1], c) == CheckRow(s, CheckRows(s, rs[..k], c).rows, rs[k], c)
  {
    assert rs[..k + 1][..k] == rs[..k];
  }

  /** Once a row stops a batch, the batch stays stopped there. */
  lemma {:induction false} StopLasts(s: State, rs: seq<Response>, c: Context, k: nat)
    requires k <= |rs| && CheckRows(s, rs[..k], c).Stopped?
    ensures CheckRows(s, rs, c) == CheckRows(s, rs[..k], c)
    decreases |rs| - k
  {
    if k == |rs| {
      assert rs[..k] == rs;
    } else {
      assert rs[..k + 1][..k] == rs[..k];
      StopLasts(s, rs, c, k + 1);
    }
  }

  lemma {:induction false} FirstUnboundIsFirst(rows: seq<Row>, c: Context, k: nat)
    requires k <= |rows| && (k < |rows| ==> c.revision(rows[k]).Some?)
    requires forall j | 0 <= j < k :: c.revision(rows[j]).None?
    ensures FirstUnbound(rows, c) == k
  {
    assert FirstUnbound(rows, c) < |rows| ==> c.revision(rows[FirstUnbound(rows, c)]).Some?;
  }

  lemma NextAcceptance(s: State, rows: seq<Row>, now: int, k: nat)
    requires Ready(s, rows, now) && k < |rows|
    ensures AcceptRows(s, rows[..k], now).Some? && AcceptRows(s, rows[..k + 1], now).Some?
    ensures AcceptRows(s, rows[..k + 1], now) == AcceptRow(AcceptRows(s, rows[..k], now).value, rows[k], now)
    ensures OneLive(s) ==> OneLive(AcceptRows(s, rows[..k], now).value)
  {
    ReadyPrefix(s, rows, now, k);
    ReadyPrefix(s, rows, now, k + 1);
    hide Ready, AcceptRow, Carries, AcceptedLeases, OneLive, LeaseIds;
    assert rows[..k + 1][..k] == rows[..k];
    ReadyRowsAreAllAccepted(s, rows[..k], now);
    ReadyRowsAreAllAccepted(s, rows[..k + 1], now);
    AcceptingKeepsOneLive(s, AcceptRows(s, rows[..k], now).value, LeaseIds(rows[..k]));
  }

  lemma ReadyPrefix(s: State, rows: seq<Row>, now: int, k: nat)
    requires Ready(s, rows, now) && k <= |rows|
    ensures Ready(s, rows[..k], now)
  {
    hide IsReady;
  }

  lemma AcceptingKeepsOneLive(s: State, t: State, ids: set<string>)
    requires t.leases == AcceptedLeases(s.leases, ids)
    ensures OneLive(s) ==> OneLive(t)
  {
    assert forall id, i :: LiveOn(t, id, i) ==> LiveOn(s, id, i);
  }

  lemma AcceptedRowShape(s: State, row: Row, now: int)
    requires AcceptRow(s, row, now).Some?
    ensures row.prepared.itemId in s.items && row.response.choice.Known?
    ensures AcceptSubmission(s, row.response, row.prepared, now).Answered?
    ensures AcceptSubmission(s, row.response, row.prepared, now).state == AcceptRow(s, row, now).value
  {
  }

  lemma NextRelease(s: State, rows: seq<Row>, k: nat)
    requires k < |rows| && forall row | row in rows :: row.prepared.itemId in s.items
    ensures forall row | row in rows[..k + 1] :: row.prepared.itemId in s.items
    ensures ReleaseRows(s, rows[..k + 1])
         == ReleaseIrrecoverable(ReleaseRows(s, rows[..k]), rows[k].prepared.leaseId, rows[k].prepared.itemId)
  {
    assert rows[..k + 1][..k] == rows[..k];
  }

  // ----------------------------------------------------------------- session

  class Session {
    var items: map<string, Item>
    var leases: map<string, Lease>
    var ledger: seq<Event>

    constructor (items: map<string, Item>, leases: map<string, Lease>, ledger: seq<Event>)
      ensures View() == State(items, leases, ledger)
    {
      this.items := items;
      this.leases := leases;
      this.ledger := ledger;
    }

    function View(): State
      reads this
    {
      State(items, leases, ledger)
    }

    method Replace(s: State)
      modifies this
      ensures View() == s
    {
      items, leases, ledger := s.items, s.leases, s.ledger;
    }

    /** The live lease of each held item, or nothing when an item is held twice. */
    method IndexHolders() returns (indexed: Option<map<string, string>>)
      ensures indexed.Some? <==> OneLive(View())
      ensures indexed.Some? ==> forall i :: i in indexed.value <==> IsHeld(View(), i)
      ensures indexed.Some? ==> forall i | i in indexed.value :: LiveOn(View(), indexed.value[i], i)
    {
      ghost var s := View();
      var holders: map<string, string> := map[];
      var rest := leases.Keys;
      while rest != {}
        invariant rest <= leases.Keys
        invariant forall id, i :: LiveOn(s, id, i) && id !in rest ==> i in holders && holders[i] == id
        invariant forall i | i in holders :: holders[i] !in rest && LiveOn(s, holders[i], i)
        decreases rest
      {
        var id :| id in rest;
        var lease := leases[id];
        if lease.Live() {
          assert LiveOn(s, id, lease.itemId);
          if lease.itemId in holders {
            assert LiveOn(s, holders[lease.itemId], lease.itemId);
            return None;
          }
          holders := holders[lease.itemId := id];
        }
        rest := rest - {id};
      }
      assert forall i :: i in holders <==> IsHeld(s, i);
      indexed := Some(holders);
    }

    /** What the store does on every commit: derive each item's claim fields, or refuse a doubly held item. */
    method DeriveClaims() returns (ok: bool)
      modifies this
      ensures ok <==> Commit(old(View())).Some?
      ensures View() == if ok then Commit(old(View())).value else old(View())
    {
      ghost var s := View();
      var indexed := IndexHolders();
      if indexed.None? {
        return false;
      }
      var holders := indexed.value;
      var left := items.Keys;
      while left != {}
        invariant left <= items.Keys == s.items.Keys && leases == s.leases && ledger == s.ledger
        invariant forall i | i in items :: items[i] == if i in left then s.items[i] else Derived(s, i, s.items[i])
        decreases left
      {
        var i :| i in left;
        var item := items[i];
        if i in holders {
          assert LiveOn(s, holders[i], i) && LiveOn(s, Holder(s, i), i);
          items := items[i := item.(phase := Claimed, activeLease := Some(holders[i]),
                                    claimedBy := Some(leases[holders[i]].agentId))];
        } else {
          items := items[i := Unmarked(if item.phase == Claimed then ToClaimable(item) else item)];
        }
        left := left - {i};
      }
      assert items == Commit(s).value.items;
      ok := true;
    }

    /** End one overdue lease and free the item it marks. */
    method ExpireLease(id: string)
      requires id in leases
      modifies this
      ensures View() == ExpireOne(old(View()), id)
    {
      var lease := leases[id];
      leases := leases[id := lease.(status := Expired)];
      if lease.itemId in items {
        items := items[lease.itemId := AfterExpiry(items[lease.itemId], id, lease.agentId)];
      }
    }

    method ExpireLeases(now: int)
      requires Marked(View()) || NothingOverdue(View(), now)
      modifies this
      ensures View() == Expire(old(View()), now)
    {
      ghost var s := View();
      var rest := leases.Keys;
      while rest != {}
        invariant rest <= s.leases.Keys
        invariant ExpiredSoFar(s, View(), now, s.leases.Keys - rest)
        decreases rest
      {
        var id :| id in rest;
        ExpiringOneMore(s, View(), now, s.leases.Keys - rest, id);
        assert s.leases.Keys - (rest - {id}) == s.leases.Keys - rest + {id};
        if leases[id].Overdue(now) {
          ExpireLease(id);
        }
        rest := rest - {id};
      }
      assert s.leases.Keys - {} == s.leases.Keys;
      AllExpired(s, View(), now);
    }

    /** Grant a lease, or leave the session merely expired when a live lease stands in the way. */
    method ClaimLease(g: Grant, now: int) returns (ok: bool)
      requires (Marked(View()) || NothingOverdue(View(), now)) && g.itemId in items
      modifies this
      ensures ok <==> Claim(old(View()), g, now).Some?
      ensures View() == if ok then Claim(old(View()), g, now).value else Expire(old(View()), now)
    {
      ghost var s := View();
      ExpireLeases(now);
      ghost var e := Expire(s, now);
      var keys := ConflictKeys(g.itemId, items[g.itemId]);
      var rest := leases.Keys;
      while rest != {}
        invariant rest <= e.leases.Keys && View() == e
        invariant forall id | id in e.leases && id !in rest ::
                    !Blocks(e.leases[id], g.itemId, keys, g.agentId, g.role, g.allow)
        decreases rest
      {
        var id :| id in rest;
        if Blocks(leases[id], g.itemId, keys, g.agentId, g.role, g.allow) {
          return false;
        }
        rest := rest - {id};
      }
      leases := leases[g.leaseId := Granted(g, keys, now)];
      ok := true;
    }

    method FindOwn(i: string, agentId: string) returns (own: Option<string>)
      requires OneLive(View())
      ensures own == OwnOn(View(), i, agentId)
    {
      var rest := leases.Keys;
      while rest != {}
        invariant rest <= leases.Keys
        invariant forall id | id in leases && id !in rest :: !IsOwnOn(View(), id, i, agentId)
        decreases rest
      {
        var id :| id in rest;
        if IsOwnOn(View(), id, i, agentId) {
          OwnIsUnique(View(), i, agentId, id);
          return Some(id);
        }
        rest := rest - {id};
      }
      own := None;
    }

    method CountOwn(agentId: string) returns (n: nat)
      ensures n == |OwnActive(View(), agentId)|
    {
      n := 0;
      var rest := leases.Keys;
      ghost var counted: set<string> := {};
      while rest != {}
        invariant rest <= leases.Keys && n == |counted|
        invariant counted == set id | id in leases && id !in rest && IsOwnActive(leases[id], agentId)
        decreases rest
      {
        var id :| id in rest;
        if IsOwnActive(leases[id], agentId) {
          n := n + 1;
          counted := counted + {id};
        }
        rest := rest - {id};
      }
      assert counted == OwnActive(View(), agentId);
    }

    method SelectTargets(order: seq<string>, c: Call) returns (targets: seq<string>)
      requires OneLive(View())
      ensures targets == Targets(View(), order, c)
    {
      targets := [];
      var k := 0;
      while k < |order|
        invariant 0 <= k <= |order|
        invariant targets == Targets(View(), order[..k], c)
      {
        var i := order[k];
        ReversedReading(View(), order, c, k);
        if i in items && items[i].thread && (c.files == [] || (items[i].path != "" && items[i].path in c.files)) {
          var own := FindOwn(i, c.agentId);
          if own.Some? || IsBatchClaimable(items[i]) {
            targets := targets + [i];
          }
        }
        k := k + 1;
      }
      assert order[..k] == order;
    }

    method EnsureClassified(i: string, agentId: string)
      requires i in items
      modifies this
      ensures View() == Classified(old(View()), i, agentId)
    {
      var item := items[i];
      if item.classification.None? {
        ledger := ledger + [ClassificationRecorded(i, agentId, Fix)];
        items := items[i := item.(classification := Some(Fix), decision := Some(Fix))];
      }
    }

    /** Prepare the request of a lease the agent already holds. */
    method ReconcileLease(i: string, id: string, c: Call) returns (entry: Entry)
      requires i in items && id in leases
      modifies this
      ensures (View(), entry) == Reconcile(old(View()), i, id, c)
    {
      EnsureClassified(i, c.agentId);
      var lease := leases[id];
      var request := Request(lease.requestId, id, c.draft(i, items[i]));
      var rebuild := PayloadForLease(Read(c.disk, lease.requestPath), lease.requestId, id).None?;
      if rebuild {
        lease := lease.(hash := HashOf(request));
      }
      leases := leases[id := lease];
      entry := Entry(i, id, lease.requestPath, false, rebuild, request);
    }

    /** Claim a thread the agent does not hold yet. */
    method LeaseThread(i: string, c: Call) returns (a: Attempt)
      requires i in items && NothingOverdue(View(), c.now)
      modifies this
      ensures a == LeaseNew(old(View()), i, c)
      ensures a.Made? ==> View() == a.state
      ensures a.Skipped? ==> View() == old(View())
    {
      var had := items[i].classification;
      if had.Some? && had.value != Fix {
        return Skipped;
      }
      EnsureClassified(i, c.agentId);
      var g := NewGrant(i, items[i], c);
      var ok := ClaimLease(g, c.now);
      if !ok {
        return Conflict;
      }
      items := items[i := items[i].(phase := Claimed, activeLease := Some(g.leaseId))];
      a := Made(View(), Entry(i, g.leaseId, g.requestPath, true, false, g.hash.request));
    }

    /** One thread of a batch: re-entered, claimed, or passed over. */
    method VisitThread(i: string, quota: nat, entries: seq<Entry>, c: Call) returns (p: Progress)
      requires i in items && NothingOverdue(View(), c.now) && OneLive(View())
      modifies this
      ensures p == Visit(Going(old(View()), quota, entries), i, c)
      ensures p.Going? ==> View() == p.state
    {
      var own := FindOwn(i, c.agentId);
      if own.Some? {
        var entry := ReconcileLease(i, own.value, c);
        return Going(View(), quota, entries + [entry]);
      }
      if quota == 0 {
        return Going(View(), quota, entries);
      }
      var attempt := LeaseThread(i, c);
      match attempt
      case Skipped => p := Going(View(), quota, entries);
      case Conflict => p := Failed;
      case Made(_, entry) => p := Going(View(), quota - 1, entries + [entry]);
    }

    method VisitThreads(targets: seq<string>, limit: nat, c: Call) returns (p: Progress)
      requires Secure(View()) && NothingOverdue(View(), c.now) && MintsFresh(View(), c)
      requires NoRepeats(targets) && forall i | i in targets :: i in items
      modifies this
      ensures p == VisitAll(old(View()), limit, targets, c)
      ensures p.Going? ==> View() == p.state
    {
      hide Secure, NothingOverdue, MintsFresh, OneLive, Visit;
      ghost var e := View();
      p := Going(View(), limit, []);
      var k := 0;
      while k < |targets|
        invariant 0 <= k <= |targets| && forall i | i in targets[..k] :: i in e.items
        invariant p.Going? && p.state == View() && VisitAll(e, limit, targets[..k], c) == p
        decreases |targets| - k
      {
        BatchGoesWell(e, limit, targets, c, k);
        NextVisit(e, limit, targets, c, k);
        p := VisitThread(targets[k], p.quota, p.entries, c);
        k := k + 1;
        if p.Failed? {
          FailureLasts(e, limit, targets, c, k);
          return;
        }
      }
      assert targets[..k] == targets;
    }

    /** The whole batch claim; on any failure the session is as it was. */
    method ClaimThreads(order: seq<string>, c: Call) returns (done: Option<seq<Entry>>)
      requires Sound(View()) && Marked(View()) && NoRepeats(order) && MintsFresh(View(), c)
      modifies this
      ensures done.Some? <==> CommitBatch(old(View()), order, c).Some?
      ensures done.Some? ==> (View(), done.value) == CommitBatch(old(View()), order, c).value
      ensures done.None? ==> View() == old(View())
    {
      var before := View();
      BatchStartsWell(before, c);
      hide Secure, NothingOverdue, MintsFresh, OneLive, Sound, Expire, VisitAll, IssueEvents, OwnActive;
      ExpireLeases(c.now);
      ghost var e := View();
      var held := CountOwn(c.agentId);
      var targets := SelectTargets(order, c);
      assert forall i | i in targets :: IsTarget(e, i, c);
      if targets == [] {
        Replace(before);
        return None;
      }
      var p := VisitThreads(targets, Quota(held), c);
      if p.Failed? || p.entries == [] {
        Replace(before);
        return None;
      }
      RecordIssues(p.entries, c.agentId);
      done := Some(p.entries);
    }

    method RecordIssues(entries: seq<Entry>, agentId: string)
      modifies this
      ensures View() == old(View()).(ledger := old(ledger) + IssueEvents(entries, agentId))
    {
      var k := 0;
      while k < |entries|
        invariant 0 <= k <= |entries|
        invariant View() == old(View()).(ledger := old(ledger) + IssueEvents(entries[..k], agentId))
      {
        var e := entries[k];
        NextIssue(entries, agentId, k);
        if e.created {
          ledger := ledger + [RequestIssued(e.itemId, e.leaseId, agentId, e.request.requestId, false)];
        }
        k := k + 1;
      }
      assert entries[..k] == entries;
    }

    /** Submit and accept a lease, or say why not. */
    method TakeLease(id: string, agentId: string, itemId: string, hash: Hash, now: int) returns (why: Option<Reason>)
      modifies this
      ensures (View(), why) == Take(old(View()), id, agentId, itemId, hash, now)
    {
      if id !in leases {
        return Some(LeaseNotFound);
      }
      why := SubmitRefusal(leases[id], agentId, leases[id].role, itemId, hash, now);
      if why == Some(ExpiredLease) {
        ExpireLease(id);
      } else if why.None? {
        TakeAccepts(View(), id, agentId, itemId, hash, now);
        leases := leases[id := leases[id].(status := Submitted)];
        leases := leases[id := leases[id].(status := Accepted)];
      }
    }

    method FindRebound(r: Response, i: string, current: string) returns (found: Option<string>)
      requires OneLive(View())
      ensures found == Rebound(View(), r, i, current)
    {
      var rest := leases.Keys;
      while rest != {}
        invariant rest <= leases.Keys
        invariant forall id | id in leases && id !in rest :: !IsRebound(View(), r, i, current, id)
        decreases rest
      {
        var id :| id in rest;
        if IsRebound(View(), r, i, current, id) {
          ReboundIsUnique(View(), r, i, current, id);
          return Some(id);
        }
        rest := rest - {id};
      }
      found := None;
    }

    method PrepareResponse(r: Response, files: map<string, File>, judge: Judge) returns (p: Wrappers.Result<Prepared, Reason>)
      requires OneLive(View())
      ensures p == Prepare(View(), r, files, judge)
    {
      if r.leaseId == "" {
        return Err(MissingField("lease_id"));
      }
      if r.leaseId !in leases {
        var rebound := FindRebound(r, r.itemId, r.leaseId);
        if rebound.None? {
          return Err(LeaseNotFound);
        }
        var refusal := Validate(r, items[r.itemId], judge);
        if refusal.Some? {
          return Err(refusal.value);
        }
        return Ok(Prepared(rebound.value, r.itemId, leases[rebound.value].hash));
      }
      var lease := leases[r.leaseId];
      if r.itemId != "" && r.itemId != lease.itemId {
        return Err(ItemIdMismatch);
      }
      if lease.itemId !in items {
        return Err(ItemNotFound);
      }
      var refusal := Validate(r, items[lease.itemId], judge);
      if refusal.Some? {
        return Err(refusal.value);
      }
      var hash := ExpectedHash(r, lease, files);
      if hash.Err? {
        return Err(hash.error);
      }
      p := Ok(Prepared(r.leaseId, lease.itemId, hash.value));
    }

    /** Write the answer of a lease that was taken. */
    method ConcludeAnswer(r: Response, id: string, itemId: string, now: int) returns (o: Outcome)
      requires id in leases && itemId in items && r.choice.Known?
      modifies this
      ensures o == Conclude(old(View()), r, id, itemId, now) && View() == o.state
    {
      var lease := leases[id];
      if lease.role == Verifier && r.choice == Known(Reject) {
        items := items[itemId := items[itemId].(phase := Open, blocking := true, rejectionNote := Some(r.note))];
        ledger := ledger + [VerificationRejected(itemId, id, r.agentId, r.note)];
        return VerifierRejected(View(), id);
      }
      items := items[itemId := ApplyAnswer(items[itemId], AnswerOf(r), now)];
      ledger := ledger + [ResponseAccepted(itemId, id, r.agentId, lease.role, SnapshotOf(AnswerOf(r)))];
      o := Answered(View(), id);
    }

    /** Take the prepared lease, or the one that replaced it, and apply the response. */
    method AcceptResponse(r: Response, p: Prepared, now: int) returns (o: Outcome)
      requires OneLive(View()) && p.itemId in items && r.choice.Known?
      modifies this
      ensures o == AcceptSubmission(old(View()), r, p, now)
      ensures !o.Aborted? ==> View() == o.state
    {
      ghost var s := View();
      var why := TakeLease(p.leaseId, r.agentId, p.itemId, p.hash, now);
      if why.None? {
        o := ConcludeAnswer(r, p.leaseId, p.itemId, now);
        return;
      }
      var rebound := None;
      if why.value in {StaleLease, LeaseNotFound} {
        assert View() == s;
        rebound := FindRebound(r, p.itemId, p.leaseId);
      }
      if rebound.None? {
        ledger := ledger + [ResponseRejected(p.itemId, r.agentId, why.value)];
        return Refused(View(), why.value);
      }
      var whyNot := TakeLease(rebound.value, r.agentId, p.itemId, leases[rebound.value].hash, now);
      if whyNot.Some? {
        return Aborted;
      }
      o := ConcludeAnswer(r, rebound.value, p.itemId, now);
    }

    /** Check one row of a batch against the rows that passed before it. */
    method CheckResponse(rows: seq<Row>, seenLeases: set<string>, seenItems: set<string>, r: Response, c: Context)
      returns (checked: Checked)
      requires OneLive(View()) && seenLeases == LeaseNames(rows) && seenItems == ItemIds(rows)
      ensures checked == CheckRow(View(), rows, r, c)
    {
      if r.leaseId in seenLeases {
        return Stopped(rows, r, ItemOfRejection(View(), r, BatchDuplicateLease), BatchDuplicateLease);
      }
      var prepared := PrepareResponse(r, c.files, c.judge);
      if prepared.Err? {
        return Stopped(rows, r, ItemOfRejection(View(), r, prepared.error), prepared.error);
      }
      PreparedIsConsistent(View(), r, c.files, c.judge);
      var p := prepared.value;
      if p.itemId in seenItems {
        return Stopped(rows, r, p.itemId, BatchDuplicateItem);
      }
      if !items[p.itemId].thread {
        return Stopped(rows, r, p.itemId, BatchUnsupportedItemKind);
      }
      if leases[p.leaseId].role != Fixer {
        return Stopped(rows, r, p.itemId, BatchUnsupportedRole);
      }
      if r.choice != Known(Fix) {
        return Stopped(rows, r, p.itemId, BatchUnsupportedResolution);
      }
      var contract := c.contract(r);
      if contract.Some? {
        return Stopped(rows, r, p.itemId, contract.value);
      }
      var refusal := LeaseRefusal(r, leases[p.leaseId], p, c.now);
      if refusal.Some? {
        return Stopped(rows, r, p.itemId, refusal.value);
      }
      checked := Passed(rows + [Row(r, p)]);
    }

    method CheckResponses(rs: seq<Response>, c: Context) returns (checked: Checked)
      requires OneLive(View())
      ensures checked == CheckRows(View(), rs, c)
    {
      var seenLeases: set<string>, seenItems: set<string> := {}, {};
      var rows := [];
      var k := 0;
      while k < |rs|
        invariant 0 <= k <= |rs|
        invariant CheckRows(View(), rs[..k], c) == Passed(rows)
        invariant seenLeases == LeaseNames(rows) && seenItems == ItemIds(rows)
        decreases |rs| - k
      {
        NextCheck(View(), rs, c, k);
        checked := CheckResponse(rows, seenLeases, seenItems, rs[k], c);
        if checked.Stopped? {
          StopLasts(View(), rs, c, k + 1);
          return;
        }
        CheckedRowIsReady(View(), rows, rs[k], c);
        var row := checked.rows[|rows|];
        assert forall x :: x in rows + [row] <==> x in rows || x == row;
        seenLeases := seenLeases + {row.response.leaseId};
        seenItems := seenItems + {row.prepared.itemId};
        rows := checked.rows;
        k := k + 1;
      }
      assert rs[..k] == rs;
      checked := Passed(rows);
    }

    /** Release a lease whose request cannot be recovered. */
    method ReleaseLost(id: string, itemId: string)
      requires itemId in items
      modifies this
      ensures View() == ReleaseIrrecoverable(old(View()), id, itemId)
    {
      if id in leases && leases[id].Live() {
        leases := leases[id := leases[id].(status := Released)];
      }
      var item := items[itemId];
      if item.activeLease.None? || item.activeLease == Some(id) {
        items := items[itemId := Unmarked(ToClaimable(item))];
      }
    }

    method ReleaseLostRows(rows: seq<Row>)
      requires forall row | row in rows :: row.prepared.itemId in items
      modifies this
      ensures View() == ReleaseRows(old(View()), rows)
    {
      ghost var s := View();
      var k := 0;
      while k < |rows|
        invariant 0 <= k <= |rows| && forall row | row in rows[..k] :: row.prepared.itemId in s.items
        invariant View() == ReleaseRows(s, rows[..k])
      {
        NextRelease(s, rows, k);
        assert rows[k] in rows;
        ReleaseLost(rows[k].prepared.leaseId, rows[k].prepared.itemId);
        k := k + 1;
      }
      assert rows[..k] == rows;
    }

    method AcceptResponses(rows: seq<Row>, now: int)
      requires OneLive(View()) && Ready(View(), rows, now)
      modifies this
      ensures AcceptRows(old(View()), rows, now) == Some(View())
    {
      hide Ready, OneLive, AcceptRow;
      ghost var s := View();
      var k := 0;
      while k < |rows|
        invariant 0 <= k <= |rows|
        invariant AcceptRows(s, rows[..k], now) == Some(View())
      {
        NextAcceptance(s, rows, now, k);
        AcceptedRowShape(View(), rows[k], now);
        var o := AcceptResponse(rows[k].response, rows[k].prepared, now);
        k := k + 1;
      }
      assert rows[..k] == rows;
    }

    method BindRows(rows: seq<Row>, c: Context) returns (k: nat, bound: seq<Row>)
      ensures k == FirstUnbound(rows, c)
      ensures k == |rows| ==> bound == Bound(rows, c)
    {
      k, bound := 0, [];
      while k < |rows|
        invariant 0 <= k <= |rows| && |bound| == k
        invariant forall j | 0 <= j < k :: c.revision(rows[j]).None? && bound[j] == BoundRow(rows[j], c)
      {
        if c.revision(rows[k]).Some? {
          FirstUnboundIsFirst(rows, c, k);
          return;
        }
        bound := bound + [BoundRow(rows[k], c)];
        k := k + 1;
      }
      FirstUnboundIsFirst(rows, c, k);
    }

    /** Record why a row was refused, and release every prepared row when its context cannot be recovered. */
    method RejectResponses(rows: seq<Row>, itemId: string, agentId: string, reason: Reason)
      requires forall row | row in rows :: row.prepared.itemId in items
      modifies this
      ensures View() == RejectRows(old(View()), rows, itemId, agentId, reason)
    {
      ledger := ledger + [ResponseRejected(itemId, agentId, reason)];
      if IsIrrecoverable(reason) {
        ReleaseLostRows(rows);
      }
    }

    /** The same when row `k` is refused for its binding: its own lease goes first. */
    method RejectUnbound(rows: seq<Row>, k: nat, reason: Reason)
      requires k < |rows| && forall row | row in rows :: row.prepared.itemId in items
      modifies this
      ensures View() == RejectBinding(old(View()), rows, k, reason)
    {
      var row := rows[k];
      assert row in rows;
      ledger := ledger + [ResponseRejected(row.prepared.itemId, row.response.agentId, reason)];
      if IsIrrecoverable(reason) {
        ReleaseLost(row.prepared.leaseId, row.prepared.itemId);
        ReleaseLostRows(rows);
      }
    }

    /** Submit a batch: check every row, then bind every row, then accept every row. */
    method SubmitResponses(rs: seq<Response>, c: Context) returns (result: BatchSubmit.Result)
      requires OneLive(View())
      modifies this
      ensures result == SubmitBatch(old(View()), rs, c)
      ensures !result.Unexpected? && View() == result.state
    {
      ghost var s := View();
      if !IsWellFormed(rs) {
        return Malformed(View());
      }
      var checked := CheckResponses(rs, c);
      CheckedRowsAreReady(s, rs, c);
      ReadyItemsExist(s, checked.rows, c.now);
      hide Ready, AcceptRows, CheckRows, OneLive, IsWellFormed, RejectRows, RejectBinding;
      if checked.Stopped? {
        RejectResponses(checked.rows, checked.itemId, Signer(checked.response), checked.reason);
        return RejectedAll(View(), checked.reason);
      }
      var rows := checked.rows;
      var k, bound := BindRows(rows, c);
      if k < |rows| {
        var reason := c.revision(rows[k]).value;
        RejectUnbound(rows, k, reason);
        return RejectedAll(View(), reason);
      }
      BoundKeepsRows(s, rows, c);
      AcceptResponses(bound, c.now);
      result := AcceptedAll(View());
    }

    /** Take back the leases a batch created. */
    method Compensate(entries: seq<Entry>)
      modifies this
      ensures View() == Undo(old(View()), entries)
    {
      var had := leases;
      var k := 0;
      while k < |entries|
        invariant 0 <= k <= |entries|
        invariant View() == Undo(old(View()), entries[..k])
      {
        var e := entries[k];
        assert entries[..k + 1][..k] == entries[..k];
        if e.created && e.itemId in items && e.leaseId in had {
          leases := leases - {e.leaseId};
          items := items[e.itemId := Reopened(items[e.itemId])];
        }
        k := k + 1;
      }
      assert entries[..k] == entries;
    }
  }

  lemma BatchStartsWell(s: State, c: Call)
    requires Sound(s) && MintsFresh(s, c)
    ensures var e := Expire(s, c.now); Secure(e) && OneLive(e) && NothingOverdue(e, c.now) && MintsFresh(e, c)
  {
    ExpiryIsCalm(s, c.now);
    StillFresh(s, c);
    ExpireLeavesNothingOverdue(s, c.now);
    hide Expire, NothingOverdue, MintsFresh, Calm;
    CalmKeepsSecure(s, Expire(s, c.now));
    PeacefulHoldsOne(Expire(s, c.now));
  }

  lemma BatchGoesWell(e: State, limit: nat, targets: seq<string>, c: Call, k: nat)
    requires Secure(e) && NothingOverdue(e, c.now) && MintsFresh(e, c) && k <= |targets|
    requires NoRepeats(targets) && forall i | i in targets :: i in e.items
    ensures var p := VisitAll(e, limit, targets[..k], c);
            p.Going? ==> OneLive(p.state) && NothingOverdue(p.state, c.now) && p.state.items.Keys == e.items.Keys
  {
    hide Secure, NothingOverdue, MintsFresh, Visit;
    BatchKeeps(e, limit, targets[..k], c);
    VisitsKeepSecure(e, limit, targets[..k], c);
    var p := VisitAll(e, limit, targets[..k], c);
    if p.Going? {
      SecureHoldsOne(p.state);
    }
  }

  lemma SecureHoldsOne(s: State)
    requires Secure(s)
    ensures OneLive(s)
  {
    PeacefulHoldsOne(s);
  }
}
