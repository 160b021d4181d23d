/** Exactly which batches pass their checks, and what a refused response leaves behind. */
module BatchChecks {
  import opened Wrappers
  import opened Protocol
  import opened Leases
  import opened Submission
  import opened BatchSubmit
  import opened ProtocolRuns
  import opened AnswerEffects

  /** Row `k` is a takeable fix of a review thread, and no row before it names its lease or answers its item. */
  ghost predicate RowPasses(s: State, rs: seq<Response>, k: nat, c: Context)
    requires k < |rs|
  {
    var prepared := Prepare(s, rs[k], c.files, c.judge);
    && prepared.Ok?
    && var p := prepared.value;
       && p.itemId in s.items && s.items[p.itemId].thread
       && IsTakeable(s, p.leaseId, rs[k].agentId, p.itemId, p.hash, c.now) && s.leases[p.leaseId].role == Fixer
       && rs[k].choice == Known(Fix) && c.contract(rs[k]).None?
       && forall j | 0 <= j < k :: && rs[j].leaseId != rs[k].leaseId && !Answers(s, rs[j], c, p.itemId)
  }

  ghost predicate Answers(s: State, r: Response, c: Context, i: string) {
    var prepared := Prepare(s, r, c.files, c.judge);
    prepared.Ok? && prepared.value.itemId == i
  }

  /** The rows are the first responses, as prepared. */
  ghost predicate AreFirst(s: State, rs: seq<Response>, c: Context, rows: seq<Row>) {
    && |rows| <= |rs|
    && forall k | 0 <= k < |rows| :: rows[k].response == rs[k] && Prepare(s, rs[k], c.files, c.judge) == Ok(rows[k].prepared)
  }

  lemma FirstRowsNames(s: State, rs: seq<Response>, c: Context, rows: seq<Row>)
    requires AreFirst(s, rs, c, rows)
    ensures forall name :: name in LeaseNames(rows) <==> exists j | 0 <= j < |rows| :: rs[j].leaseId == name
    ensures forall i :: i in ItemIds(rows) <==> exists j | 0 <= j < |rows| :: Answers(s, rs[j], c, i)
  {
    hide Prepare;
    assert forall j | 0 <= j < |rows| :: rows[j] in rows;
    forall i ensures i in ItemIds(rows) <==> exists j | 0 <= j < |rows| :: Answers(s, rs[j], c, i) {
      if j :| 0 <= j < |rows| && Answers(s, rs[j], c, i) {
        assert rows[j] in rows;
      }
      if i in ItemIds(rows) {
        var j :| 0 <= j < |rows| && rows[j].prepared.itemId == i;
        assert Answers(s, rs[j], c, i);
      }
    }
    forall name | name in LeaseNames(rows) ensures exists j | 0 <= j < |rows| :: rs[j].leaseId == name {
      var j :| 0 <= j < |rows| && rows[j].response.leaseId == name;
      assert rs[j].leaseId == name;
    }
  }

  lemma TakeableAgrees(s: State, r: Response, p: Prepared, now: int)
    requires p.leaseId in s.leases
    ensures LeaseRefusal(r, s.leases[p.leaseId], p, now).None? <==> IsTakeable(s, p.leaseId, r.agentId, p.itemId, p.hash, now)
  {
  }

  lemma NextRowPasses(s: State, rs: seq<Response>, c: Context, rows: seq<Row>)
    requires AreFirst(s, rs, c, rows) && |rows| < |rs|
    ensures var k := |rows|;
            var checked := CheckRow(s, rows, rs[k], c);
            if RowPasses(s, rs, k, c) then checked == Passed(rows + [Row(rs[k], Prepare(s, rs[k], c.files, c.judge).value)])
            else checked.Stopped? && checked.rows == rows && checked.response == rs[k]
  {
    FirstRowsNames(s, rs, c, rows);
    var prepared := Prepare(s, rs[|rows|], c.files, c.judge);
    if prepared.Ok? {
      PreparedIsConsistent(s, rs[|rows|], c.files, c.judge);
      TakeableAgrees(s, rs[|rows|], prepared.value, c.now);
    }
    hide Prepare, LeaseNames, ItemIds, Answers, IsTakeable, LeaseRefusal;
  }

  /** A batch passes exactly when every row does; otherwise it stops at the first row that does not. */
  lemma {:induction false} BatchStopsAtFirstFailure(s: State, rs: seq<Response>, c: Context)
    ensures var checked := CheckRows(s, rs, c);
            && AreFirst(s, rs, c, checked.rows)
            && (forall k | 0 <= k < |checked.rows| :: RowPasses(s, rs, k, c))
            && (checked.Passed? <==> |checked.rows| == |rs|)
            && (checked.Stopped? ==>
                  && |checked.rows| < |rs| && checked.response == rs[|checked.rows|]
                  && !RowPasses(s, rs, |checked.rows|, c))
  {
    hide CheckRow, RowPasses, Prepare;
    if rs != [] {
      var n := |rs| - 1;
      BatchStopsAtFirstFailure(s, rs[..n], c);
      var before := CheckRows(s, rs[..n], c);
      forall k | 0 <= k < |before.rows| || (before.Stopped? && k == |before.rows|)
        ensures k < n && RowPasses(s, rs, k, c) == RowPasses(s, rs[..n], k, c)
      {
        EarlierRowsDecide(s, rs, n, k, c);
      }
      assert AreFirst(s, rs, c, before.rows);
      if before.Passed? {
        NextRowPasses(s, rs, c, before.rows);
        if RowPasses(s, rs, n, c) {
          PassedRowIsOk(s, rs, n, c);
          assert AreFirst(s, rs, c, CheckRows(s, rs, c).rows);
        }
      }
    }
  }

  lemma PassedRowIsOk(s: State, rs: seq<Response>, k: nat, c: Context)
    requires k < |rs| && RowPasses(s, rs, k, c)
    ensures Prepare(s, rs[k], c.files, c.judge).Ok?
  {
  }

  lemma EarlierRowsDecide(s: State, rs: seq<Response>, n: nat, k: nat, c: Context)
    requires k < n <= |rs|
    ensures RowPasses(s, rs, k, c) == RowPasses(s, rs[..n], k, c)
  {
    hide Prepare, IsTakeable, Answers;
  }

  // --------------------------------------------------------------- refusals

  /**
    A response that cannot be prepared, or whose revision or commit is refused, is recorded as
    rejected; only an irrecoverable request releases its lease, and no item is answered.
  */
  lemma RefusedSingleShows(s: State, r: Response, files: map<string, File>, judge: Judge, verdict: Option<Reason>, now: int)
    requires r.leaseId != ""
    ensures var prepared := Prepare(s, r, files, judge);
            var done := Effect(s, DoSubmit(r, files, judge, verdict, now));
            && (prepared.Err? ==>
                  && done.Some? && done.value.items == s.items && done.value.leases == s.leases
                  && |done.value.ledger| == |s.ledger| + 1 && s.ledger <= done.value.ledger
                  && done.value.ledger[|s.ledger|].ResponseRejected?
                  && done.value.ledger[|s.ledger|].reason == prepared.error
                  && done.value.ledger[|s.ledger|].itemId == (if r.leaseId in s.leases then s.leases[r.leaseId].itemId
                                                              else if prepared.error in {LeaseNotFound, BatchDuplicateLease} then "" else r.itemId)
                  && done.value.ledger[|s.ledger|].agentId == (if r.agentId == "" then "unknown" else r.agentId))
            && (prepared.Ok? && verdict.Some? ==>
                  && done.Some?
                  && done.value.ledger == s.ledger + [ResponseRejected(prepared.value.itemId, r.agentId, verdict.value)]
                  && done.value.leases
                  == (if verdict.value in {StaleRequestContext, StackActionContextMismatch}
                         && prepared.value.leaseId in s.leases
                         && s.leases[prepared.value.leaseId].status in {Active, Submitted}
                      then s.leases[prepared.value.leaseId := s.leases[prepared.value.leaseId].(status := Released)]
                      else s.leases))
  {
    if Prepare(s, r, files, judge).Ok? {
      PreparedIsConsistent(s, r, files, judge);
    }
    hide Prepare;
  }

  /** A response to another request than the one on disk is stale; a request that cannot be read says so. */
  lemma ContextRefusals(r: Response, l: Lease, files: map<string, File>)
    ensures var (hash, file) := (ExpectedHash(r, l, files), if l.requestPath in files then files[l.requestPath] else Missing);
            match file
            case Missing => hash == Err(RequestContextNotFound)
            case Superseded => hash == Err(RequestProtocolSuperseded)
            case Invalid => hash == Err(InvalidRequestContext)
            case Stored(request) =>
              hash == if request.requestId == r.requestId then Ok(HashOf(request)) else Err(StaleRequestContext)
  {
  }

  /** A response that names a lease that is gone is not found unless another lease replaced it. */
  lemma GoneLeaseIsNotFound(s: State, r: Response, files: map<string, File>, judge: Judge)
    requires r.leaseId != "" && r.leaseId !in s.leases && forall id :: !Replaces(s, r, r.itemId, r.leaseId, id)
    ensures Prepare(s, r, files, judge) == Err(LeaseNotFound)
  {
    ReboundIsReplacement(s, r, r.itemId, r.leaseId);
  }

  // ------------------------------------------------------------ whole batches

  /** A batch is malformed exactly when it is empty or a row lacks an id, an agent or a note; then nothing happens. */
  lemma MalformedExactly(s: State, rs: seq<Response>, c: Context)
    ensures SubmitBatch(s, rs, c).Malformed? <==>
              |rs| == 0 || exists k | 0 <= k < |rs| ::
                rs[k].requestId == "" || rs[k].leaseId == "" || rs[k].agentId == "" || !Truthy(rs[k].note)
    ensures SubmitBatch(s, rs, c).Malformed? ==> SubmitBatch(s, rs, c).state == s
  {
    hide CheckRows, AcceptRows, RejectRows, RejectBinding;
    CheckedRowsAreReady(s, rs, c);
    ReadyItemsExist(s, CheckRows(s, rs, c).rows, c.now);
    if !IsWellFormed(rs) && |rs| > 0 {
      var r :| r in rs && !(r.requestId != "" && r.leaseId != "" && r.agentId != "" && Truthy(r.note));
      var k :| 0 <= k < |rs| && rs[k] == r;
    }
  }

  /** Every row of an accepted batch is held for publishing on its thread, with the binding recorded for it. */
  lemma AcceptedBatchShows(s: State, rs: seq<Response>, c: Context, k: nat)
    requires SubmitBatch(s, rs, c).AcceptedAll? && k < |rs|
    ensures var rows := CheckRows(s, rs, c).rows;
            && k < |rows| && rows[k].response == rs[k]
            && var (i, t) := (rows[k].prepared.itemId, SubmitBatch(s, rs, c).state);
               && i in s.items && i in t.items
               && HoldsForPublishing(s.items[i],
                                     if c.binding(rows[k]).Some? then rs[k].(binding := c.binding(rows[k])) else rs[k],
                                     Fix, t.items[i])
  {
    AcceptedBatchCarries(s, rs, c);
    hide SubmitBatch, CheckRows, Ready, Carries, HoldsForPublishing;
    CarriedRowShows(s, CheckRows(s, rs, c).rows, k, c, SubmitBatch(s, rs, c).state.items);
  }

  lemma AcceptedBatchCarries(s: State, rs: seq<Response>, c: Context)
    requires SubmitBatch(s, rs, c).AcceptedAll?
    ensures var rows := CheckRows(s, rs, c).rows;
            && |rows| == |rs| && (forall k | 0 <= k < |rs| :: rows[k].response == rs[k])
            && Ready(s, rows, c.now) && Carries(s.items, Bound(rows, c), c.now, SubmitBatch(s, rs, c).state.items)
  {
    var rows := CheckRows(s, rs, c).rows;
    CheckedRowsAreReady(s, rs, c);
    hide CheckRows, Ready, AcceptRows, AcceptedLeases, RowEvents, LeaseIds, Carries, IsWellFormed, RejectRows, RejectBinding;
    BoundKeepsRows(s, rows, c);
    ReadyRowsAreAllAccepted(s, Bound(rows, c), c.now);
  }

  lemma CarriedRowShows(s: State, rows: seq<Row>, k: nat, c: Context, items: map<string, Item>)
    requires Ready(s, rows, c.now) && k < |rows| && Carries(s.items, Bound(rows, c), c.now, items)
    ensures var i := rows[k].prepared.itemId;
            && i in s.items && i in items
            && HoldsForPublishing(s.items[i],
                                  if c.binding(rows[k]).Some? then rows[k].response.(binding := c.binding(rows[k])) else rows[k].response,
                                  Fix, items[i])
  {
    ReadyRow(s, rows, c.now, k);
    BoundRowShows(s, rows[k], c);
    var bound := Bound(rows, c);
    assert bound[k] in bound && bound[k] == BoundRow(rows[k], c);
    hide BoundRow, HoldsForPublishing, ApplyAnswer, Ready;
    assert IsReady(s, rows[k], c.now);
  }

  lemma ReadyRow(s: State, rows: seq<Row>, now: int, k: nat)
    requires Ready(s, rows, now) && k < |rows|
    ensures IsReady(s, rows[k], now)
  {
  }

  lemma BoundRowShows(s: State, row: Row, c: Context)
    requires IsReady(s, row, c.now)
    ensures var (i, bound) := (row.prepared.itemId, BoundRow(row, c));
            && bound.prepared == row.prepared
            && HoldsForPublishing(s.items[i],
                                  if c.binding(row).Some? then row.response.(binding := c.binding(row)) else row.response,
                                  Fix, ApplyAnswer(s.items[i], RowAnswer(bound), c.now))
  {
  }

  /**
    When a row's revision or commit is refused, an irrecoverable request releases the live leases of
    all rows, that row's included; any other reason releases nothing.
  */
  lemma UnboundBatchReleases(s: State, rows: seq<Row>, k: nat, reason: Reason)
    requires k < |rows| && forall row | row in rows :: row.prepared.itemId in s.items
    ensures RejectBinding(s, rows, k, reason).leases
         == if reason in {StaleRequestContext, StackActionContextMismatch} then ReleasedLeases(s.leases, LeaseIds(rows)) else s.leases
  {
    assert rows[k] in rows;
    var p := rows[k].prepared;
    var noted := Record(s, p.itemId, rows[k].response.agentId, reason);
    var first := ReleaseIrrecoverable(noted, p.leaseId, p.itemId);
    FirstRelease(noted, p.leaseId, p.itemId);
    ReleaseRowsIsExact(first, rows);
    assert p.leaseId in LeaseIds(rows);
    ReleasedTwice(s.leases, p.leaseId, LeaseIds(rows));
    hide ReleaseIrrecoverable, LeaseIds, ReleasedLeases, ReleaseRows;
  }

  lemma FirstRelease(s: State, id: string, i: string)
    requires i in s.items
    ensures ReleaseIrrecoverable(s, id, i).leases == ReleasedLeases(s.leases, {id})
    ensures ReleaseIrrecoverable(s, id, i).items.Keys == s.items.Keys
  {
    ReleaseTouchesOne(s, id, i);
    hide ReleaseIrrecoverable;
  }

  lemma ReleasedTwice(leases: map<string, Lease>, id: string, ids: set<string>)
    requires id in ids
    ensures ReleasedLeases(ReleasedLeases(leases, {id}), ids) == ReleasedLeases(leases, ids)
  {
  }

  /** Every refusal of a row says what is wrong with its lease. */
  lemma RowRefusalsMeanWhatTheySay(r: Response, l: Lease, p: Prepared, now: int)
    ensures var why := LeaseRefusal(r, l, p, now);
            && (why == Some(DuplicateSubmission) <==> l.status == Submitted)
            && (why == Some(StaleLease) <==> l.status !in {Active, Submitted})
            && (why == Some(ExpiredLease) <==> l.status == Active && l.expiresAt <= now)
            && (why == Some(WrongAgent) <==> l.status == Active && l.expiresAt > now && l.agentId != r.agentId)
            && (why == Some(WrongItem) <==>
                  l.status == Active && l.expiresAt > now && l.agentId == r.agentId && l.itemId != p.itemId)
            && (why == Some(StaleRequestContext) <==>
                  l.status == Active && l.expiresAt > now && l.agentId == r.agentId && l.itemId == p.itemId && l.hash != p.hash)
  {
  }

  /** Reclaiming records one expiry for each lease it visits, in order, naming its item. */
  lemma {:induction false} ReclaimRecords(s: State, now: int, order: seq<string>)
    requires forall id | id in order :: id in s.leases
    ensures Effect(s, DoReclaim(now, order)).Some?
    ensures var t := Effect(s, DoReclaim(now, order)).value;
            && t.items == Expire(s, now).items && t.leases == Expire(s, now).leases
            && |t.ledger| == |s.ledger| + |order| && s.ledger <= t.ledger
            && forall k | 0 <= k < |order| :: t.ledger[|s.ledger| + k] == LeaseExpired(s.leases[order[k]].itemId, order[k])
  {
    ExpiryEventsFollow(s, order);
    hide Expire;
  }

  lemma {:induction false} ExpiryEventsFollow(s: State, order: seq<string>)
    requires forall id | id in order :: id in s.leases
    ensures |ExpiryEvents(s, order)| == |order|
    ensures forall k | 0 <= k < |order| :: ExpiryEvents(s, order)[k] == LeaseExpired(s.leases[order[k]].itemId, order[k])
  {
    if order != [] {
      ExpiryEventsFollow(s, order[..|order| - 1]);
    }
  }
}
