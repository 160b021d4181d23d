/** Exactly which batches are accepted, and for what a refused batch is recorded. */
module BatchVerdicts {
  import opened Wrappers
  import opened Protocol
  import opened Leases
  import opened Submission
  import opened BatchSubmit
  import opened AnswerEffects
  import opened BatchChecks

  /** The row has its ids, its agent and a note. */
  predicate IsFilled(r: Response) {
    r.requestId != "" && r.leaseId != "" && r.agentId != "" && Truthy(r.note)
  }

  /** Why the revision or the commit of a prepared response is refused, if it is. */
  ghost function RevisionOf(s: State, r: Response, c: Context): Option<Reason> {
    var prepared := Prepare(s, r, c.files, c.judge);
    if prepared.Err? then None else c.revision(Row(r, prepared.value))
  }

  lemma FirstRowsBind(s: State, rs: seq<Response>, c: Context, rows: seq<Row>, k: nat)
    requires AreFirst(s, rs, c, rows) && k < |rows|
    ensures RevisionOf(s, rs[k], c) == c.revision(rows[k])
  {
    assert rows[k] == Row(rs[k], rows[k].prepared);
  }

  /** The branches of a batch transaction. */
  lemma BatchBranches(s: State, rs: seq<Response>, c: Context)
    ensures var (result, checked) := (SubmitBatch(s, rs, c), CheckRows(s, rs, c));
            && (IsWellFormed(rs) && checked.Stopped? ==>
                  && result.RejectedAll? && result.reason == checked.reason
                  && result.state.ledger == s.ledger + [ResponseRejected(checked.itemId, Signer(checked.response), checked.reason)])
            && (IsWellFormed(rs) && checked.Passed? ==>
                  var k := FirstUnbound(checked.rows, c);
                  if k < |checked.rows| then
                    && result.RejectedAll? && c.revision(checked.rows[k]) == Some(result.reason)
                    && result.state.ledger == s.ledger + [ResponseRejected(checked.rows[k].prepared.itemId,
                                                                           checked.rows[k].response.agentId, result.reason)]
                  else result.AcceptedAll?)
            && (result.Malformed? <==> !IsWellFormed(rs))
  {
    var checked := CheckRows(s, rs, c);
    CheckedRowsAreReady(s, rs, c);
    ReadyItemsExist(s, checked.rows, c.now);
    BatchIsAllOrNothing(s, rs, c);
    var k := FirstUnbound(checked.rows, c);
    hide CheckRows, AcceptRows, IsWellFormed, ReleaseRows, AcceptsAll, OnlyRejects, Ready, IsIrrecoverable;
    if checked.Passed? && k < |checked.rows| {
      UnboundLedger(s, checked.rows, k, c.revision(checked.rows[k]).value);
    }
  }

  lemma UnboundLedger(s: State, rows: seq<Row>, k: nat, reason: Reason)
    requires k < |rows| && forall row | row in rows :: row.prepared.itemId in s.items
    ensures RejectBinding(s, rows, k, reason).ledger
         == s.ledger + [ResponseRejected(rows[k].prepared.itemId, rows[k].response.agentId, reason)]
  {
    assert rows[k] in rows;
    var noted := Record(s, rows[k].prepared.itemId, rows[k].response.agentId, reason);
    FirstRelease(noted, rows[k].prepared.leaseId, rows[k].prepared.itemId);
    ReleaseTouchesOne(noted, rows[k].prepared.leaseId, rows[k].prepared.itemId);
    hide ReleaseIrrecoverable, ReleaseRows;
  }

  /** A batch is accepted exactly when every row is filled in, passes its checks and keeps its revision. */
  lemma BatchIsAcceptedExactly(s: State, rs: seq<Response>, c: Context)
    ensures SubmitBatch(s, rs, c).AcceptedAll? <==>
              |rs| > 0 && forall k | 0 <= k < |rs| ::
                IsFilled(rs[k]) && RowPasses(s, rs, k, c) && RevisionOf(s, rs[k], c).None?
  {
    var checked := CheckRows(s, rs, c);
    BatchBranches(s, rs, c);
    MalformedExactly(s, rs, c);
    BatchStopsAtFirstFailure(s, rs, c);
    hide SubmitBatch, CheckRows, RowPasses, IsWellFormed, RevisionOf;
    forall k | 0 <= k < |checked.rows| ensures RevisionOf(s, rs[k], c) == c.revision(checked.rows[k]) {
      FirstRowsBind(s, rs, c, checked.rows, k);
    }
  }

  // --------------------------------------------------------------- refusals

  predicate NamesLeaseAgain(rs: seq<Response>, k: nat)
    requires k < |rs|
  {
    exists j | 0 <= j < k :: rs[j].leaseId == rs[k].leaseId
  }

  /** The first fault of row `k`, looking at the rows before it. */
  ghost predicate StopsFor(s: State, rs: seq<Response>, k: nat, c: Context, reason: Reason)
    requires k < |rs|
  {
    var (r, prepared) := (rs[k], Prepare(s, rs[k], c.files, c.judge));
    if NamesLeaseAgain(rs, k) then reason == BatchDuplicateLease
    else if prepared.Err? then reason == prepared.error
    else
      var (i, id) := (prepared.value.itemId, prepared.value.leaseId);
      if exists j | 0 <= j < k :: Answers(s, rs[j], c, i) then reason == BatchDuplicateItem
      else if i !in s.items || !s.items[i].thread then reason == BatchUnsupportedItemKind
      else if id !in s.leases || s.leases[id].role != Fixer then reason == BatchUnsupportedRole
      else if r.choice != Known(Fix) then reason == BatchUnsupportedResolution
      else if c.contract(r).Some? then c.contract(r) == Some(reason)
      else LeaseRefusal(r, s.leases[id], prepared.value, c.now) == Some(reason)
  }

  /** The item recorded for row `k`: its lease's, or else the one it names unless nothing is known of it. */
  ghost predicate RecordsItem(s: State, rs: seq<Response>, k: nat, c: Context, reason: Reason, itemId: string)
    requires k < |rs|
  {
    itemId == if rs[k].leaseId in s.leases then s.leases[rs[k].leaseId].itemId
              else if !NamesLeaseAgain(rs, k) && Prepare(s, rs[k], c.files, c.judge).Ok? then rs[k].itemId
              else if reason in {LeaseNotFound, BatchDuplicateLease} then "" else rs[k].itemId
  }

  lemma StoppedRowSays(s: State, rs: seq<Response>, c: Context, rows: seq<Row>)
    requires AreFirst(s, rs, c, rows) && |rows| < |rs| && CheckRow(s, rows, rs[|rows|], c).Stopped?
    ensures var checked := CheckRow(s, rows, rs[|rows|], c);
            && StopsFor(s, rs, |rows|, c, checked.reason)
            && RecordsItem(s, rs, |rows|, c, checked.reason, checked.itemId)
  {
    FirstRowsNames(s, rs, c, rows);
    var prepared := Prepare(s, rs[|rows|], c.files, c.judge);
    if prepared.Ok? {
      PreparedIsConsistent(s, rs[|rows|], c.files, c.judge);
      PreparedItem(s, rs[|rows|], c);
    }
    hide Prepare, LeaseNames, ItemIds, Answers, LeaseRefusal, IsTakeable;
  }

  lemma PreparedItem(s: State, r: Response, c: Context)
    requires Prepare(s, r, c.files, c.judge).Ok?
    ensures Prepare(s, r, c.files, c.judge).value.itemId
         == if r.leaseId in s.leases then s.leases[r.leaseId].itemId else r.itemId
  {
  }

  /** The row at which a batch stopped stops by itself on the rows before it. */
  lemma {:induction false} StoppedWhere(s: State, rs: seq<Response>, c: Context)
    requires CheckRows(s, rs, c).Stopped?
    ensures var checked := CheckRows(s, rs, c);
            && |checked.rows| < |rs| && AreFirst(s, rs, c, checked.rows)
            && CheckRow(s, checked.rows, rs[|checked.rows|], c) == checked
            && checked.response == rs[|checked.rows|]
  {
    hide CheckRow, RowPasses, Prepare;
    BatchStopsAtFirstFailure(s, rs, c);
    var n := |rs| - 1;
    var before := CheckRows(s, rs[..n], c);
    if before.Stopped? {
      StoppedWhere(s, rs[..n], c);
    } else {
      BatchStopsAtFirstFailure(s, rs[..n], c);
      StoppedKeepsRows(s, before.rows, rs[n], c);
    }
  }

  /**
    A refused batch records one rejection: for the first row that does not pass, with its first
    fault, or, when every row passes, for the first row whose revision is refused.
  */
  ghost predicate IsRefusedAt(s: State, rs: seq<Response>, k: nat, c: Context, result: BatchSubmit.Result)
    requires k < |rs| && result.RejectedAll?
  {
    && (forall j | 0 <= j < k :: RowPasses(s, rs, j, c))
    && exists itemId ::
         && result.state.ledger == s.ledger + [ResponseRejected(itemId, rs[k].agentId, result.reason)]
         && if RowPasses(s, rs, k, c) then
              && (forall j | 0 <= j < |rs| :: RowPasses(s, rs, j, c))
              && (forall j | 0 <= j < k :: RevisionOf(s, rs[j], c).None?)
              && RevisionOf(s, rs[k], c) == Some(result.reason) && Answers(s, rs[k], c, itemId)
            else StopsFor(s, rs, k, c, result.reason) && RecordsItem(s, rs, k, c, result.reason, itemId)
  }

  lemma RefusedBatchShows(s: State, rs: seq<Response>, c: Context)
    requires SubmitBatch(s, rs, c).RejectedAll?
    ensures exists k | 0 <= k < |rs| :: IsRefusedAt(s, rs, k, c, SubmitBatch(s, rs, c))
  {
    var (result, checked) := (SubmitBatch(s, rs, c), CheckRows(s, rs, c));
    BatchBranches(s, rs, c);
    MalformedExactly(s, rs, c);
    BatchStopsAtFirstFailure(s, rs, c);
    hide SubmitBatch, RowPasses, StopsFor, RecordsItem, RevisionOf, IsWellFormed, CheckRows, Prepare;
    if checked.Stopped? {
      var k := |checked.rows|;
      StoppedWhere(s, rs, c);
      StoppedRowSays(s, rs, c, checked.rows);
      assert IsRefusedAt(s, rs, k, c, result);
    } else {
      var k := FirstUnbound(checked.rows, c);
      forall j | 0 <= j < |rs| ensures RevisionOf(s, rs[j], c) == c.revision(checked.rows[j]) {
        FirstRowsBind(s, rs, c, checked.rows, j);
      }
      assert Answers(s, rs[k], c, checked.rows[k].prepared.itemId);
      assert IsRefusedAt(s, rs, k, c, result);
    }
  }
}
