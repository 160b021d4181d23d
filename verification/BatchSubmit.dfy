/** Submitting a batch of responses: every row is checked before any is accepted. */
module BatchSubmit {
  import opened Wrappers
  import opened Protocol
  import opened Leases
  import opened Submission
  import opened Sequences

  datatype Row = Row(response: Response, prepared: Prepared)

  /** What a batch reads besides the session: the clock, the request files and the verdicts. */
  datatype Context = Context(
    now: int,
    files: map<string, File>,
    judge: Judge,
    contract: Response -> Option<Reason>,
    revision: Row -> Option<Reason>,
    binding: Row -> Option<Json>
  )

  datatype Checked = Passed(rows: seq<Row>) | Stopped(rows: seq<Row>, response: Response, itemId: string, reason: Reason)

  function LeaseNames(rows: seq<Row>): set<string> {
    set r | r in rows :: r.response.leaseId
  }

  function ItemIds(rows: seq<Row>): set<string> {
    set r | r in rows :: r.prepared.itemId
  }

  function LeaseIds(rows: seq<Row>): set<string> {
    set r | r in rows :: r.prepared.leaseId
  }

  ghost function CheckRow(s: State, rows: seq<Row>, r: Response, c: Context): Checked {
    if r.leaseId in LeaseNames(rows) then Stopped(rows, r, ItemOfRejection(s, r, BatchDuplicateLease), BatchDuplicateLease)
    else
      var prepared := Prepare(s, r, c.files, c.judge);
      if prepared.Err? then Stopped(rows, r, ItemOfRejection(s, r, prepared.error), prepared.error)
      else
        PreparedIsConsistent(s, r, c.files, c.judge);
        var p := prepared.value;
        var lease := s.leases[p.leaseId];
        if p.itemId in ItemIds(rows) then Stopped(rows, r, p.itemId, BatchDuplicateItem)
        else if !s.items[p.itemId].thread then Stopped(rows, r, p.itemId, BatchUnsupportedItemKind)
        else if lease.role != Fixer then Stopped(rows, r, p.itemId, BatchUnsupportedRole)
        else if r.choice != Known(Fix) then Stopped(rows, r, p.itemId, BatchUnsupportedResolution)
        else if c.contract(r).Some? then Stopped(rows, r, p.itemId, c.contract(r).value)
        else
          var refusal := LeaseRefusal(r, lease, p, c.now);
          if refusal.Some? then Stopped(rows, r, p.itemId, refusal.value)
          else Passed(rows + [Row(r, p)])
  }

  ghost function CheckRows(s: State, rs: seq<Response>, c: Context): Checked {
    if rs == [] then Passed([])
    else
      var before := CheckRows(s, rs[..|rs| - 1], c);
      if before.Stopped? then before else CheckRow(s, before.rows, rs[|rs| - 1], c)
  }

  /** The first row whose revision binding or cited commit is refused. */
  function FirstUnbound(rows: seq<Row>, c: Context): (k: nat)
    ensures k <= |rows|
    ensures k < |rows| ==> c.revision(rows[k]).Some?
    ensures forall j | 0 <= j < k :: c.revision(rows[j]).None?
  {
    if rows == [] then 0
    else
      var k := FirstUnbound(rows[..|rows| - 1], c);
      if k < |rows| - 1 || c.revision(rows[|rows| - 1]).Some? then k else |rows|
  }

  function Bound(rows: seq<Row>, c: Context): (r: seq<Row>)
    ensures |r| == |rows|
    ensures forall k | 0 <= k < |rows| :: r[k] == BoundRow(rows[k], c)
  {
    if rows == [] then []
    else Bound(rows[..|rows| - 1], c) + [BoundRow(rows[|rows| - 1], c)]
  }

  function BoundRow(row: Row, c: Context): Row {
    if c.binding(row).Some? then row.(response := row.response.(binding := c.binding(row))) else row
  }

  /** Accept the rows one by one; `None` when one of them does not close its lease. */
  ghost function AcceptRows(s: State, rows: seq<Row>, now: int): Option<State> {
    if rows == [] then Some(s)
    else
      var before := AcceptRows(s, rows[..|rows| - 1], now);
      if before.None? then None else AcceptRow(before.value, rows[|rows| - 1], now)
  }

  ghost function AcceptRow(s: State, row: Row, now: int): Option<State> {
    if row.prepared.itemId !in s.items || !row.response.choice.Known? then None
    else
      var o := AcceptSubmission(s, row.response, row.prepared, now);
      if o.Answered? then Some(o.state) else None
  }

  function ReleaseRows(s: State, rows: seq<Row>): (t: State)
    requires forall row | row in rows :: row.prepared.itemId in s.items
    ensures t.items.Keys == s.items.Keys && t.leases.Keys == s.leases.Keys && t.ledger == s.ledger
  {
    if rows == [] then s
    else
      var row := rows[|rows| - 1];
      ReleaseIrrecoverable(ReleaseRows(s, rows[..|rows| - 1]), row.prepared.leaseId, row.prepared.itemId)
  }

  predicate IsIrrecoverable(reason: Reason) {
    reason == StaleRequestContext || reason == StackActionContextMismatch
  }

  /** A malformed batch is refused before its first row is looked at, and nothing is recorded. */
  datatype Result = AcceptedAll(state: State) | RejectedAll(state: State, reason: Reason) | Malformed(state: State) | Unexpected

  /** What a batch file must give: at least one row, and in each its ids, its agent and a note. */
  predicate IsWellFormed(rs: seq<Response>) {
    rs != [] && forall r | r in rs :: r.requestId != "" && r.leaseId != "" && r.agentId != "" && Truthy(r.note)
  }

  function Record(s: State, itemId: string, agentId: string, reason: Reason): State {
    s.(ledger := s.ledger + [ResponseRejected(itemId, agentId, reason)])
  }

  // -------------------------------------------------------------- properties

  /** A row whose lease would be taken if it were submitted now. */
  predicate IsReady(s: State, row: Row, now: int) {
    var p := row.prepared;
    && p.itemId in s.items && s.items[p.itemId].thread
    && p.leaseId in s.leases && s.leases[p.leaseId].itemId == p.itemId && s.leases[p.leaseId].role == Fixer
    && row.response.choice == Known(Fix)
    && LeaseRefusal(row.response, s.leases[p.leaseId], p, now).None?
  }

  predicate Ready(s: State, rows: seq<Row>, now: int) {
    && (forall row | row in rows :: IsReady(s, row, now))
    && (forall j, k | 0 <= j < k < |rows| :: rows[j].prepared.itemId != rows[k].prepared.itemId)
  }

  lemma CheckedRowIsReady(s: State, rows: seq<Row>, r: Response, c: Context)
    requires CheckRow(s, rows, r, c).Passed?
    ensures var checked := CheckRow(s, rows, r, c).rows;
            var row := checked[|checked| - 1];
            checked == rows + [row] && row.response == r && IsReady(s, row, c.now) && row.prepared.itemId !in ItemIds(rows)
  {
    PreparedIsConsistent(s, r, c.files, c.judge);
    hide Prepare, ItemIds, LeaseNames;
  }

  lemma ReadyExtends(s: State, rows: seq<Row>, row: Row, now: int)
    requires Ready(s, rows, now) && IsReady(s, row, now) && row.prepared.itemId !in ItemIds(rows)
    ensures Ready(s, rows + [row], now)
  {
    hide IsReady;
    assert forall r | r in rows :: r.prepared.itemId in ItemIds(rows);
  }

  /** Rows that passed every check are ready, and no two share an item. */
  lemma {:induction false} CheckedRowsAreReady(s: State, rs: seq<Response>, c: Context)
    ensures Ready(s, CheckRows(s, rs, c).rows, c.now)
    ensures CheckRows(s, rs, c).Passed? ==>
              |CheckRows(s, rs, c).rows| == |rs| && forall k | 0 <= k < |rs| :: CheckRows(s, rs, c).rows[k].response == rs[k]
  {
    hide CheckRow, IsReady;
    if rs != [] {
      CheckedRowsAreReady(s, rs[..|rs| - 1], c);
      var before := CheckRows(s, rs[..|rs| - 1], c);
      var r := rs[|rs| - 1];
      if before.Passed? {
        StoppedKeepsRows(s, before.rows, r, c);
        if CheckRow(s, before.rows, r, c).Passed? {
          CheckedRowIsReady(s, before.rows, r, c);
          var checked := CheckRow(s, before.rows, r, c).rows;
          ReadyExtends(s, before.rows, checked[|checked| - 1], c.now);
        }
      }
    }
  }

  lemma StoppedKeepsRows(s: State, rows: seq<Row>, r: Response, c: Context)
    ensures CheckRow(s, rows, r, c).Stopped? ==> CheckRow(s, rows, r, c).rows == rows
  {
  }

  lemma ReadyRowsDiffer(s: State, rows: seq<Row>, now: int)
    requires Ready(s, rows, now)
    ensures forall j, k | 0 <= j < k < |rows| ::
              rows[j].prepared.itemId != rows[k].prepared.itemId && rows[j].prepared.leaseId != rows[k].prepared.leaseId
    ensures rows != [] ==> Ready(s, rows[..|rows| - 1], now) && IsReady(s, rows[|rows| - 1], now)
  {
    forall j, k | 0 <= j < k < |rows| ensures rows[j].prepared.leaseId != rows[k].prepared.leaseId {
      assert rows[j] in rows && rows[k] in rows;
    }
  }

  lemma ReadyItemsExist(s: State, rows: seq<Row>, now: int)
    requires Ready(s, rows, now)
    ensures forall row | row in rows :: row.prepared.itemId in s.items
  {
    forall row | row in rows ensures row.prepared.itemId in s.items {
      assert IsReady(s, row, now);
    }
  }

  function RowAnswer(row: Row): Answer {
    AnswerWith(Fix, row.response)
  }

  function RowEvent(row: Row): Event {
    ResponseAccepted(row.prepared.itemId, row.prepared.leaseId, row.response.agentId, Fixer, SnapshotOf(RowAnswer(row)))
  }

  function RowEvents(rows: seq<Row>): seq<Event> {
    Images(RowEvent, rows)
  }

  function AcceptedLeases(leases: map<string, Lease>, ids: set<string>): map<string, Lease> {
    map id | id in leases :: if id in ids then leases[id].(status := Accepted) else leases[id]
  }

  /** Exactly the rows' items carry their answers. */
  predicate Carries(items: map<string, Item>, rows: seq<Row>, now: int, after: map<string, Item>) {
    && after.Keys == items.Keys
    && (forall row | row in rows ::
          row.prepared.itemId in items
          && after[row.prepared.itemId] == ApplyAnswer(items[row.prepared.itemId], RowAnswer(row), now))
    && (forall i | i in items && i !in ItemIds(rows) :: after[i] == items[i])
  }

  lemma ReadyRowIsAccepted(s: State, row: Row, now: int)
    requires IsReady(s, row, now)
    ensures AcceptRow(s, row, now) ==
            Some(s.(leases := s.leases[row.prepared.leaseId := s.leases[row.prepared.leaseId].(status := Accepted)],
                    items := s.items[row.prepared.itemId :=
                                     ApplyAnswer(s.items[row.prepared.itemId], RowAnswer(row), now)],
                    ledger := s.ledger + [RowEvent(row)]))
  {
    var p := row.prepared;
    assert AnswerOf(row.response) == RowAnswer(row);
    TakeAccepts(s, p.leaseId, row.response.agentId, p.itemId, p.hash, now);
  }

  lemma AcceptedLeasesGrow(leases: map<string, Lease>, ids: set<string>, id: string)
    requires id in leases
    ensures AcceptedLeases(leases, ids)[id := leases[id].(status := Accepted)] == AcceptedLeases(leases, ids + {id})
  {
  }

  /** A row that shares no item and no lease with the rows before it. */
  predicate Apart(pre: seq<Row>, row: Row) {
    row.prepared.itemId !in ItemIds(pre) && row.prepared.leaseId !in LeaseIds(pre)
  }

  /** Accepting one more ready row after the rows before it. */
  lemma NextRowIsAccepted(s: State, pre: seq<Row>, row: Row, now: int, t: State)
    requires Apart(pre, row) && IsReady(s, row, now)
    requires t.leases == AcceptedLeases(s.leases, LeaseIds(pre))
    requires Carries(s.items, pre, now, t.items)
    ensures var u := AcceptRow(t, row, now);
            && u.Some?
            && u.value.leases == AcceptedLeases(s.leases, LeaseIds(pre) + {row.prepared.leaseId})
            && Carries(s.items, pre + [row], now, u.value.items)
            && u.value.ledger == t.ledger + [RowEvent(row)]
  {
    NextRowIsReady(s, pre, row, now, t);
    hide AcceptRow, ApplyAnswer, RowEvent, RowAnswer, IsReady, Carries, LeaseIds, AcceptedLeases;
    ReadyRowIsAccepted(t, row, now);
    NextRowCarries(s.items, pre, row, now, t.items);
    AcceptedLeasesGrow(s.leases, LeaseIds(pre), row.prepared.leaseId);
  }

  lemma NextRowIsReady(s: State, pre: seq<Row>, row: Row, now: int, t: State)
    requires Apart(pre, row) && IsReady(s, row, now)
    requires t.leases == AcceptedLeases(s.leases, LeaseIds(pre))
    requires Carries(s.items, pre, now, t.items)
    ensures IsReady(t, row, now)
    ensures var p := row.prepared;
            && p.itemId in s.items && p.itemId in t.items && t.items[p.itemId] == s.items[p.itemId]
            && p.leaseId in s.leases && p.leaseId in t.leases && t.leases[p.leaseId] == s.leases[p.leaseId]
  {
    hide ApplyAnswer, ItemIds, LeaseIds;
  }

  lemma NextRowCarries(items: map<string, Item>, pre: seq<Row>, row: Row, now: int, after: map<string, Item>)
    requires row.prepared.itemId in items
    requires Carries(items, pre, now, after) && row.prepared.itemId !in ItemIds(pre)
    ensures Carries(items, pre + [row], now,
                    after[row.prepared.itemId := ApplyAnswer(after[row.prepared.itemId], RowAnswer(row), now)])
  {
    hide ApplyAnswer, RowAnswer;
    assert forall r :: r in pre + [row] <==> r in pre || r == row;
    assert forall r | r in pre :: r.prepared.itemId in ItemIds(pre);
    assert row in pre + [row];
  }

  lemma LastRowIsApart(rows: seq<Row>)
    requires rows != []
    requires forall j, k | 0 <= j < k < |rows| ::
               rows[j].prepared.itemId != rows[k].prepared.itemId && rows[j].prepared.leaseId != rows[k].prepared.leaseId
    ensures Apart(rows[..|rows| - 1], rows[|rows| - 1])
    ensures LeaseIds(rows) == LeaseIds(rows[..|rows| - 1]) + {rows[|rows| - 1].prepared.leaseId}
    ensures rows == rows[..|rows| - 1] + [rows[|rows| - 1]]
  {
    assert forall r :: r in rows <==> r in rows[..|rows| - 1] || r == rows[|rows| - 1];
  }

  lemma NoRowsChangeNothing(s: State, now: int)
    ensures s.leases == AcceptedLeases(s.leases, LeaseIds([])) && Carries(s.items, [], now, s.items)
    ensures RowEvents([]) == []
  {
  }

  /** Once every row is ready, none can fail: each closes its own lease and answers its own item. */
  lemma {:induction false} ReadyRowsAreAllAccepted(s: State, rows: seq<Row>, now: int)
    requires Ready(s, rows, now)
    ensures var t := AcceptRows(s, rows, now);
            && t.Some?
            && t.value.leases == AcceptedLeases(s.leases, LeaseIds(rows))
            && Carries(s.items, rows, now, t.value.items)
            && t.value.ledger == s.ledger + RowEvents(rows)
  {
    hide AcceptRow, RowEvent, IsReady, Ready, Carries, AcceptedLeases, LeaseIds, RowEvents, Apart;
    NoRowsChangeNothing(s, now);
    if rows != [] {
      var n := |rows| - 1;
      ReadyRowsDiffer(s, rows, now);
      ReadyRowsAreAllAccepted(s, rows[..n], now);
      LastRowIsApart(rows);
      NextRowIsAccepted(s, rows[..n], rows[n], now, AcceptRows(s, rows[..n], now).value);
      RowEventsGrow(rows);
    }
  }

  lemma RowEventsGrow(rows: seq<Row>)
    requires rows != []
    ensures RowEvents(rows) == RowEvents(rows[..|rows| - 1]) + [RowEvent(rows[|rows| - 1])]
  {
    hide RowEvent;
  }

  /** The order of ready rows does not matter: same items, same leases, same events. */
  lemma RowOrderIsIrrelevant(s: State, rows: seq<Row>, other: seq<Row>, now: int)
    requires Ready(s, rows, now) && Ready(s, other, now) && multiset(rows) == multiset(other)
    ensures AcceptRows(s, rows, now).Some? && AcceptRows(s, other, now).Some?
    ensures AcceptRows(s, rows, now).value.items == AcceptRows(s, other, now).value.items
    ensures AcceptRows(s, rows, now).value.leases == AcceptRows(s, other, now).value.leases
    ensures multiset(AcceptRows(s, rows, now).value.ledger) == multiset(AcceptRows(s, other, now).value.ledger)
  {
    hide AcceptRows, Ready, Carries, AcceptedLeases, Images;
    ReadyRowsAreAllAccepted(s, rows, now);
    ReadyRowsAreAllAccepted(s, other, now);
    SameElements(rows, other);
    assert LeaseIds(rows) == LeaseIds(other);
    CarriesIsUnique(s.items, rows, other, now, AcceptRows(s, rows, now).value.items, AcceptRows(s, other, now).value.items);
    ImagesPermute(RowEvent, rows, other);
  }

  lemma CarriesIsUnique(items: map<string, Item>, rows: seq<Row>, other: seq<Row>, now: int,
                        t: map<string, Item>, u: map<string, Item>)
    requires forall r :: r in rows <==> r in other
    requires Carries(items, rows, now, t) && Carries(items, other, now, u)
    ensures t == u
  {
    hide ApplyAnswer, RowAnswer;
    assert ItemIds(rows) == ItemIds(other);
    forall i | i in items ensures t[i] == u[i] {
      if i in ItemIds(rows) {
        var r :| r in rows && r.prepared.itemId == i;
        assert r in other;
      }
    }
  }

  // --------------------------------------------------------- the transaction

  /** What is stored when a row fails its checks: the rejection, and released leases if it is irrecoverable. */
  function RejectRows(s: State, rows: seq<Row>, itemId: string, agentId: string, reason: Reason): State
    requires forall row | row in rows :: row.prepared.itemId in s.items
  {
    var noted := Record(s, itemId, agentId, reason);
    if IsIrrecoverable(reason) then ReleaseRows(noted, rows) else noted
  }

  /** The same when the binding of row `k` is refused: that row's lease goes first. */
  function RejectBinding(s: State, rows: seq<Row>, k: nat, reason: Reason): State
    requires k < |rows| && forall row | row in rows :: row.prepared.itemId in s.items
  {
    var p := rows[k].prepared;
    var noted := Record(s, p.itemId, rows[k].response.agentId, reason);
    assert rows[k] in rows;
    if IsIrrecoverable(reason) then ReleaseRows(ReleaseIrrecoverable(noted, p.leaseId, p.itemId), rows) else noted
  }

  ghost function SubmitBatch(s: State, rs: seq<Response>, c: Context): Result {
    var checked := CheckRows(s, rs, c);
    CheckedRowsAreReady(s, rs, c);
    ReadyItemsExist(s, checked.rows, c.now);
    var k := FirstUnbound(checked.rows, c);
    if !IsWellFormed(rs) then Malformed(s)
    else if checked.Stopped? then
      RejectedAll(RejectRows(s, checked.rows, checked.itemId, Signer(checked.response), checked.reason), checked.reason)
    else if k < |checked.rows| then
      var reason := c.revision(checked.rows[k]).value;
      RejectedAll(RejectBinding(s, checked.rows, k, reason), reason)
    else
      var t := AcceptRows(s, Bound(checked.rows, c), c.now);
      if t.None? then Unexpected else AcceptedAll(t.value)
  }

  /** Recording a revision binding changes nothing that readiness depends on. */
  lemma BoundKeepsRows(s: State, rows: seq<Row>, c: Context)
    requires Ready(s, rows, c.now)
    ensures Ready(s, Bound(rows, c), c.now)
  {
    var bound := Bound(rows, c);
    forall k | 0 <= k < |bound| ensures IsReady(s, bound[k], c.now) {
      assert IsReady(s, rows[k], c.now);
    }
  }

  predicate AtMostReleased(before: Lease, after: Lease) {
    after == before || (before.Live() && after == before.(status := Released))
  }

  lemma ReleaseTouchesOne(s: State, id: string, itemId: string)
    requires itemId in s.items
    ensures var t := ReleaseIrrecoverable(s, id, itemId);
            && t.items.Keys == s.items.Keys && t.ledger == s.ledger && t.leases.Keys == s.leases.Keys
            && forall l | l in s.leases :: AtMostReleased(s.leases[l], t.leases[l])
  {
  }

  /** Releasing rows accepts no lease and changes only live ones. */
  lemma {:induction false} ReleaseAcceptsNothing(s: State, rows: seq<Row>)
    requires forall row | row in rows :: row.prepared.itemId in s.items
    ensures forall id | id in s.leases :: AtMostReleased(s.leases[id], ReleaseRows(s, rows).leases[id])
  {
    hide ReleaseIrrecoverable;
    if rows != [] {
      var n := |rows| - 1;
      ReleaseAcceptsNothing(s, rows[..n]);
      var t := ReleaseRows(s, rows[..n]);
      ReleaseTouchesOne(t, rows[n].prepared.leaseId, rows[n].prepared.itemId);
      forall id | id in s.leases ensures AtMostReleased(s.leases[id], ReleaseRows(s, rows).leases[id]) {
        assert AtMostReleased(s.leases[id], t.leases[id]);
        assert AtMostReleased(t.leases[id], ReleaseRows(s, rows).leases[id]);
      }
    }
  }

  predicate IsAcceptanceOf(e: Event, r: Response, p: Prepared) {
    e.ResponseAccepted? && e.itemId == p.itemId && e.leaseId == p.leaseId && e.agentId == r.agentId
  }

  lemma BoundEvent(row: Row, c: Context)
    ensures IsAcceptanceOf(RowEvent(BoundRow(row, c)), row.response, row.prepared)
  {
  }

  function ReleasedLeases(leases: map<string, Lease>, ids: set<string>): map<string, Lease> {
    map id | id in leases :: if id in ids && leases[id].Live() then leases[id].(status := Released) else leases[id]
  }

  /** Releasing rows ends exactly their own live leases. */
  lemma {:induction false} ReleaseRowsIsExact(s: State, rows: seq<Row>)
    requires forall row | row in rows :: row.prepared.itemId in s.items
    ensures ReleaseRows(s, rows).leases == ReleasedLeases(s.leases, LeaseIds(rows))
  {
    if rows == [] {
      assert ReleasedLeases(s.leases, {}) == s.leases;
    } else {
      var n := |rows| - 1;
      ReleaseRowsIsExact(s, rows[..n]);
      assert rows == rows[..n] + [rows[n]];
      assert LeaseIds(rows) == LeaseIds(rows[..n]) + {rows[n].prepared.leaseId};
      ReleaseOneMore(s.leases, LeaseIds(rows[..n]), ReleaseRows(s, rows[..n]), rows[n]);
    }
  }

  lemma ReleaseOneMore(leases: map<string, Lease>, ids: set<string>, t: State, row: Row)
    requires t.leases == ReleasedLeases(leases, ids) && row.prepared.itemId in t.items
    ensures ReleaseIrrecoverable(t, row.prepared.leaseId, row.prepared.itemId).leases
         == ReleasedLeases(leases, ids + {row.prepared.leaseId})
  {
  }

  /**
    When a row stops a batch with a stale request context, the live leases of the rows before it
    are released, and no other lease changes: the stale row keeps its own. Any other reason
    releases nothing.
  */
  lemma StoppedBatchReleases(s: State, rs: seq<Response>, c: Context)
    requires IsWellFormed(rs) && CheckRows(s, rs, c).Stopped?
    ensures var checked := CheckRows(s, rs, c);
            && SubmitBatch(s, rs, c).RejectedAll?
            && SubmitBatch(s, rs, c).state.leases ==
               if IsIrrecoverable(checked.reason) then ReleasedLeases(s.leases, LeaseIds(checked.rows)) else s.leases
  {
    var checked := CheckRows(s, rs, c);
    CheckedRowsAreReady(s, rs, c);
    ReadyItemsExist(s, checked.rows, c.now);
    hide CheckRows, Ready, ReleasedLeases, LeaseIds;
    ReleaseRowsIsExact(Record(s, checked.itemId, Signer(checked.response), checked.reason), checked.rows);
  }

  /** The ledger gains one rejection and no lease is accepted. */
  predicate OnlyRejects(s: State, t: State) {
    && |t.ledger| == |s.ledger| + 1 && s.ledger <= t.ledger && t.ledger[|s.ledger|].ResponseRejected?
    && t.leases.Keys == s.leases.Keys
    && forall id | id in s.leases :: AtMostReleased(s.leases[id], t.leases[id])
  }

  lemma RejectedOnlyRejects(s: State, rows: seq<Row>, itemId: string, agentId: string, reason: Reason)
    requires forall row | row in rows :: row.prepared.itemId in s.items
    ensures OnlyRejects(s, RejectRows(s, rows, itemId, agentId, reason))
  {
    ReleaseAcceptsNothing(Record(s, itemId, agentId, reason), rows);
  }

  lemma UnboundOnlyRejects(s: State, rows: seq<Row>, k: nat, reason: Reason)
    requires k < |rows| && forall row | row in rows :: row.prepared.itemId in s.items
    ensures OnlyRejects(s, RejectBinding(s, rows, k, reason))
  {
    hide ReleaseIrrecoverable;
    var p := rows[k].prepared;
    assert rows[k] in rows;
    var noted := Record(s, p.itemId, rows[k].response.agentId, reason);
    ReleaseTouchesOne(noted, p.leaseId, p.itemId);
    var released := ReleaseIrrecoverable(noted, p.leaseId, p.itemId);
    ReleaseAcceptsNothing(released, rows);
    var t := ReleaseRows(released, rows);
    forall id | id in s.leases ensures AtMostReleased(s.leases[id], t.leases[id]) {
      assert AtMostReleased(noted.leases[id], released.leases[id]) && AtMostReleased(released.leases[id], t.leases[id]);
    }
  }

  /** Every row's lease is accepted, with one event each, in order. */
  predicate AcceptsAll(s: State, rs: seq<Response>, rows: seq<Row>, t: State) {
    && |rows| == |rs|
    && (forall k | 0 <= k < |rs| :: rows[k].response == rs[k])
    && t.leases == AcceptedLeases(s.leases, LeaseIds(rows))
    && |t.ledger| == |s.ledger| + |rs| && s.ledger <= t.ledger
    && forall k | 0 <= k < |rs| :: IsAcceptanceOf(t.ledger[|s.ledger| + k], rs[k], rows[k].prepared)
  }

  lemma BoundRowsAreAccepted(s: State, rs: seq<Response>, rows: seq<Row>, c: Context)
    requires Ready(s, rows, c.now) && |rows| == |rs| && forall k | 0 <= k < |rs| :: rows[k].response == rs[k]
    ensures AcceptRows(s, Bound(rows, c), c.now).Some?
    ensures AcceptsAll(s, rs, rows, AcceptRows(s, Bound(rows, c), c.now).value)
  {
    hide AcceptRows, Ready, AcceptedLeases, Carries, RowEvent, Images, LeaseIds;
    BoundKeepsRows(s, rows, c);
    ReadyRowsAreAllAccepted(s, Bound(rows, c), c.now);
    BoundNamesSameLeases(rows, c);
    forall k | 0 <= k < |rows| ensures IsAcceptanceOf(RowEvents(Bound(rows, c))[k], rs[k], rows[k].prepared) {
      BoundEvent(rows[k], c);
    }
  }

  /**
    A batch is all or nothing: every row passed and every row's lease is accepted, or no lease is
    accepted and one rejection is recorded. The accepting phase itself never fails.
  */
  lemma BatchIsAllOrNothing(s: State, rs: seq<Response>, c: Context)
    ensures var result := SubmitBatch(s, rs, c);
            && !result.Unexpected?
            && (result.Malformed? <==> !IsWellFormed(rs)) && (result.Malformed? ==> result.state == s)
            && (result.AcceptedAll? ==> AcceptsAll(s, rs, CheckRows(s, rs, c).rows, result.state))
            && (result.RejectedAll? ==> OnlyRejects(s, result.state))
  {
    hide CheckRows, AcceptRows, AcceptsAll, OnlyRejects, RejectRows, RejectBinding, Ready, IsWellFormed;
    var checked := CheckRows(s, rs, c);
    var rows := checked.rows;
    CheckedRowsAreReady(s, rs, c);
    ReadyItemsExist(s, rows, c.now);
    var k := FirstUnbound(rows, c);
    if checked.Stopped? {
      RejectedOnlyRejects(s, rows, checked.itemId, Signer(checked.response), checked.reason);
    } else if k < |rows| {
      UnboundOnlyRejects(s, rows, k, c.revision(rows[k]).value);
    } else {
      BoundRowsAreAccepted(s, rs, rows, c);
    }
  }

  lemma BoundNamesSameLeases(rows: seq<Row>, c: Context)
    ensures LeaseIds(Bound(rows, c)) == LeaseIds(rows) && ItemIds(Bound(rows, c)) == ItemIds(rows)
  {
    var bound := Bound(rows, c);
    assert forall k | 0 <= k < |rows| :: bound[k] in bound && rows[k] in rows && bound[k].prepared == rows[k].prepared;
  }

  // ------------------------------------------------------- one row at a time

  /** One response submitted on its own: prepared against the session as it is now. */
  ghost function SubmitOne(s: State, r: Response, c: Context): Option<State> {
    var prepared := Prepare(s, r, c.files, c.judge);
    if prepared.Err? then None else AcceptRow(s, BoundRow(Row(r, prepared.value), c), c.now)
  }

  ghost function SubmitEach(s: State, rs: seq<Response>, c: Context): Option<State> {
    if rs == [] then Some(s)
    else
      var before := SubmitEach(s, rs[..|rs| - 1], c);
      if before.None? then None else SubmitOne(before.value, rs[|rs| - 1], c)
  }

  /** Preparing a response looks at its own item and at that item's leases only. */
  lemma PrepareIsLocal(s: State, t: State, r: Response, c: Context)
    requires OneLive(s) && Prepare(s, r, c.files, c.judge).Ok?
    requires t.items.Keys == s.items.Keys && t.leases.Keys == s.leases.Keys
    requires var i := Prepare(s, r, c.files, c.judge).value.itemId;
             && i in s.items && t.items[i] == s.items[i]
             && (forall id | id in s.leases :: t.leases[id].itemId == s.leases[id].itemId)
             && (forall id | id in s.leases && s.leases[id].itemId == i :: t.leases[id] == s.leases[id])
    ensures Prepare(t, r, c.files, c.judge) == Prepare(s, r, c.files, c.judge)
  {
    if r.leaseId !in s.leases {
      var was := Rebound(s, r, r.itemId, r.leaseId);
      assert was.Some? ==> IsRebound(t, r, r.itemId, r.leaseId, was.value);
      var later := Rebound(t, r, r.itemId, r.leaseId);
      assert was.Some? && later.Some? ==> LiveOn(s, was.value, r.itemId) && LiveOn(s, later.value, r.itemId);
    }
  }

  lemma EarlierRowsAreElsewhere(s: State, pre: seq<Row>, now: int, i: string, t: State)
    requires Ready(s, pre, now) && i !in ItemIds(pre)
    requires t.leases == AcceptedLeases(s.leases, LeaseIds(pre)) && Carries(s.items, pre, now, t.items)
    ensures t.items.Keys == s.items.Keys && t.leases.Keys == s.leases.Keys
    ensures i in s.items ==> t.items[i] == s.items[i]
    ensures forall id | id in s.leases :: t.leases[id].itemId == s.leases[id].itemId
    ensures forall id | id in s.leases && s.leases[id].itemId == i :: t.leases[id] == s.leases[id]
  {
    hide ApplyAnswer, RowAnswer, LeaseRefusal;
    forall id | id in LeaseIds(pre) ensures id in s.leases && s.leases[id].itemId in ItemIds(pre) {
      var row :| row in pre && row.prepared.leaseId == id;
      assert IsReady(s, row, now);
    }
  }

  /** After the earlier rows, a response is still prepared and accepted as the batch does it. */
  lemma NextSingleSubmit(s: State, pre: seq<Row>, row: Row, c: Context, t: State)
    requires OneLive(s) && Ready(s, pre, c.now) && row.prepared.itemId !in ItemIds(pre)
    requires Prepare(s, row.response, c.files, c.judge) == Ok(row.prepared)
    requires t.leases == AcceptedLeases(s.leases, LeaseIds(pre)) && Carries(s.items, Bound(pre, c), c.now, t.items)
    ensures SubmitOne(t, row.response, c) == AcceptRow(t, BoundRow(row, c), c.now)
  {
    hide Prepare, AcceptRow, Ready, Carries, AcceptedLeases, LeaseIds, ItemIds, BoundRow, OneLive;
    PreparedIsConsistent(s, row.response, c.files, c.judge);
    BoundKeepsRows(s, pre, c);
    BoundNamesSameLeases(pre, c);
    EarlierRowsAreElsewhere(s, Bound(pre, c), c.now, row.prepared.itemId, t);
    PrepareIsLocal(s, t, row.response, c);
  }

  /** A batch that passed does what submitting its responses one at a time would have done. */
  lemma {:induction false} BatchRefinesSingleSubmits(s: State, rs: seq<Response>, c: Context)
    requires OneLive(s) && CheckRows(s, rs, c).Passed?
    ensures SubmitEach(s, rs, c) == AcceptRows(s, Bound(CheckRows(s, rs, c).rows, c), c.now)
    ensures SubmitEach(s, rs, c).Some?
  {
    hide CheckRow, SubmitOne, AcceptRow, Prepare, Ready, Carries, AcceptedLeases, LeaseIds, ItemIds, BoundRow, OneLive,
         RowEvents;
    var rows := CheckRows(s, rs, c).rows;
    CheckedRowsAreReady(s, rs, c);
    BoundKeepsRows(s, rows, c);
    ReadyRowsAreAllAccepted(s, Bound(rows, c), c.now);
    if rs != [] {
      var n := |rs| - 1;
      var pre := CheckRows(s, rs[..n], c).rows;
      BatchRefinesSingleSubmits(s, rs[..n], c);
      CheckedRowsAreReady(s, rs[..n], c);
      BoundKeepsRows(s, pre, c);
      ReadyRowsAreAllAccepted(s, Bound(pre, c), c.now);
      BoundNamesSameLeases(pre, c);
      CheckedRowIsReady(s, pre, rs[n], c);
      PassedRowIsPrepared(s, pre, rs[n], c);
      assert Bound(rows, c)[..n] == Bound(pre, c);
      NextSingleSubmit(s, pre, rows[n], c, SubmitEach(s, rs[..n], c).value);
    }
  }

  lemma PassedRowIsPrepared(s: State, pre: seq<Row>, r: Response, c: Context)
    requires CheckRow(s, pre, r, c).Passed?
    ensures Prepare(s, r, c.files, c.judge).Ok?
    ensures CheckRow(s, pre, r, c).rows == pre + [Row(r, Prepare(s, r, c.files, c.judge).value)]
  {
  }
}
