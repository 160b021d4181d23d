/** Claiming a batch of review threads for one agent. */
module BatchClaim {
  import opened Wrappers
  import opened Protocol
  import opened Leases
  import opened Submission

  const MAX_PARALLEL_CLAIMS := 2

  /** One call: who asks, when, for which files, what the disk holds, and how requests and ids are made. */
  datatype Call = Call(
    agentId: string,
    files: seq<string>,
    now: int,
    disk: map<string, File>,
    draft: (string, Item) -> Json,
    mint: string -> string
  )

  datatype Entry = Entry(itemId: string, leaseId: string, requestPath: string, created: bool, rebuild: bool, request: Request)

  function RequestId(leaseId: string): string {
    "req:" + leaseId
  }

  function RequestPath(requestId: string): string {
    "action-request-" + requestId + ".json"
  }

  /** The request on disk when it belongs to this lease. */
  function PayloadForLease(file: File, requestId: string, leaseId: string): Option<Request> {
    if file.Stored? && file.request.requestId == requestId && file.request.leaseId == leaseId
    then Some(file.request) else None
  }

  predicate IsOwnActive(l: Lease, agentId: string) {
    l.status == Active && l.role == Fixer && l.agentId == agentId
  }

  function OwnActive(s: State, agentId: string): set<string> {
    set id | id in s.leases && IsOwnActive(s.leases[id], agentId)
  }

  predicate IsOwnOn(s: State, id: string, itemId: string, agentId: string) {
    id in s.leases && IsOwnActive(s.leases[id], agentId) && s.leases[id].itemId == itemId
  }

  ghost function OwnOn(s: State, itemId: string, agentId: string): (o: Option<string>)
    ensures o.Some? <==> exists id :: IsOwnOn(s, id, itemId, agentId)
    ensures o.Some? ==> IsOwnOn(s, o.value, itemId, agentId)
  {
    if exists id :: IsOwnOn(s, id, itemId, agentId) then
      var id :| IsOwnOn(s, id, itemId, agentId);
      Some(id)
    else None
  }

  ghost predicate IsTarget(s: State, i: string, c: Call) {
    && i in s.items && s.items[i].thread
    && (c.files == [] || (s.items[i].path != "" && s.items[i].path in c.files))
    && (OwnOn(s, i, c.agentId).Some? || IsBatchClaimable(s.items[i]))
  }

  ghost function Targets(s: State, order: seq<string>, c: Call): (r: seq<string>)
    ensures forall i | i in r :: i in order && IsTarget(s, i, c)
    ensures forall i | i in order && IsTarget(s, i, c) :: i in r
    ensures (forall i, j | 0 <= i < j < |order| :: order[i] != order[j])
        ==> forall i, j | 0 <= i < j < |r| :: r[i] != r[j]
  {
    if order == [] then []
    else
      var i := order[|order| - 1];
      Targets(s, order[..|order| - 1], c) + (if IsTarget(s, i, c) then [i] else [])
  }

  /** Record a fix classification for a thread that has none. */
  function Classified(s: State, i: string, agentId: string): State
    requires i in s.items
  {
    var item := s.items[i];
    if item.classification.Some? then s
    else s.(items := s.items[i := item.(classification := Some(Fix), decision := Some(Fix))],
            ledger := s.ledger + [ClassificationRecorded(i, agentId, Fix)])
  }

  function Reconcile(s: State, i: string, id: string, c: Call): (State, Entry)
    requires i in s.items && id in s.leases
  {
    var t := Classified(s, i, c.agentId);
    var lease := t.leases[id];
    var request := Request(lease.requestId, id, c.draft(i, t.items[i]));
    var rebuild := PayloadForLease(Read(c.disk, lease.requestPath), lease.requestId, id).None?;
    (t.(leases := t.leases[id := lease.(hash := if rebuild then HashOf(request) else lease.hash)]),
     Entry(i, id, lease.requestPath, false, rebuild, request))
  }

  function NewGrant(i: string, item: Item, c: Call): Grant {
    var id := c.mint(i);
    var request := Request(RequestId(id), id, c.draft(i, item));
    Grant(id, i, c.agentId, Fixer, HashOf(request), RequestId(id), RequestPath(RequestId(id)), true)
  }

  datatype Attempt = Skipped | Conflict | Made(state: State, entry: Entry)

  function LeaseNew(s: State, i: string, c: Call): Attempt
    requires i in s.items
  {
    var had := s.items[i].classification;
    if had.Some? && had.value != Fix then Skipped
    else
      var t := Classified(s, i, c.agentId);
      var g := NewGrant(i, t.items[i], c);
      var claimed := Claim(t, g, c.now);
      if claimed.None? then Conflict
      else
        var u := claimed.value;
        Made(u.(items := u.items[i := u.items[i].(phase := Claimed, activeLease := Some(g.leaseId))]),
             Entry(i, g.leaseId, g.requestPath, true, false, g.hash.request))
  }

  datatype Progress = Failed | Going(state: State, quota: nat, entries: seq<Entry>)

  ghost function Visit(p: Progress, i: string, c: Call): Progress
    requires p.Going? ==> i in p.state.items
  {
    if p.Failed? then Failed
    else
      var own := OwnOn(p.state, i, c.agentId);
      if own.Some? then
        var (t, entry) := Reconcile(p.state, i, own.value, c);
        Going(t, p.quota, p.entries + [entry])
      else if p.quota == 0 then p
      else
        match LeaseNew(p.state, i, c)
        case Skipped => p
        case Conflict => Failed
        case Made(t, entry) => Going(t, p.quota - 1, p.entries + [entry])
  }

  ghost function VisitAll(s: State, quota: nat, targets: seq<string>, c: Call): (p: Progress)
    requires forall i | i in targets :: i in s.items
    ensures p.Going? ==> p.state.items.Keys == s.items.Keys
  {
    if targets == [] then Going(s, quota, [])
    else Visit(VisitAll(s, quota, targets[..|targets| - 1], c), targets[|targets| - 1], c)
  }

  function IssueEvents(entries: seq<Entry>, agentId: string): seq<Event> {
    if entries == [] then []
    else
      var e := entries[|entries| - 1];
      IssueEvents(entries[..|entries| - 1], agentId)
      + (if e.created then [RequestIssued(e.itemId, e.leaseId, agentId, e.request.requestId, false)] else [])
  }

  function Quota(held: nat): nat {
    if held < MAX_PARALLEL_CLAIMS then MAX_PARALLEL_CLAIMS - held else 0
  }

  /** The whole transaction: the new state and its entries, or nothing when it aborts. */
  ghost function CommitBatch(s: State, order: seq<string>, c: Call): Option<(State, seq<Entry>)> {
    var e := Expire(s, c.now);
    var targets := Targets(e, order, c);
    var p := VisitAll(e, Quota(|OwnActive(e, c.agentId)|), targets, c);
    if targets == [] || p.Failed? || p.entries == [] then None
    else Some((p.state.(ledger := p.state.ledger + IssueEvents(p.entries, c.agentId)), p.entries))
  }

  /** Compensation: the leases this batch created are removed and their items reopened. */
  function Undo(s: State, entries: seq<Entry>): (t: State)
    ensures t.items.Keys == s.items.Keys && t.ledger == s.ledger
  {
    if entries == [] then s
    else
      var e := entries[|entries| - 1];
      var t := Undo(s, entries[..|entries| - 1]);
      if e.created && e.itemId in t.items && e.leaseId in s.leases
      then t.(leases := t.leases - {e.leaseId}, items := t.items[e.itemId := Reopened(t.items[e.itemId])])
      else t
  }

  // -------------------------------------------------------------- properties

  predicate NoRepeats(names: seq<string>) {
    forall i, j | 0 <= i < j < |names| :: names[i] != names[j]
  }

  /** Minted ids are new to the session and differ between items. */
  ghost predicate MintsFresh(s: State, c: Call) {
    && (forall i, j | i != j :: c.mint(i) != c.mint(j))
    && forall i :: IsNew(s, c.mint(i))
  }

  predicate IsNew(s: State, id: string) {
    id !in s.leases && forall e | e in s.ledger :: !e.Names(id)
  }

  function Created(entries: seq<Entry>): set<string> {
    set e | e in entries && e.created :: e.leaseId
  }

  function Touched(entries: seq<Entry>): set<string> {
    set e | e in entries :: e.leaseId
  }

  /** What one entry says about the state it was made in. */
  predicate EntryHolds(s: State, t: State, e: Entry, c: Call) {
    && e.itemId in t.items && e.leaseId in t.leases
    && e.request.leaseId == e.leaseId && e.request.requestId == t.leases[e.leaseId].requestId
    && e.requestPath == t.leases[e.leaseId].requestPath
    && IsOwnActive(t.leases[e.leaseId], c.agentId) && t.leases[e.leaseId].itemId == e.itemId
    && (if e.created
        then e.leaseId == c.mint(e.itemId) && t.leases[e.leaseId].hash == HashOf(e.request)
             && t.items[e.itemId].classification == Some(Fix)
        else e.leaseId in s.leases
             && t.leases[e.leaseId] == s.leases[e.leaseId].(hash := t.leases[e.leaseId].hash)
             && t.leases[e.leaseId].hash == if e.rebuild then HashOf(e.request) else s.leases[e.leaseId].hash)
  }

  /** Leases so far: the old ones under their old terms, and the created ones. */
  ghost predicate LeasesKept(s: State, t: State, entries: seq<Entry>) {
    && t.leases.Keys == s.leases.Keys + Created(entries)
    && (forall id | id in s.leases :: t.leases[id] == s.leases[id].(hash := t.leases[id].hash))
    && (forall id | id in s.leases && id !in Touched(entries) :: t.leases[id] == s.leases[id])
  }

  ghost predicate EntriesHold(s: State, visited: seq<string>, t: State, entries: seq<Entry>, c: Call) {
    && (forall e | e in entries :: e.itemId in visited && EntryHolds(s, t, e, c))
    && (forall j, k | 0 <= j < k < |entries| :: entries[j].itemId != entries[k].itemId)
  }

  /** Items not yet visited are untouched; the ledger only gained classifications. */
  ghost predicate RestKept(s: State, visited: seq<string>, t: State) {
    && t.items.Keys == s.items.Keys
    && (forall i | i in s.items && i !in visited :: t.items[i] == s.items[i])
    && s.ledger <= t.ledger
    && (forall k | |s.ledger| <= k < |t.ledger| :: t.ledger[k].ClassificationRecorded?)
  }

  /** What the visited part of a batch has done to the state it started from. */
  ghost predicate Kept(s: State, quota: nat, visited: seq<string>, c: Call, p: Progress) {
    p.Going? ==>
      && p.quota + |Created(p.entries)| == quota
      && NothingOverdue(p.state, c.now)
      && LeasesKept(s, p.state, p.entries)
      && EntriesHold(s, visited, p.state, p.entries, c)
      && RestKept(s, visited, p.state)
  }

  predicate NothingOverdue(s: State, now: int) {
    forall id | id in s.leases :: !s.leases[id].Overdue(now)
  }

  lemma NothingLeftToExpire(s: State, now: int)
    requires NothingOverdue(s, now)
    ensures Expire(s, now) == s
  {
    assert Expire(s, now).items == s.items;
    assert Expire(s, now).leases == s.leases;
  }

  lemma ExpireLeavesNothingOverdue(s: State, now: int)
    ensures NothingOverdue(Expire(s, now), now)
  {
  }

  /** One visit: the lease written, the item changed and the entry made for `i`. */
  ghost predicate Visits(s: State, t: State, i: string, e: Entry, c: Call) {
    && e.itemId == i && i in s.items && t.items.Keys == s.items.Keys
    && (forall j | j in s.items && j != i :: t.items[j] == s.items[j])
    && e.leaseId in t.leases && t.leases == s.leases[e.leaseId := t.leases[e.leaseId]]
    && !t.leases[e.leaseId].Overdue(c.now)
    && s.ledger <= t.ledger && |t.ledger| <= |s.ledger| + 1
    && (forall k | |s.ledger| <= k < |t.ledger| :: t.ledger[k].ClassificationRecorded?)
    && EntryHolds(s, t, e, c)
    && (if e.created then e.leaseId !in s.leases else e.leaseId in s.leases)
  }

  lemma ReconcileVisits(s: State, i: string, id: string, c: Call)
    requires i in s.items && IsOwnOn(s, id, i, c.agentId) && NothingOverdue(s, c.now)
    ensures var (t, e) := Reconcile(s, i, id, c); Visits(s, t, i, e, c) && !e.created && e.leaseId == id
  {
  }

  lemma LeaseNewVisits(s: State, i: string, c: Call)
    requires i in s.items && NothingOverdue(s, c.now) && c.mint(i) !in s.leases
    requires LeaseNew(s, i, c).Made?
    ensures var made := LeaseNew(s, i, c); Visits(s, made.state, i, made.entry, c) && made.entry.created
  {
    hide Expire, IsBlocked;
    NothingLeftToExpire(Classified(s, i, c.agentId), c.now);
  }

  lemma VisitKeepsEntries(s: State, visited: seq<string>, c: Call, p: State, entries: seq<Entry>, i: string, t: State, e: Entry)
    requires LeasesKept(s, p, entries) && EntriesHold(s, visited, p, entries, c)
    requires i !in visited && Visits(p, t, i, e, c)
    requires !e.created ==> e.leaseId in s.leases && p.leases[e.leaseId] == s.leases[e.leaseId]
    ensures EntriesHold(s, visited + [i], t, entries + [e], c)
  {
    forall f | f in entries + [e] ensures f.itemId in visited + [i] && EntryHolds(s, t, f, c) {
      if f in entries {
        assert EntryHolds(s, p, f, c) && f.itemId != i;
        assert e.leaseId in p.leases ==> p.leases[e.leaseId].itemId == i;
        assert f.leaseId != e.leaseId;
      }
    }
  }

  /** A re-entered lease was there, as it is, before the batch began. */
  lemma ReenteredIsOld(s: State, visited: seq<string>, c: Call, p: State, entries: seq<Entry>, i: string, id: string)
    requires LeasesKept(s, p, entries) && EntriesHold(s, visited, p, entries, c)
    requires i !in visited && IsOwnOn(p, id, i, c.agentId)
    ensures id in s.leases && p.leases[id] == s.leases[id]
  {
    assert forall e | e in entries && e.leaseId == id :: EntryHolds(s, p, e, c) && e.itemId in visited;
  }

  lemma CreatedGrows(entries: seq<Entry>, e: Entry)
    ensures Created(entries + [e]) == Created(entries) + if e.created then {e.leaseId} else {}
  {
    assert forall f :: f in entries + [e] <==> f in entries || f == e;
  }

  lemma TouchedGrows(entries: seq<Entry>, e: Entry)
    ensures Touched(entries + [e]) == Touched(entries) + {e.leaseId}
  {
    assert forall f :: f in entries + [e] <==> f in entries || f == e;
  }

  lemma VisitKeepsLeases(s: State, c: Call, p: State, entries: seq<Entry>, i: string, t: State, e: Entry)
    requires LeasesKept(s, p, entries) && Visits(p, t, i, e, c)
    requires !e.created ==> e.leaseId in s.leases && p.leases[e.leaseId] == s.leases[e.leaseId]
    ensures LeasesKept(s, t, entries + [e])
  {
    hide Created, Touched;
    CreatedGrows(entries, e);
    TouchedGrows(entries, e);
  }

  lemma VisitKeepsRest(s: State, visited: seq<string>, c: Call, p: State, i: string, t: State, e: Entry)
    requires RestKept(s, visited, p) && Visits(p, t, i, e, c)
    ensures RestKept(s, visited + [i], t)
  {
    hide EntryHolds;
    forall k | |s.ledger| <= k < |t.ledger| ensures t.ledger[k].ClassificationRecorded? {
      if k < |p.ledger| {
        assert t.ledger[k] == p.ledger[k];
      }
    }
  }

  lemma VisitKeepsTime(p: State, i: string, t: State, e: Entry, c: Call)
    requires NothingOverdue(p, c.now) && Visits(p, t, i, e, c)
    ensures NothingOverdue(t, c.now)
  {
    hide EntryHolds;
  }

  lemma VisitKeeps(s: State, quota: nat, visited: seq<string>, c: Call, p: Progress, i: string, t: State, e: Entry)
    requires p.Going? && Kept(s, quota, visited, c, p) && i in s.items && i !in visited
    requires Visits(p.state, t, i, e, c)
    requires if e.created then p.quota > 0 else e.leaseId in s.leases && p.state.leases[e.leaseId] == s.leases[e.leaseId]
    ensures Kept(s, quota, visited + [i], c, Going(t, if e.created then p.quota - 1 else p.quota, p.entries + [e]))
  {
    hide Visits, LeasesKept, EntriesHold, RestKept, NothingOverdue, Created;
    VisitKeepsEntries(s, visited, c, p.state, p.entries, i, t, e);
    VisitKeepsLeases(s, c, p.state, p.entries, i, t, e);
    VisitKeepsRest(s, visited, c, p.state, i, t, e);
    VisitKeepsTime(p.state, i, t, e, c);
    CreatedGrows(p.entries, e);
    if e.created {
      CreatedIsLeased(s, p.state, p.entries, i, t, e, c);
    }
  }

  lemma CreatedIsLeased(s: State, p: State, entries: seq<Entry>, i: string, t: State, e: Entry, c: Call)
    requires LeasesKept(s, p, entries) && Visits(p, t, i, e, c) && e.created
    ensures e.leaseId !in Created(entries)
  {
    hide Created, EntryHolds;
  }

  lemma {:induction false} BatchKeeps(s: State, quota: nat, targets: seq<string>, c: Call)
    requires NothingOverdue(s, c.now) && MintsFresh(s, c)
    requires NoRepeats(targets) && forall i | i in targets :: i in s.items
    ensures Kept(s, quota, targets, c, VisitAll(s, quota, targets, c))
  {
    hide LeaseNew, Reconcile, Visits;
    if targets == [] {
      assert Created([]) == {};
    } else {
      var n := |targets| - 1;
      var i := targets[n];
      BatchKeeps(s, quota, targets[..n], c);
      var p := VisitAll(s, quota, targets[..n], c);
      assert targets[..n] + [i] == targets && i !in targets[..n];
      if p.Going? {
        StepKeeps(s, quota, targets[..n], c, p, i);
      }
    }
  }

  lemma StepKeeps(s: State, quota: nat, visited: seq<string>, c: Call, p: Progress, i: string)
    requires p.Going? && Kept(s, quota, visited, c, p) && i in s.items && i !in visited && MintsFresh(s, c)
    ensures Kept(s, quota, visited + [i], c, Visit(p, i, c))
  {
    hide LeaseNew, Reconcile, Visits, LeasesKept, EntriesHold, NothingOverdue, Created;
    var own := OwnOn(p.state, i, c.agentId);
    if own.Some? {
      ReenteredIsOld(s, visited, c, p.state, p.entries, i, own.value);
      ReconcileVisits(p.state, i, own.value, c);
      var (t, e) := Reconcile(p.state, i, own.value, c);
      VisitKeeps(s, quota, visited, c, p, i, t, e);
    } else if p.quota > 0 && LeaseNew(p.state, i, c).Made? {
      var made := LeaseNew(p.state, i, c);
      MintedIsNew(s, visited, c, p.state, p.entries, i);
      LeaseNewVisits(p.state, i, c);
      VisitKeeps(s, quota, visited, c, p, i, made.state, made.entry);
    } else {
      SkipKeeps(s, quota, visited, c, p, i);
    }
  }

  lemma SkipKeeps(s: State, quota: nat, visited: seq<string>, c: Call, p: Progress, i: string)
    requires Kept(s, quota, visited, c, p)
    ensures Kept(s, quota, visited + [i], c, p)
  {
    hide EntryHolds, Created, NothingOverdue;
  }

  lemma MintedIsNew(s: State, visited: seq<string>, c: Call, p: State, entries: seq<Entry>, i: string)
    requires LeasesKept(s, p, entries) && EntriesHold(s, visited, p, entries, c)
    requires i !in visited && MintsFresh(s, c)
    ensures c.mint(i) !in p.leases
  {
    assert IsNew(s, c.mint(i));
    assert forall e | e in entries && e.created :: EntryHolds(s, p, e, c) && e.itemId in visited;
  }

  function Larger(a: nat, b: nat): nat {
    if a < b then b else a
  }

  lemma {:induction false} IssuedOncePerCreation(entries: seq<Entry>, agentId: string, id: string)
    requires forall j, k | 0 <= j < k < |entries| && entries[j].created && entries[k].created ::
               entries[j].leaseId != entries[k].leaseId
    ensures IssueCount(IssueEvents(entries, agentId), id) == if id in Created(entries) then 1 else 0
  {
    if entries == [] {
      assert Created(entries) == {};
    } else {
      var n := |entries| - 1;
      var e := entries[n];
      IssuedOncePerCreation(entries[..n], agentId, id);
      assert entries[..n] + [e] == entries;
      CreatedGrows(entries[..n], e);
      if e.created {
        var event := RequestIssued(e.itemId, e.leaseId, agentId, e.request.requestId, false);
        IssueCountAdds(IssueEvents(entries[..n], agentId), [event], id);
        assert [event][..0] == [] && event.Issues(id) == (id == e.leaseId);
        assert IssueEvents(entries, agentId) == IssueEvents(entries[..n], agentId) + [event];
        assert e.leaseId !in Created(entries[..n]);
      } else {
        assert IssueEvents(entries, agentId) == IssueEvents(entries[..n], agentId);
      }
    }
  }

  /** Every lease a batch created is issued once, and no other lease is issued again. */
  lemma BatchIssues(e: State, t: State, entries: seq<Entry>, c: Call, visited: seq<string>, id: string)
    requires RestKept(e, visited, t) && EntriesHold(e, visited, t, entries, c)
    requires forall i, j | i != j :: c.mint(i) != c.mint(j)
    ensures IssueCount(t.ledger + IssueEvents(entries, c.agentId), id)
         == IssueCount(e.ledger, id) + if id in Created(entries) then 1 else 0
  {
    forall j, k | 0 <= j < k < |entries| && entries[j].created && entries[k].created
      ensures entries[j].leaseId != entries[k].leaseId
    {
      assert entries[j] in entries && entries[k] in entries;
    }
    IssuedOncePerCreation(entries, c.agentId, id);
    IssueCountAdds(t.ledger, IssueEvents(entries, c.agentId), id);
    var added := t.ledger[|e.ledger|..];
    assert t.ledger == e.ledger + added;
    NoIssueCounts(added, id);
    IssueCountAdds(e.ledger, added, id);
  }

  lemma CreatedAreNew(e: State, t: State, entries: seq<Entry>, c: Call, visited: seq<string>, id: string)
    requires EntriesHold(e, visited, t, entries, c) && MintsFresh(e, c) && id in Created(entries)
    ensures id !in e.leases && id in OwnActive(t, c.agentId)
  {
    var entry :| entry in entries && entry.created && entry.leaseId == id;
    assert EntryHolds(e, t, entry, c) && IsNew(e, c.mint(entry.itemId));
  }

  lemma BatchHolds(e: State, t: State, entries: seq<Entry>, c: Call, visited: seq<string>)
    requires LeasesKept(e, t, entries) && EntriesHold(e, visited, t, entries, c) && MintsFresh(e, c)
    ensures OwnActive(t, c.agentId) == OwnActive(e, c.agentId) + Created(entries)
    ensures OwnActive(e, c.agentId) !! Created(entries)
  {
    hide EntriesHold, MintsFresh, Created, Touched;
    forall id | id in Created(entries) ensures id !in e.leases && id in OwnActive(t, c.agentId) {
      CreatedAreNew(e, t, entries, c, visited, id);
    }
  }

  /**
    A committed batch: the agent holds at most the larger of the limit and what it held before;
    every entry is a lease it holds, an old one under its own terms or a new one on a thread
    classified fix; no item twice; no other lease changed; one first issue for each new lease.
  */
  lemma BatchClaimIsBounded(s: State, order: seq<string>, c: Call)
    requires NoRepeats(order) && MintsFresh(s, c) && CommitBatch(s, order, c).Some?
    ensures var (t, entries) := CommitBatch(s, order, c).value;
            var e := Expire(s, c.now);
            && |OwnActive(t, c.agentId)| <= Larger(MAX_PARALLEL_CLAIMS, |OwnActive(e, c.agentId)|)
            && (forall entry | entry in entries :: EntryHolds(e, t, entry, c))
            && (forall j, k | 0 <= j < k < |entries| :: entries[j].itemId != entries[k].itemId)
            && LeasesKept(e, t, entries)
            && (forall id | id in Created(entries) :: id !in s.leases)
            && (forall id :: IssueCount(t.ledger, id)
                          == IssueCount(s.ledger, id) + if id in Created(entries) then 1 else 0)
  {
    hide VisitAll, NothingOverdue, LeasesKept, EntriesHold, RestKept, IssueEvents, EntryHolds, Created, OwnActive,
         IssueCount, MintsFresh, Expire, Targets, Touched;
    var e := Expire(s, c.now);
    var targets := Targets(e, order, c);
    var quota := Quota(|OwnActive(e, c.agentId)|);
    var p := VisitAll(e, quota, targets, c);
    var (t, entries) := CommitBatch(s, order, c).value;
    StillFresh(s, c);
    ExpireLeavesNothingOverdue(s, c.now);
    BatchKeeps(e, quota, targets, c);
    BatchHolds(e, p.state, entries, c, targets);
    EntriesIgnoreLedger(e, p.state, t, entries, c, targets);
    forall id ensures IssueCount(t.ledger, id) == IssueCount(s.ledger, id) + if id in Created(entries) then 1 else 0 {
      BatchIssues(e, p.state, entries, c, targets, id);
    }
    assert |OwnActive(e, c.agentId) + Created(entries)| == |OwnActive(e, c.agentId)| + |Created(entries)|;
    forall id | id in Created(entries) ensures id !in s.leases {
      CreatedAreNew(e, p.state, entries, c, targets, id);
    }
  }

  lemma StillFresh(s: State, c: Call)
    requires MintsFresh(s, c)
    ensures var e := Expire(s, c.now);
            MintsFresh(e, c) && e.ledger == s.ledger && e.leases.Keys == s.leases.Keys && e.items.Keys == s.items.Keys
    ensures forall i, j | i != j :: c.mint(i) != c.mint(j)
  {
    assert forall i :: IsNew(s, c.mint(i));
  }

  /** What held of the leases and items still holds when only the ledger grew. */
  lemma EntriesIgnoreLedger(e: State, p: State, t: State, entries: seq<Entry>, c: Call, visited: seq<string>)
    requires EntriesHold(e, visited, p, entries, c) && LeasesKept(e, p, entries)
    requires t == p.(ledger := t.ledger)
    ensures forall entry | entry in entries :: EntryHolds(e, t, entry, c)
    ensures forall j, k | 0 <= j < k < |entries| :: entries[j].itemId != entries[k].itemId
    ensures LeasesKept(e, t, entries)
    ensures OwnActive(t, c.agentId) == OwnActive(p, c.agentId)
  {
    forall entry | entry in entries ensures EntryHolds(e, t, entry, c) {
      assert EntryHolds(e, p, entry, c);
    }
  }
}
