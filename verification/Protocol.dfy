/** The session that agents work on: items, leases and an append-only evidence ledger. */
module Protocol {
  import opened Wrappers

  datatype Json = Null | Bool(b: bool) | Num(n: int) | Str(s: string) | List(items: seq<Json>) | Obj(fields: map<string, Json>)

  /** Python's truth value of a JSON value. */
  predicate Truthy(v: Json) {
    match v
    case Null => false
    case Bool(b) => b
    case Num(n) => n != 0
    case Str(s) => s != ""
    case List(items) => items != []
    case Obj(fields) => fields != map[]
  }

  /** The value of an optional field: an absent field reads as null. */
  function Get(v: Option<Json>): Json {
    if v.Some? then v.value else Null
  }

  // --------------------------------------------------------------- requests

  /** The hashed part of an ActionRequest: its identity and everything else it says. */
  datatype Request = Request(requestId: string, leaseId: string, body: Json)

  /** The stable hash of a request, taken as collision free. */
  datatype Hash = HashOf(request: Request)

  /** What a request path holds, as the submit path sees it. */
  datatype File = Missing | Invalid | Superseded | Stored(request: Request)

  // ----------------------------------------------------------------- leases

  datatype Role = Fixer | Triage | Verifier | ReviewProducer | Gatekeeper | OtherRole(name: string)

  predicate IsReadOnly(role: Role) {
    role.Triage? || role.Verifier? || role.ReviewProducer? || role.Gatekeeper?
  }

  /** What a lease reserves. A raw hunk is one whose range could not be read. */
  datatype Key =
    | ItemKey(id: string)
    | FileKey(path: string)
    | HunkKey(path: string, first: int, last: int)
    | RawHunkKey(text: string)
    | ThreadKey(id: string)
    | ReplyKey(id: string)
    | ResolveKey(id: string)
    | OtherKey(text: string)

  datatype Status = Active | Submitted | Accepted | Rejected | Expired | Released

  datatype Lease = Lease(
    itemId: string,
    agentId: string,
    role: Role,
    status: Status,
    expiresAt: int,
    hash: Hash,
    requestId: string,
    requestPath: string,
    keys: set<Key>
  ) {
    predicate Live() {
      status == Active || status == Submitted
    }

    predicate Overdue(now: int) {
      Live() && expiresAt <= now
    }

    /** The terms fixed when the lease is granted; status and request hash may change. */
    predicate SameTerms(other: Lease) {
      && itemId == other.itemId && agentId == other.agentId && role == other.role
      && requestId == other.requestId && requestPath == other.requestPath && keys == other.keys
    }
  }

  // ------------------------------------------------------------------ items

  datatype Resolution = Fix | Clarify | Defer | Reject

  datatype Phase =
    | Unset
    | Open
    | Blocked
    | WaitingForFix
    | Stale
    | Claimed
    | PublishReady
    | Handled(resolution: Resolution)
    | Terminal(name: string)
    | Unlisted(name: string)

  datatype ItemStatus = NoStatus | IsOpen | IsStale | IsClosed | IsClarified | IsDeferred | IsDropped | OtherStatus(text: string)

  /** The response kept on a thread item until it is published. */
  datatype AcceptedResponse = AcceptedResponse(
    note: Json,
    resolution: Resolution,
    files: Json,
    validation: Json,
    replyMarkdown: Json,
    fixReply: Json,
    binding: Option<Json>,
    evidenceRef: Option<Json>
  )

  /** Everything an accepted response writes on an item besides its claim and phase. */
  datatype Evidence = Evidence(
    publish: Option<Resolution>,
    accepted: Option<AcceptedResponse>,
    handled: bool,
    handledAt: Option<int>,
    note: Json,
    validation: Json,
    binding: Option<Json>,
    files: Option<Json>,
    replyMarkdown: Option<Json>,
    fixReply: Option<Json>,
    evidenceRef: Option<Json>
  )

  const BLANK := Evidence(None, None, false, None, Null, Null, None, None, None, None, None)

  datatype Item = Item(
    thread: bool,
    outdated: bool,
    resolved: Option<bool>,
    path: string,
    keys: set<Key>,
    phase: Phase,
    status: ItemStatus,
    blocking: bool,
    classification: Option<Resolution>,
    decision: Option<Resolution>,
    activeLease: Option<string>,
    claimedBy: Option<string>,
    rejectionNote: Option<Json>,
    evidence: Evidence
  )

  /** The phase, read from the status when it is not set. */
  function Normalized(item: Item): Phase {
    if item.phase != Unset then item.phase
    else
      match item.status
      case NoStatus => Unset
      case IsOpen => Open
      case IsStale => Stale
      case IsClosed => Terminal("closed")
      case IsClarified => Terminal("clarified")
      case IsDeferred => Terminal("deferred")
      case IsDropped => Unlisted("dropped")
      case OtherStatus(text) => Unlisted(text)
  }

  predicate IsStaleOrOutdated(item: Item) {
    Normalized(item) == Stale || item.status == IsStale || item.outdated
  }

  predicate IsStaleThread(item: Item) {
    item.thread && IsStaleOrOutdated(item)
  }

  predicate IsTerminal(phase: Phase) {
    phase.Terminal? || phase == Handled(Fix)
  }

  predicate IsClaimableThread(item: Item) {
    var resolved := if item.resolved.Some? then item.resolved.value else IsTerminal(Normalized(item));
    var phase := Normalized(item);
    item.thread && !resolved && phase in {Open, Blocked, WaitingForFix, Stale, Unset}
  }

  predicate IsClaimable(item: Item) {
    if item.thread then IsClaimableThread(item)
    else Normalized(item) in {Open, Blocked, WaitingForFix, Unset}
  }

  predicate IsBatchClaimable(item: Item) {
    IsClaimableThread(item) && !IsStaleThread(item)
  }

  function ToClaimable(item: Item): Item {
    if IsStaleOrOutdated(item) then item.(phase := Stale, status := IsStale)
    else item.(phase := Open, status := IsOpen)
  }

  function Unmarked(item: Item): Item {
    item.(claimedBy := None, activeLease := None)
  }

  /** Back to claimable and blocking again, unless it is a stale thread. */
  function Reopened(item: Item): Item {
    var back := Unmarked(ToClaimable(item));
    if IsStaleThread(back) then back else back.(blocking := true)
  }

  function ConflictKeys(itemId: string, item: Item): set<Key> {
    {ItemKey(itemId)} + item.keys
  }

  // ----------------------------------------------------------------- ledger

  /** The part of an accepted response that the ledger keeps for replay. */
  datatype Snapshot = Snapshot(
    resolution: Resolution,
    note: Json,
    files: Json,
    validation: Json,
    replyMarkdown: Option<Json>,
    fixReply: Option<Json>,
    evidenceRef: Option<Json>
  )

  datatype Event =
    | ClassificationRecorded(itemId: string, agentId: string, classification: Resolution)
    | ClassificationLeaseReleased(itemId: string, leaseId: string)
    | RequestIssued(itemId: string, leaseId: string, agentId: string, requestId: string, rebuilt: bool)
    | RequestRejected(itemId: string, agentId: string)
    | ResponseRejected(itemId: string, agentId: string, reason: Reason)
    | ResponseAccepted(itemId: string, leaseId: string, agentId: string, role: Role, snapshot: Snapshot)
    | VerificationRejected(itemId: string, leaseId: string, agentId: string, note: Json)
    | LeaseExpired(itemId: string, leaseId: string)
  {
    /** The two events that close a lease with an answer. */
    predicate Accepts() {
      ResponseAccepted? || VerificationRejected?
    }

    /** The first issue of a request, written with the lease it belongs to. */
    predicate Issues(id: string) {
      RequestIssued? && leaseId == id && !rebuilt
    }

    predicate Names(id: string) {
      && (ClassificationLeaseReleased? || RequestIssued? || ResponseAccepted? || VerificationRejected? || LeaseExpired?)
      && leaseId == id
    }
  }

  datatype Reason =
    | MissingField(name: string)
    | LeaseNotFound
    | ItemIdMismatch
    | ItemNotFound
    | InvalidResponse(code: string)
    | RequestContextNotFound
    | RequestProtocolSuperseded
    | InvalidRequestContext
    | StaleRequestContext
    | StackActionContextMismatch
    | DuplicateSubmission
    | StaleLease
    | ExpiredLease
    | CrossRole
    | WrongAgent
    | WrongItem
    | BatchDuplicateLease
    | BatchDuplicateItem
    | BatchUnsupportedItemKind
    | BatchUnsupportedRole
    | BatchUnsupportedResolution

  datatype State = State(items: map<string, Item>, leases: map<string, Lease>, ledger: seq<Event>)

  predicate LiveOn(s: State, id: string, itemId: string) {
    id in s.leases && s.leases[id].Live() && s.leases[id].itemId == itemId
  }

  ghost predicate IsHeld(s: State, itemId: string) {
    exists id :: LiveOn(s, id, itemId)
  }

  ghost function Holder(s: State, itemId: string): (id: string)
    requires IsHeld(s, itemId)
    ensures LiveOn(s, id, itemId)
  {
    var id :| LiveOn(s, id, itemId);
    id
  }

  /** At most one live lease per item. */
  ghost predicate OneLive(s: State) {
    forall a, b, i :: LiveOn(s, a, i) && LiveOn(s, b, i) ==> a == b
  }

  /** The claim fields the store derives for an item from the leases. */
  ghost function Derived(s: State, itemId: string, item: Item): Item {
    if IsHeld(s, itemId) then
      var id := Holder(s, itemId);
      item.(phase := Claimed, activeLease := Some(id), claimedBy := Some(s.leases[id].agentId))
    else Unmarked(if item.phase == Claimed then ToClaimable(item) else item)
  }

  /** Every item carries exactly the claim fields its leases call for. */
  ghost predicate Marked(s: State) {
    OneLive(s) && forall i | i in s.items :: s.items[i] == Derived(s, i, s.items[i])
  }

  /** What a commit stores: claim fields derived afresh, or nothing when an item is held twice. */
  ghost function Commit(s: State): Option<State> {
    if OneLive(s) then Some(s.(items := map i | i in s.items :: Derived(s, i, s.items[i]))) else None
  }

  /** How often a request was first issued for a lease. */
  function IssueCount(ledger: seq<Event>, id: string): nat {
    if ledger == [] then 0
    else IssueCount(ledger[..|ledger| - 1], id) + if ledger[|ledger| - 1].Issues(id) then 1 else 0
  }

  lemma {:induction false} IssueCountAdds(a: seq<Event>, b: seq<Event>, id: string)
    ensures IssueCount(a + b, id) == IssueCount(a, id) + IssueCount(b, id)
  {
    if b == [] {
      assert a + b == a;
    } else {
      IssueCountAdds(a, b[..|b| - 1], id);
      assert (a + b)[..|a + b| - 1] == a + b[..|b| - 1];
    }
  }

  lemma {:induction false} NoIssueCounts(ledger: seq<Event>, id: string)
    requires forall e | e in ledger :: !e.Issues(id)
    ensures IssueCount(ledger, id) == 0
  {
    if ledger != [] {
      NoIssueCounts(ledger[..|ledger| - 1], id);
    }
  }
}
