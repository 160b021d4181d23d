/** Granting, submitting, accepting, expiring and releasing leases. */
module Leases {
  import opened Wrappers
  import opened Protocol

  const TTL_SECONDS := 3600

  // ----------------------------------------------------------------- conflicts

  /** Two keys that reserve a common piece of the repository or of GitHub. */
  predicate Clash(a: Key, b: Key) {
    || a == b
    || (a.FileKey? && b.HunkKey? && a.path == b.path)
    || (a.HunkKey? && b.FileKey? && a.path == b.path)
    || (a.HunkKey? && b.HunkKey? && a.path == b.path && a.first <= b.last && b.first <= a.last)
  }

  predicate Overlaps(a: set<Key>, b: set<Key>) {
    exists j, k | j in a && k in b :: Clash(j, k)
  }

  predicate IsSoft(k: Key) {
    k.FileKey? || k.HunkKey? || k.RawHunkKey?
  }

  /** Every overlap is a matter of files and hunks alone. */
  predicate OverlapsSoftly(a: set<Key>, b: set<Key>) {
    forall k | k in a && k in b :: IsSoft(k)
  }

  predicate RepliesAndResolves(keys: set<Key>) {
    (exists k | k in keys :: k.ReplyKey?) && (exists k | k in keys :: k.ResolveKey?)
  }

  /** An existing lease that forbids a new claim on `itemId` with `keys`. */
  predicate Blocks(held: Lease, itemId: string, keys: set<Key>, agentId: string, role: Role, allow: bool) {
    held.Live() &&
    (held.itemId == itemId
     || (Overlaps(keys, held.keys)
         && !(IsReadOnly(role) && IsReadOnly(held.role))
         && !(allow && role == Fixer && held.role == role && held.agentId == agentId
              && OverlapsSoftly(keys, held.keys) && RepliesAndResolves(held.keys))))
  }

  /** What two live leases may share. */
  predicate Compatible(a: Lease, b: Lease) {
    && a.itemId != b.itemId
    && (Overlaps(a.keys, b.keys) ==>
          || (IsReadOnly(a.role) && IsReadOnly(b.role))
          || (a.role == Fixer && b.role == Fixer && a.agentId == b.agentId && OverlapsSoftly(a.keys, b.keys)))
  }

  lemma ClashIsSymmetric(a: Lease, b: Lease)
    requires Compatible(a, b)
    ensures Compatible(b, a)
  {
    if Overlaps(b.keys, a.keys) {
      var j, k :| j in b.keys && k in a.keys && Clash(j, k);
      assert Clash(k, j);
    }
  }

  // --------------------------------------------------------------- transitions

  function Expire(s: State, now: int): State {
    s.(leases := map id | id in s.leases ::
                   if s.leases[id].Overdue(now) then s.leases[id].(status := Expired) else s.leases[id],
       items := map i | i in s.items ::
                  if HoldsOverdue(s, s.items[i], now) then Unmarked(ToClaimable(s.items[i])) else s.items[i])
  }

  predicate HoldsOverdue(s: State, item: Item, now: int) {
    item.activeLease.Some? && item.activeLease.value in s.leases && s.leases[item.activeLease.value].Overdue(now)
  }

  /** The claim fields of an item whose lease `id` of `agentId` expired. */
  function AfterExpiry(item: Item, id: string, agentId: string): Item {
    var back := if item.activeLease == Some(id) then Unmarked(ToClaimable(item)) else item;
    if && back.phase == Claimed
       && (back.activeLease.None? || back.activeLease == Some(id))
       && (back.claimedBy.None? || back.claimedBy == Some(agentId))
    then Unmarked(back.(phase := Open)) else back
  }

  function ExpireOne(s: State, id: string): State
    requires id in s.leases
  {
    var lease := s.leases[id];
    s.(leases := s.leases[id := lease.(status := Expired)],
       items := if lease.itemId in s.items
                then s.items[lease.itemId := AfterExpiry(s.items[lease.itemId], id, lease.agentId)]
                else s.items)
  }

  datatype Grant = Grant(
    leaseId: string,
    itemId: string,
    agentId: string,
    role: Role,
    hash: Hash,
    requestId: string,
    requestPath: string,
    allow: bool
  )

  function Granted(g: Grant, keys: set<Key>, now: int): Lease {
    Lease(g.itemId, g.agentId, g.role, Active, now + TTL_SECONDS, g.hash, g.requestId, g.requestPath, keys)
  }

  predicate IsBlocked(s: State, g: Grant, keys: set<Key>) {
    exists id | id in s.leases :: Blocks(s.leases[id], g.itemId, keys, g.agentId, g.role, g.allow)
  }

  /** Expire, then grant a new active lease unless a live lease stands in the way. */
  function Claim(s: State, g: Grant, now: int): Option<State>
    requires g.itemId in s.items
  {
    var e := Expire(s, now);
    var keys := ConflictKeys(g.itemId, e.items[g.itemId]);
    if IsBlocked(e, g, keys) then None
    else Some(e.(leases := e.leases[g.leaseId := Granted(g, keys, now)]))
  }

  /** Why a submission is refused, in the order the checks are made. */
  function SubmitRefusal(l: Lease, agentId: string, role: Role, itemId: string, hash: Hash, now: int): Option<Reason> {
    if l.status == Submitted then Some(DuplicateSubmission)
    else if l.status != Active then Some(StaleLease)
    else if l.role != role then Some(CrossRole)
    else if l.agentId != agentId then Some(WrongAgent)
    else if l.itemId != itemId then Some(WrongItem)
    else if l.expiresAt <= now then Some(ExpiredLease)
    else if l.hash != hash then Some(StaleRequestContext)
    else None
  }

  function Submit(s: State, id: string, agentId: string, role: Role, itemId: string, hash: Hash, now: int)
    : (State, Option<Reason>)
  {
    if id !in s.leases then (s, Some(LeaseNotFound))
    else
      var why := SubmitRefusal(s.leases[id], agentId, role, itemId, hash, now);
      if why == Some(ExpiredLease) then (ExpireOne(s, id), why)
      else if why.Some? then (s, why)
      else (s.(leases := s.leases[id := s.leases[id].(status := Submitted)]), None)
  }

  function Accept(s: State, id: string): Option<State> {
    if id in s.leases && s.leases[id].status == Submitted
    then Some(s.(leases := s.leases[id := s.leases[id].(status := Accepted)])) else None
  }

  function Release(s: State, id: string): Option<State> {
    if id in s.leases && s.leases[id].Live()
    then Some(s.(leases := s.leases[id := s.leases[id].(status := Released)])) else None
  }

  /** Release a claim that its caller gives up, and return the item when the claim marked it. */
  function ReleaseClaimed(s: State, id: string): State {
    var r := Release(s, id);
    if r.None? then s
    else
      var itemId := s.leases[id].itemId;
      if itemId in s.items && s.items[itemId].activeLease == Some(id)
      then r.value.(items := s.items[itemId := Unmarked(ToClaimable(s.items[itemId]))])
      else r.value
  }

  predicate IsOwnFixer(s: State, id: string, itemId: string, agentId: string) {
    LiveOn(s, id, itemId) && s.leases[id].agentId == agentId && s.leases[id].role == Fixer
  }

  /** An agent gives up its own live fixer leases on a thread that went stale. */
  ghost function ReleaseSelfStale(s: State, itemId: string, agentId: string): State {
    if !exists id :: IsOwnFixer(s, id, itemId, agentId) then s
    else
      s.(leases := map id | id in s.leases ::
                     if IsOwnFixer(s, id, itemId, agentId) then s.leases[id].(status := Released) else s.leases[id],
         items := if itemId in s.items
                  then s.items[itemId := s.items[itemId].(activeLease := None, phase := Stale, status := IsStale)]
                  else s.items)
  }

  /** Release a lease whose request cannot be recovered; leave an item that another lease holds. */
  function ReleaseIrrecoverable(s: State, id: string, itemId: string): State
    requires itemId in s.items
  {
    var released := if Release(s, id).Some? then Release(s, id).value else s;
    var item := s.items[itemId];
    if item.activeLease.Some? && item.activeLease != Some(id) then released
    else released.(items := s.items[itemId := Unmarked(ToClaimable(item))])
  }

  /** The ledger records of reclaimed leases, in the order they were visited. */
  function ExpiryEvents(s: State, order: seq<string>): seq<Event>
    requires forall id | id in order :: id in s.leases
  {
    if order == [] then []
    else ExpiryEvents(s, order[..|order| - 1]) + [LeaseExpired(s.leases[order[|order| - 1]].itemId, order[|order| - 1])]
  }

  function Reclaim(s: State, now: int, order: seq<string>): State
    requires forall id | id in order :: id in s.leases
  {
    var e := Expire(s, now);
    e.(ledger := s.ledger + ExpiryEvents(s, order))
  }

  // --------------------------------------------------- what the operations do

  /** One status never changes again once it is terminal. */
  predicate Terminates(before: Status, after: Status) {
    before == after || before == Active || before == Submitted
  }

  lemma {:induction false} TransitionTable(s: State, id: string, agentId: string, role: Role, itemId: string, hash: Hash, now: int)
    requires id in s.leases
    ensures var l := s.leases[id];
            var (t, why) := Submit(s, id, agentId, role, itemId, hash, now);
            && (why.None? <==> l.status == Active && l.role == role && l.agentId == agentId && l.itemId == itemId
                               && l.expiresAt > now && l.hash == hash)
            && (why.None? ==> t.leases[id].status == Submitted && Accept(t, id).Some? && Accept(s, id).None?)
            && (why == Some(CrossRole) <==> l.status == Active && l.role != role)
            && (why.Some? ==> t.leases[id].status in {l.status, Expired})
            && Terminates(l.status, t.leases[id].status)
            && (forall other | other in s.leases && other != id :: other in t.leases && t.leases[other] == s.leases[other])
    ensures Release(s, id).Some? <==> s.leases[id].Live()
    ensures Terminates(s.leases[id].status, Expire(s, now).leases[id].status)
  {
  }

  /** Nothing can be done with a lease that is not there. */
  lemma UnknownLease(s: State, id: string, agentId: string, role: Role, itemId: string, hash: Hash, now: int)
    requires id !in s.leases
    ensures Submit(s, id, agentId, role, itemId, hash, now) == (s, Some(LeaseNotFound))
    ensures Accept(s, id).None? && Release(s, id).None? && ReleaseClaimed(s, id) == s
    ensures Expire(s, now).leases.Keys == s.leases.Keys
  {
  }

  /** The item, or what GitHub says of it, is out of date. */
  predicate LooksStale(item: Item) {
    item.phase == Stale || item.status == IsStale || item.outdated
  }

  /** Given back: unclaimed, open or stale by its looks, and otherwise as it was. */
  predicate IsFreed(before: Item, after: Item) {
    after == before.(
      activeLease := None, claimedBy := None,
      phase := if LooksStale(before) then Stale else Open,
      status := if LooksStale(before) then IsStale else IsOpen)
  }

  /** Given back and blocking again, unless it is a stale thread, which keeps its mark. */
  predicate IsReopened(before: Item, after: Item) {
    && IsFreed(before, after.(blocking := before.blocking))
    && (after.blocking <==> before.blocking || !before.thread || !LooksStale(before))
  }

  lemma FreeingFrees(item: Item)
    ensures IsFreed(item, Unmarked(ToClaimable(item)))
    ensures IsReopened(item, Reopened(item))
  {
  }

  /** Open for work, by its phase or, where none is set, by its status. */
  predicate IsOpenForWork(item: Item) {
    || item.phase == Open || item.phase == Blocked || item.phase == WaitingForFix
    || (item.phase == Unset && (item.status == NoStatus || item.status == IsOpen))
  }

  /** A finding can be claimed while it is open; a thread also when it is stale, until GitHub has it resolved. */
  lemma ClaimableExactly(item: Item)
    ensures !item.thread ==> (IsClaimable(item) <==> IsOpenForWork(item))
    ensures item.thread ==>
              (IsClaimable(item) <==>
                 item.resolved != Some(true)
                 && (IsOpenForWork(item) || item.phase == Stale || (item.phase == Unset && item.status == IsStale)))
  {
  }

  /** Exactly the empty values are false. */
  lemma EmptyIsFalse(v: Json)
    ensures !Truthy(v) <==> v == Null || v == Bool(false) || v == Num(0) || v == Str("") || v == List([]) || v == Obj(map[])
  {
  }

  /**
    An item given back can be claimed again, except a thread already resolved on GitHub and a
    local finding that counts as stale.
  */
  lemma FreedItemIsClaimable(item: Item)
    ensures IsClaimable(Unmarked(ToClaimable(item)))
       <==> if item.thread then item.resolved != Some(true) else !IsStaleOrOutdated(item)
  {
    var back := ToClaimable(item);
    assert Normalized(back) == back.phase;
  }

  /** An item that one lease holds is never freed by giving up another. */
  lemma ReleaseSparesOthers(s: State, id: string, itemId: string, other: string)
    requires itemId in s.items && s.items[itemId].activeLease == Some(other) && other != id
    ensures ReleaseIrrecoverable(s, id, itemId).items == s.items
    ensures forall l | l in s.leases && l != id :: ReleaseIrrecoverable(s, id, itemId).leases[l] == s.leases[l]
  {
  }

  /** In a stored session, a claim succeeds exactly when no live lease remains in its way. */
  lemma ClaimedItemHasOneLease(s: State, g: Grant, now: int)
    requires Marked(s) && g.itemId in s.items && g.leaseId !in s.leases
    ensures Claim(s, g, now).Some? ==> OneLive(Claim(s, g, now).value)
    ensures Claim(s, g, now).Some? ==> LiveOn(Claim(s, g, now).value, g.leaseId, g.itemId)
    ensures (exists id :: LiveOn(s, id, g.itemId) && s.leases[id].expiresAt > now) ==> Claim(s, g, now).None?
  {
    var e := Expire(s, now);
    assert forall a, i :: LiveOn(e, a, i) ==> LiveOn(s, a, i);
    var keys := ConflictKeys(g.itemId, e.items[g.itemId]);
    if !IsBlocked(e, g, keys) {
      var t := Claim(s, g, now).value;
      assert forall b :: LiveOn(e, b, g.itemId) ==> Blocks(e.leases[b], g.itemId, keys, g.agentId, g.role, g.allow);
      assert forall b, i :: LiveOn(t, b, i) && b != g.leaseId ==> LiveOn(e, b, i);
    }
    if id :| LiveOn(s, id, g.itemId) && s.leases[id].expiresAt > now {
      assert e.leases[id] == s.leases[id];
      assert Blocks(e.leases[id], g.itemId, ConflictKeys(g.itemId, e.items[g.itemId]), g.agentId, g.role, g.allow);
    }
  }

  /** A granted lease is compatible with every live lease beside it. */
  lemma GrantIsCompatible(s: State, g: Grant, keys: set<Key>, now: int, id: string)
    requires !IsBlocked(s, g, keys) && id in s.leases && s.leases[id].Live()
    ensures Compatible(Granted(g, keys, now), s.leases[id])
    ensures Compatible(s.leases[id], Granted(g, keys, now))
  {
    assert !Blocks(s.leases[id], g.itemId, keys, g.agentId, g.role, g.allow);
    ClashIsSymmetric(Granted(g, keys, now), s.leases[id]);
  }
}
