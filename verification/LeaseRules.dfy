/** What two live leases never share, and exactly when a claim is refused, in terms of keys, paths and lines. */
module LeaseRules {
  import opened Wrappers
  import opened Protocol
  import opened Leases
  import opened BatchClaim
  import opened ProtocolRuns
  import opened ProtocolSafety
  import opened ProtocolWorld

  /** The keys hold a hunk of the path that covers the line. */
  predicate Covers(keys: set<Key>, path: string, line: int) {
    exists k | k in keys :: k.HunkKey? && k.path == path && k.first <= line <= k.last
  }

  predicate HasHunkOf(keys: set<Key>, path: string) {
    exists k | k in keys :: k.HunkKey? && k.path == path
  }

  const OBSERVERS := {Triage, Verifier, ReviewProducer, Gatekeeper}

  /** No key, no line of a path, and no file beside a hunk of it in common. */
  ghost predicate Apart(a: set<Key>, b: set<Key>) {
    && a !! b
    && (forall path, line :: !(Covers(a, path, line) && Covers(b, path, line)))
    && (forall path | FileKey(path) in a :: !HasHunkOf(b, path))
    && (forall path | FileKey(path) in b :: !HasHunkOf(a, path))
  }

  /** What two live leases may never share, by who holds them. */
  ghost predicate Separated(a: Lease, b: Lease) {
    && a.itemId != b.itemId
    && (|| (a.role in OBSERVERS && b.role in OBSERVERS)
        || Apart(a.keys, b.keys)
        || (a.role == Fixer && b.role == Fixer && a.agentId == b.agentId
            && forall k | k in a.keys && k in b.keys :: k.FileKey? || k.HunkKey? || k.RawHunkKey?))
  }

  lemma UnoverlappedIsApart(a: set<Key>, b: set<Key>)
    requires !Overlaps(a, b)
    ensures Apart(a, b)
  {
    forall path, line ensures !(Covers(a, path, line) && Covers(b, path, line)) {
      if Covers(a, path, line) {
        var j :| j in a && j.HunkKey? && j.path == path && j.first <= line <= j.last;
        forall k | k in b ensures !(k.HunkKey? && k.path == path && k.first <= line <= k.last) {
          assert !Clash(j, k);
        }
      }
    }
    forall path | FileKey(path) in a ensures !HasHunkOf(b, path) {
      assert forall k | k in b :: !Clash(FileKey(path), k);
    }
    forall path | FileKey(path) in b ensures !HasHunkOf(a, path) {
      assert forall j | j in a :: !Clash(j, FileKey(path));
    }
  }

  lemma CompatibleIsSeparated(a: Lease, b: Lease)
    requires Compatible(a, b)
    ensures Separated(a, b)
  {
    if !Overlaps(a.keys, b.keys) {
      UnoverlappedIsApart(a.keys, b.keys);
    }
  }

  /** In every stored session of every run, any two live leases are separated. */
  lemma LiveLeasesAreSeparated(run: seq<World>, i: nat, a: string, b: string)
    requires IsRun(run) && WorldSound(run[0]) && i < |run| && a != b
    requires var leases := run[i].store.leases;
             && a in leases && leases[a].status in {Active, Submitted}
             && b in leases && leases[b].status in {Active, Submitted}
    ensures Separated(run[i].store.leases[a], run[i].store.leases[b])
  {
    EveryRunIsSound(run);
    assert WorldSound(run[i]);
    var s := run[i].store;
    hide WorldSound, IsRun, Separated;
    assert Compatible(s.leases[a], s.leases[b]) by { assert Sound(s) by { SoundWorld(run[i]); } }
    CompatibleIsSeparated(s.leases[a], s.leases[b]);
  }

  lemma SoundWorld(w: World)
    requires WorldSound(w)
    ensures Sound(w.store)
  {
  }

  // -------------------------------------------------------- refused claims

  /** Keys that collide: one in common, a file beside a hunk of it, or two hunks of a path that meet. */
  predicate Collide(a: set<Key>, b: set<Key>) {
    || (exists k | k in a :: k in b)
    || (exists k | k in a :: k.FileKey? && HasHunkOf(b, k.path))
    || (exists k | k in b :: k.FileKey? && HasHunkOf(a, k.path))
    || (exists k | k in a :: k.HunkKey? && MeetsHunkOf(b, k.path, k.first, k.last))
  }

  predicate MeetsHunkOf(keys: set<Key>, path: string, first: int, last: int) {
    exists k | k in keys :: k.HunkKey? && k.path == path && k.first <= last && first <= k.last
  }

  /** Hunks whose ends are in order meet exactly when they have a line in common. */
  lemma OrderedHunksShareALine(keys: set<Key>, path: string, first: int, last: int)
    requires first <= last && forall k | k in keys && k.HunkKey? :: k.first <= k.last
    ensures MeetsHunkOf(keys, path, first, last) <==> exists line :: first <= line <= last && Covers(keys, path, line)
  {
    if MeetsHunkOf(keys, path, first, last) {
      var k :| k in keys && k.HunkKey? && k.path == path && k.first <= last && first <= k.last;
      var line := if first <= k.first then k.first else first;
      assert Covers(keys, path, line);
    }
  }

  /** The one overlap a claim may have with another agent's lease: none. With its own: files and hunks of a thread. */
  predicate IsTolerated(g: Grant, keys: set<Key>, held: Lease) {
    && g.allow && g.role == Fixer && held.role == Fixer && held.agentId == g.agentId
    && (forall k | k in keys && k in held.keys :: k.FileKey? || k.HunkKey? || k.RawHunkKey?)
    && (exists k | k in held.keys :: k.ReplyKey?) && (exists k | k in held.keys :: k.ResolveKey?)
  }

  predicate StandsInTheWay(held: Lease, g: Grant, keys: set<Key>, now: int) {
    && held.status in {Active, Submitted} && held.expiresAt > now
    && (|| held.itemId == g.itemId
        || (Collide(keys, held.keys) && !(g.role in OBSERVERS && held.role in OBSERVERS) && !IsTolerated(g, keys, held)))
  }

  lemma OverlapIsCollision(a: set<Key>, b: set<Key>)
    ensures Overlaps(a, b) <==> Collide(a, b)
  {
    if Overlaps(a, b) {
      var j, k :| j in a && k in b && Clash(j, k);
      assert j.HunkKey? && k.HunkKey? && j != k ==> MeetsHunkOf(b, j.path, j.first, j.last);
      assert j.FileKey? && k.HunkKey? ==> HasHunkOf(b, j.path);
      assert j.HunkKey? && k.FileKey? ==> HasHunkOf(a, k.path);
    }
    if k :| k in a && k in b {
      assert Clash(k, k);
    }
    if k :| k in a && k.FileKey? && HasHunkOf(b, k.path) {
      var h :| h in b && h.HunkKey? && h.path == k.path;
      assert Clash(k, h);
    }
    if k :| k in b && k.FileKey? && HasHunkOf(a, k.path) {
      var h :| h in a && h.HunkKey? && h.path == k.path;
      assert Clash(h, k);
    }
    if k :| k in a && k.HunkKey? && MeetsHunkOf(b, k.path, k.first, k.last) {
      var h :| h in b && h.HunkKey? && h.path == k.path && h.first <= k.last && k.first <= h.last;
      assert Clash(k, h);
    }
  }

  lemma BlockingIsStanding(held: Lease, g: Grant, keys: set<Key>, now: int)
    ensures StandsInTheWay(held, g, keys, now)
        <==> !held.Overdue(now) && Blocks(held, g.itemId, keys, g.agentId, g.role, g.allow)
  {
    OverlapIsCollision(keys, held.keys);
    hide Overlaps, Collide;
  }

  /** A claim is refused exactly when some unexpired live lease stands in its way. */
  lemma ClaimIsRefusedExactly(s: State, g: Grant, now: int)
    requires g.itemId in s.items
    ensures Claim(s, g, now).None?
        <==> exists id | id in s.leases :: StandsInTheWay(s.leases[id], g, {ItemKey(g.itemId)} + s.items[g.itemId].keys, now)
  {
    var e := Expire(s, now);
    var keys := {ItemKey(g.itemId)} + s.items[g.itemId].keys;
    assert ConflictKeys(g.itemId, e.items[g.itemId]) == keys;
    forall id | id in s.leases
      ensures Blocks(e.leases[id], g.itemId, keys, g.agentId, g.role, g.allow) <==> StandsInTheWay(s.leases[id], g, keys, now)
    {
      BlockingIsStanding(s.leases[id], g, keys, now);
    }
    hide Blocks, StandsInTheWay;
  }
}
