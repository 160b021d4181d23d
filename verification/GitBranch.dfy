/**
  A shared git branch as a chain of commits. A plain (not forced) push moves the branch
  only forward: the commit being replaced must be an ancestor of the new one.
*/
module GitBranch {
  import opened Wrappers

  /** A commit with at most one parent. `stamp` stands for author, date and message. */
  datatype Commit<T> = Commit(tree: T, parent: Option<Commit<T>>, stamp: int)

  /** What a branch points at; `None` while the branch does not exist. */
  type Head<T> = Option<Commit<T>>

  function Depth<T>(c: Commit<T>): (d: nat)
    ensures d > 0
  {
    if c.parent.None? then 1 else 1 + Depth(c.parent.value)
  }

  predicate Ancestor<T(==)>(a: Commit<T>, c: Commit<T>)
    decreases c
  {
    a == c || (c.parent.Some? && Ancestor(a, c.parent.value))
  }

  /** The check a remote makes on a push that is not forced. */
  predicate FastForward<T(==)>(head: Head<T>, c: Commit<T>) {
    head.None? || Ancestor(head.value, c)
  }

  /** The branch moved from `before` to `after` without losing a commit. */
  predicate Extends<T(==)>(before: Head<T>, after: Head<T>) {
    before.None? || (after.Some? && Ancestor(before.value, after.value))
  }

  lemma {:induction false} AncestorDepth<T>(a: Commit<T>, c: Commit<T>)
    requires Ancestor(a, c)
    ensures Depth(a) <= Depth(c)
    ensures Depth(a) == Depth(c) ==> a == c
    decreases c
  {
    if a != c {
      AncestorDepth(a, c.parent.value);
    }
  }

  lemma {:induction false} AncestorTransitive<T>(a: Commit<T>, b: Commit<T>, c: Commit<T>)
    requires Ancestor(a, b) && Ancestor(b, c)
    ensures Ancestor(a, c)
    decreases c
  {
    if b != c {
      AncestorTransitive(a, b, c.parent.value);
    }
  }

  lemma ExtendsReflexive<T>(a: Head<T>)
    ensures Extends(a, a)
  {
  }

  lemma ExtendsTransitive<T>(a: Head<T>, b: Head<T>, c: Head<T>)
    requires Extends(a, b) && Extends(b, c)
    ensures Extends(a, c)
  {
    if a.Some? {
      AncestorTransitive(a.value, b.value, c.value);
    }
  }

  /** Two commits of one history are ordered. */
  lemma {:induction false} HistoryIsLinear<T>(a: Commit<T>, b: Commit<T>, c: Commit<T>)
    requires Ancestor(a, c) && Ancestor(b, c)
    ensures Ancestor(a, b) || Ancestor(b, a)
    decreases c
  {
    if a != c && b != c {
      HistoryIsLinear(a, b, c.parent.value);
    }
  }

  /**
    A commit made on top of the head that was read is accepted exactly when the branch is
    still at that head, or already at this very commit (an earlier push of it took effect).
  */
  lemma PushIsCompareAndSwap<T>(seen: Head<T>, now: Head<T>, c: Commit<T>)
    requires Extends(seen, now)
    requires c.parent == seen
    ensures FastForward(now, c) <==> now == seen || now == Some(c)
  {
    if now.Some? && now.value != c && Ancestor(now.value, c) {
      var p := seen.value;
      AncestorDepth(p, now.value);
      AncestorDepth(now.value, p);
    }
  }
}
