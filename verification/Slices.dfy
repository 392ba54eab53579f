/**
 * The broker edits its queues in place: the stale-waiter filter reuses the queue's own backing array (q[:0]), and a
 * leaving waiter's successors are shifted down over it.  Both do to the array what the model's sequence operations say.
 */
module Slices {
  import opened Basics

  /**
   * alive = append(alive, wt) where alive shares q's array: the element goes to the end of the kept part, and what the
   * loop has still to read stays as it was.
   */
  method KeepInPlace<T>(a: array<T>, k: nat, i: nat)
    requires k <= i < a.Length
    modifies a
    ensures a[..k + 1] == old(a[..k]) + [old(a[i])]
    ensures a[i + 1..] == old(a[i + 1..])
  {
    a[k] := a[i];
    assert a[..k + 1] == a[..k] + [a[k]];
  }

  /** append(q[:i], q[i+1:]...): what follows position i moves down by one. */
  method CutInPlace<T>(a: array<T>, n: nat, i: nat)
    requires i < n <= a.Length
    modifies a
    ensures a[..n - 1] == RemoveAt(old(a[..n]), i)
    ensures a[n..] == old(a[n..])
  {
    for j := i to n - 1
      invariant a[..i] == old(a[..i])
      invariant forall h :: i <= h < j ==> a[h] == old(a[h + 1])
      invariant forall h :: j <= h < a.Length ==> a[h] == old(a[h])
    {
      a[j] := a[j + 1];
    }
  }

  /** dropWaiter's loop: the first occurrence of x goes, if there is one; all the others stay, in order. */
  method RemoveInPlace<T(==)>(a: array<T>, n: nat, x: T) returns (k: nat)
    requires n <= a.Length
    modifies a
    ensures x !in old(a[..n]) ==> k == n && a[..] == old(a[..])
    ensures x in old(a[..n]) ==>
              && k == n - 1 && a[n..] == old(a[n..])
              && exists i: nat :: i < n && old(a[i]) == x && x !in old(a[..i]) && a[..k] == RemoveAt(old(a[..n]), i)
  {
    ghost var q := a[..];
    for i := 0 to n
      invariant a[..] == q && x !in q[..i]
    {
      if a[i] == x {
        CutInPlace(a, n, i);
        assert q[i] == x && a[..n - 1] == RemoveAt(q[..n], i);
        return n - 1;
      }
    }
    return n;
  }
}
