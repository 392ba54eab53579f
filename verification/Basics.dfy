/** Options and order-preserving filtering, shared by every other module. */
module Basics {

  datatype Option<+T> = None | Some(value: T)

  /** No element occurs twice. */
  ghost predicate Distinct<T>(q: seq<T>) {
    forall i, j :: 0 <= i < j < |q| ==> q[i] != q[j]
  }

  /** The elements of q satisfying f, in their original order. */
  function Filter<T(!new)>(f: T -> bool, q: seq<T>): (r: seq<T>)
    ensures |r| <= |q|
    ensures forall x :: x in r <==> x in q && f(x)
  {
    if q == [] then [] else
      var front := q[..|q| - 1];
      var last := q[|q| - 1];
      assert q == front + [last];
      if f(last) then Filter(f, front) + [last] else Filter(f, front)
  }

  /** One step of a scan from the left. */
  lemma FilterStep<T(!new)>(f: T -> bool, q: seq<T>, i: nat)
    requires i < |q|
    ensures Filter(f, q[..i + 1]) == if f(q[i]) then Filter(f, q[..i]) + [q[i]] else Filter(f, q[..i])
  {
    assert q[..i + 1][..i] == q[..i];
  }

  lemma {:induction false} FilterAppend<T(!new)>(f: T -> bool, p: seq<T>, q: seq<T>)
    ensures Filter(f, p + q) == Filter(f, p) + Filter(f, q)
  {
    if q == [] {
      assert p + q == p;
    } else {
      var front := q[..|q| - 1];
      assert (p + q)[..|p + q| - 1] == p + front;
      FilterAppend(f, p, front);
    }
  }

  lemma {:induction false} FilterDistinct<T(!new)>(f: T -> bool, q: seq<T>)
    requires Distinct(q)
    ensures Distinct(Filter(f, q))
  {
    if q != [] {
      var front := q[..|q| - 1];
      FilterDistinct(f, front);
      assert q[|q| - 1] !in front;
    }
  }

  lemma {:induction false} FilterCongruence<T(!new)>(f: T -> bool, g: T -> bool, q: seq<T>)
    requires forall x :: x in q ==> f(x) == g(x)
    ensures Filter(f, q) == Filter(g, q)
  {
    if q != [] {
      FilterCongruence(f, g, q[..|q| - 1]);
    }
  }

  lemma {:induction false} FilterNone<T(!new)>(f: T -> bool, q: seq<T>)
    requires forall x :: x in q ==> !f(x)
    ensures Filter(f, q) == []
  {
    if q != [] {
      FilterNone(f, q[..|q| - 1]);
    }
  }

  /** The first element that passes comes first. */
  lemma {:induction false} FilterHead<T(!new)>(f: T -> bool, q: seq<T>, i: nat)
    requires i < |q| && f(q[i]) && forall j :: 0 <= j < i ==> !f(q[j])
    ensures Filter(f, q) != [] && Filter(f, q)[0] == q[i]
  {
    var front := q[..|q| - 1];
    if i < |front| {
      FilterHead(f, front, i);
    } else {
      FilterNone(f, front);
    }
  }

  lemma {:induction false} FilterTwice<T(!new)>(f: T -> bool, g: T -> bool, h: T -> bool, q: seq<T>)
    requires forall x :: x in q ==> h(x) == (f(x) && g(x))
    ensures Filter(g, Filter(f, q)) == Filter(h, q)
  {
    if q != [] {
      var front := q[..|q| - 1];
      FilterTwice(f, g, h, front);
      var of := Filter(f, front);
      assert (of + [q[|q| - 1]])[..|of|] == of;
    }
  }

  lemma {:induction false} FilterAll<T(!new)>(f: T -> bool, q: seq<T>)
    requires forall x :: x in q ==> f(x)
    ensures Filter(f, q) == q
  {
    if q != [] {
      FilterAll(f, q[..|q| - 1]);
    }
  }

  /** q without its element at position i, as append(q[:i], q[i+1:]...) leaves it. */
  function RemoveAt<T>(q: seq<T>, i: nat): seq<T>
    requires i < |q|
  {
    q[..i] + q[i + 1..]
  }

  lemma {:induction false} RemoveAtIsFilter<T(!new)>(q: seq<T>, i: nat, f: T -> bool)
    requires i < |q| && Distinct(q)
    requires forall x :: x in q ==> (f(x) <==> x != q[i])
    ensures Filter(f, q) == RemoveAt(q, i)
  {
    assert q == q[..i] + [q[i]] + q[i + 1..];
    FilterAppend(f, q[..i] + [q[i]], q[i + 1..]);
    FilterAppend(f, q[..i], [q[i]]);
    FilterAll(f, q[..i]);
    FilterAll(f, q[i + 1..]);
    assert Filter(f, [q[i]]) == [];
  }
}
