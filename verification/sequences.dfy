/**
 * Array built-ins the core relies on, as functions on sequences: filter, findIndex,
 * the find-or-push update used for saving edited items, and a summing reduce.
 */
module Sequences {

  /** a is an order-preserving subsequence of b (greedy matching from the front). */
  predicate IsSubsequence<T(==)>(a: seq<T>, b: seq<T>)
    decreases |b|
  {
    if a == [] then true
    else if b == [] then false
    else if a[0] == b[0] then IsSubsequence(a[1..], b[1..])
    else IsSubsequence(a, b[1..])
  }

  /** A subsequence of b stays one when an element is put in front of b. */
  lemma {:induction false} SubsequenceOfTail<T>(a: seq<T>, x: T, b: seq<T>)
    requires IsSubsequence(a, b)
    ensures IsSubsequence(a, [x] + b)
    decreases |b|, 1
  {
    assert ([x] + b)[1..] == b;
    if a != [] && a[0] == x {
      SubsequenceDropFirst(a, b);
    }
  }

  /** Dropping the first element of a subsequence leaves a subsequence. */
  lemma {:induction false} SubsequenceDropFirst<T>(a: seq<T>, b: seq<T>)
    requires a != [] && IsSubsequence(a, b)
    ensures IsSubsequence(a[1..], b)
    decreases |b|, 0
  {
    assert b != [];
    assert [b[0]] + b[1..] == b;
    if a[0] == b[0] {
      SubsequenceOfTail(a[1..], b[0], b[1..]);
    } else {
      SubsequenceDropFirst(a, b[1..]);
      SubsequenceOfTail(a[1..], b[0], b[1..]);
    }
  }

  /**
   * xs.filter(keep): the elements for which keep holds, each as often as in xs, in the order of xs.
   */
  function Filter<T(==,!new)>(xs: seq<T>, keep: T -> bool): (r: seq<T>)
    ensures forall x :: x in r <==> x in xs && keep(x)
    ensures forall x :: multiset(r)[x] == if keep(x) then multiset(xs)[x] else 0
    ensures IsSubsequence(r, xs)
    ensures (forall i :: 0 <= i < |xs| ==> keep(xs[i])) ==> r == xs
  {
    if xs == [] then []
    else
      var rest := Filter(xs[1..], keep);
      assert xs == [xs[0]] + xs[1..];
      if keep(xs[0]) then
        assert ([xs[0]] + rest)[1..] == rest;
        [xs[0]] + rest
      else
        SubsequenceOfTail(rest, xs[0], xs[1..]);
        rest
  }

  /** Filtering never lengthens a list. */
  lemma {:induction false} FilterShorter<T(!new)>(xs: seq<T>, keep: T -> bool)
    ensures |Filter(xs, keep)| <= |xs|
  {
    if xs != [] {
      FilterShorter(xs[1..], keep);
    }
  }

  /** xs.findIndex(matches): the first index where matches holds, or -1. */
  function FindIndex<T>(xs: seq<T>, matches: T -> bool): (k: int)
    ensures -1 <= k < |xs|
    ensures k >= 0 ==> matches(xs[k]) && forall j :: 0 <= j < k ==> !matches(xs[j])
    ensures k == -1 ==> forall j :: 0 <= j < |xs| ==> !matches(xs[j])
  {
    if xs == [] then -1
    else if matches(xs[0]) then 0
    else var k := FindIndex(xs[1..], matches); if k == -1 then -1 else k + 1
  }

  /** No two elements carry the same id. */
  predicate UniqueIds<T>(xs: seq<T>, idOf: T -> string)
  {
    forall i, j :: 0 <= i < j < |xs| ==> idOf(xs[i]) != idOf(xs[j])
  }

  /** The test `y => y.id === id`. */
  function HasId<T>(idOf: T -> string, id: string): T -> bool
  {
    y => idOf(y) == id
  }

  /** In a list with unique ids, an id determines the index. */
  lemma SameIdSameIndex<T>(xs: seq<T>, idOf: T -> string, i: nat, j: nat)
    requires UniqueIds(xs, idOf) && i < |xs| && j < |xs|
    requires idOf(xs[i]) == idOf(xs[j])
    ensures i == j
  {
  }

  /** Save an item: replace the element with its id where there is one, else push it at the end. */
  function Upsert<T>(xs: seq<T>, x: T, idOf: T -> string): (r: seq<T>)
  {
    var k := FindIndex(xs, HasId(idOf, idOf(x)));
    if k >= 0 then xs[k := x] else xs + [x]
  }

  /**
   * What saving does: an item whose id is present replaces that element, length and order
   * kept; a new id is appended; and ids stay unique.
   */
  lemma UpsertSpec<T>(xs: seq<T>, x: T, idOf: T -> string)
    requires UniqueIds(xs, idOf)
    ensures UniqueIds(Upsert(xs, x, idOf), idOf)
    ensures x in Upsert(xs, x, idOf)
    ensures forall k :: 0 <= k < |xs| && idOf(xs[k]) == idOf(x) ==> Upsert(xs, x, idOf) == xs[k := x]
    ensures (forall k :: 0 <= k < |xs| ==> idOf(xs[k]) != idOf(x)) ==> Upsert(xs, x, idOf) == xs + [x]
  {
    var k := FindIndex(xs, HasId(idOf, idOf(x)));
    var r := Upsert(xs, x, idOf);
    if k >= 0 {
      assert idOf(xs[k]) == idOf(x);
      assert r[k] == x;
      forall k' | 0 <= k' < |xs| && idOf(xs[k']) == idOf(x) ensures k' == k {
        SameIdSameIndex(xs, idOf, k, k');
      }
      forall i, j | 0 <= i < j < |r| ensures idOf(r[i]) != idOf(r[j]) {
        if i != k && j != k { assert r[i] == xs[i] && r[j] == xs[j]; }
        else if i == k { assert r[j] == xs[j]; }
        else { assert r[i] == xs[i]; }
      }
    } else {
      forall i, j | 0 <= i < j < |r| ensures idOf(r[i]) != idOf(r[j]) {
        if j < |xs| { assert r[i] == xs[i] && r[j] == xs[j]; }
        else { assert r[i] == xs[i]; }
      }
      assert r[|xs|] == x;
    }
  }

  /** xs.filter(y => y.id !== id). */
  function DeleteById<T(==,!new)>(xs: seq<T>, id: string, idOf: T -> string): (r: seq<T>)
  {
    Filter(xs, y => idOf(y) != id)
  }

  /** Dropping the first element keeps ids unique. */
  lemma TailKeepsUniqueIds<T>(xs: seq<T>, idOf: T -> string)
    requires xs != [] && UniqueIds(xs, idOf)
    ensures UniqueIds(xs[1..], idOf)
    ensures forall y :: y in xs[1..] ==> idOf(y) != idOf(xs[0])
  {
    var tail := xs[1..];
    forall i, j | 0 <= i < j < |tail| ensures idOf(tail[i]) != idOf(tail[j]) {
      assert tail[i] == xs[i + 1] && tail[j] == xs[j + 1];
    }
    forall y | y in tail ensures idOf(y) != idOf(xs[0]) {
      var m :| 0 <= m < |tail| && tail[m] == y;
      assert xs[m + 1] == y;
    }
  }

  /** Putting an element with a fresh id in front keeps ids unique. */
  lemma ConsKeepsUniqueIds<T>(x: T, xs: seq<T>, idOf: T -> string)
    requires UniqueIds(xs, idOf) && forall y :: y in xs ==> idOf(y) != idOf(x)
    ensures UniqueIds([x] + xs, idOf)
  {
    var r := [x] + xs;
    forall i, j | 0 <= i < j < |r| ensures idOf(r[i]) != idOf(r[j]) {
      assert r[j] == xs[j - 1];
      if i > 0 {
        assert r[i] == xs[i - 1];
      } else {
        assert r[j] in xs;
      }
    }
  }

  /** Filtering a list with unique ids leaves a list with unique ids. */
  lemma {:induction false} FilterKeepsUniqueIds<T(!new)>(xs: seq<T>, keep: T -> bool, idOf: T -> string)
    requires UniqueIds(xs, idOf)
    ensures UniqueIds(Filter(xs, keep), idOf)
    decreases |xs|
  {
    if xs != [] {
      var tail := xs[1..];
      TailKeepsUniqueIds(xs, idOf);
      FilterKeepsUniqueIds(tail, keep, idOf);
      var rt := Filter(tail, keep);
      if keep(xs[0]) {
        assert forall y :: y in rt ==> y in tail;
        ConsKeepsUniqueIds(xs[0], rt, idOf);
      }
    }
  }

  /** With unique ids, deleting an id that is present removes one element, otherwise none. */
  lemma {:induction false} DeleteByIdLength<T(!new)>(xs: seq<T>, id: string, idOf: T -> string)
    requires UniqueIds(xs, idOf)
    ensures |DeleteById(xs, id, idOf)| == |xs| - (if FindIndex(xs, HasId(idOf, id)) >= 0 then 1 else 0)
    decreases |xs|
  {
    if xs != [] {
      var tail := xs[1..];
      assert forall i :: 0 <= i < |tail| ==> tail[i] == xs[i + 1];
      assert UniqueIds(tail, idOf);
      DeleteByIdLength(tail, id, idOf);
      if idOf(xs[0]) == id {
        assert forall i :: 0 <= i < |tail| ==> idOf(tail[i]) != id;
        assert Filter(tail, y => idOf(y) != id) == tail;
      }
    }
  }

  /**
   * Deleting removes exactly the elements with that id and keeps the rest in their order;
   * ids stay unique.
   */
  lemma DeleteByIdSpec<T(!new)>(xs: seq<T>, id: string, idOf: T -> string)
    requires UniqueIds(xs, idOf)
    ensures IsSubsequence(DeleteById(xs, id, idOf), xs)
    ensures forall y :: y in DeleteById(xs, id, idOf) <==> y in xs && idOf(y) != id
    ensures UniqueIds(DeleteById(xs, id, idOf), idOf)
  {
    FilterKeepsUniqueIds(xs, y => idOf(y) != id, idOf);
  }

  /** items.reduce((total, item) => total + f(item), 0). */
  function Sum<T>(xs: seq<T>, f: T -> int): int
  {
    if xs == [] then 0 else Sum(xs[..|xs| - 1], f) + f(xs[|xs| - 1])
  }

  /** The reduce splits over concatenation. */
  lemma {:induction false} SumAppend<T>(a: seq<T>, b: seq<T>, f: T -> int)
    ensures Sum(a + b, f) == Sum(a, f) + Sum(b, f)
    decreases |b|
  {
    if b != [] {
      assert (a + b)[..|a + b| - 1] == a + b[..|b| - 1];
      SumAppend(a, b[..|b| - 1], f);
    } else {
      assert a + b == a;
    }
  }

  /** Replacing one element changes the sum by the difference of the two. */
  lemma SumReplace<T>(xs: seq<T>, k: nat, x: T, f: T -> int)
    requires k < |xs|
    ensures Sum(xs[k := x], f) == Sum(xs, f) - f(xs[k]) + f(x)
  {
    assert xs == xs[..k] + [xs[k]] + xs[k + 1..];
    assert xs[k := x] == xs[..k] + [x] + xs[k + 1..];
    SumAppend(xs[..k] + [xs[k]], xs[k + 1..], f);
    SumAppend(xs[..k] + [x], xs[k + 1..], f);
    SumAppend(xs[..k], [xs[k]], f);
    SumAppend(xs[..k], [x], f);
  }
}
