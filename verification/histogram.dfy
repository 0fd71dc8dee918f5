/**
 * A histogram of labels: how often each label occurs, with the labels in order of first
 * occurrence (the key order of a JavaScript object or a Python dict built by counting).
 */
module Histogram {

  /** The number of occurrences of e in labels. */
  function Count<T(==)>(labels: seq<T>, e: T): nat
  {
    if labels == [] then 0
    else Count(labels[..|labels| - 1], e) + (if labels[|labels| - 1] == e then 1 else 0)
  }

  predicate Distinct<T(==)>(xs: seq<T>)
  {
    forall i, j :: 0 <= i < j < |xs| ==> xs[i] != xs[j]
  }

  /** The labels in the order of their first occurrence, each once. */
  function Keys<T(==)>(labels: seq<T>): seq<T>
  {
    if labels == [] then []
    else
      var init := labels[..|labels| - 1];
      var last := labels[|labels| - 1];
      var ks := Keys(init);
      if last in ks then ks else ks + [last]
  }

  /** The keys are distinct and are exactly the labels that occur. */
  lemma {:induction false} KeysSpec<T>(labels: seq<T>)
    ensures Distinct(Keys(labels))
    ensures forall e :: e in Keys(labels) <==> e in labels
    decreases |labels|
  {
    if labels != [] {
      var init := labels[..|labels| - 1];
      var last := labels[|labels| - 1];
      assert labels == init + [last];
      KeysSpec(init);
    }
  }

  /**
   * The counting dictionary, built as the reduce builds it: one pass bumping the entry of each
   * label. It maps each label that occurs to its number of occurrences.
   */
  function Counts<T(==,!new)>(labels: seq<T>): (m: map<T, nat>)
    ensures forall e :: e in m <==> e in labels
    ensures forall e :: e in m ==> m[e] == Count(labels, e)
  {
    if labels == [] then map[]
    else
      var init := labels[..|labels| - 1];
      var last := labels[|labels| - 1];
      assert labels == init + [last];
      var m := Counts(init);
      CountPositive(init, last);
      m[last := (if last in m then m[last] else 0) + 1]
  }

  /** A label occurs iff its count is positive, so the dictionary holds no zero entries. */
  lemma {:induction false} CountPositive<T>(labels: seq<T>, e: T)
    ensures Count(labels, e) > 0 <==> e in labels
    ensures Count(labels, e) <= |labels|
    decreases |labels|
  {
    if labels != [] {
      var init := labels[..|labels| - 1];
      assert labels == init + [labels[|labels| - 1]];
      CountPositive(init, e);
    }
  }

  /** Total of the counts of the labels listed in ks. */
  function SumCounts<T(==)>(ks: seq<T>, labels: seq<T>): nat
  {
    if ks == [] then 0 else SumCounts(ks[..|ks| - 1], labels) + Count(labels, ks[|ks| - 1])
  }

  /** One more label adds one to the total over any distinct list of keys that holds it. */
  lemma {:induction false} SumCountsSnoc<T>(ks: seq<T>, labels: seq<T>, x: T)
    requires Distinct(ks)
    ensures SumCounts(ks, labels + [x]) == SumCounts(ks, labels) + (if x in ks then 1 else 0)
    decreases |ks|
  {
    assert (labels + [x])[..|labels + [x]| - 1] == labels;
    if ks != [] {
      var init := ks[..|ks| - 1];
      var last := ks[|ks| - 1];
      assert ks == init + [last];
      assert x in ks <==> x in init || x == last;
      assert last !in init;
      SumCountsSnoc(init, labels, x);
    }
  }

  /** A key that does not occur adds nothing to the total. */
  lemma {:induction false} SumCountsAbsent<T>(ks: seq<T>, labels: seq<T>, x: T)
    requires x !in labels
    ensures SumCounts(ks + [x], labels) == SumCounts(ks, labels)
  {
    assert (ks + [x])[..|ks + [x]| - 1] == ks;
    CountPositive(labels, x);
  }

  /** The counts of all distinct labels add up to the number of labels. */
  lemma {:induction false} SumOfCounts<T(!new)>(labels: seq<T>)
    ensures SumCounts(Keys(labels), labels) == |labels|
    decreases |labels|
  {
    if labels != [] {
      var init := labels[..|labels| - 1];
      var last := labels[|labels| - 1];
      assert labels == init + [last];
      var ks := Keys(init);
      KeysSpec(init);
      SumOfCounts(init);
      SumCountsSnoc(ks, init, last);
      if last !in ks {
        SumCountsAbsent(ks, init, last);
        assert (ks + [last])[..|ks + [last]| - 1] == ks;
        SumCountsSnoc(ks + [last], init, last);
        assert SumCounts(ks + [last], labels)
            == SumCounts(ks, labels) + Count(labels, last);
        assert Count(labels, last) == Count(init, last) + 1;
        CountPositive(init, last);
      }
    }
  }

  /** Counting one more label: its entry goes up by one, starting from zero when it is new. */
  lemma CountsSnoc<T(!new)>(labels: seq<T>, x: T)
    ensures var m := Counts(labels);
      Counts(labels + [x]) == m[x := (if x in m then m[x] else 0) + 1]
  {
    var ls := labels + [x];
    assert ls[..|ls| - 1] == labels;
  }

  /** The reduce's step acc[x] = (acc[x] || 0) + 1: bump the entry, or start it at one. */
  function Bump<T>(m: map<T, nat>, x: T): map<T, nat>
  {
    m[x := (if x in m then m[x] else 0) + 1]
  }

  /** One step of the counting pass: bumping label i in the dictionary of the first i labels. */
  lemma CountStep<T(!new)>(labels: seq<T>, i: nat, counts: map<T, nat>)
    requires i < |labels| && counts == Counts(labels[..i])
    ensures Bump(counts, labels[i]) == Counts(labels[..i + 1])
  {
    assert labels[..i + 1] == labels[..i] + [labels[i]];
    CountsSnoc(labels[..i], labels[i]);
  }

  /** One step of the key order: label i is appended the first time it is seen. */
  lemma KeyStep<T(!new)>(labels: seq<T>, i: nat, order: seq<T>)
    requires i < |labels| && order == Keys(labels[..i])
    ensures var x := labels[i];
      (if x in labels[..i] then order else order + [x]) == Keys(labels[..i + 1])
  {
    assert labels[..i + 1] == labels[..i] + [labels[i]];
    KeysSnoc(labels[..i], labels[i]);
  }

  /** Keys grow by a label the first time it is seen. */
  lemma KeysSnoc<T(!new)>(labels: seq<T>, x: T)
    ensures Keys(labels + [x]) == if x in labels then Keys(labels) else Keys(labels) + [x]
  {
    var ls := labels + [x];
    assert ls[..|ls| - 1] == labels;
    KeysSpec(labels);
  }
}
