/** The shared counters the workers add to: progress-bar count, byte total,
    and, for the model's own accounting, requests, delays and failed tiles.
    Every worker adds each task's contribution atomically, so the final
    values are a sum over the tasks; this module proves that the sum does not
    depend on the order of the tasks or on how they are shared out. */
module Counters {

  datatype Totals = Totals(completed: nat, bytes: nat, requests: nat, delays: nat, failed: nat)

  const NoTotals := Totals(0, 0, 0, 0, 0)

  /** Field-wise sum: the effect of two atomic adds. */
  function Add(a: Totals, b: Totals): Totals {
    Totals(a.completed + b.completed, a.bytes + b.bytes, a.requests + b.requests, a.delays + b.delays, a.failed + b.failed)
  }

  /** Sum of the contributions `f(x)` of the items, in list order. */
  function Fold<T>(items: seq<T>, f: T -> Totals): Totals {
    if |items| == 0 then NoTotals else Add(f(items[0]), Fold(items[1..], f))
  }

  /** Folding two lists one after the other adds their sums. */
  lemma {:induction false} FoldConcat<T>(a: seq<T>, b: seq<T>, f: T -> Totals)
    ensures Fold(a + b, f) == Add(Fold(a, f), Fold(b, f))
    decreases |a|
  {
    if |a| == 0 {
      assert a + b == b;
    } else {
      assert (a + b)[0] == a[0];
      assert (a + b)[1..] == a[1..] + b;
      FoldConcat(a[1..], b, f);
    }
  }

  lemma FoldSingle<T>(x: T, f: T -> Totals)
    ensures Fold([x], f) == f(x)
  {
    assert [x][1..] == [];
  }

  /** An item in the middle of a list contributes as if it came first. */
  lemma FoldMove<T>(p: seq<T>, x: T, q: seq<T>, f: T -> Totals)
    ensures Fold(p + ([x] + q), f) == Add(f(x), Fold(p + q, f))
  {
    var fp, fx, fq := Fold(p, f), f(x), Fold(q, f);
    FoldSingle(x, f);
    FoldConcat([x], q, f);
    assert Fold([x] + q, f) == Add(fx, fq);
    FoldConcat(p, [x] + q, f);
    FoldConcat(p, q, f);
    AddSwap(fp, fx, fq);
  }

  lemma AddSwap(a: Totals, b: Totals, c: Totals)
    ensures Add(a, Add(b, c)) == Add(b, Add(a, c))
  {
  }

  /** Taking out of `b` an occurrence of the first element of `a` leaves a
      permutation of the rest of `a`. */
  lemma MultisetRemove<T>(a: seq<T>, b: seq<T>, i: nat)
    requires |a| > 0 && i < |b| && b[i] == a[0]
    requires multiset(a) == multiset(b)
    ensures multiset(a[1..]) == multiset(b[..i] + b[i + 1..])
  {
    SplitAt(b, i);
    assert multiset(b) == multiset(b[..i]) + multiset{b[i]} + multiset(b[i + 1..]);
    assert multiset(b[..i] + b[i + 1..]) == multiset(b[..i]) + multiset(b[i + 1..]);
    assert a == [a[0]] + a[1..];
    assert multiset(a) == multiset{a[0]} + multiset(a[1..]);
    assert multiset(a[1..]) == multiset(a) - multiset{a[0]};
    assert multiset(b[..i] + b[i + 1..]) == multiset(b) - multiset{b[i]};
  }

  /** A list is its prefix, the element at `i`, and its suffix. */
  lemma SplitAt<T>(b: seq<T>, i: nat)
    requires i < |b|
    ensures b == b[..i] + ([b[i]] + b[i + 1..])
  {
  }

  /** The item at `i` contributes its share wherever it stands in the list. */
  lemma FoldRemove<T>(b: seq<T>, i: nat, f: T -> Totals)
    requires i < |b|
    ensures Fold(b, f) == Add(f(b[i]), Fold(b[..i] + b[i + 1..], f))
  {
    SplitAt(b, i);
    FoldMove(b[..i], b[i], b[i + 1..], f);
  }

  /** The sum depends only on which items are folded, not on their order. */
  lemma {:induction false} FoldPermutation<T>(a: seq<T>, b: seq<T>, f: T -> Totals)
    requires multiset(a) == multiset(b)
    ensures Fold(a, f) == Fold(b, f)
    decreases |a|
  {
    if |a| == 0 {
      assert |b| == |multiset(b)| == 0;
    } else {
      assert a[0] in multiset(b);
      var i :| 0 <= i < |b| && b[i] == a[0];
      MultisetRemove(a, b, i);
      FoldPermutation(a[1..], b[..i] + b[i + 1..], f);
      FoldRemove(b, i, f);
    }
  }

  /** All the lists, one after another. */
  function Flatten<T>(parts: seq<seq<T>>): seq<T> {
    if |parts| == 0 then [] else parts[0] + Flatten(parts[1..])
  }

  /** Sum of what each worker accumulates over its own share of the items. */
  function PoolSum<T>(parts: seq<seq<T>>, f: T -> Totals): Totals {
    if |parts| == 0 then NoTotals else Add(Fold(parts[0], f), PoolSum(parts[1..], f))
  }

  lemma {:induction false} PoolSumIsFlatFold<T>(parts: seq<seq<T>>, f: T -> Totals)
    ensures PoolSum(parts, f) == Fold(Flatten(parts), f)
    decreases |parts|
  {
    if |parts| > 0 {
      PoolSumIsFlatFold(parts[1..], f);
      FoldConcat(parts[0], Flatten(parts[1..]), f);
    }
  }

  /** However the items are shared out among workers, the counters they add
      up to equal those of one sequential pass. */
  lemma PoolSumMatchesFold<T>(parts: seq<seq<T>>, items: seq<T>, f: T -> Totals)
    requires multiset(Flatten(parts)) == multiset(items)
    ensures PoolSum(parts, f) == Fold(items, f)
  {
    PoolSumIsFlatFold(parts, f);
    FoldPermutation(Flatten(parts), items, f);
  }
}
