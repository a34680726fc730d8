/** The order in which a thread pool hands back its results
    (`concurrent.futures.as_completed`): every submitted job exactly once, in
    an order the model does not fix. */
module Completion {
  import opened Processing

  /** The job indices 0, 1, ..., n - 1 in submission order. */
  function Range(n: nat): (r: seq<nat>)
    ensures |r| == n
    ensures forall k :: 0 <= k < n ==> r[k] == k
  {
    if n == 0 then [] else Range(n - 1) + [n - 1]
  }

  /** `order` hands back each of the `n` jobs exactly once. */
  predicate IsOrder(order: seq<nat>, n: nat)
  {
    multiset(order) == multiset(Range(n))
  }

  predicate Indexes<T>(s: seq<T>, idx: seq<nat>)
  {
    forall k :: 0 <= k < |idx| ==> idx[k] < |s|
  }

  /** The entries of `s` at the positions `idx`, in that order. */
  function Pick<T>(s: seq<T>, idx: seq<nat>): (r: seq<T>)
    requires Indexes(s, idx)
    ensures |r| == |idx|
    ensures forall k :: 0 <= k < |idx| ==> r[k] == s[idx[k]]
  {
    if idx == [] then [] else Pick(s, idx[..|idx| - 1]) + [s[idx[|idx| - 1]]]
  }

  /** A completion order only names submitted jobs, and has one entry per
      job. */
  lemma OrderInRange(order: seq<nat>, n: nat)
    requires IsOrder(order, n)
    ensures |order| == n
    ensures forall k :: 0 <= k < |order| ==> order[k] < n
  {
    assert |order| == |multiset(order)| == |multiset(Range(n))| == n;
    forall k | 0 <= k < |order|
      ensures order[k] < n
    {
      assert order[k] in multiset(order);
      assert order[k] in multiset(Range(n));
      assert order[k] in Range(n);
    }
  }

  lemma PickAppend<T>(s: seq<T>, a: seq<nat>, b: seq<nat>)
    requires Indexes(s, a) && Indexes(s, b)
    ensures Indexes(s, a + b)
    ensures Pick(s, a + b) == Pick(s, a) + Pick(s, b)
  {
    assert Indexes(s, a + b) by {
      forall k | 0 <= k < |a + b|
        ensures (a + b)[k] < |s|
      {
        if k < |a| { assert (a + b)[k] == a[k]; } else { assert (a + b)[k] == b[k - |a|]; }
      }
    }
  }

  /** The sequence without its entry at `j`. */
  function Without(ys: seq<nat>, j: nat): (r: seq<nat>)
    requires j < |ys|
    ensures multiset(r) + multiset{ys[j]} == multiset(ys)
  {
    assert ys == ys[..j] + [ys[j]] + ys[j + 1..];
    ys[..j] + ys[j + 1..]
  }

  lemma Cancel(a: multiset<nat>, b: multiset<nat>, x: nat)
    requires a + multiset{x} == b + multiset{x}
    ensures a == b
  {
    forall y
      ensures a[y] == b[y]
    {
      assert (a + multiset{x})[y] == (b + multiset{x})[y];
    }
  }

  lemma MultisetMiddle<T>(a: seq<T>, e: T, b: seq<T>)
    ensures multiset(a + [e] + b) == multiset(a + b) + multiset{e}
  {
  }

  /** Picking at `ys` picks the entries of `ys` without `j`, and the entry
      at `ys[j]`. */
  lemma PickWithout<T>(s: seq<T>, ys: seq<nat>, j: nat)
    requires Indexes(s, ys) && j < |ys|
    ensures Indexes(s, Without(ys, j))
    ensures multiset(Pick(s, ys)) == multiset(Pick(s, Without(ys, j))) + multiset{s[ys[j]]}
  {
    var left, x, right := ys[..j], ys[j], ys[j + 1..];
    assert ys == left + [x] + right;
    assert Without(ys, j) == left + right;
    assert Indexes(s, left) && Indexes(s, right);
    PickAppend(s, left, right);
    PickAppend(s, left, [x]);
    PickAppend(s, left + [x], right);
    assert Pick(s, [x]) == [s[x]];
    assert Pick(s, ys) == Pick(s, left) + [s[x]] + Pick(s, right);
    MultisetMiddle(Pick(s, left), s[x], Pick(s, right));
  }

  /** Dropping the last index drops the last entry picked. */
  lemma PickDropLast<T>(s: seq<T>, xs: seq<nat>)
    requires Indexes(s, xs) && xs != []
    ensures Indexes(s, xs[..|xs| - 1])
    ensures multiset(xs) == multiset(xs[..|xs| - 1]) + multiset{xs[|xs| - 1]}
    ensures multiset(Pick(s, xs)) == multiset(Pick(s, xs[..|xs| - 1])) + multiset{s[xs[|xs| - 1]]}
  {
    assert xs == xs[..|xs| - 1] + [xs[|xs| - 1]];
  }

  /** Picking along two arrangements of the same indices gives two
      arrangements of the same entries. */
  lemma {:induction false} PickMultiset<T>(s: seq<T>, xs: seq<nat>, ys: seq<nat>)
    requires Indexes(s, xs) && Indexes(s, ys) && multiset(xs) == multiset(ys)
    ensures multiset(Pick(s, xs)) == multiset(Pick(s, ys))
    decreases |xs|
  {
    if xs != [] {
      var init, x := xs[..|xs| - 1], xs[|xs| - 1];
      PickDropLast(s, xs);
      assert x in multiset(ys);
      var j :| 0 <= j < |ys| && ys[j] == x;
      var rest := Without(ys, j);
      Cancel(multiset(init), multiset(rest), x);
      PickWithout(s, ys, j);
      PickMultiset(s, init, rest);
    }
  }

  /** Picking every index in submission order gives the sequence back. */
  lemma PickRange<T>(s: seq<T>)
    ensures Indexes(s, Range(|s|))
    ensures Pick(s, Range(|s|)) == s
  {
  }

  /** Whatever the completion order, the results handed back are the
      submitted ones rearranged: the same multiset, hence the same members
      and the same number of successes. */
  lemma Rearranged<T>(s: seq<T>, order: seq<nat>)
    requires IsOrder(order, |s|)
    ensures Indexes(s, order)
    ensures multiset(Pick(s, order)) == multiset(s)
    ensures forall x :: x in Pick(s, order) <==> x in s
  {
    OrderInRange(order, |s|);
    PickRange(s);
    PickMultiset(s, order, Range(|s|));
    assert forall x :: x in Pick(s, order) <==> x in multiset(Pick(s, order));
    assert forall x :: x in s <==> x in multiset(s);
  }

  /** The number of successes does not depend on the completion order. */
  lemma RearrangedCount(oks: seq<bool>, order: seq<nat>)
    requires IsOrder(order, |oks|)
    ensures Indexes(oks, order)
    ensures CountTrue(Pick(oks, order)) == CountTrue(oks)
  {
    Rearranged(oks, order);
    CountTrueMultiset(oks);
    CountTrueMultiset(Pick(oks, order));
  }

  /** Whatever the completion order, the files written after all results
      are exactly the outputs of the successful jobs, one per success. */
  lemma RearrangedWritten(before: seq<string>, oks: seq<bool>, outputs: seq<string>, order: seq<nat>)
    requires |oks| == |outputs| && IsOrder(order, |oks|)
    ensures |order| == |oks| && Indexes(oks, order) && Indexes(outputs, order)
    ensures var w := Written(before, Pick(outputs, order), Pick(oks, order), |oks|);
      && |w| == |before| + CountTrue(oks)
      && w[..|before|] == before
      && (forall j :: 0 <= j < |oks| && oks[j] ==> outputs[j] in w)
      && (forall k :: |before| <= k < |w| ==> exists j :: 0 <= j < |oks| && oks[j] && outputs[j] == w[k])
  {
    var n := |oks|;
    OrderInRange(order, n);
    var arrived, paths := Pick(oks, order), Pick(outputs, order);
    assert arrived[..n] == arrived;
    RearrangedCount(oks, order);
    var w := Written(before, paths, arrived, n);
    WrittenMembers(before, paths, arrived, n);
    forall j | 0 <= j < n && oks[j]
      ensures outputs[j] in w
    {
      var k := Position(order, n, j);
      assert arrived[k] && paths[k] == outputs[j];
    }
    forall k | |before| <= k < |w|
      ensures exists j :: 0 <= j < n && oks[j] && outputs[j] == w[k]
    {
      var i :| 0 <= i < n && arrived[i] && paths[i] == w[k];
      var j := order[i];
      assert oks[j] && outputs[j] == w[k];
    }
  }

  /** Where job `j` comes back in a completion order. */
  lemma Position(order: seq<nat>, n: nat, j: nat) returns (k: nat)
    requires IsOrder(order, n) && j < n
    ensures k < |order| && order[k] == j
  {
    assert j == Range(n)[j];
    assert j in multiset(Range(n));
    assert j in multiset(order);
    k :| 0 <= k < |order| && order[k] == j;
  }
}
