/**
 * Sequence operations the handlers are specified with: the first match of a
 * linear search (gorm's First, JavaScript's find), order-keeping filters,
 * element-wise replacement (an UPDATE of every matching row) and the
 * LIMIT/OFFSET window of a query.
 */
module Seqs {
  import opened Wrappers

  /** The index of the first element satisfying `p`. */
  function FindFirst<T>(xs: seq<T>, p: T -> bool): (r: Option<nat>)
    ensures r.Some? ==> r.value < |xs| && p(xs[r.value])
    ensures r.Some? ==> forall j :: 0 <= j < r.value ==> !p(xs[j])
    ensures r.None? ==> forall j :: 0 <= j < |xs| ==> !p(xs[j])
    decreases |xs|
  {
    if xs == [] then None
    else if p(xs[0]) then Some(0)
    else match FindFirst(xs[1..], p)
      case None => None
      case Some(k) => Some(k + 1)
  }

  /** The first element satisfying `p`, or nothing. */
  function First<T>(xs: seq<T>, p: T -> bool): Option<T>
  {
    match FindFirst(xs, p)
    case None => None
    case Some(i) => Some(xs[i])
  }

  /** Two tests that agree on every element find the same index. */
  lemma {:induction false} FindFirstAgree<T>(xs: seq<T>, p: T -> bool, q: T -> bool)
    requires forall j :: 0 <= j < |xs| ==> p(xs[j]) == q(xs[j])
    ensures FindFirst(xs, p) == FindFirst(xs, q)
    decreases |xs|
  {
    if xs != [] && !p(xs[0]) {
      FindFirstAgree(xs[1..], p, q);
    }
  }

  /** The first index is determined by the tests: the one index passing with none before it. */
  lemma FindFirstAt<T>(xs: seq<T>, p: T -> bool, i: nat)
    requires i < |xs| && p(xs[i])
    requires forall j :: 0 <= j < i ==> !p(xs[j])
    ensures FindFirst(xs, p) == Some(i)
  {
  }

  /** A search over a concatenation stops in the first part when it can. */
  lemma FindFirstAppendLeft<T>(xs: seq<T>, ys: seq<T>, p: T -> bool, i: nat)
    requires FindFirst(xs, p) == Some(i)
    ensures FindFirst(xs + ys, p) == Some(i)
  {
    var zs := xs + ys;
    assert zs[i] == xs[i];
    assert forall j :: 0 <= j < i ==> zs[j] == xs[j];
    FindFirstAt(zs, p, i);
  }

  /** A search over a concatenation whose first part has no match finds the second part's, shifted. */
  lemma FindFirstAppendRight<T>(xs: seq<T>, ys: seq<T>, p: T -> bool)
    requires FindFirst(xs, p).None?
    ensures FindFirst(ys, p).Some? ==> FindFirst(xs + ys, p) == Some(|xs| + FindFirst(ys, p).value)
    ensures FindFirst(ys, p).None? ==> FindFirst(xs + ys, p).None?
  {
    var zs := xs + ys;
    assert forall j :: 0 <= j < |xs| ==> zs[j] == xs[j];
    assert forall j :: |xs| <= j < |zs| ==> zs[j] == ys[j - |xs|];
    if FindFirst(ys, p).Some? {
      var k := FindFirst(ys, p).value;
      FindFirstAt(zs, p, |xs| + k);
    }
  }

  /** What First promises: a found element satisfies `p` and comes from `xs`; nothing is found only when no element does. */
  lemma FirstSpec<T>(xs: seq<T>, p: T -> bool)
    ensures First(xs, p).Some? ==> First(xs, p).value in xs && p(First(xs, p).value)
    ensures First(xs, p).None? <==> forall j :: 0 <= j < |xs| ==> !p(xs[j])
  {
  }

  /** The elements satisfying `p`, in their order. */
  function Filter<T>(xs: seq<T>, p: T -> bool): (r: seq<T>)
    decreases |xs|
  {
    if xs == [] then []
    else Filter(xs[..|xs| - 1], p) + (if p(xs[|xs| - 1]) then [xs[|xs| - 1]] else [])
  }

  /** A filter keeps exactly the elements satisfying `p`. */
  lemma {:induction false} FilterMembers<T>(xs: seq<T>, p: T -> bool)
    ensures |Filter(xs, p)| <= |xs|
    ensures forall x :: x in Filter(xs, p) ==> x in xs && p(x)
    ensures forall x :: x in xs && p(x) ==> x in Filter(xs, p)
    decreases |xs|
  {
    if xs != [] {
      var init := xs[..|xs| - 1];
      FilterMembers(init, p);
      assert xs == init + [xs[|xs| - 1]];
    }
  }

  /** A filter that every element passes keeps the sequence as it is. */
  lemma {:induction false} FilterAll<T>(xs: seq<T>, p: T -> bool)
    requires forall j :: 0 <= j < |xs| ==> p(xs[j])
    ensures Filter(xs, p) == xs
    decreases |xs|
  {
    if xs != [] {
      FilterAll(xs[..|xs| - 1], p);
    }
  }

  /** Filtering twice by the same test is filtering once. */
  lemma {:induction false} FilterIdempotent<T>(xs: seq<T>, p: T -> bool)
    ensures Filter(Filter(xs, p), p) == Filter(xs, p)
  {
    FilterMembers(xs, p);
    var f := Filter(xs, p);
    forall j | 0 <= j < |f| ensures p(f[j]) {
      var x := f[j];
      assert x in f;
    }
    FilterAll(Filter(xs, p), p);
  }

  lemma FilterAppend<T>(xs: seq<T>, x: T, p: T -> bool)
    ensures Filter(xs + [x], p) == Filter(xs, p) + (if p(x) then [x] else [])
  {
    assert (xs + [x])[..|xs|] == xs;
  }

  /** No element occurs twice. */
  predicate NoDup<T(==)>(xs: seq<T>) {
    forall i, j :: 0 <= i < j < |xs| ==> xs[i] != xs[j]
  }

  /** Filtering keeps a sequence free of duplicates. */
  lemma {:induction false} FilterNoDup<T>(xs: seq<T>, p: T -> bool)
    requires NoDup(xs)
    ensures NoDup(Filter(xs, p))
    decreases |xs|
  {
    if xs != [] {
      var init := xs[..|xs| - 1];
      FilterNoDup(init, p);
      FilterMembers(init, p);
      assert xs[|xs| - 1] !in init by {
        forall j | 0 <= j < |init| ensures init[j] != xs[|xs| - 1] {
          assert init[j] == xs[j];
        }
      }
    }
  }

  /** Every element satisfying `p` replaced by `y` (an UPDATE ... WHERE). */
  function ReplaceWhere<T>(xs: seq<T>, p: T -> bool, y: T): (r: seq<T>)
    ensures |r| == |xs|
    ensures forall i :: 0 <= i < |xs| ==> r[i] == if p(xs[i]) then y else xs[i]
  {
    seq(|xs|, i requires 0 <= i < |xs| => if p(xs[i]) then y else xs[i])
  }

  /** Some element satisfies `p`. */
  predicate Any<T>(xs: seq<T>, p: T -> bool) {
    exists i :: 0 <= i < |xs| && p(xs[i])
  }

  /** The smaller of two integers. */
  function Min(a: int, b: int): int { if a <= b then a else b }

  /**
   * The rows a query returns under `OFFSET offset LIMIT limit`, as gorm emits
   * them: the OFFSET only when positive, the LIMIT only when non-negative.
   */
  function Window<T>(xs: seq<T>, offset: int, limit: int): (r: seq<T>)
    ensures |r| <= |xs|
    ensures limit >= 0 ==> |r| <= limit
    ensures var start := if offset > 0 then Min(offset, |xs|) else 0;
      start + |r| <= |xs| && forall i :: 0 <= i < |r| ==> r[i] == xs[start + i]
  {
    var start := if offset > 0 then Min(offset, |xs|) else 0;
    var rest := xs[start..];
    if limit >= 0 then rest[..Min(limit, |rest|)] else rest
  }

  /**
   * Consecutive windows tile the rows: the window of `n` rows at `o` followed
   * by the window of `m` rows at `o + n` is the window of `n + m` rows at `o`,
   * with no row skipped or repeated.
   */
  lemma WindowsTile<T>(xs: seq<T>, o: nat, n: nat, m: nat)
    ensures Window(xs, o, n) + Window(xs, o + n, m) == Window(xs, o, n + m)
  {
    var a, b, c := Window(xs, o, n), Window(xs, o + n, m), Window(xs, o, n + m);
    assert |a| + |b| == |c|;
    forall i | 0 <= i < |c| ensures (a + b)[i] == c[i] {
      if i < |a| {
        assert c[i] == xs[Min(o, |xs|) + i];
      } else {
        assert (a + b)[i] == b[i - |a|];
      }
    }
  }

  /** The map built by storing `val(x)` under `key(x)` for each element in turn: a later element overrides an earlier one. */
  function Assoc<T, K, V>(xs: seq<T>, key: T -> K, val: T -> V): map<K, V>
    decreases |xs|
  {
    if xs == [] then map[]
    else Assoc(xs[..|xs| - 1], key, val)[key(xs[|xs| - 1]) := val(xs[|xs| - 1])]
  }

  /** Extending the list by one element adds (or overrides) that element's key. */
  lemma AssocStep<T, K, V>(xs: seq<T>, key: T -> K, val: T -> V, i: nat)
    requires i < |xs|
    ensures Assoc(xs[..i + 1], key, val) == Assoc(xs[..i], key, val)[key(xs[i]) := val(xs[i])]
  {
    assert xs[..i + 1][..i] == xs[..i];
  }

  /** The keys of the map are exactly the keys of the elements. */
  lemma {:induction false} AssocKeys<T, K, V>(xs: seq<T>, key: T -> K, val: T -> V, k: K)
    ensures k in Assoc(xs, key, val) <==> exists i :: 0 <= i < |xs| && key(xs[i]) == k
    decreases |xs|
  {
    if xs != [] {
      var n := |xs| - 1;
      var init := xs[..n];
      AssocKeys(init, key, val, k);
      if k in Assoc(init, key, val) {
        var i :| 0 <= i < n && key(init[i]) == k;
        assert init[i] == xs[i];
      }
      if exists i :: 0 <= i < |xs| && key(xs[i]) == k {
        var i :| 0 <= i < |xs| && key(xs[i]) == k;
        if i < n {
          assert init[i] == xs[i];
        }
      }
    }
  }

  /** Every value of the map is the value of some element. */
  lemma {:induction false} AssocValues<T, K, V>(xs: seq<T>, key: T -> K, val: T -> V, k: K)
    requires k in Assoc(xs, key, val)
    ensures exists i :: 0 <= i < |xs| && key(xs[i]) == k && Assoc(xs, key, val)[k] == val(xs[i])
    decreases |xs|
  {
    var n := |xs| - 1;
    var init := xs[..n];
    if key(xs[n]) != k {
      AssocValues(init, key, val, k);
      var i :| 0 <= i < n && key(init[i]) == k && Assoc(init, key, val)[k] == val(init[i]);
      assert init[i] == xs[i];
    }
  }

  /** The last element with a given key decides its value. */
  lemma {:induction false} AssocLastWins<T, K, V>(xs: seq<T>, key: T -> K, val: T -> V, i: nat)
    requires i < |xs|
    requires forall j :: i < j < |xs| ==> key(xs[j]) != key(xs[i])
    ensures key(xs[i]) in Assoc(xs, key, val)
    ensures Assoc(xs, key, val)[key(xs[i])] == val(xs[i])
    decreases |xs|
  {
    var n := |xs| - 1;
    if i < n {
      var init := xs[..n];
      assert init[i] == xs[i];
      forall j | i < j < |init| ensures key(init[j]) != key(init[i]) {
        assert init[j] == xs[j];
      }
      AssocLastWins(init, key, val, i);
    }
  }
}
