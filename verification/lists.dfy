/** `Array.prototype.filter` over immutable sequences, and the facts the model uses about it. */
module Lists {

  /**
   * The elements of `s` that satisfy `keep`, in their original order.
   */
  function Filter<T(!new)>(s: seq<T>, keep: T -> bool): (r: seq<T>)
    ensures |r| <= |s|
    ensures forall i :: 0 <= i < |r| ==> keep(r[i]) && r[i] in s
    ensures (forall i :: 0 <= i < |s| ==> keep(s[i])) ==> r == s
    decreases |s|
  {
    if |s| == 0 then []
    else
      var rest := Filter(s[1..], keep);
      assert s == [s[0]] + s[1..];
      if keep(s[0]) then [s[0]] + rest else rest
  }

  /** A value is in the filtered sequence exactly when it is in `s` and kept. */
  lemma {:induction false} FilterMember<T(!new)>(s: seq<T>, keep: T -> bool, x: T)
    ensures x in Filter(s, keep) <==> x in s && keep(x)
    decreases |s|
  {
    if |s| > 0 {
      FilterMember(s[1..], keep, x);
      assert x in s <==> x == s[0] || x in s[1..];
    }
  }

  /** Each kept value occurs in the filtered sequence as often as in `s`; others not at all. */
  lemma {:induction false} FilterCount<T(!new)>(s: seq<T>, keep: T -> bool, x: T)
    ensures multiset(Filter(s, keep))[x] == if keep(x) then multiset(s)[x] else 0
    decreases |s|
  {
    if |s| > 0 {
      FilterCount(s[1..], keep, x);
      assert s == [s[0]] + s[1..];
    }
  }

  /** Filtering distributes over concatenation: relative order is kept. */
  lemma {:induction false} FilterAppend<T(!new)>(a: seq<T>, b: seq<T>, keep: T -> bool)
    ensures Filter(a + b, keep) == Filter(a, keep) + Filter(b, keep)
    decreases |a|
  {
    if |a| == 0 {
      assert a + b == b;
    } else {
      var ab := a + b;
      assert ab[0] == a[0];
      assert ab[1..] == a[1..] + b;
      FilterAppend(a[1..], b, keep);
      var head := if keep(a[0]) then [a[0]] else [];
      assert Filter(ab, keep) == head + Filter(ab[1..], keep);
      assert Filter(a, keep) == head + Filter(a[1..], keep);
    }
  }

  /** Filtering twice with the same predicate is filtering once. */
  lemma FilterIdempotent<T(!new)>(s: seq<T>, keep: T -> bool)
    ensures Filter(Filter(s, keep), keep) == Filter(s, keep)
  {
    var r := Filter(s, keep);
    assert forall i :: 0 <= i < |r| ==> r[i] in r;
  }

  /** Filtering with two predicates in turn is filtering with their conjunction. */
  lemma {:induction false} FilterFilter<T(!new)>(s: seq<T>, p: T -> bool, q: T -> bool, pq: T -> bool)
    requires forall x :: pq(x) == (p(x) && q(x))
    ensures Filter(Filter(s, p), q) == Filter(s, pq)
    decreases |s|
  {
    if |s| > 0 {
      FilterFilter(s[1..], p, q, pq);
    }
  }

  /** Appending one element extends the filtered sequence by that element if it is kept. */
  lemma FilterSnoc<T(!new)>(s: seq<T>, x: T, keep: T -> bool)
    ensures Filter(s + [x], keep) == Filter(s, keep) + (if keep(x) then [x] else [])
  {
    FilterAppend(s, [x], keep);
    assert Filter([x], keep) == (if keep(x) then [x] else []) by {
      assert [x][1..] == [];
    }
  }

  /** A non-empty sequence is its front followed by its last element. */
  lemma LastSplit<T>(s: seq<T>)
    requires |s| > 0
    ensures s == s[..|s| - 1] + [s[|s| - 1]]
  {
  }

  /** `Array.prototype.map`: `f` applied to each element, in order. */
  function Map<T, U>(s: seq<T>, f: T -> U): (r: seq<U>)
    ensures |r| == |s|
    ensures forall i :: 0 <= i < |s| ==> r[i] == f(s[i])
  {
    seq(|s|, i requires 0 <= i < |s| => f(s[i]))
  }

  /** Mapping with a function that keeps the filter's verdict commutes with filtering. */
  lemma {:induction false} FilterMap<T(!new), U(!new)>(s: seq<T>, f: T -> U, keepT: T -> bool, keepU: U -> bool)
    requires forall x :: keepU(f(x)) == keepT(x)
    ensures Filter(Map(s, f), keepU) == Map(Filter(s, keepT), f)
    decreases |s|
  {
    if |s| > 0 {
      FilterMap(s[1..], f, keepT, keepU);
      assert Map(s, f)[1..] == Map(s[1..], f);
      var rest := Filter(s[1..], keepT);
      if keepT(s[0]) {
        assert Map([s[0]] + rest, f) == [f(s[0])] + Map(rest, f);
      }
    }
  }

  /** Filtering out the one dropped element between two kept stretches joins the stretches. */
  lemma FilterDropsOne<T(!new)>(a: seq<T>, x: T, b: seq<T>, keep: T -> bool)
    requires forall i :: 0 <= i < |a| ==> keep(a[i])
    requires forall i :: 0 <= i < |b| ==> keep(b[i])
    requires !keep(x)
    ensures Filter(a + [x] + b, keep) == a + b
  {
    FilterAppend(a + [x], b, keep);
    FilterSnoc(a, x, keep);
    var fa, fb := Filter(a, keep), Filter(b, keep);
    assert fa == a && fb == b;
    assert Filter(a + [x], keep) == a by {
      assert fa + [] == fa;
    }
  }
}
