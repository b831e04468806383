/**
 * A stable sort by a comparison predicate, standing in for
 * `Array.prototype.sort`, which is stable.
 *
 * `le(a, b)` means "a may come before b", i.e. the comparator returns a value
 * `<= 0`. Each element is inserted before the first element it may precede,
 * so elements that compare equal keep their original relative order.
 */
module Sorting {
  import opened Lists

  /** Any two elements can be placed one way or the other. */
  ghost predicate Total<T(!new)>(le: (T, T) -> bool) {
    forall a, b :: le(a, b) || le(b, a)
  }

  ghost predicate Transitive<T(!new)>(le: (T, T) -> bool) {
    forall a, b, c :: le(a, b) && le(b, c) ==> le(a, c)
  }

  /** Each element may precede its successor. */
  predicate Sorted<T>(s: seq<T>, le: (T, T) -> bool) {
    forall i :: 0 <= i < |s| - 1 ==> le(s[i], s[i + 1])
  }

  /** Each element may precede every later element. */
  ghost predicate SortedAll<T>(s: seq<T>, le: (T, T) -> bool) {
    forall i, j :: 0 <= i < j < |s| ==> le(s[i], s[j])
  }

  /** `x` placed in front of the first element of `s` it may precede. */
  function Insert<T>(x: T, s: seq<T>, le: (T, T) -> bool): (r: seq<T>)
    ensures |r| == |s| + 1
    ensures multiset(r) == multiset(s) + multiset{x}
    decreases |s|
  {
    if |s| == 0 then [x]
    else if le(x, s[0]) then [x] + s
    else
      assert s == [s[0]] + s[1..];
      [s[0]] + Insert(x, s[1..], le)
  }

  /** The elements of `s`, rearranged by insertion. */
  function Sort<T>(s: seq<T>, le: (T, T) -> bool): (r: seq<T>)
    ensures |r| == |s|
    ensures multiset(r) == multiset(s)
    decreases |s|
  {
    if |s| == 0 then []
    else
      assert s == [s[0]] + s[1..];
      Insert(s[0], Sort(s[1..], le), le)
  }

  /** Insertion keeps a sorted sequence sorted. */
  lemma {:induction false} InsertSorted<T(!new)>(x: T, s: seq<T>, le: (T, T) -> bool)
    requires Total(le)
    requires Sorted(s, le)
    ensures Sorted(Insert(x, s, le), le)
    decreases |s|
  {
    if |s| > 0 && !le(x, s[0]) {
      InsertSorted(x, s[1..], le);
      var rest := Insert(x, s[1..], le);
      assert rest[0] == x || rest[0] == s[1] by {
        if |s| > 1 && !le(x, s[1]) {
          assert s[1..][1..] == s[2..];
        }
      }
      assert le(s[0], x);
    }
  }

  /** The result of `Sort` is sorted whenever the comparison is total. */
  lemma {:induction false} SortSorted<T(!new)>(s: seq<T>, le: (T, T) -> bool)
    requires Total(le)
    ensures Sorted(Sort(s, le), le)
    decreases |s|
  {
    if |s| > 0 {
      SortSorted(s[1..], le);
      InsertSorted(s[0], Sort(s[1..], le), le);
    }
  }

  /** The elements that compare equal to `k` both ways. */
  function Ties<T>(le: (T, T) -> bool, k: T): (T -> bool) {
    x => le(x, k) && le(k, x)
  }

  /**
   * Inserting `x` puts it in front of every element that ties with it, so
   * among the ties of any `k` it comes first.
   */
  lemma {:induction false} InsertStable<T(!new)>(x: T, s: seq<T>, le: (T, T) -> bool, k: T)
    requires Transitive(le)
    ensures Filter(Insert(x, s, le), Ties(le, k)) == (if Ties(le, k)(x) then [x] else []) + Filter(s, Ties(le, k))
    decreases |s|
  {
    var tie := Ties(le, k);
    if |s| == 0 {
      assert [x][1..] == [];
    } else if le(x, s[0]) {
      assert ([x] + s)[1..] == s;
    } else {
      InsertStable(x, s[1..], le, k);
      var r := [s[0]] + Insert(x, s[1..], le);
      assert r[1..] == Insert(x, s[1..], le);
      if tie(x) && tie(s[0]) {
        assert false;
      }
    }
  }

  /**
   * `Sort` is stable: for every `k`, the elements that tie with `k` appear in
   * the result in the order they had in the input.
   */
  lemma {:induction false} SortStable<T(!new)>(s: seq<T>, le: (T, T) -> bool, k: T)
    requires Transitive(le)
    ensures Filter(Sort(s, le), Ties(le, k)) == Filter(s, Ties(le, k))
    decreases |s|
  {
    if |s| > 0 {
      SortStable(s[1..], le, k);
      InsertStable(s[0], Sort(s[1..], le), le, k);
    }
  }

  /** For a transitive comparison, neighbour order is order between any two elements. */
  lemma {:induction false} SortedIsSortedAll<T(!new)>(s: seq<T>, le: (T, T) -> bool)
    requires Transitive(le)
    requires Sorted(s, le)
    ensures SortedAll(s, le)
    decreases |s|
  {
    if |s| > 1 {
      SortedIsSortedAll(s[1..], le);
      forall i, j | 0 <= i < j < |s|
        ensures le(s[i], s[j])
      {
        if i > 0 {
          assert le(s[1..][i - 1], s[1..][j - 1]);
        } else if j > 1 {
          assert le(s[1..][0], s[1..][j - 1]);
        }
      }
    }
  }
}
