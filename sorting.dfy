/** `Array.prototype.sort` with a comparator, modelled as a stable insertion
    sort: each element is inserted in front of the first element it does not
    sort after. */
module Sorting {

  function Sign(x: int): int
  {
    if x < 0 then -1 else if x > 0 then 1 else 0
  }

  /** `cmp` is a total preorder on the elements of `u`: swapping the operands
      flips the sign, and "sorts no later than" is transitive. */
  ghost predicate TotalPreorderOn<T>(cmp: (T, T) -> int, u: seq<T>)
  {
    && (forall a, b :: a in u && b in u ==> Sign(cmp(a, b)) == -Sign(cmp(b, a)))
    && (forall a, b, c :: a in u && b in u && c in u && cmp(a, b) <= 0 && cmp(b, c) <= 0 ==> cmp(a, c) <= 0)
  }

  ghost predicate Sorted<T>(s: seq<T>, cmp: (T, T) -> int)
  {
    forall i, j :: 0 <= i < j < |s| ==> cmp(s[i], s[j]) <= 0
  }

  function Insert<T>(x: T, t: seq<T>, cmp: (T, T) -> int): (r: seq<T>)
    ensures multiset(r) == multiset(t) + multiset{x}
  {
    if t == [] || cmp(x, t[0]) <= 0 then [x] + t
    else
      assert t == [t[0]] + t[1..];
      [t[0]] + Insert(x, t[1..], cmp)
  }

  /** The sorted sequence is a permutation of the input. */
  function Sort<T>(s: seq<T>, cmp: (T, T) -> int): (r: seq<T>)
    ensures multiset(r) == multiset(s)
    ensures |r| == |s|
  {
    if s == [] then []
    else
      assert s == [s[0]] + s[1..];
      Insert(s[0], Sort(s[1..], cmp), cmp)
  }

  /** A head that sorts no later than every element of a sorted tail. */
  lemma SortedCons<T>(h: T, rest: seq<T>, cmp: (T, T) -> int)
    requires Sorted(rest, cmp)
    requires forall j :: 0 <= j < |rest| ==> cmp(h, rest[j]) <= 0
    ensures Sorted([h] + rest, cmp)
  {
    var r := [h] + rest;
    forall i, j | 0 <= i < j < |r|
      ensures cmp(r[i], r[j]) <= 0
    {
      assert r[j] == rest[j - 1];
      if i > 0 {
        assert r[i] == rest[i - 1];
      }
    }
  }

  /** Every element of `t` and `x` itself sorts no earlier than `h`. */
  lemma BelowAll<T>(h: T, x: T, t: seq<T>, cmp: (T, T) -> int, r: seq<T>)
    requires multiset(r) == multiset(t) + multiset{x}
    requires cmp(h, x) <= 0 && forall j :: 0 <= j < |t| ==> cmp(h, t[j]) <= 0
    ensures forall j :: 0 <= j < |r| ==> cmp(h, r[j]) <= 0
  {
    forall j | 0 <= j < |r|
      ensures cmp(h, r[j]) <= 0
    {
      assert r[j] in multiset(r);
      if r[j] != x {
        assert r[j] in t;
      }
    }
  }

  lemma {:induction false} InsertSorted<T>(x: T, t: seq<T>, cmp: (T, T) -> int, u: seq<T>)
    requires TotalPreorderOn(cmp, u)
    requires x in u && forall y :: y in t ==> y in u
    requires Sorted(t, cmp)
    ensures Sorted(Insert(x, t, cmp), cmp)
  {
    if t == [] || cmp(x, t[0]) <= 0 {
      forall j | 0 <= j < |t|
        ensures cmp(x, t[j]) <= 0
      {
        if j > 0 {
          assert t[0] in u && t[j] in u;
        }
      }
      SortedCons(x, t, cmp);
    } else {
      var tail := t[1..];
      assert t == [t[0]] + tail;
      assert Sorted(tail, cmp);
      InsertSorted(x, tail, cmp, u);
      assert t[0] in u;
      assert Sign(cmp(t[0], x)) == -Sign(cmp(x, t[0]));
      forall j | 0 <= j < |tail|
        ensures cmp(t[0], tail[j]) <= 0
      {
        assert tail[j] == t[j + 1];
      }
      BelowAll(t[0], x, tail, cmp, Insert(x, tail, cmp));
      SortedCons(t[0], Insert(x, tail, cmp), cmp);
    }
  }

  lemma {:induction false} SortSortedWithin<T>(s: seq<T>, cmp: (T, T) -> int, u: seq<T>)
    requires TotalPreorderOn(cmp, u)
    requires forall y :: y in s ==> y in u
    ensures Sorted(Sort(s, cmp), cmp)
  {
    if s != [] {
      var t := Sort(s[1..], cmp);
      SortSortedWithin(s[1..], cmp, u);
      forall y | y in t
        ensures y in u
      {
        assert y in multiset(t);
      }
      InsertSorted(s[0], t, cmp, u);
    }
  }

  /** For a comparator that is a total preorder, the result is sorted. */
  lemma SortSorted<T>(s: seq<T>, cmp: (T, T) -> int)
    requires TotalPreorderOn(cmp, s)
    ensures Sorted(Sort(s, cmp), cmp)
  {
    SortSortedWithin(s, cmp, s);
  }

  /** The elements of `s` that compare equal to `k`, in the order of `s`. */
  function TiesWith<T>(s: seq<T>, k: T, cmp: (T, T) -> int): seq<T>
  {
    if s == [] then []
    else (if cmp(s[0], k) == 0 then [s[0]] else []) + TiesWith(s[1..], k, cmp)
  }

  lemma {:induction false} InsertTies<T>(x: T, t: seq<T>, k: T, cmp: (T, T) -> int, u: seq<T>)
    requires TotalPreorderOn(cmp, u)
    requires x in u && k in u && forall y :: y in t ==> y in u
    ensures TiesWith(Insert(x, t, cmp), k, cmp)
         == (if cmp(x, k) == 0 then [x] else []) + TiesWith(t, k, cmp)
  {
    if t == [] || cmp(x, t[0]) <= 0 {
      assert Insert(x, t, cmp)[1..] == t;
    } else {
      InsertTies(x, t[1..], k, cmp, u);
      var r := Insert(x, t, cmp);
      assert r[0] == t[0] && r[1..] == Insert(x, t[1..], cmp);
    }
  }

  /** Stability: the elements that tie with any `k` keep their input order. */
  lemma {:induction false} SortStable<T>(s: seq<T>, k: T, cmp: (T, T) -> int, u: seq<T>)
    requires TotalPreorderOn(cmp, u)
    requires k in u && forall y :: y in s ==> y in u
    ensures TiesWith(Sort(s, cmp), k, cmp) == TiesWith(s, k, cmp)
  {
    if s != [] {
      var t := Sort(s[1..], cmp);
      SortStable(s[1..], k, cmp, u);
      forall y | y in t
        ensures y in u
      {
        assert y in multiset(t);
      }
      InsertTies(s[0], t, k, cmp, u);
    }
  }
}
