/** Sequences of category names: distinctness and the two filters the
    category ordering is built from. */
module Seqs {

  predicate Distinct(s: seq<string>)
  {
    forall i, j :: 0 <= i < j < |s| ==> s[i] != s[j]
  }

  /** The elements of `s` that occur in `among`, in the order of `s`. */
  function Within(s: seq<string>, among: seq<string>): (r: seq<string>)
    ensures forall x :: x in r <==> x in s && x in among
  {
    if s == [] then []
    else Within(s[..|s| - 1], among) + (if s[|s| - 1] in among then [s[|s| - 1]] else [])
  }

  /** The elements of `s` that do not occur in `among`, in the order of `s`. */
  function Outside(s: seq<string>, among: seq<string>): (r: seq<string>)
    ensures forall x :: x in r <==> x in s && x !in among
  {
    if s == [] then []
    else Outside(s[..|s| - 1], among) + (if s[|s| - 1] !in among then [s[|s| - 1]] else [])
  }

  lemma {:induction false} WithinConcat(a: seq<string>, b: seq<string>, among: seq<string>)
    ensures Within(a + b, among) == Within(a, among) + Within(b, among)
  {
    if b != [] {
      assert (a + b)[..|a + b| - 1] == a + b[..|b| - 1];
      WithinConcat(a, b[..|b| - 1], among);
    } else {
      assert a + b == a;
    }
  }

  /** Filtering by two lists that agree on the elements of `s` gives the same result. */
  lemma {:induction false} WithinSame(s: seq<string>, a: seq<string>, b: seq<string>)
    requires forall x :: x in s ==> (x in a <==> x in b)
    ensures Within(s, a) == Within(s, b)
  {
    if s != [] {
      WithinSame(s[..|s| - 1], a, b);
      assert s[|s| - 1] in s;
    }
  }

  /** Keeping what is already all inside `among` changes nothing. */
  lemma {:induction false} WithinAll(s: seq<string>, among: seq<string>)
    requires forall x :: x in s ==> x in among
    ensures Within(s, among) == s
  {
    if s != [] {
      WithinAll(s[..|s| - 1], among);
      assert s == s[..|s| - 1] + [s[|s| - 1]];
    }
  }

  lemma {:induction false} WithinDistinct(s: seq<string>, among: seq<string>)
    requires Distinct(s)
    ensures Distinct(Within(s, among))
  {
    if s != [] {
      WithinDistinct(s[..|s| - 1], among);
    }
  }

  lemma {:induction false} OutsideDistinct(s: seq<string>, among: seq<string>)
    requires Distinct(s)
    ensures Distinct(Outside(s, among))
  {
    if s != [] {
      OutsideDistinct(s[..|s| - 1], among);
    }
  }

  lemma DistinctConcat(a: seq<string>, b: seq<string>)
    requires Distinct(a) && Distinct(b)
    requires forall x :: x in a ==> x !in b
    ensures Distinct(a + b)
  {
    forall i, j | 0 <= i < j < |a + b|
      ensures (a + b)[i] != (a + b)[j]
    {
      if j >= |a| && i < |a| {
        assert (a + b)[i] in a && (a + b)[j] in b;
      }
    }
  }

  /** A name inside `among` is appended to the filter. */
  lemma WithinStep(s: seq<string>, i: int, among: seq<string>)
    requires 0 <= i < |s| && s[i] in among
    ensures Within(s[..i + 1], among) == Within(s[..i], among) + [s[i]]
  {
    assert s[..i + 1][..i] == s[..i];
  }

  /** A name outside `among` adds nothing to the filter. */
  lemma WithinSkip(s: seq<string>, i: int, among: seq<string>)
    requires 0 <= i < |s| && s[i] !in among
    ensures Within(s[..i + 1], among) == Within(s[..i], among)
  {
    assert s[..i + 1][..i] == s[..i];
  }

  /** Everything in a prefix's filter is in the whole filter. */
  lemma WithinPrefix(s: seq<string>, i: int, among: seq<string>)
    requires 0 <= i < |s|
    ensures forall c :: c in Within(s[..i + 1], among) ==> c in Within(s, among)
  {
  }
}
