/** Sequence operations the collections of the core are built from. */
module Sequences {

  /** No element occurs twice: the head is not repeated in the tail, which
      is itself duplicate-free. */
  ghost predicate Distinct<T>(s: seq<T>)
  {
    s == [] || (s[0] !in s[1..] && Distinct(s[1..]))
  }

  /** Two positions of a duplicate-free sequence hold different elements. */
  lemma {:induction false} DistinctAt<T>(s: seq<T>, i: nat, j: nat)
    requires Distinct(s) && i < |s| && j < |s| && i != j
    ensures s[i] != s[j]
  {
    if i == 0 {
      assert s[j] == s[1..][j - 1];
    } else if j == 0 {
      assert s[i] == s[1..][i - 1];
    } else {
      DistinctAt(s[1..], i - 1, j - 1);
    }
  }

  /** Appending an absent element keeps a sequence duplicate-free. */
  lemma {:induction false} DistinctSnoc<T>(s: seq<T>, x: T)
    requires Distinct(s) && x !in s
    ensures Distinct(s + [x])
  {
    if s != [] {
      assert (s + [x])[1..] == s[1..] + [x];
      DistinctSnoc(s[1..], x);
    }
  }

  /** List<T>.Remove: drops the first occurrence of x, if any. */
  function RemoveFirst<T(==)>(s: seq<T>, x: T): seq<T>
  {
    if s == [] then []
    else if s[0] == x then s[1..]
    else [s[0]] + RemoveFirst(s[1..], x)
  }

  /** The elements of s that are not in gone, in their original order. */
  function Omit<T(==)>(s: seq<T>, gone: set<T>): (r: seq<T>)
    ensures forall i :: 0 <= i < |r| ==> r[i] in s && r[i] !in gone
    ensures forall i :: 0 <= i < |s| && s[i] !in gone ==> s[i] in r
    ensures Distinct(s) ==> Distinct(r)
  {
    if s == [] then []
    else
      var rest := Omit(s[1..], gone);
      if s[0] in gone then rest else [s[0]] + rest
  }

  /** The elements of s satisfying p, in their original order (LINQ Where). */
  function Filter<T(==)>(s: seq<T>, p: T -> bool): (r: seq<T>)
    ensures |r| <= |s|
    ensures forall i :: 0 <= i < |r| ==> p(r[i]) && r[i] in s
    ensures forall i :: 0 <= i < |s| && p(s[i]) ==> s[i] in r
  {
    if s == [] then []
    else
      var rest := Filter(s[1..], p);
      if p(s[0]) then [s[0]] + rest else rest
  }

  /** When exactly one position satisfies p, the filter yields that element alone. */
  lemma {:induction false} FilterSingle<T>(s: seq<T>, p: T -> bool, k: nat)
    requires k < |s| && p(s[k])
    requires forall i :: 0 <= i < |s| && i != k ==> !p(s[i])
    ensures Filter(s, p) == [s[k]]
  {
    if k == 0 {
      FilterNone(s[1..], p);
    } else {
      FilterSingle(s[1..], p, k - 1);
    }
  }

  /** Nothing satisfies p: the filter is empty. */
  lemma {:induction false} FilterNone<T>(s: seq<T>, p: T -> bool)
    requires forall i :: 0 <= i < |s| ==> !p(s[i])
    ensures Filter(s, p) == []
  {
    if s != [] {
      FilterNone(s[1..], p);
    }
  }

  /** Two positions satisfying p leave at least two elements. */
  lemma {:induction false} FilterTwo<T>(s: seq<T>, p: T -> bool, i: nat, j: nat)
    requires i < j < |s| && p(s[i]) && p(s[j])
    ensures |Filter(s, p)| >= 2
  {
    if i == 0 {
      assert s[1..][j - 1] == s[j];
    } else {
      FilterTwo(s[1..], p, i - 1, j - 1);
    }
  }

  /** n copies of x. */
  function Repeat<T>(x: T, n: nat): (r: seq<T>)
    ensures |r| == n
  {
    if n == 0 then [] else Repeat(x, n - 1) + [x]
  }

  /** One more copy at the end, after any prefix. */
  lemma RepeatOneMore<T>(prefix: seq<T>, x: T, n: nat)
    ensures prefix + Repeat(x, n) + [x] == prefix + Repeat(x, n + 1)
  {
    assert Repeat(x, n + 1) == Repeat(x, n) + [x];
  }

  /** On a duplicate-free list, List.Remove drops exactly the one element. */
  lemma {:induction false} RemoveFirstOfDistinct<T>(s: seq<T>, x: T)
    requires Distinct(s)
    ensures RemoveFirst(s, x) == Omit(s, {x})
  {
    if s != [] {
      if s[0] == x {
        OmitAbsent(s[1..], {x});
      } else {
        RemoveFirstOfDistinct(s[1..], x);
      }
    }
  }

  /** Omitting elements that are not there changes nothing. */
  lemma {:induction false} OmitAbsent<T>(s: seq<T>, gone: set<T>)
    requires forall y :: y in gone ==> y !in s
    ensures Omit(s, gone) == s
  {
    if s != [] {
      OmitAbsent(s[1..], gone);
    }
  }

  /** Omitting in two rounds is omitting the union once. */
  lemma {:induction false} OmitTwice<T>(s: seq<T>, a: set<T>, b: set<T>)
    ensures Omit(Omit(s, a), b) == Omit(s, a + b)
  {
    if s != [] {
      OmitTwice(s[1..], a, b);
    }
  }

  /** Omitting an element that was appended to a list it is absent from
      gives the list back. */
  lemma {:induction false} OmitSnoc<T>(s: seq<T>, x: T)
    requires x !in s
    ensures Omit(s + [x], {x}) == s
  {
    if s == [] {
      assert [x][1..] == [];
    } else {
      assert (s + [x])[1..] == s[1..] + [x];
      OmitSnoc(s[1..], x);
    }
  }
}
