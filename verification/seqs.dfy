/** The JavaScript array operations both core files rely on (`filter`, `some`,
    `find`, and the first row a query returns), stated once over
    Dafny sequences. */
module Seqs {

  datatype Option<T> = None | Some(value: T)

  /** Array.prototype.filter: the elements of `s` that `keep` accepts, in order. */
  function Filter<T(!new)>(s: seq<T>, keep: T -> bool): (r: seq<T>)
    ensures |r| <= |s|
    ensures forall x :: x in r <==> x in s && keep(x)
  {
    if s == [] then [] else (if keep(s[0]) then [s[0]] else []) + Filter(s[1..], keep)
  }

  /** Filtering a concatenation filters each part: together with the one-element
      case this says that the kept elements stay in their original order. */
  lemma {:induction false} FilterAppend<T(!new)>(a: seq<T>, b: seq<T>, keep: T -> bool)
    ensures Filter(a + b, keep) == Filter(a, keep) + Filter(b, keep)
  {
    if a == [] {
      assert a + b == b;
    } else {
      assert (a + b)[1..] == a[1..] + b;
      FilterAppend(a[1..], b, keep);
    }
  }

  /** Filtering keeps a sequence whose elements are all accepted unchanged. */
  lemma {:induction false} FilterKeepsAll<T(!new)>(s: seq<T>, keep: T -> bool)
    requires forall x :: x in s ==> keep(x)
    ensures Filter(s, keep) == s
  {
    if s != [] {
      assert s[0] in s;
      FilterKeepsAll(s[1..], keep);
    }
  }

  /** Filtering twice with the same test is filtering once. */
  lemma FilterIdempotent<T(!new)>(s: seq<T>, keep: T -> bool)
    ensures Filter(Filter(s, keep), keep) == Filter(s, keep)
  {
    FilterKeepsAll(Filter(s, keep), keep);
  }

  /** The index of the first element of `s` that satisfies `p`, if any. */
  function FirstIndex<T>(s: seq<T>, p: T -> bool): (r: Option<nat>)
    ensures r.Some? ==> r.value < |s| && p(s[r.value])
    ensures r.Some? ==> forall j :: 0 <= j < r.value ==> !p(s[j])
    ensures r.None? <==> forall j :: 0 <= j < |s| ==> !p(s[j])
  {
    if s == [] then None
    else if p(s[0]) then Some(0)
    else match FirstIndex(s[1..], p)
      case None => None
      case Some(i) => Some(i + 1)
  }

  /** Array.prototype.find, and the first row a query returns: the first
      element that satisfies `p`. */
  function Find<T(!new)>(s: seq<T>, p: T -> bool): (r: Option<T>)
    ensures r.Some? ==> r.value in s && p(r.value)
    ensures r.Some? ==> exists i :: 0 <= i < |s| && s[i] == r.value && forall j :: 0 <= j < i ==> !p(s[j])
    ensures r.None? <==> forall x :: x in s ==> !p(x)
  {
    match FirstIndex(s, p)
    case None => None
    case Some(i) => Some(s[i])
  }

  /** Array.prototype.some. */
  predicate Any<T>(s: seq<T>, p: T -> bool)
  {
    FirstIndex(s, p).Some?
  }

  lemma AnyIsExists<T(!new)>(s: seq<T>, p: T -> bool)
    ensures Any(s, p) <==> exists x :: x in s && p(x)
  {
    if Any(s, p) {
      assert s[FirstIndex(s, p).value] in s;
    }
  }

  /** The number of elements of `s` that satisfy `p`. */
  function Count<T(!new)>(s: seq<T>, p: T -> bool): (n: nat)
    ensures n <= |s|
    ensures n == 0 <==> forall x :: x in s ==> !p(x)
  {
    if s == [] then 0 else (if p(s[0]) then 1 else 0) + Count(s[1..], p)
  }

  /** Replacing one element changes the count by what the old and the new
      element contribute. */
  lemma {:induction false} CountUpdate<T(!new)>(s: seq<T>, i: nat, v: T, p: T -> bool)
    requires i < |s|
    ensures Count(s[i := v], p) + (if p(s[i]) then 1 else 0)
         == Count(s, p) + (if p(v) then 1 else 0)
  {
    if i == 0 {
      assert s[i := v][1..] == s[1..];
    } else {
      assert s[i := v][1..] == s[1..][i - 1 := v];
      CountUpdate(s[1..], i - 1, v, p);
    }
  }
}
