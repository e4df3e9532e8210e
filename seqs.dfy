/** Generic sequence operations shared by the cart and the catalog: the first
    index satisfying a predicate (JavaScript's `Array.prototype.find`), the
    order-preserving filter (`Array.prototype.filter`), and the notion of an
    order-preserving subsequence used to state what a filter keeps. */
module Seqs {

  datatype Option<+T> = None | Some(value: T)

  /** The index of the first element satisfying `f`, or None when there is none. */
  function FirstIndex<T>(f: T -> bool, s: seq<T>): (r: Option<nat>)
    ensures r.Some? ==> r.value < |s| && f(s[r.value])
    ensures r.Some? ==> forall k :: 0 <= k < r.value ==> !f(s[k])
    ensures r.None? <==> forall k :: 0 <= k < |s| ==> !f(s[k])
  {
    if s == [] then None
    else if f(s[0]) then Some(0)
    else match FirstIndex(f, s[1..])
      case None => None
      case Some(i) => Some(i + 1)
  }

  /** The elements of `s` satisfying `f`, in their original order. */
  function Filter<T(==,!new)>(f: T -> bool, s: seq<T>): (r: seq<T>)
    ensures |r| <= |s|
    ensures forall i :: 0 <= i < |r| ==> f(r[i])
    ensures forall x :: x in r ==> x in s
  {
    if s == [] then [] else (if f(s[0]) then [s[0]] else []) + Filter(f, s[1..])
  }

  /** A filter keeps every occurrence of each element that passes and none of
      those that fail. */
  lemma {:induction false} FilterMultiset<T(!new)>(f: T -> bool, s: seq<T>)
    ensures forall x {:trigger multiset(Filter(f, s))[x]} ::
      multiset(Filter(f, s))[x] == if f(x) then multiset(s)[x] else 0
  {
    if s != [] {
      FilterMultiset(f, s[1..]);
      assert s == [s[0]] + s[1..];
    }
  }

  /** `r` is obtained from `s` by deleting elements, keeping the order of the rest. */
  predicate SubsequenceOf<T(==)>(r: seq<T>, s: seq<T>)
    decreases |s|
  {
    r == [] || (s != [] && ((r[0] == s[0] && SubsequenceOf(r[1..], s[1..])) || SubsequenceOf(r, s[1..])))
  }

  lemma {:induction false} FilterIsSubsequence<T(!new)>(f: T -> bool, s: seq<T>)
    ensures SubsequenceOf(Filter(f, s), s)
  {
    if s != [] {
      FilterIsSubsequence(f, s[1..]);
      var rest := Filter(f, s[1..]);
      if f(s[0]) {
        assert Filter(f, s) == [s[0]] + rest;
        assert ([s[0]] + rest)[1..] == rest;
      } else {
        assert Filter(f, s) == rest;
      }
    }
  }

  lemma {:induction false} SubsequenceReflexive<T>(s: seq<T>)
    ensures SubsequenceOf(s, s)
  {
    if s != [] {
      SubsequenceReflexive(s[1..]);
    }
  }

  lemma {:induction false} SubsequenceTransitive<T>(a: seq<T>, b: seq<T>, c: seq<T>)
    requires SubsequenceOf(a, b) && SubsequenceOf(b, c)
    ensures SubsequenceOf(a, c)
    decreases |c|
  {
    if a != [] {
      assert b != [] && c != [];
      if b[0] == c[0] && SubsequenceOf(b[1..], c[1..]) {
        if a[0] == b[0] && SubsequenceOf(a[1..], b[1..]) {
          SubsequenceTransitive(a[1..], b[1..], c[1..]);
        } else {
          SubsequenceTransitive(a, b[1..], c[1..]);
        }
      } else {
        SubsequenceTransitive(a, b, c[1..]);
      }
    }
  }

  /** Filtering an already filtered sequence again changes nothing. */
  lemma {:induction false} FilterIdempotent<T(!new)>(f: T -> bool, s: seq<T>)
    ensures Filter(f, Filter(f, s)) == Filter(f, s)
  {
    FilterKeepsAll(f, Filter(f, s));
  }

  /** A filter that every element passes returns its input unchanged. */
  lemma {:induction false} FilterKeepsAll<T(!new)>(f: T -> bool, s: seq<T>)
    requires forall i :: 0 <= i < |s| ==> f(s[i])
    ensures Filter(f, s) == s
  {
    if s != [] {
      FilterKeepsAll(f, s[1..]);
      assert [s[0]] + s[1..] == s;
    }
  }

  /** Filtering a concatenation filters each part. */
  lemma {:induction false} FilterConcat<T(!new)>(f: T -> bool, a: seq<T>, b: seq<T>)
    ensures Filter(f, a + b) == Filter(f, a) + Filter(f, b)
  {
    if a == [] {
      assert a + b == b;
    } else {
      assert (a + b)[0] == a[0];
      assert (a + b)[1..] == a[1..] + b;
      FilterConcat(f, a[1..], b);
    }
  }
}
