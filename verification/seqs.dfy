/** The array combinators the storefront uses (`filter`, `map`, `findIndex`,
    `[...new Set(xs)]`) as pure functions over sequences, each with the
    contract the JavaScript built-in promises. */
module Seqs {
  import opened Wrappers

  /** `a` is an order-preserving subsequence of `b`. */
  predicate Subseq<T(==)>(a: seq<T>, b: seq<T>)
    decreases |b|
  {
    if a == [] then true
    else if b == [] then false
    else if a[0] == b[0] then Subseq(a[1..], b[1..])
    else Subseq(a, b[1..])
  }

  lemma {:induction false} SubseqMembers<T>(a: seq<T>, b: seq<T>)
    requires Subseq(a, b)
    ensures forall x :: x in a ==> x in b
    decreases |b|
  {
    if a != [] && b != [] {
      if a[0] == b[0] {
        SubseqMembers(a[1..], b[1..]);
        forall x | x in a
          ensures x in b
        {
          if x != a[0] {
            assert x in a[1..];
          }
        }
      } else {
        SubseqMembers(a, b[1..]);
      }
    }
  }

  /** `Array.prototype.filter`: the elements satisfying `p`, in order. */
  function Filter<T(==,!new)>(p: T -> bool, s: seq<T>): (r: seq<T>)
    ensures |r| <= |s|
    ensures forall x :: x in r <==> x in s && p(x)
    ensures Subseq(r, s)
    // every kept value keeps all of its copies
    ensures forall x {:trigger multiset(r)[x]} :: multiset(r)[x] == if p(x) then multiset(s)[x] else 0
    decreases |s|
  {
    if s == [] then []
    else
      assert s == [s[0]] + s[1..];
      if p(s[0]) then [s[0]] + Filter(p, s[1..])
      else Filter(p, s[1..])
  }

  lemma {:induction false} FilterConcat<T(!new)>(p: T -> bool, a: seq<T>, b: seq<T>)
    ensures Filter(p, a + b) == Filter(p, a) + Filter(p, b)
    decreases |a|
  {
    if a != [] {
      var ab := a + b;
      assert ab[0] == a[0] && ab[1..] == a[1..] + b;
      FilterConcat(p, a[1..], b);
      if p(a[0]) {
        calc {
          Filter(p, ab);
          [a[0]] + Filter(p, a[1..] + b);
          [a[0]] + (Filter(p, a[1..]) + Filter(p, b));
          ([a[0]] + Filter(p, a[1..])) + Filter(p, b);
          Filter(p, a) + Filter(p, b);
        }
      } else {
        calc {
          Filter(p, ab);
          Filter(p, a[1..] + b);
          Filter(p, a[1..]) + Filter(p, b);
          Filter(p, a) + Filter(p, b);
        }
      }
    } else {
      assert a + b == b;
    }
  }

  /** Filtering keeps everything when every element passes. */
  lemma {:induction false} FilterKeepsAll<T(!new)>(p: T -> bool, s: seq<T>)
    requires forall x :: x in s ==> p(x)
    ensures Filter(p, s) == s
    decreases |s|
  {
    if s != [] {
      assert forall x :: x in s[1..] ==> x in s;
      FilterKeepsAll(p, s[1..]);
    }
  }

  /** Filtering by the conjunction of `p` and `q` is filtering by `p`, then by `q`. */
  lemma {:induction false} FilterCompose<T(!new)>(p: T -> bool, q: T -> bool, both: T -> bool, s: seq<T>)
    requires forall x :: both(x) == (p(x) && q(x))
    ensures Filter(both, s) == Filter(q, Filter(p, s))
    decreases |s|
  {
    if s != [] {
      FilterCompose(p, q, both, s[1..]);
    }
  }

  /** A stronger predicate never selects more. */
  lemma {:induction false} FilterMonotone<T(!new)>(p: T -> bool, q: T -> bool, s: seq<T>)
    requires forall x :: q(x) ==> p(x)
    ensures Subseq(Filter(q, s), Filter(p, s))
    decreases |s|
  {
    if s != [] {
      FilterMonotone(p, q, s[1..]);
      if q(s[0]) {
        assert Filter(q, s)[1..] == Filter(q, s[1..]);
        assert Filter(p, s)[1..] == Filter(p, s[1..]);
      } else if p(s[0]) {
        assert Filter(p, s)[1..] == Filter(p, s[1..]);
        var fq := Filter(q, s);
        if fq != [] {
          // the first kept element is not s[0], so skipping s[0] is the right step
          assert fq[0] in Filter(q, s[1..]);
        }
      }
    }
  }

  /** `Array.prototype.map`. */
  function Map<T, U>(f: T -> U, s: seq<T>): (r: seq<U>)
    ensures |r| == |s|
    ensures forall i :: 0 <= i < |s| ==> r[i] == f(s[i])
    decreases |s|
  {
    if s == [] then [] else [f(s[0])] + Map(f, s[1..])
  }

  /** `Array.prototype.findIndex`, with `None` for the source's `-1`:
      the first index whose element satisfies `p`. */
  function FindIndex<T>(p: T -> bool, s: seq<T>): (r: Option<nat>)
    ensures r.None? <==> forall i :: 0 <= i < |s| ==> !p(s[i])
    ensures r.Some? ==> r.value < |s| && p(s[r.value])
    ensures r.Some? ==> forall j :: 0 <= j < r.value ==> !p(s[j])
    decreases |s|
  {
    if s == [] then None
    else if p(s[0]) then Some(0)
    else match FindIndex(p, s[1..])
      case None => None
      case Some(k) => Some(k + 1)
  }

  predicate NoDuplicates<T(==)>(s: seq<T>)
  {
    forall i, j :: 0 <= i < j < |s| ==> s[i] != s[j]
  }

  /** `[...new Set(s)]`: each distinct element once, in the order a set
      built by inserting `s` from left to right enumerates them. */
  function Distinct<T(==,!new)>(s: seq<T>): (r: seq<T>)
    ensures NoDuplicates(r)
    ensures forall x :: x in r <==> x in s
    // first-occurrence order: every occurrence in `s` of a later element of
    // `r` comes after some occurrence of each earlier element
    ensures forall i, j, k :: 0 <= i < j < |r| && 0 <= k < |s| && s[k] == r[j] ==> r[i] in s[..k]
    decreases |s|
  {
    if s == [] then []
    else
      var init := s[..|s| - 1];
      var d := Distinct(init);
      assert s == init + [s[|s| - 1]];
      if s[|s| - 1] in d then d else d + [s[|s| - 1]]
  }
}
