/**
 * Sequence vocabulary shared by the three components: JavaScript's
 * `Array.prototype.filter` and `Array.prototype.map`, the optional-argument
 * wrapper, and the "order-preserving sub-sequence" relation used to state
 * that a filter keeps the input order.
 */
module Seqs {

  /** An optional value, as a JavaScript parameter declared with `?`. */
  datatype Option<T> = None | Some(value: T)

  /**
   * `s.filter(p)`: the elements of `s` satisfying `p`, in their order in `s`.
   * Defined by its last element so that a left-to-right loop that pushes onto
   * an accumulator can keep `acc == Filter(p, s[..i])` as its invariant.
   */
  function Filter<T>(p: T -> bool, s: seq<T>): (r: seq<T>)
    ensures |r| <= |s|
    ensures forall k :: 0 <= k < |r| ==> p(r[k])
    decreases |s|
  {
    if |s| == 0 then []
    else Filter(p, s[..|s| - 1]) + (if p(s[|s| - 1]) then [s[|s| - 1]] else [])
  }

  /** `s.map(f)`. */
  function Map<T, U>(f: T -> U, s: seq<T>): (r: seq<U>)
    ensures |r| == |s|
    ensures forall k :: 0 <= k < |s| ==> r[k] == f(s[k])
  {
    seq(|s|, k requires 0 <= k < |s| => f(s[k]))
  }

  /**
   * `a` is obtained from `b` by deleting elements: every element of `a` occurs
   * in `b`, in the same relative order. Matched greedily from the end.
   */
  predicate Subseq<T(==)>(a: seq<T>, b: seq<T>)
    decreases |b|
  {
    if |a| == 0 then true
    else if |b| == 0 then false
    else if a[|a| - 1] == b[|b| - 1] then Subseq(a[..|a| - 1], b[..|b| - 1])
    else Subseq(a, b[..|b| - 1])
  }

  lemma {:induction false} FilterSnoc<T>(p: T -> bool, s: seq<T>, x: T)
    ensures Filter(p, s + [x]) == Filter(p, s) + (if p(x) then [x] else [])
  {
    assert (s + [x])[..|s|] == s;
  }

  /** Filtering distributes over concatenation. */
  lemma {:induction false} FilterAppend<T>(p: T -> bool, a: seq<T>, b: seq<T>)
    ensures Filter(p, a + b) == Filter(p, a) + Filter(p, b)
    decreases |b|
  {
    if |b| == 0 {
      assert a + b == a;
    } else {
      var b' := b[..|b| - 1];
      var x := b[|b| - 1];
      assert b == b' + [x];
      assert a + b == (a + b') + [x];
      FilterSnoc(p, a + b', x);
      FilterAppend(p, a, b');
      FilterSnoc(p, b', x);
    }
  }

  /** An element survives the filter exactly when it is in the input and satisfies `p`. */
  lemma {:induction false} FilterMembers<T>(p: T -> bool, s: seq<T>, x: T)
    ensures x in Filter(p, s) <==> x in s && p(x)
    decreases |s|
  {
    if |s| > 0 {
      var s' := s[..|s| - 1];
      assert s == s' + [s[|s| - 1]];
      FilterMembers(p, s', x);
    }
  }

  /** Filtering with a predicate that every element satisfies changes nothing. */
  lemma {:induction false} FilterKeepsAll<T>(p: T -> bool, s: seq<T>)
    requires forall k :: 0 <= k < |s| ==> p(s[k])
    ensures Filter(p, s) == s
    decreases |s|
  {
    if |s| > 0 {
      var s' := s[..|s| - 1];
      assert s == s' + [s[|s| - 1]];
      FilterKeepsAll(p, s');
    }
  }

  /** Filtering with a predicate that no element satisfies leaves nothing. */
  lemma {:induction false} FilterDropsAll<T>(p: T -> bool, s: seq<T>)
    requires forall k :: 0 <= k < |s| ==> !p(s[k])
    ensures Filter(p, s) == []
    decreases |s|
  {
    if |s| > 0 {
      FilterDropsAll(p, s[..|s| - 1]);
    }
  }

  /** A filter keeps the relative order of the elements it keeps. */
  lemma {:induction false} FilterIsSubseq<T>(p: T -> bool, s: seq<T>)
    ensures Subseq(Filter(p, s), s)
    decreases |s|
  {
    if |s| > 0 {
      var s' := s[..|s| - 1];
      var x := s[|s| - 1];
      var f' := Filter(p, s');
      FilterIsSubseq(p, s');
      if p(x) {
        assert Filter(p, s) == f' + [x];
        assert (f' + [x])[..|f'|] == f';
      } else {
        assert Filter(p, s) == f';
        SubseqDropLast(f', s);
      }
    }
  }

  /** Deleting one more element (the last one) of the larger sequence keeps a sub-sequence one. */
  lemma {:induction false} SubseqDropLast<T>(a: seq<T>, b: seq<T>)
    requires |b| > 0 && Subseq(a, b[..|b| - 1])
    ensures Subseq(a, b)
    decreases |b|, 0
  {
    if |a| > 0 && a[|a| - 1] == b[|b| - 1] {
      SubseqInit(a, b[..|b| - 1]);
    }
  }

  /** Dropping the last element of a sub-sequence keeps a sub-sequence. */
  lemma {:induction false} SubseqInit<T>(a: seq<T>, b: seq<T>)
    requires |a| > 0 && Subseq(a, b)
    ensures Subseq(a[..|a| - 1], b)
    decreases |b|, 1
  {
    var b' := b[..|b| - 1];
    if a[|a| - 1] != b[|b| - 1] {
      SubseqInit(a, b');
    }
    SubseqDropLast(a[..|a| - 1], b);
  }

  /** Filters by two predicates commute. */
  lemma {:induction false} FilterCommute<T>(p: T -> bool, q: T -> bool, s: seq<T>)
    ensures Filter(p, Filter(q, s)) == Filter(q, Filter(p, s))
    decreases |s|
  {
    if |s| > 0 {
      var s' := s[..|s| - 1];
      var x := s[|s| - 1];
      FilterCommute(p, q, s');
      if q(x) {
        assert Filter(q, s) == Filter(q, s') + [x];
        FilterSnoc(p, Filter(q, s'), x);
      } else {
        assert Filter(q, s) == Filter(q, s');
      }
      if p(x) {
        assert Filter(p, s) == Filter(p, s') + [x];
        FilterSnoc(q, Filter(p, s'), x);
      } else {
        assert Filter(p, s) == Filter(p, s');
      }
    }
  }

  /**
   * A predicate and its complement split a sequence: the two filters together
   * hold every element exactly as often as the input does.
   */
  lemma {:induction false} FilterSplit<T>(p: T -> bool, q: T -> bool, s: seq<T>)
    requires forall x :: q(x) == !p(x)
    ensures multiset(Filter(p, s)) + multiset(Filter(q, s)) == multiset(s)
    ensures |Filter(p, s)| + |Filter(q, s)| == |s|
    decreases |s|
  {
    if |s| > 0 {
      var s' := s[..|s| - 1];
      assert s == s' + [s[|s| - 1]];
      FilterSplit(p, q, s');
    }
  }

  /** Mapping distributes over concatenation. */
  lemma MapAppend<T, U>(f: T -> U, a: seq<T>, b: seq<T>)
    ensures Map(f, a + b) == Map(f, a) + Map(f, b)
  {
  }

  /** Mapping one more element appends its image. */
  lemma MapSnoc<T, U>(f: T -> U, s: seq<T>, x: T)
    ensures Map(f, s + [x]) == Map(f, s) + [f(x)]
  {
  }

  /** Mapping keeps the sub-sequence relation. */
  lemma {:induction false} MapSubseq<T, U>(f: T -> U, a: seq<T>, b: seq<T>)
    requires Subseq(a, b)
    ensures Subseq(Map(f, a), Map(f, b))
    decreases |b|
  {
    if |a| > 0 {
      var fa, fb := Map(f, a), Map(f, b);
      var a', b' := a[..|a| - 1], b[..|b| - 1];
      assert fb[..|fb| - 1] == Map(f, b');
      if a[|a| - 1] == b[|b| - 1] {
        MapSubseq(f, a', b');
        assert fa[..|fa| - 1] == Map(f, a');
      } else {
        MapSubseq(f, a, b');
        SubseqDropLast(fa, fb);
      }
    }
  }

  /** No element occurs twice. */
  predicate NoDup<T(==)>(s: seq<T>) {
    forall i, j :: 0 <= i < j < |s| ==> s[i] != s[j]
  }

  /** Every element of a sub-sequence occurs in the larger sequence. */
  lemma {:induction false} SubseqMembers<T>(a: seq<T>, b: seq<T>, x: T)
    requires Subseq(a, b) && x in a
    ensures x in b
    decreases |b|
  {
    var a', b' := a[..|a| - 1], b[..|b| - 1];
    if a[|a| - 1] == b[|b| - 1] {
      if x != a[|a| - 1] {
        assert a == a' + [a[|a| - 1]];
        SubseqMembers(a', b', x);
      }
    } else {
      SubseqMembers(a, b', x);
    }
  }

  /** A sub-sequence of a duplicate-free sequence is duplicate-free. */
  lemma {:induction false} SubseqNoDup<T>(a: seq<T>, b: seq<T>)
    requires Subseq(a, b) && NoDup(b)
    ensures NoDup(a)
    decreases |b|
  {
    if |a| > 0 {
      var a', b' := a[..|a| - 1], b[..|b| - 1];
      assert NoDup(b');
      if a[|a| - 1] == b[|b| - 1] {
        SubseqNoDup(a', b');
        forall i | 0 <= i < |a'| ensures a[i] != a[|a| - 1] {
          assert a[i] == a'[i];
          SubseqMembers(a', b', a'[i]);
          var k :| 0 <= k < |b'| && b'[k] == a[i];
          assert b[k] != b[|b| - 1];
        }
      } else {
        SubseqNoDup(a, b');
      }
    }
  }

  /** A filter of a duplicate-free sequence is duplicate-free. */
  lemma FilterNoDup<T>(p: T -> bool, s: seq<T>)
    requires NoDup(s)
    ensures NoDup(Filter(p, s))
  {
    FilterIsSubseq(p, s);
    SubseqNoDup(Filter(p, s), s);
  }
}
