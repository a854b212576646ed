/** Generic facts about sequences: filtering (JavaScript's `Array.prototype.filter`),
    order-preserving subsequences and distinctness of a key. */
module Seqs {

  /** The elements of `s` that satisfy `p`, in their original order. */
  function Filter<T>(s: seq<T>, p: T -> bool): (r: seq<T>)
    ensures |r| <= |s|
    ensures forall i :: 0 <= i < |r| ==> r[i] in s && p(r[i])
    ensures forall i :: 0 <= i < |s| && p(s[i]) ==> s[i] in r
  {
    if |s| == 0 then []
    else
      assert s == [s[0]] + s[1..];
      (if p(s[0]) then [s[0]] else []) + Filter(s[1..], p)
  }

  /** The positions of `s` whose element satisfies `p`. */
  function Positions<T>(s: seq<T>, p: T -> bool): set<int> {
    set i | 0 <= i < |s| && p(s[i])
  }

  /** `a` can be obtained from `b` by deleting elements: `a` is an
      order-preserving subsequence of `b`. */
  predicate IsSubseq<T(==)>(a: seq<T>, b: seq<T>)
    decreases |b|
  {
    if |a| == 0 then true
    else if |b| == 0 then false
    else if a[0] == b[0] then IsSubseq(a[1..], b[1..])
    else IsSubseq(a, b[1..])
  }

  /** No two positions of `s` carry the same key. */
  predicate DistinctBy<T, K(==)>(s: seq<T>, key: T -> K) {
    forall i, j :: 0 <= i < j < |s| ==> key(s[i]) != key(s[j])
  }

  /** A filter every element passes keeps the whole sequence. */
  lemma {:induction false} FilterAll<T>(s: seq<T>, p: T -> bool)
    requires forall i :: 0 <= i < |s| ==> p(s[i])
    ensures Filter(s, p) == s
    decreases |s|
  {
    if |s| > 0 {
      assert forall i :: 0 <= i < |s[1..]| ==> p(s[1..][i]) by {
        forall i | 0 <= i < |s[1..]| ensures p(s[1..][i]) {
          assert s[1..][i] == s[i + 1];
        }
      }
      FilterAll(s[1..], p);
      assert s == [s[0]] + s[1..];
    }
  }

  /** Filtering distributes over concatenation. */
  lemma {:induction false} FilterConcat<T>(a: seq<T>, b: seq<T>, p: T -> bool)
    ensures Filter(a + b, p) == Filter(a, p) + Filter(b, p)
    decreases |a|
  {
    if |a| == 0 {
      assert a + b == b;
    } else {
      assert (a + b)[1..] == a[1..] + b;
      FilterConcat(a[1..], b, p);
    }
  }

  /** The positions of `s` are those of its prefix, plus the last one when
      it satisfies `p`. */
  lemma PositionsSnoc<T>(s: seq<T>, p: T -> bool)
    requires |s| > 0
    ensures Positions(s, p) == Positions(s[..|s| - 1], p) + (if p(s[|s| - 1]) then {|s| - 1} else {})
  {
    var n := |s| - 1;
    forall i ensures i in Positions(s, p) <==> i in Positions(s[..n], p) || (i == n && p(s[n])) {
      if 0 <= i < n {
        assert s[..n][i] == s[i];
      }
    }
  }

  /** The filtered sequence has one element per position satisfying `p`,
      so its length is the number of such positions. */
  lemma {:induction false} FilterLength<T>(s: seq<T>, p: T -> bool)
    ensures |Filter(s, p)| == |Positions(s, p)|
    decreases |s|
  {
    if |s| == 0 {
      assert Positions(s, p) == {};
    } else {
      var n := |s| - 1;
      assert s == s[..n] + [s[n]];
      FilterConcat(s[..n], [s[n]], p);
      FilterLength(s[..n], p);
      PositionsSnoc(s, p);
      assert n !in Positions(s[..n], p);
    }
  }

  /** Filtering keeps the original order. */
  lemma {:induction false} FilterIsSubseq<T>(s: seq<T>, p: T -> bool)
    ensures IsSubseq(Filter(s, p), s)
    decreases |s|
  {
    if |s| > 0 {
      FilterIsSubseq(s[1..], p);
      if !p(s[0]) {
        var f := Filter(s[1..], p);
        assert Filter(s, p) == f;
        if |f| > 0 {
          assert p(f[0]);
          assert f[0] != s[0];
        }
      }
    }
  }

  /** Two key-distinct sequences whose keys never meet concatenate to a
      key-distinct sequence. */
  lemma DistinctConcat<T, K>(a: seq<T>, b: seq<T>, key: T -> K)
    requires DistinctBy(a, key) && DistinctBy(b, key)
    requires forall i, j :: 0 <= i < |a| && 0 <= j < |b| ==> key(a[i]) != key(b[j])
    ensures DistinctBy(a + b, key)
  {
    var c := a + b;
    forall i, j | 0 <= i < j < |c|
      ensures key(c[i]) != key(c[j])
    {
      if j < |a| {
        assert c[i] == a[i] && c[j] == a[j];
      } else if i >= |a| {
        assert c[i] == b[i - |a|] && c[j] == b[j - |a|];
      } else {
        assert c[i] == a[i] && c[j] == b[j - |a|];
      }
    }
  }

  /** Filtering never introduces a repeated key. */
  lemma {:induction false} FilterDistinct<T, K>(s: seq<T>, p: T -> bool, key: T -> K)
    requires DistinctBy(s, key)
    ensures DistinctBy(Filter(s, p), key)
    decreases |s|
  {
    if |s| > 0 {
      var rest := s[1..];
      assert DistinctBy(rest, key) by {
        forall i, j | 0 <= i < j < |rest| ensures key(rest[i]) != key(rest[j]) {
          assert rest[i] == s[i + 1] && rest[j] == s[j + 1];
        }
      }
      FilterDistinct(rest, p, key);
      var head: seq<T> := if p(s[0]) then [s[0]] else [];
      var f := Filter(rest, p);
      forall i, j | 0 <= i < |head| && 0 <= j < |f|
        ensures key(head[i]) != key(f[j])
      {
        assert f[j] in rest;
        var k :| 0 <= k < |rest| && rest[k] == f[j];
        assert head[i] == s[0] && s[k + 1] == f[j];
      }
      DistinctConcat(head, Filter(rest, p), key);
    }
  }

  /** Appending the same element to both sides keeps a subsequence. */
  lemma {:induction false} SubseqAppend<T>(x: seq<T>, y: seq<T>, e: T)
    requires IsSubseq(x, y)
    ensures IsSubseq(x + [e], y + [e])
    decreases |y|
  {
    if |x| == 0 {
      if |y| > 0 && y[0] != e {
        SubseqAppend(x, y[1..], e);
        assert (y + [e])[1..] == y[1..] + [e];
      } else if |y| > 0 {
        assert IsSubseq([], y[1..] + [e]);
      }
    } else {
      assert |y| > 0;
      assert (x + [e])[1..] == x[1..] + [e];
      assert (y + [e])[1..] == y[1..] + [e];
      if x[0] == y[0] {
        SubseqAppend(x[1..], y[1..], e);
      } else {
        SubseqAppend(x, y[1..], e);
      }
    }
  }

  /** Extending the larger side keeps a subsequence. */
  lemma {:induction false} SubseqExtend<T>(x: seq<T>, y: seq<T>, e: T)
    requires IsSubseq(x, y)
    ensures IsSubseq(x, y + [e])
    decreases |y|
  {
    if |x| > 0 {
      assert (y + [e])[1..] == y[1..] + [e];
      if x[0] == y[0] {
        SubseqExtend(x[1..], y[1..], e);
      } else {
        SubseqExtend(x, y[1..], e);
      }
    }
  }
}
