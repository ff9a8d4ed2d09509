/** Filters, counts and sums over sequences of documents: the store's
    queries, counts and summing aggregates, stated once. */
module Seqs {
  import opened Basics

  /** Position of the first element satisfying `p`: the document a
      single-document query finds. */
  function IndexWhere<T>(s: seq<T>, p: T -> bool): (r: Option<nat>)
    ensures r.Some? ==> r.value < |s| && p(s[r.value])
    ensures r.Some? ==> forall j :: 0 <= j < r.value ==> !p(s[j])
    ensures r.None? <==> forall j :: 0 <= j < |s| ==> !p(s[j])
  {
    if |s| == 0 then None
    else if p(s[0]) then Some(0)
    else match IndexWhere(s[1..], p)
      case None => None
      case Some(k) => Some(k + 1)
  }

  /** No two elements of `s` share a key. */
  predicate DistinctBy<T, K(==)>(s: seq<T>, key: T -> K)
  {
    forall i, j :: 0 <= i < j < |s| ==> key(s[i]) != key(s[j])
  }

  /** The elements of `s` that satisfy `p`, in their original order. */
  function Filter<T(!new)>(s: seq<T>, p: T -> bool): (r: seq<T>)
    ensures |r| <= |s|
    ensures forall i :: 0 <= i < |r| ==> p(r[i])
    ensures forall x :: x in r <==> x in s && p(x)
  {
    if |s| == 0 then []
    else
      assert s == [s[0]] + s[1..];
      if p(s[0]) then [s[0]] + Filter(s[1..], p) else Filter(s[1..], p)
  }

  /** Filtering keeps each element that satisfies `p` exactly as often as it
      occurs, and drops the others. */
  lemma {:induction false} FilterMultiset<T(!new)>(s: seq<T>, p: T -> bool)
    ensures forall x :: multiset(Filter(s, p))[x] == if p(x) then multiset(s)[x] else 0
  {
    if |s| != 0 {
      assert s == [s[0]] + s[1..];
      FilterMultiset(s[1..], p);
    }
  }

  /** Filtering distributes over concatenation. */
  lemma {:induction false} FilterAppend<T(!new)>(a: seq<T>, b: seq<T>, p: T -> bool)
    ensures Filter(a + b, p) == Filter(a, p) + Filter(b, p)
  {
    if |a| == 0 {
      assert a + b == b;
    } else {
      assert (a + b)[1..] == a[1..] + b;
      FilterAppend(a[1..], b, p);
    }
  }

  /** Sum of `f` over the elements of `s`. */
  function SumOf<T>(s: seq<T>, f: T -> real): real
  {
    if |s| == 0 then 0.0 else f(s[0]) + SumOf(s[1..], f)
  }

  /** Sums distribute over concatenation. */
  lemma {:induction false} SumOfAppend<T>(a: seq<T>, b: seq<T>, f: T -> real)
    ensures SumOf(a + b, f) == SumOf(a, f) + SumOf(b, f)
  {
    if |a| == 0 {
      assert a + b == b;
    } else {
      assert (a + b)[1..] == a[1..] + b;
      SumOfAppend(a[1..], b, f);
    }
  }

  /** Sum of `f` over the elements that satisfy `p`: an aggregate that
      selects, then sums. */
  function SumWhere<T>(s: seq<T>, p: T -> bool, f: T -> real): real
  {
    if |s| == 0 then 0.0 else (if p(s[0]) then f(s[0]) else 0.0) + SumWhere(s[1..], p, f)
  }

  /** Summing a filtered sequence is summing over the elements that satisfy `p`. */
  lemma {:induction false} SumOfFilter<T(!new)>(s: seq<T>, p: T -> bool, f: T -> real)
    ensures SumOf(Filter(s, p), f) == SumWhere(s, p, f)
  {
    if |s| != 0 {
      SumOfFilter(s[1..], p, f);
    }
  }

  /** Conditional sums distribute over concatenation. */
  lemma {:induction false} SumWhereAppend<T>(a: seq<T>, b: seq<T>, p: T -> bool, f: T -> real)
    ensures SumWhere(a + b, p, f) == SumWhere(a, p, f) + SumWhere(b, p, f)
  {
    if |a| == 0 {
      assert a + b == b;
    } else {
      assert (a + b)[1..] == a[1..] + b;
      SumWhereAppend(a[1..], b, p, f);
    }
  }

  /** Nothing satisfies `p`: the conditional sum is 0. */
  lemma {:induction false} SumWhereNone<T>(s: seq<T>, p: T -> bool, f: T -> real)
    requires forall i :: 0 <= i < |s| ==> !p(s[i])
    ensures SumWhere(s, p, f) == 0.0
  {
    if |s| != 0 {
      SumWhereNone(s[1..], p, f);
    }
  }

  /** Exactly one of three conditions holds. */
  predicate ExactlyOne(a: bool, b: bool, c: bool)
  {
    (a && !b && !c) || (!a && b && !c) || (!a && !b && c)
  }

  /** Three filters that split every element into exactly one class count
      every element once: their counts add up to the length. */
  lemma {:induction false} PartitionCount<T(!new)>(s: seq<T>, p: T -> bool, q: T -> bool, r: T -> bool)
    requires forall i :: 0 <= i < |s| ==> ExactlyOne(p(s[i]), q(s[i]), r(s[i]))
    ensures |Filter(s, p)| + |Filter(s, q)| + |Filter(s, r)| == |s|
  {
    if |s| != 0 {
      PartitionCount(s[1..], p, q, r);
    }
  }

  /** Filtering keeps keys distinct. */
  lemma {:induction false} FilterDistinctBy<T(!new), K>(s: seq<T>, p: T -> bool, key: T -> K)
    requires DistinctBy(s, key)
    ensures DistinctBy(Filter(s, p), key)
  {
    if |s| != 0 {
      var t := s[1..];
      DistinctByTail(s, key);
      FilterDistinctBy(t, p, key);
      if p(s[0]) {
        var ft := Filter(t, p);
        forall j | 0 <= j < |ft| ensures key(s[0]) != key(ft[j]) {
          KeyOfMember(s, key, ft[j]);
        }
        ConsDistinctBy(s[0], ft, key);
      }
    }
  }

  lemma DistinctByTail<T, K>(s: seq<T>, key: T -> K)
    requires |s| > 0 && DistinctBy(s, key)
    ensures DistinctBy(s[1..], key)
  {
    var t := s[1..];
    forall i, j | 0 <= i < j < |t| ensures key(t[i]) != key(t[j]) {
      assert t[i] == s[i + 1] && t[j] == s[j + 1];
    }
  }

  lemma KeyOfMember<T, K>(s: seq<T>, key: T -> K, x: T)
    requires |s| > 0 && DistinctBy(s, key) && x in s[1..]
    ensures key(s[0]) != key(x)
  {
    var k :| 0 <= k < |s[1..]| && s[1..][k] == x;
    assert s[k + 1] == x;
  }

  lemma ConsDistinctBy<T, K>(x: T, t: seq<T>, key: T -> K)
    requires DistinctBy(t, key)
    requires forall j :: 0 <= j < |t| ==> key(x) != key(t[j])
    ensures DistinctBy([x] + t, key)
  {
    var r := [x] + t;
    forall i, j | 0 <= i < j < |r| ensures key(r[i]) != key(r[j]) {
      assert r[j] == t[j - 1];
      if i > 0 {
        assert r[i] == t[i - 1];
      }
    }
  }

  /** Removing the element at `i` keeps keys distinct. */
  lemma RemoveAtDistinctBy<T, K>(s: seq<T>, i: nat, key: T -> K)
    requires i < |s| && DistinctBy(s, key)
    ensures DistinctBy(s[..i] + s[i + 1..], key)
  {
    var r := s[..i] + s[i + 1..];
    forall a, b | 0 <= a < b < |r| ensures key(r[a]) != key(r[b]) {
      var a' := if a < i then a else a + 1;
      var b' := if b < i then b else b + 1;
      assert r[a] == s[a'] && r[b] == s[b'];
    }
  }

  /** Removing the only element with a given key removes exactly that key. */
  lemma RemoveAtMembers<T, K>(s: seq<T>, i: nat, key: T -> K)
    requires i < |s| && DistinctBy(s, key)
    ensures forall x :: x in s[..i] + s[i + 1..] <==> x in s && key(x) != key(s[i])
  {
    var rest := s[..i] + s[i + 1..];
    forall x ensures x in rest <==> x in s && key(x) != key(s[i]) {
      if x in rest {
        var k :| 0 <= k < |rest| && rest[k] == x;
        var k' := if k < i then k else k + 1;
        assert s[k'] == x;
      }
      if x in s && key(x) != key(s[i]) {
        var j :| 0 <= j < |s| && s[j] == x;
        if j < i {
          assert rest[j] == x;
        } else {
          assert rest[j - 1] == x;
        }
      }
    }
  }

  /** Two sequences whose elements agree on `p` position by position have
      equally many elements satisfying `p`. */
  lemma {:induction false} FilterCountPointwise<T(!new)>(a: seq<T>, b: seq<T>, p: T -> bool)
    requires |a| == |b|
    requires forall i :: 0 <= i < |a| ==> p(a[i]) == p(b[i])
    ensures |Filter(a, p)| == |Filter(b, p)|
  {
    if |a| != 0 {
      assert p(a[0]) == p(b[0]);
      FilterCountPointwise(a[1..], b[1..], p);
    }
  }
}
