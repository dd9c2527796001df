/** Stable sorting by an arbitrary comparison, and what a sorted sequence is determined by. */
module Sorting {

  ghost predicate TotalPreorder<T(!new)>(le: (T, T) -> bool)
  {
    && (forall x, y :: le(x, y) || le(y, x))
    && (forall x, y, z :: le(x, y) && le(y, z) ==> le(x, z))
  }

  ghost predicate TotalOrder<T(!new)>(le: (T, T) -> bool)
  {
    && TotalPreorder(le)
    && (forall x, y :: le(x, y) && le(y, x) ==> x == y)
  }

  ghost predicate SortedBy<T>(le: (T, T) -> bool, s: seq<T>)
  {
    forall i, j :: 0 <= i < j < |s| ==> le(s[i], s[j])
  }

  function InsertBy<T>(le: (T, T) -> bool, x: T, s: seq<T>): (r: seq<T>)
    ensures multiset(r) == multiset(s) + multiset{x}
  {
    if s == [] then [x]
    else if le(x, s[0]) then [x] + s
    else
      assert s == [s[0]] + s[1..];
      [s[0]] + InsertBy(le, x, s[1..])
  }

  /** Insertion sort; equal elements keep their order, so this is what every stable sort returns. */
  function SortBy<T>(le: (T, T) -> bool, s: seq<T>): (r: seq<T>)
    ensures multiset(r) == multiset(s)
  {
    if s == [] then [] else
      assert s == [s[0]] + s[1..];
      InsertBy(le, s[0], SortBy(le, s[1..]))
  }

  lemma {:induction false} InsertBySorted<T(!new)>(le: (T, T) -> bool, x: T, s: seq<T>)
    requires TotalPreorder(le) && SortedBy(le, s)
    ensures SortedBy(le, InsertBy(le, x, s))
  {
    if s != [] && !le(x, s[0]) {
      var rest := InsertBy(le, x, s[1..]);
      InsertBySorted(le, x, s[1..]);
      forall j | 0 <= j < |rest| ensures le(s[0], rest[j]) {
        assert rest[j] in multiset(s[1..]) + multiset{x};
        if rest[j] != x {
          var k :| 0 <= k < |s[1..]| && s[1..][k] == rest[j];
          assert s[k + 1] == rest[j];
        }
      }
    }
  }

  lemma {:induction false} SortBySorted<T(!new)>(le: (T, T) -> bool, s: seq<T>)
    requires TotalPreorder(le)
    ensures SortedBy(le, SortBy(le, s))
  {
    if s != [] {
      SortBySorted(le, s[1..]);
      InsertBySorted(le, s[0], SortBy(le, s[1..]));
    }
  }

  lemma SortedHead<T(!new)>(le: (T, T) -> bool, a: seq<T>, x: T)
    requires TotalPreorder(le) && SortedBy(le, a) && a != [] && x in a
    ensures le(a[0], x)
  {
    var i :| 0 <= i < |a| && a[i] == x;
    assert le(x, x);
  }

  lemma TailMultiset<T>(a: seq<T>)
    requires a != []
    ensures multiset(a[1..]) == multiset(a) - multiset{a[0]}
  {
    assert a == [a[0]] + a[1..];
  }

  /** Under a total order a sorted sequence is determined by its multiset of elements. */
  lemma {:induction false} SortedIsUnique<T(!new)>(le: (T, T) -> bool, a: seq<T>, b: seq<T>)
    requires TotalOrder(le) && SortedBy(le, a) && SortedBy(le, b) && multiset(a) == multiset(b)
    ensures a == b
  {
    assert |a| == |multiset(a)| == |multiset(b)| == |b|;
    if a != [] {
      assert a[0] == b[0] by {
        assert a[0] in multiset(b) && b[0] in multiset(a);
        SortedHead(le, a, b[0]);
        SortedHead(le, b, a[0]);
      }
      TailMultiset(a);
      TailMultiset(b);
      SortedIsUnique(le, a[1..], b[1..]);
      assert a == [a[0]] + a[1..] && b == [b[0]] + b[1..];
    }
  }

  /** Sorting forgets the input order, and nothing else. */
  lemma SortForgetsOrder<T(!new)>(le: (T, T) -> bool, s: seq<T>, t: seq<T>)
    requires TotalOrder(le)
    ensures SortBy(le, s) == SortBy(le, t) <==> multiset(s) == multiset(t)
  {
    if multiset(s) == multiset(t) {
      SortBySorted(le, s);
      SortBySorted(le, t);
      SortedIsUnique(le, SortBy(le, s), SortBy(le, t));
    }
  }

  /** An already sorted sequence is left as it is (also when the order is only a preorder). */
  lemma {:induction false} SortOfSorted<T>(le: (T, T) -> bool, s: seq<T>)
    requires SortedBy(le, s)
    ensures SortBy(le, s) == s
  {
    if s != [] {
      SortOfSorted(le, s[1..]);
      if |s| > 1 { assert le(s[0], s[1]); }
    }
  }

  /** No two neighbours, hence no two elements, are equal. */
  ghost predicate AscendingBy<K>(le: (K, K) -> bool, s: seq<K>)
  {
    forall i, j :: 0 <= i < j < |s| ==> le(s[i], s[j]) && s[i] != s[j]
  }

  function MapSeq<T, K>(key: T -> K, s: seq<T>): (r: seq<K>)
    ensures |r| == |s| && forall i :: 0 <= i < |s| ==> r[i] == key(s[i])
  {
    seq(|s|, i requires 0 <= i < |s| => key(s[i]))
  }

  function ByKey<T, K>(le: (K, K) -> bool, key: T -> K): (T, T) -> bool
  {
    (a: T, b: T) => le(key(a), key(b))
  }

  /** Remove every element whose key equals that of the last one kept. */
  function DedupBy<T, K(==)>(key: T -> K, s: seq<T>): seq<T>
  {
    if s == [] then [] else
      var kept := DedupBy(key, s[..|s| - 1]);
      if kept != [] && key(s[|s| - 1]) == key(kept[|kept| - 1]) then kept else kept + [s[|s| - 1]]
  }

  lemma DedupStep<T, K>(key: T -> K, s: seq<T>, i: nat)
    requires i < |s|
    ensures DedupBy(key, s[..i + 1]) ==
      var kept := DedupBy(key, s[..i]);
      if kept != [] && key(s[i]) == key(kept[|kept| - 1]) then kept else kept + [s[i]]
  {
    assert s[..i + 1][..i] == s[..i];
  }

  lemma ByKeyIsPreorder<T(!new), K(!new)>(le: (K, K) -> bool, key: T -> K)
    requires TotalPreorder(le)
    ensures TotalPreorder(ByKey(le, key))
  {
  }

  lemma {:induction false} DedupKeepsLastKey<T, K>(key: T -> K, s: seq<T>)
    requires s != []
    ensures DedupBy(key, s) != [] && key(DedupBy(key, s)[|DedupBy(key, s)| - 1]) == key(s[|s| - 1])
  {
  }

  lemma {:induction false} DedupIsSubset<T, K>(key: T -> K, s: seq<T>, x: T)
    requires x in DedupBy(key, s)
    ensures x in s
  {
    var init := s[..|s| - 1];
    if x in DedupBy(key, init) {
      DedupIsSubset(key, init, x);
    }
  }

  lemma {:induction false} DedupCovers<T, K>(key: T -> K, s: seq<T>, i: nat) returns (k: nat)
    requires i < |s|
    ensures k < |DedupBy(key, s)| && key(DedupBy(key, s)[k]) == key(s[i])
  {
    if i == |s| - 1 {
      DedupKeepsLastKey(key, s);
      k := |DedupBy(key, s)| - 1;
    } else {
      k := DedupCovers(key, s[..|s| - 1], i);
    }
  }

  lemma {:induction false} DedupAscends<T(!new), K(!new)>(le: (K, K) -> bool, key: T -> K, s: seq<T>)
    requires TotalOrder(le) && SortedBy(ByKey(le, key), s)
    ensures AscendingBy(le, MapSeq(key, DedupBy(key, s)))
  {
    if s != [] {
      var init, last := s[..|s| - 1], s[|s| - 1];
      var before := DedupBy(key, init);
      DedupAscends(le, key, init);
      if before != [] && key(last) != key(before[|before| - 1]) {
        DedupKeepsLastKey(key, init);
        assert ByKey(le, key)(init[|init| - 1], last);
        AscendingAppend(le, MapSeq(key, before), key(last));
        assert MapSeq(key, before + [last]) == MapSeq(key, before) + [key(last)];
      }
    }
  }

  lemma AscendingAppend<K(!new)>(le: (K, K) -> bool, s: seq<K>, k: K)
    requires TotalOrder(le) && AscendingBy(le, s)
    requires s != [] ==> le(s[|s| - 1], k) && s[|s| - 1] != k
    ensures AscendingBy(le, s + [k])
  {
    forall i | 0 <= i < |s| ensures le(s[i], k) && s[i] != k {
      if i < |s| - 1 { assert le(s[i], s[|s| - 1]); }
    }
  }

  lemma AscendingPrefix<T, K>(le: (K, K) -> bool, key: T -> K, s: seq<T>, n: nat)
    requires n <= |s| && AscendingBy(le, MapSeq(key, s))
    ensures AscendingBy(le, MapSeq(key, s[..n]))
  {
    forall i, j | 0 <= i < j < n
      ensures le(MapSeq(key, s[..n])[i], MapSeq(key, s[..n])[j]) && MapSeq(key, s[..n])[i] != MapSeq(key, s[..n])[j]
    {
      assert MapSeq(key, s)[i] == key(s[i]) && MapSeq(key, s)[j] == key(s[j]);
    }
  }

  lemma SplitLast<T>(s: seq<T>, n: nat)
    requires |s| == n + 1
    ensures s[..n] + [s[n]] == s && s[..n + 1] == s && (n > 0 ==> s[..n][n - 1] == s[n - 1])
  {
  }

  lemma DedupKeepsLast<T, K>(key: T -> K, s: seq<T>, n: nat)
    requires |s| == n + 1 && DedupBy(key, s[..n]) == s[..n] && (n > 0 ==> key(s[n]) != key(s[n - 1]))
    ensures DedupBy(key, s) == s
  {
    DedupStep(key, s, n);
    SplitLast(s, n);
  }

  lemma {:induction false} DedupOfAscending<T, K>(le: (K, K) -> bool, key: T -> K, s: seq<T>)
    requires AscendingBy(le, MapSeq(key, s))
    ensures DedupBy(key, s) == s
  {
    if s != [] {
      var n := |s| - 1;
      AscendingPrefix(le, key, s, n);
      DedupOfAscending(le, key, s[..n]);
      if n > 0 { assert MapSeq(key, s)[n - 1] != MapSeq(key, s)[n]; }
      DedupKeepsLast(key, s, n);
    }
  }

  /** `dedup_by` on equal keys. */
  method Dedup<T, K(==)>(key: T -> K, s: seq<T>) returns (kept: seq<T>)
    ensures kept == DedupBy(key, s)
  {
    kept := [];
    for i := 0 to |s|
      invariant kept == DedupBy(key, s[..i])
    {
      DedupStep(key, s, i);
      if kept == [] || key(s[i]) != key(kept[|kept| - 1]) {
        kept := kept + [s[i]];
      }
    }
    assert s[..|s|] == s;
  }

  /** What is in the sorted image of a sequence comes from an element of it, and the other way round. */
  lemma SortedImageElement<T, U>(le: (U, U) -> bool, f: T -> U, s: seq<T>, x: U)
    ensures x in SortBy(le, MapSeq(f, s)) <==> exists j :: 0 <= j < |s| && f(s[j]) == x
  {
    SameElements(SortBy(le, MapSeq(f, s)), MapSeq(f, s));
    if x in MapSeq(f, s) {
      var j :| 0 <= j < |MapSeq(f, s)| && MapSeq(f, s)[j] == x;
      assert f(s[j]) == x;
    }
    if j :| 0 <= j < |s| && f(s[j]) == x { assert MapSeq(f, s)[j] == x; }
  }

  lemma SameElements<T>(s: seq<T>, t: seq<T>)
    requires multiset(s) == multiset(t)
    ensures forall x :: x in s <==> x in t
  {
    forall x ensures x in s <==> x in t {
      assert x in s <==> x in multiset(s);
      assert x in t <==> x in multiset(t);
    }
  }
}
