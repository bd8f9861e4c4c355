/** The key orders of the program's ordered maps and the in-order traversal
    that iterating a std::map performs. */
module Orders {

  /** std::string's operator<: lexicographic comparison of character codes,
      a proper prefix coming first. */
  predicate StrLess(a: string, b: string)
    decreases |a|
  {
    if |a| == 0 then |b| > 0
    else if |b| == 0 then false
    else a[0] < b[0] || (a[0] == b[0] && StrLess(a[1..], b[1..]))
  }

  /** std::pair's operator< on (stock, interval) keys: by stock, then by interval. */
  predicate KeyLess(a: (string, int), b: (string, int))
  {
    StrLess(a.0, b.0) || (a.0 == b.0 && a.1 < b.1)
  }

  /** `lt` is irreflexive, transitive and total on the elements of `ks`. */
  ghost predicate StrictTotalOrderOn<K>(lt: (K, K) -> bool, ks: set<K>)
  {
    && (forall a :: a in ks ==> !lt(a, a))
    && (forall a, b, c :: a in ks && b in ks && c in ks && lt(a, b) && lt(b, c) ==> lt(a, c))
    && (forall a, b :: a in ks && b in ks && a != b ==> lt(a, b) || lt(b, a))
  }

  ghost predicate StrictlySorted<K>(s: seq<K>, lt: (K, K) -> bool)
  {
    forall i, j :: 0 <= i < j < |s| ==> lt(s[i], s[j])
  }

  /** `k` is the first key of `ks` in the order `lt`. */
  predicate IsLeast<K(==)>(k: K, ks: set<K>, lt: (K, K) -> bool)
  {
    k in ks && forall j :: j in ks && j != k ==> lt(k, j)
  }

  lemma {:induction false} StrLessIrreflexive(a: string)
    ensures !StrLess(a, a)
    decreases |a|
  {
    if |a| > 0 {
      StrLessIrreflexive(a[1..]);
    }
  }

  lemma {:induction false} StrLessTransitive(a: string, b: string, c: string)
    requires StrLess(a, b) && StrLess(b, c)
    ensures StrLess(a, c)
    decreases |a|
  {
    if |a| > 0 && a[0] == b[0] && b[0] == c[0] {
      StrLessTransitive(a[1..], b[1..], c[1..]);
    }
  }

  lemma {:induction false} StrLessTotal(a: string, b: string)
    requires a != b
    ensures StrLess(a, b) || StrLess(b, a)
    decreases |a|
  {
    if |a| > 0 && |b| > 0 && a[0] == b[0] {
      assert a == [a[0]] + a[1..] && b == [b[0]] + b[1..];
      StrLessTotal(a[1..], b[1..]);
    }
  }

  /** std::string's operator< is a strict total order, so std::map<string, _>
      has one well-defined iteration order. */
  lemma StrLessIsStrictTotalOrder(ks: set<string>)
    ensures StrictTotalOrderOn(StrLess, ks)
  {
    forall a | a in ks ensures !StrLess(a, a) {
      StrLessIrreflexive(a);
    }
    forall a, b, c | a in ks && b in ks && c in ks && StrLess(a, b) && StrLess(b, c)
      ensures StrLess(a, c)
    {
      StrLessTransitive(a, b, c);
    }
    forall a, b | a in ks && b in ks && a != b ensures StrLess(a, b) || StrLess(b, a) {
      StrLessTotal(a, b);
    }
  }

  /** std::pair's operator< on (stock, interval) keys is a strict total order. */
  lemma KeyLessIsStrictTotalOrder(ks: set<(string, int)>)
    ensures StrictTotalOrderOn(KeyLess, ks)
  {
    forall a | a in ks ensures !KeyLess(a, a) {
      StrLessIrreflexive(a.0);
    }
    forall a, b, c | a in ks && b in ks && c in ks && KeyLess(a, b) && KeyLess(b, c)
      ensures KeyLess(a, c)
    {
      if StrLess(a.0, b.0) && StrLess(b.0, c.0) {
        StrLessTransitive(a.0, b.0, c.0);
      }
    }
    forall a, b | a in ks && b in ks && a != b ensures KeyLess(a, b) || KeyLess(b, a) {
      if a.0 != b.0 {
        StrLessTotal(a.0, b.0);
      }
    }
  }

  /** Every non-empty finite set of keys has a first key. */
  lemma {:induction false} LeastExists<K>(ks: set<K>, lt: (K, K) -> bool)
    requires ks != {} && StrictTotalOrderOn(lt, ks)
    ensures exists k :: IsLeast(k, ks, lt)
    decreases ks
  {
    var x :| x in ks;
    var rest := ks - {x};
    if rest == {} {
      assert forall j :: j in ks && j != x ==> j in rest;
      assert IsLeast(x, ks, lt);
    } else {
      LeastExists(rest, lt);
      var m :| IsLeast(m, rest, lt);
      if lt(m, x) {
        assert IsLeast(m, ks, lt);
      } else {
        forall j | j in ks && j != x ensures lt(x, j) {
          if j != m {
            assert lt(m, j);
          }
        }
        assert IsLeast(x, ks, lt);
      }
    }
  }

  /** The keys of `ks` in ascending order: the least key, then the rest. */
  ghost function SortedSeq<K(!new)>(ks: set<K>, lt: (K, K) -> bool): seq<K>
    decreases ks
  {
    if exists k :: IsLeast(k, ks, lt) then
      var k :| IsLeast(k, ks, lt);
      [k] + SortedSeq(ks - {k}, lt)
    else []
  }

  /** Under a strict total order SortedSeq lists every key exactly once, in
      strictly ascending order. */
  lemma {:induction false} SortedSeqLists<K(!new)>(ks: set<K>, lt: (K, K) -> bool)
    requires StrictTotalOrderOn(lt, ks)
    ensures var s := SortedSeq(ks, lt);
      && (forall k :: k in s <==> k in ks)
      && |s| == |ks|
      && StrictlySorted(s, lt)
    decreases ks
  {
    if ks != {} {
      LeastExists(ks, lt);
      var s := SortedSeq(ks, lt);
      var k :| IsLeast(k, ks, lt);
      assert s == [k] + SortedSeq(ks - {k}, lt);
      SortedSeqLists(ks - {k}, lt);
    }
  }

  /** The keys of a std::map in iteration order: strictly ascending, each key
      exactly once. Each step visits the least key not yet visited. */
  method InOrder<K(==,!new)>(keys: set<K>, lt: (K, K) -> bool) returns (ks: seq<K>)
    requires StrictTotalOrderOn(lt, keys)
    ensures StrictlySorted(ks, lt)
    ensures forall k :: k in ks <==> k in keys
  {
    ks := [];
    var rest := keys;
    while rest != {}
      invariant rest <= keys
      invariant forall k :: k in keys <==> k in ks || k in rest
      invariant StrictlySorted(ks, lt)
      invariant forall i, r :: 0 <= i < |ks| && r in rest ==> lt(ks[i], r)
      decreases rest
    {
      LeastExists(rest, lt);
      var k :| IsLeast(k, rest, lt);
      ks := ks + [k];
      rest := rest - {k};
    }
  }

  /** Two strictly ascending sequences with the same elements are equal:
      the traversal order of a map is determined by its keys. */
  lemma {:induction false} SortedIsUnique<K>(a: seq<K>, b: seq<K>, lt: (K, K) -> bool)
    requires StrictlySorted(a, lt) && StrictlySorted(b, lt)
    requires forall k :: k in a <==> k in b
    requires StrictTotalOrderOn(lt, set k | k in a)
    ensures a == b
    decreases |a|
  {
    assert a != [] ==> a[0] in a;
    assert b != [] ==> b[0] in b;
    if a != [] && b != [] {
      assert a[0] in b && b[0] in a;
      assert a[0] == b[0];
      forall k ensures k in a[1..] <==> k in b[1..] {
        if k in a[1..] {
          var i :| 1 <= i < |a| && a[i] == k;
          assert k != a[0] by { assert lt(a[0], a[i]); }
          assert k in a;
          var j :| 0 <= j < |b| && b[j] == k;
          assert b[1..][j - 1] == k;
        }
        if k in b[1..] {
          var i :| 1 <= i < |b| && b[i] == k;
          assert k != b[0] by { assert lt(b[0], b[i]); }
          assert k in b;
          var j :| 0 <= j < |a| && a[j] == k;
          assert a[1..][j - 1] == k;
        }
      }
      assert (set k | k in a[1..]) <= (set k | k in a);
      SortedIsUnique(a[1..], b[1..], lt);
      assert a == [a[0]] + a[1..] && b == [b[0]] + b[1..];
    }
  }

  /** The iteration order of a map keyed by strings: every key once, in
      ascending order, and no other order does that. */
  lemma StocksInOrder(ks: set<string>)
    ensures var s := SortedSeq(ks, StrLess);
      (forall k :: k in s <==> k in ks) && |s| == |ks| && StrictlySorted(s, StrLess)
    ensures forall t: seq<string> :: StrictlySorted(t, StrLess) && (forall k :: k in t <==> k in ks) ==>
      t == SortedSeq(ks, StrLess)
  {
    StrLessIsStrictTotalOrder(ks);
    SortedSeqLists(ks, StrLess);
    forall t: seq<string> | StrictlySorted(t, StrLess) && (forall k :: k in t <==> k in ks)
      ensures t == SortedSeq(ks, StrLess)
    {
      assert (set k | k in t) == ks;
      SortedIsUnique(t, SortedSeq(ks, StrLess), StrLess);
    }
  }

  /** The iteration order of a map keyed by (stock, interval) pairs: every
      key once, in ascending order, and no other order does that. */
  lemma PairsInOrder(ks: set<(string, int)>)
    ensures var s := SortedSeq(ks, KeyLess);
      (forall k :: k in s <==> k in ks) && |s| == |ks| && StrictlySorted(s, KeyLess)
    ensures forall t: seq<(string, int)> :: StrictlySorted(t, KeyLess) && (forall k :: k in t <==> k in ks) ==>
      t == SortedSeq(ks, KeyLess)
  {
    KeyLessIsStrictTotalOrder(ks);
    SortedSeqLists(ks, KeyLess);
    forall t: seq<(string, int)> | StrictlySorted(t, KeyLess) && (forall k :: k in t <==> k in ks)
      ensures t == SortedSeq(ks, KeyLess)
    {
      assert (set k | k in t) == ks;
      SortedIsUnique(t, SortedSeq(ks, KeyLess), KeyLess);
    }
  }
}
