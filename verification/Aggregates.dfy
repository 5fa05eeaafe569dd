/** Sums over rows, sums per key, and sorting: what the telemetry snapshot is built from. */
module Aggregates {
  import C = Canonical

  function Sum<T>(s: seq<T>, w: T -> nat): (n: nat) {
    if s == [] then 0 else Sum(s[..|s| - 1], w) + w(s[|s| - 1])
  }

  /** The share of the rows with this key. */
  function Part<T, K(==)>(s: seq<T>, key: T -> K, k: K, w: T -> nat): (n: nat) {
    if s == [] then 0
    else Part(s[..|s| - 1], key, k, w) + if key(s[|s| - 1]) == k then w(s[|s| - 1]) else 0
  }

  lemma Last<T>(s: seq<T>, i: nat)
    requires i < |s|
    ensures s[..i + 1][..i] == s[..i] && s[..i + 1][i] == s[i]
  {
  }

  lemma {:induction false} PartAppend<T, K>(s: seq<T>, t: seq<T>, key: T -> K, k: K, w: T -> nat)
    ensures Part(s + t, key, k, w) == Part(s, key, k, w) + Part(t, key, k, w)
  {
    if t == [] {
      assert s + t == s;
    } else {
      assert (s + t)[..|s + t| - 1] == s + t[..|t| - 1];
      PartAppend(s, t[..|t| - 1], key, k, w);
    }
  }

  lemma Removed<T>(s: seq<T>, i: nat)
    requires i < |s|
    ensures multiset(s[..i] + s[i + 1..]) == multiset(s) - multiset{s[i]}
  {
    assert s == s[..i] + [s[i]] + s[i + 1..];
  }

  lemma PartRemoved<T, K>(s: seq<T>, i: nat, key: T -> K, k: K, w: T -> nat)
    requires i < |s|
    ensures Part(s, key, k, w) == Part(s[..i] + s[i + 1..], key, k, w) + if key(s[i]) == k then w(s[i]) else 0
  {
    assert s == s[..i] + ([s[i]] + s[i + 1..]);
    PartAppend(s[..i], [s[i]] + s[i + 1..], key, k, w);
    PartAppend([s[i]], s[i + 1..], key, k, w);
    PartAppend(s[..i], s[i + 1..], key, k, w);
    assert [s[i]][..0] == [];
  }

  lemma {:induction false} PartOfPermutation<T, K>(s: seq<T>, t: seq<T>, key: T -> K, k: K, w: T -> nat)
    requires multiset(s) == multiset(t)
    ensures Part(s, key, k, w) == Part(t, key, k, w)
  {
    if s == [] {
      assert |multiset(t)| == |multiset(s)| == 0;
    } else {
      var n := |s| - 1;
      assert s[n] in multiset(t);
      var i :| 0 <= i < |t| && t[i] == s[n];
      Removed(s, n);
      Removed(t, i);
      PartRemoved(s, n, key, k, w);
      PartRemoved(t, i, key, k, w);
      PartOfPermutation(s[..n] + s[n + 1..], t[..i] + t[i + 1..], key, k, w);
    }
  }

  /** The whole is the part of any constant key. */
  lemma {:induction false} SumIsPart<T>(s: seq<T>, w: T -> nat)
    ensures Sum(s, w) == Part(s, (x: T) => 0, 0, w)
  {
    if s != [] {
      SumIsPart(s[..|s| - 1], w);
    }
  }

  lemma SumOfPermutation<T>(s: seq<T>, t: seq<T>, w: T -> nat)
    requires multiset(s) == multiset(t)
    ensures Sum(s, w) == Sum(t, w)
  {
    SumIsPart(s, w);
    SumIsPart(t, w);
    PartOfPermutation(s, t, (x: T) => 0, 0, w);
  }

  predicate Distinct<T(==)>(ks: seq<T>) {
    forall i, j | 0 <= i < j < |ks| :: ks[i] != ks[j]
  }

  /** The parts of several keys together. */
  function Parts<T, K(==)>(s: seq<T>, key: T -> K, ks: seq<K>, w: T -> nat): (n: nat) {
    if ks == [] then 0 else Parts(s, key, ks[..|ks| - 1], w) + Part(s, key, ks[|ks| - 1], w)
  }

  /** Conservation: the parts of distinct keys make up the whole if no row that weighs anything
      has another key. */
  lemma {:induction false} PartsMakeWhole<T, K>(s: seq<T>, key: T -> K, ks: seq<K>, w: T -> nat)
    requires Distinct(ks) && forall i | 0 <= i < |s| && w(s[i]) > 0 :: key(s[i]) in ks
    ensures Parts(s, key, ks, w) == Sum(s, w)
  {
    if s == [] {
      NoParts(key, ks, w);
    } else {
      var front, x := s[..|s| - 1], s[|s| - 1];
      PartsMakeWhole(front, key, ks, w);
      OneMoreRow(s, key, ks, w);
    }
  }

  lemma {:induction false} NoParts<T, K>(key: T -> K, ks: seq<K>, w: T -> nat)
    ensures Parts([], key, ks, w) == 0
  {
    if ks != [] {
      NoParts(key, ks[..|ks| - 1], w);
    }
  }

  /** The last row adds its weight to one key's part. */
  lemma {:induction false} OneMoreRow<T, K>(s: seq<T>, key: T -> K, ks: seq<K>, w: T -> nat)
    requires s != [] && Distinct(ks)
    ensures var x := s[|s| - 1];
            Parts(s, key, ks, w) == Parts(s[..|s| - 1], key, ks, w) + if key(x) in ks then w(x) else 0
  {
    if ks != [] {
      var front, k := ks[..|ks| - 1], ks[|ks| - 1];
      OneMoreRow(s, key, front, w);
      assert ks == front + [k];
    }
  }

  // ---------- sorting ----------

  ghost predicate Strict<T(!new)>(less: (T, T) -> bool) {
    && (forall a, b :: !(less(a, b) && less(b, a)))
    && (forall a, b, c :: less(a, b) && less(b, c) ==> less(a, c))
    && (forall a, b, c :: less(a, b) ==> less(a, c) || less(c, b))
  }

  lemma LessIsStrict()
    ensures Strict(C.Less)
  {
    forall a, b ensures !(C.Less(a, b) && C.Less(b, a)) {
      C.LessTotal(a, b);
    }
    forall a, b, c ensures C.Less(a, b) && C.Less(b, c) ==> C.Less(a, c) {
      if C.Less(a, b) && C.Less(b, c) {
        C.LessTransitive(a, b, c);
      }
    }
    forall a, b, c ensures C.Less(a, b) ==> C.Less(a, c) || C.Less(c, b) {
      C.LessTotal(a, c);
      if C.Less(c, a) && C.Less(a, b) {
        C.LessTransitive(c, a, b);
      }
    }
  }

  predicate Sorted<T>(s: seq<T>, less: (T, T) -> bool) {
    forall i, j | 0 <= i < j < |s| :: !less(s[j], s[i])
  }

  /** Like sort.Slice: some sorted arrangement; how ties are ordered is nobody's business. */
  method SortSlice<T(!new)>(s: seq<T>, less: (T, T) -> bool) returns (r: seq<T>)
    requires Strict(less)
    ensures Sorted(r, less) && multiset(r) == multiset(s)
  {
    r := [];
    for i := 0 to |s|
      invariant Sorted(r, less) && multiset(r) == multiset(s[..i])
    {
      var j := |r|;
      while j > 0 && less(s[i], r[j - 1])
        invariant 0 <= j <= |r|
        invariant forall k | j <= k < |r| :: less(s[i], r[k])
      {
        j := j - 1;
      }
      assert s[..i + 1] == s[..i] + [s[i]];
      Inserted(r, j, s[i], less);
      InsertedKeeps(r, j, s[i]);
      r := r[..j] + [s[i]] + r[j..];
    }
    assert s[..|s|] == s;
  }

  lemma Between<T(!new)>(less: (T, T) -> bool, x: T, y: T, z: T)
    requires Strict(less) && !less(x, y) && !less(y, z)
    ensures !less(x, z)
  {
  }

  lemma InsertedKeeps<T>(r: seq<T>, j: nat, x: T)
    requires j <= |r|
    ensures multiset(r[..j] + [x] + r[j..]) == multiset(r) + multiset{x}
  {
    assert r == r[..j] + r[j..];
  }

  lemma Inserted<T(!new)>(r: seq<T>, j: nat, x: T, less: (T, T) -> bool)
    requires Strict(less) && Sorted(r, less) && j <= |r|
    requires forall k | j <= k < |r| :: less(x, r[k])
    requires j > 0 ==> !less(x, r[j - 1])
    ensures Sorted(r[..j] + [x] + r[j..], less)
  {
    forall k | 0 <= k < j ensures !less(x, r[k]) {
      Between(less, x, r[j - 1], r[k]);
    }
  }

  ghost predicate TellsApart<T>(s: seq<T>, less: (T, T) -> bool) {
    forall i, j | 0 <= i < |s| && 0 <= j < |s| && s[i] != s[j] :: less(s[i], s[j]) || less(s[j], s[i])
  }

  lemma Tail<T>(s: seq<T>, less: (T, T) -> bool)
    requires s != [] && Sorted(s, less) && TellsApart(s, less)
    ensures multiset(s[1..]) == multiset(s) - multiset{s[0]} && Sorted(s[1..], less) && TellsApart(s[1..], less)
  {
    assert s == [s[0]] + s[1..];
  }

  lemma Apart<T>(s: seq<T>, t: seq<T>, less: (T, T) -> bool)
    requires multiset(s) == multiset(t) && TellsApart(s, less)
    ensures TellsApart(t, less)
  {
    forall i, j | 0 <= i < |t| && 0 <= j < |t| && t[i] != t[j] ensures less(t[i], t[j]) || less(t[j], t[i]) {
      assert t[i] in multiset(s) && t[j] in multiset(s);
    }
  }

  /** If the order tells all elements apart, there is one sorted arrangement of them. */
  lemma {:induction false} SortedUnique<T>(s: seq<T>, t: seq<T>, less: (T, T) -> bool)
    requires multiset(s) == multiset(t) && Sorted(s, less) && Sorted(t, less)
    requires TellsApart(s, less)
    ensures s == t
  {
    if s == [] {
      assert |multiset(t)| == |multiset(s)| == 0;
    } else {
      SameHead(s, t, less);
      Apart(s, t, less);
      Tail(s, less);
      Tail(t, less);
      hide Sorted, TellsApart;
      SortedUnique(s[1..], t[1..], less);
      Rejoin(s, t);
    }
  }

  lemma Rejoin<T>(s: seq<T>, t: seq<T>)
    requires s != [] && t != [] && s[0] == t[0] && s[1..] == t[1..]
    ensures s == t
  {
    assert s == [s[0]] + s[1..] && t == [t[0]] + t[1..];
  }

  lemma SameHead<T>(s: seq<T>, t: seq<T>, less: (T, T) -> bool)
    requires s != [] && multiset(s) == multiset(t) && Sorted(s, less) && Sorted(t, less)
    requires TellsApart(s, less)
    ensures t != [] && s[0] == t[0]
  {
    assert s[0] in multiset(t);
    var i :| 0 <= i < |t| && t[i] == s[0];
    assert t[0] in multiset(s);
    var j :| 0 <= j < |s| && s[j] == t[0];
    assert i > 0 ==> !less(t[i], t[0]);
    assert j > 0 ==> !less(s[j], s[0]);
  }

  function ValueSet<K, V>(m: map<K, V>): (vs: set<V>) {
    set k | k in m :: m[k]
  }

  /** Iterating over a map: its values in some order. */
  method Values<K, V>(m: map<K, V>) returns (vs: seq<V>)
    requires forall a, b | a in m && b in m && a != b :: m[a] != m[b]
    ensures multiset(vs) == multiset(ValueSet(m))
  {
    vs := [];
    var rest := m.Keys;
    while rest != {}
      invariant rest <= m.Keys
      invariant multiset(vs) == multiset(set k | k in m && k !in rest :: m[k])
    {
      var k :| k in rest;
      ghost var before := set j | j in m && j !in rest :: m[j];
      vs := vs + [m[k]];
      rest := rest - {k};
      assert (set j | j in m && j !in rest :: m[j]) == before + {m[k]};
    }
    assert (set k | k in m && k !in rest :: m[k]) == ValueSet(m);
  }

  /** A listing of a set has each element once. */
  lemma {:induction false} ListsOnce<T>(s: seq<T>, elements: set<T>)
    requires multiset(s) == multiset(elements)
    ensures Distinct(s) && forall x :: x in s <==> x in elements
  {
    forall x ensures x in s <==> x in elements {
      assert x in multiset(s) <==> x in multiset(elements);
    }
    forall i, j | 0 <= i < j < |s| ensures s[i] != s[j] {
      assert s == s[..j] + [s[j]] + s[j + 1..];
      assert s[..j][i] == s[i];
      assert multiset(elements)[s[j]] <= 1;
    }
  }

  lemma {:induction false} DistinctPermutes<T>(s: seq<T>, t: seq<T>)
    requires multiset(s) == multiset(t) && Distinct(t)
    ensures Distinct(s)
  {
    forall i, j | 0 <= i < j < |s| ensures s[i] != s[j] {
      OnceOnly(t, s[i]);
      assert s == s[..j] + [s[j]] + s[j + 1..];
      assert s[..j][i] == s[i];
    }
  }

  lemma {:induction false} OnceOnly<T>(t: seq<T>, x: T)
    requires Distinct(t)
    ensures multiset(t)[x] <= 1
  {
    if t != [] {
      var n := |t| - 1;
      assert t == t[..n] + [t[n]];
      OnceOnly(t[..n], x);
      if x == t[n] {
        assert x !in t[..n];
      }
    }
  }
}
