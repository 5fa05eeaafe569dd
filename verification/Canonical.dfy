/** Sorting and compacting: the canonical list of a set of keys. */
module Canonical {

  type Key = string

  /** Lexicographic order; a proper prefix comes first. */
  predicate Less(a: Key, b: Key) {
    b != [] && (a == [] || a[0] < b[0] || (a[0] == b[0] && Less(a[1..], b[1..])))
  }

  lemma {:induction false} LessTotal(a: Key, b: Key)
    ensures Less(a, b) || a == b || Less(b, a)
    ensures !(Less(a, b) && Less(b, a)) && !Less(a, a)
  {
    if a != [] && b != [] {
      LessTotal(a[1..], b[1..]);
      assert a[0] == b[0] && a[1..] == b[1..] ==> a == [a[0]] + a[1..] == [b[0]] + b[1..] == b;
    }
    if a != [] {
      LessTotal(a[1..], a[1..]);
    }
  }

  lemma {:induction false} LessTransitive(a: Key, b: Key, c: Key)
    requires Less(a, b) && Less(b, c)
    ensures Less(a, c)
  {
    if a != [] && a[0] == b[0] == c[0] {
      LessTransitive(a[1..], b[1..], c[1..]);
    }
  }

  predicate Ascending(s: seq<Key>) {
    forall i | 0 <= i < |s| - 1 :: Less(s[i], s[i + 1])
  }

  predicate Sorted(s: seq<Key>) {
    forall i | 0 <= i < |s| - 1 :: !Less(s[i + 1], s[i])
  }

  function Insert(k: Key, s: seq<Key>): (r: seq<Key>) {
    if s == [] || !Less(s[0], k) then [k] + s else [s[0]] + Insert(k, s[1..])
  }

  function Sort(s: seq<Key>): (r: seq<Key>) {
    if s == [] then [] else Insert(s[0], Sort(s[1..]))
  }

  /** Drops each element that repeats the one before it. */
  function Compact(s: seq<Key>): (r: seq<Key>) {
    if |s| < 2 then s
    else if s[0] == s[1] then Compact(s[1..])
    else [s[0]] + Compact(s[1..])
  }

  function Canon(s: seq<Key>): (r: seq<Key>) {
    Compact(Sort(s))
  }

  function Elements(s: seq<Key>): (e: set<Key>) {
    set k | k in s
  }

  lemma ElementsCons(k: Key, s: seq<Key>)
    ensures Elements([k] + s) == Elements(s) + {k}
  {
    assert forall x :: x in [k] + s <==> x == k || x in s;
  }

  lemma NoElements(s: seq<Key>)
    ensures Elements(s) == {} <==> s == []
  {
    if s != [] {
      assert s[0] in Elements(s);
    }
  }

  lemma {:induction false} InsertSorts(k: Key, s: seq<Key>)
    requires Sorted(s)
    ensures Sorted(Insert(k, s)) && Elements(Insert(k, s)) == Elements(s) + {k}
    ensures Insert(k, s)[0] == k || (s != [] && Insert(k, s)[0] == s[0])
  {
    ElementsCons(k, s);
    if s != [] && Less(s[0], k) {
      LessTotal(s[0], k);
      InsertSorts(k, s[1..]);
      assert s == [s[0]] + s[1..];
      ElementsCons(s[0], s[1..]);
      ElementsCons(s[0], Insert(k, s[1..]));
    }
  }

  lemma {:induction false} SortSorts(s: seq<Key>)
    ensures Sorted(Sort(s)) && Elements(Sort(s)) == Elements(s)
  {
    if s != [] {
      SortSorts(s[1..]);
      InsertSorts(s[0], Sort(s[1..]));
      assert s == [s[0]] + s[1..];
      ElementsCons(s[0], s[1..]);
    }
  }

  lemma {:induction false} CompactAscends(s: seq<Key>)
    requires Sorted(s)
    ensures Ascending(Compact(s)) && Elements(Compact(s)) == Elements(s)
    ensures s != [] ==> Compact(s) != [] && Compact(s)[0] == s[0]
  {
    if |s| >= 2 {
      CompactAscends(s[1..]);
      LessTotal(s[0], s[1]);
      assert s == [s[0]] + s[1..];
      ElementsCons(s[0], s[1..]);
      ElementsCons(s[0], Compact(s[1..]));
    }
  }

  lemma {:induction false} HeadIsLeast(s: seq<Key>, i: nat)
    requires Ascending(s) && 0 < i < |s|
    ensures Less(s[0], s[i])
  {
    if i > 1 {
      HeadIsLeast(s, i - 1);
      LessTransitive(s[0], s[i - 1], s[i]);
    }
  }

  /** A set has one ascending list. */
  lemma {:induction false} AscendingUnique(s: seq<Key>, t: seq<Key>)
    requires Ascending(s) && Ascending(t) && Elements(s) == Elements(t)
    ensures s == t
  {
    NoElements(s);
    NoElements(t);
    if s != [] && t != [] {
      HeadsAgree(s, t);
      forall k ensures k in Elements(s[1..]) <==> k in Elements(t[1..]) {
        TailElements(s, k);
        TailElements(t, k);
      }
      AscendingUnique(s[1..], t[1..]);
      assert s == [s[0]] + s[1..] && t == [t[0]] + t[1..];
    }
  }

  lemma TailElements(s: seq<Key>, k: Key)
    requires Ascending(s) && s != []
    ensures k in Elements(s[1..]) <==> k in Elements(s) && k != s[0]
  {
    if k in s[1..] {
      var i :| 0 <= i < |s| - 1 && s[1..][i] == k;
      HeadIsLeast(s, i + 1);
      LessTotal(s[0], k);
    }
  }

  lemma HeadsAgree(s: seq<Key>, t: seq<Key>)
    requires Ascending(s) && Ascending(t) && s != [] && t != [] && Elements(s) == Elements(t)
    ensures s[0] == t[0]
  {
    assert s[0] in Elements(t) && t[0] in Elements(s);
    var i :| 0 <= i < |s| && s[i] == t[0];
    var j :| 0 <= j < |t| && t[j] == s[0];
    if i > 0 && j > 0 {
      HeadIsLeast(s, i);
      HeadIsLeast(t, j);
      LessTotal(s[0], t[0]);
    }
  }

  lemma CanonAscends(s: seq<Key>)
    ensures Ascending(Canon(s)) && Elements(Canon(s)) == Elements(s)
  {
    SortSorts(s);
    CompactAscends(Sort(s));
  }

  /** Two lists have the same canonical form exactly when they are equal as sets. */
  lemma CanonIffSameSet(s: seq<Key>, t: seq<Key>)
    ensures Canon(s) == Canon(t) <==> Elements(s) == Elements(t)
  {
    CanonAscends(s);
    CanonAscends(t);
    if Elements(s) == Elements(t) {
      AscendingUnique(Canon(s), Canon(t));
    }
  }
}
