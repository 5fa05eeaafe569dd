/**
  Keyset pagination, as done by ListInsights, SearchInsights and ListInsightHistory.

  A sort key is the tuple of the ORDER BY columns, compared left to right:
  (updated_at, id) for listing, (rank, updated_at, id) for search (the rank by the bits
  of its non-negative float, which order as the float does), (revision) for history.
  Text columns in "C" collation are their code points.
 */
module Keyset {
  import opened Wrappers

  type Key = seq<int>

  /** Row comparison: the first column that differs decides; a proper prefix is smaller. */
  predicate Less(a: Key, b: Key) {
    if b == [] then false
    else if a == [] then true
    else a[0] < b[0] || (a[0] == b[0] && Less(a[1..], b[1..]))
  }

  lemma {:induction false} LessIrreflexive(a: Key)
    ensures !Less(a, a)
  {
    if a != [] {
      LessIrreflexive(a[1..]);
    }
  }

  lemma {:induction false} LessTransitive(a: Key, b: Key, c: Key)
    requires Less(a, b) && Less(b, c)
    ensures Less(a, c)
  {
    if a != [] && a[0] == b[0] && b[0] == c[0] {
      LessTransitive(a[1..], b[1..], c[1..]);
    }
  }

  lemma {:induction false} LessTotal(a: Key, b: Key)
    ensures a == b || Less(a, b) || Less(b, a)
  {
    if a != [] && b != [] && a[0] == b[0] {
      LessTotal(a[1..], b[1..]);
      assert a == [a[0]] + a[1..] && b == [b[0]] + b[1..];
    }
  }

  lemma LessAsymmetric(a: Key, b: Key)
    requires Less(a, b)
    ensures !Less(b, a) && a != b
  {
    LessIrreflexive(a);
    if Less(b, a) {
      LessTransitive(a, b, a);
    }
  }

  // ---------- sorted listings of a table ----------

  ghost predicate Descending(s: seq<Key>) {
    forall i, j | 0 <= i < j < |s| :: Less(s[j], s[i])
  }

  predicate IsGreatest(x: Key, table: set<Key>) {
    x in table && forall y | y in table :: y == x || Less(y, x)
  }

  lemma {:induction false} GreatestExists(table: set<Key>)
    requires table != {}
    ensures exists x :: IsGreatest(x, table)
    decreases |table|
  {
    var y :| y in table;
    if table == {y} {
      assert IsGreatest(y, table);
    } else {
      var rest := table - {y};
      assert y in table && y !in rest && table == rest + {y};
      assert rest != {};
      assert |rest| < |table|;
      GreatestExists(rest);
      var x :| IsGreatest(x, rest);
      LessTotal(x, y);
      if Less(x, y) {
        forall z | z in table ensures z == y || Less(z, y) {
          if z != y && z != x {
            LessTransitive(z, x, y);
          }
        }
        assert IsGreatest(y, table);
      } else {
        assert IsGreatest(x, table);
      }
    }
  }

  /** The whole table in ORDER BY ... DESC order. */
  ghost function Desc(table: set<Key>): (s: seq<Key>)
    ensures |s| == |table|
    decreases |table|
  {
    if table == {} then []
    else
      assert exists x :: IsGreatest(x, table) by { GreatestExists(table); }
      var x :| IsGreatest(x, table);
      [x] + Desc(table - {x})
  }

  ghost predicate Lists(s: seq<Key>, table: set<Key>) {
    Descending(s) && forall k :: k in s <==> k in table
  }

  lemma {:induction false} DescLists(table: set<Key>)
    ensures Lists(Desc(table), table)
    decreases |table|
  {
    if table != {} {
      GreatestExists(table);
      var x := Desc(table)[0];
      var rest := table - {x};
      assert IsGreatest(x, table) && Desc(table) == [x] + Desc(rest);
      DescLists(rest);
      assert forall k | k in Desc(rest) :: Less(k, x);
    }
  }

  lemma TailListing(s: seq<Key>, k: Key)
    requires s != [] && Descending(s)
    ensures Descending(s[1..])
    ensures k in s[1..] <==> k in s && k != s[0]
  {
    LessIrreflexive(s[0]);
    if k in s[1..] {
      var m :| 0 <= m < |s[1..]| && s[1..][m] == k;
      assert Less(s[m + 1], s[0]);
    }
    if k in s && k != s[0] {
      var m :| 0 <= m < |s| && s[m] == k;
      assert s[1..][m - 1] == k;
    }
  }

  lemma EmptyListing(s: seq<Key>, table: set<Key>)
    requires Lists(s, table)
    ensures s == [] <==> table == {}
  {
    if s != [] {
      assert s[0] in table;
    }
  }

  lemma TailLists(s: seq<Key>, table: set<Key>)
    requires s != [] && Lists(s, table)
    ensures Lists(s[1..], table - {s[0]})
  {
    forall k ensures k in s[1..] <==> k in table - {s[0]} {
      TailListing(s, k);
    }
    TailListing(s, s[0]);
  }

  /** Two descending listings of the same rows are the same list. */
  lemma {:induction false} SameListing(s: seq<Key>, t: seq<Key>, table: set<Key>)
    requires Lists(s, table) && Lists(t, table)
    ensures s == t
    decreases |s|
  {
    EmptyListing(s, table);
    EmptyListing(t, table);
    if s != [] {
      assert s[0] in table && t[0] in table;
      var i :| 0 <= i < |s| && s[i] == t[0];
      var j :| 0 <= j < |t| && t[j] == s[0];
      if i != 0 && j != 0 {
        assert Less(s[i], s[0]) && Less(t[j], t[0]);
        LessAsymmetric(s[i], s[0]);
      }
      assert s[0] == t[0];
      TailLists(s, table);
      TailLists(t, table);
      SameListing(s[1..], t[1..], table - {s[0]});
      assert s == [s[0]] + s[1..] && t == [t[0]] + t[1..];
    }
  }

  // ---------- one page ----------

  function Below(table: set<Key>, after: Option<Key>): (rest: set<Key>) {
    set k | k in table && (after.Some? ==> Less(k, after.value))
  }

  /** The rows a page shows and the cursor it hands out. */
  ghost function PageOf(table: set<Key>, after: Option<Key>, limit: nat): (page: (seq<Key>, Option<Key>))
    requires limit > 0
  {
    var rest := Desc(Below(table, after));
    if |rest| > limit then (rest[..limit], Some(rest[limit - 1])) else (rest, None)
  }

  lemma DescHead(table: set<Key>, x: Key)
    requires IsGreatest(x, table)
    ensures Desc(table) == [x] + Desc(table - {x})
  {
    DescLists(table - {x});
    DescLists(table);
    var rest := Desc(table - {x});
    var d := [x] + rest;
    forall i, j | 0 <= i < j < |d| ensures Less(d[j], d[i]) {
      assert d[j] == rest[j - 1] && rest[j - 1] in rest;
      assert i > 0 ==> Less(rest[j - 1], rest[i - 1]);
    }
    assert Lists(d, table);
    SameListing(d, Desc(table), table);
  }

  /** `SELECT ... ORDER BY key DESC LIMIT n`, as the database answers it. */
  method SelectDesc(table: set<Key>, n: nat) returns (rows: seq<Key>)
    ensures |rows| == if |table| <= n then |table| else n
    ensures rows == Desc(table)[..|rows|]
  {
    hide Desc;
    rows := [];
    var rest := table;
    while rest != {} && |rows| < n
      invariant |rows| <= n
      invariant |rows| + |rest| == |table|
      invariant rows + Desc(rest) == Desc(table)
      decreases |rest|
    {
      GreatestExists(rest);
      var x :| x in rest && IsGreatest(x, rest);
      DescHead(rest, x);
      assert rows + Desc(rest) == (rows + [x]) + Desc(rest - {x});
      rows := rows + [x];
      rest := rest - {x};
    }
    assert rows == (rows + Desc(rest))[..|rows|];
  }

  /** The page query: limit + 1 rows are fetched, and the extra one only decides the cursor. */
  method ListPage(table: set<Key>, after: Option<Key>, limit: int)
    returns (page: seq<Key>, next: Option<Key>)
    ensures limit <= 0 ==> page == [] && next == None
    ensures limit > 0 ==> (page, next) == PageOf(table, after, limit)
  {
    if limit <= 0 {
      return [], None;
    }
    page := SelectDesc(Below(table, after), limit + 1);
    ghost var rest := Desc(Below(table, after));
    next := None;
    if |page| > limit {
      page := page[..limit];
      assert page == rest[..limit];
      next := Some(page[|page| - 1]);
    } else {
      assert page == rest[..|rest|] == rest;
    }
  }

  /** What a reader may rely on: a page is the greatest rows left, the cursor is its last row,
      and there is a cursor exactly when rows remain below it. */
  lemma PageFacts(table: set<Key>, after: Option<Key>, limit: nat)
    requires limit > 0
    ensures var (page, next) := PageOf(table, after, limit);
            && Descending(page) && |page| <= limit
            && (forall k | k in page :: k in Below(table, after))
            && (next.None? ==> forall k | k in Below(table, after) :: k in page)
            && (next.Some? ==>
                  && |page| == limit && next.value == page[limit - 1]
                  && (forall k | k in Below(table, after) :: k in page <==> !Less(k, next.value))
                  && Below(table, next) != {})
  {
    var rest := Desc(Below(table, after));
    DescLists(Below(table, after));
    var (page, next) := PageOf(table, after, limit);
    if next.Some? {
      var cursor := rest[limit - 1];
      forall k | k in Below(table, after) ensures k in page <==> !Less(k, cursor) {
        var i :| 0 <= i < |rest| && rest[i] == k;
        if i < limit - 1 {
          LessAsymmetric(cursor, rest[i]);
          assert page[i] == k;
        } else if i == limit - 1 {
          LessIrreflexive(cursor);
          assert page[i] == k;
        } else {
          assert Less(k, cursor);
          if k in page {
            var j :| 0 <= j < limit && page[j] == k;
            assert Less(rest[i], rest[j]);
            LessIrreflexive(k);
          }
        }
      }
      assert rest[limit] in Below(table, after) && Less(rest[limit], cursor);
      assert rest[limit] in Below(table, next);
    }
  }

  lemma PageRowsAreInTable(table: set<Key>, after: Option<Key>, limit: nat)
    requires limit > 0
    ensures forall k | k in PageOf(table, after, limit).0 :: k in table
  {
    PageFacts(table, after, limit);
  }

  // ---------- the whole walk over a table nobody writes ----------

  lemma SuffixIsBelow(d: seq<Key>, m: nat, k: Key)
    requires Descending(d) && m < |d|
    ensures k in d[m + 1..] <==> k in d && Less(k, d[m])
  {
    if k in d[m + 1..] {
      var i :| 0 <= i < |d[m + 1..]| && d[m + 1..][i] == k;
      assert Less(d[m + 1 + i], d[m]);
    }
    if k in d && Less(k, d[m]) {
      var i :| 0 <= i < |d| && d[i] == k;
      LessAsymmetric(k, d[m]);
      assert i > m;
      assert d[m + 1..][i - m - 1] == k;
    }
  }

  lemma SuffixLists(d: seq<Key>, table: set<Key>, m: nat)
    requires Lists(d, table) && m < |d|
    ensures Lists(d[m + 1..], Below(table, Some(d[m])))
  {
    var tail := d[m + 1..];
    forall k ensures k in tail <==> k in Below(table, Some(d[m])) {
      SuffixIsBelow(d, m, k);
    }
    forall i, j | 0 <= i < j < |tail| ensures Less(tail[j], tail[i]) {
      assert Less(d[m + 1 + j], d[m + 1 + i]);
    }
  }

  lemma SuffixListing(table: set<Key>, m: nat)
    requires m < |table|
    ensures Desc(Below(table, Some(Desc(table)[m]))) == Desc(table)[m + 1..]
  {
    var d := Desc(table);
    DescLists(table);
    var rest := Below(table, Some(d[m]));
    SuffixLists(d, table, m);
    DescLists(rest);
    SameListing(d[m + 1..], Desc(rest), rest);
  }

  lemma BelowTwice(table: set<Key>, after: Option<Key>, cursor: Key)
    requires after.Some? ==> Less(cursor, after.value)
    ensures Below(table, Some(cursor)) == Below(Below(table, after), Some(cursor))
  {
    forall k | k in Below(table, Some(cursor)) ensures k in Below(table, after) {
      if after.Some? {
        LessTransitive(k, cursor, after.value);
      }
    }
  }

  /** A cursor taken from a page leaves exactly the rest of that listing. */
  lemma NextPageResumes(table: set<Key>, after: Option<Key>, limit: nat)
    requires limit > 0 && PageOf(table, after, limit).1.Some?
    ensures Desc(Below(table, after)) ==
            PageOf(table, after, limit).0 + Desc(Below(table, PageOf(table, after, limit).1))
    ensures |Below(table, PageOf(table, after, limit).1)| < |Below(table, after)|
  {
    var left := Below(table, after);
    var cursor := Desc(left)[limit - 1];
    SuffixListing(left, limit - 1);
    DescLists(left);
    assert cursor in left;
    BelowTwice(table, after, cursor);
    assert Desc(left) == Desc(left)[..limit] + Desc(left)[limit..];
    assert |Desc(left)[limit..]| == |Below(table, Some(cursor))|;
  }

  /** Following NextCursor from a starting point to the end. */
  ghost function Walk(table: set<Key>, after: Option<Key>, limit: nat): (rows: seq<Key>)
    requires limit > 0
    decreases |Below(table, after)|
  {
    var (page, next) := PageOf(table, after, limit);
    if next.None? then page
    else
      assert |Below(table, next)| < |Below(table, after)| by { NextPageResumes(table, after, limit); }
      page + Walk(table, next, limit)
  }

  /** Walking the pages terminates (Walk is total) and concatenates to the sorted list. */
  lemma {:induction false} WalkIsWholeList(table: set<Key>, after: Option<Key>, limit: nat)
    requires limit > 0
    ensures Walk(table, after, limit) == Desc(Below(table, after))
    decreases |Below(table, after)|
  {
    var (page, next) := PageOf(table, after, limit);
    if next.Some? {
      NextPageResumes(table, after, limit);
      WalkIsWholeList(table, next, limit);
    }
  }

  lemma WalkFromStart(table: set<Key>, limit: nat)
    requires limit > 0
    ensures Walk(table, None, limit) == Desc(table)
  {
    WalkIsWholeList(table, None, limit);
    assert Below(table, None) == table;
  }

  // ---------- a walk while writers run ----------

  /** `tables[i]` is what the i-th page query sees. */
  ghost function WalkOver(tables: seq<set<Key>>, after: Option<Key>, limit: nat): (rows: seq<Key>)
    requires limit > 0
  {
    if tables == [] then []
    else
      var (page, next) := PageOf(tables[0], after, limit);
      if next.None? then page else page + WalkOver(tables[1..], next, limit)
  }

  ghost predicate Finishes(tables: seq<set<Key>>, after: Option<Key>, limit: nat)
    requires limit > 0
  {
    tables != [] &&
    var next := PageOf(tables[0], after, limit).1;
    next.None? || Finishes(tables[1..], next, limit)
  }

  /** Whatever writers do between pages, the rows come strictly downwards from the cursor,
      so no key is ever repeated, and each was in the table of some page. */
  lemma {:induction false} WalkDescends(tables: seq<set<Key>>, after: Option<Key>, limit: nat)
    requires limit > 0
    ensures var rows := WalkOver(tables, after, limit);
            && Descending(rows)
            && (forall k | k in rows :: after.Some? ==> Less(k, after.value))
            && (forall k | k in rows :: exists i :: 0 <= i < |tables| && k in tables[i])
  {
    if tables != [] {
      var (page, next) := PageOf(tables[0], after, limit);
      PageFacts(tables[0], after, limit);
      if next.Some? {
        WalkDescends(tables[1..], next, limit);
        var rest := WalkOver(tables[1..], next, limit);
        var rows := page + rest;
        forall i, j | 0 <= i < j < |rows| ensures Less(rows[j], rows[i]) {
          if i < |page| <= j {
            assert rows[j] in rest;
            if i < |page| - 1 {
              LessTransitive(rows[j], next.value, rows[i]);
            }
          }
        }
        forall k | k in rows
          ensures after.Some? ==> Less(k, after.value)
          ensures exists i :: 0 <= i < |tables| && k in tables[i]
        {
          if k in page {
            assert k in tables[0];
          } else {
            assert k in rest;
            var i :| 0 <= i < |tables[1..]| && k in tables[1..][i];
            assert k in tables[i + 1];
            assert next.value in page;
            if after.Some? {
              LessTransitive(k, next.value, after.value);
            }
          }
        }
      }
    }
  }

  /** A row whose key stays in the table for the whole walk is returned, and only once. */
  lemma {:induction false} WalkReturnsStableRows(tables: seq<set<Key>>, after: Option<Key>, limit: nat, k: Key)
    requires limit > 0 && Finishes(tables, after, limit)
    requires forall i | 0 <= i < |tables| :: k in tables[i]
    requires after.Some? ==> Less(k, after.value)
    ensures multiset(WalkOver(tables, after, limit))[k] == 1
  {
    WalkDescends(tables, after, limit);
    WalkFindsStableRow(tables, after, limit, k);
    CountInDescending(WalkOver(tables, after, limit), k);
  }

  lemma {:induction false} WalkFindsStableRow(tables: seq<set<Key>>, after: Option<Key>, limit: nat, k: Key)
    requires limit > 0 && Finishes(tables, after, limit)
    requires forall i | 0 <= i < |tables| :: k in tables[i]
    requires after.Some? ==> Less(k, after.value)
    ensures k in WalkOver(tables, after, limit)
  {
    var (page, next) := PageOf(tables[0], after, limit);
    PageFacts(tables[0], after, limit);
    assert k in Below(tables[0], after);
    if next.Some? && Less(k, next.value) {
      WalkFindsStableRow(tables[1..], next, limit, k);
    }
  }

  /** Rows that came between two pages, not all of them above what was there. */
  ghost function Fallen(before: set<Key>, after: set<Key>): (rows: set<Key>) {
    set k | k in after && k !in before && exists m :: m in before && !Less(m, k)
  }

  ghost function Falls(tables: seq<set<Key>>): (n: nat) {
    if |tables| <= 1 then 0 else |Fallen(tables[0], tables[1])| + Falls(tables[1..])
  }

  /** A walk comes to its end, in as many pages as the rows below its start fill, together with
      the rows that fall in its way: only those which writers do not put above all others. */
  lemma {:induction false} WalkFinishes(tables: seq<set<Key>>, after: Option<Key>, limit: nat)
    requires limit > 0 && tables != []
    requires |Below(tables[0], after)| + Falls(tables) <= |tables| * limit
    ensures Finishes(tables, after, limit)
  {
    var (page, next) := PageOf(tables[0], after, limit);
    if next.Some? {
      PageLeavesLess(tables[0], after, limit);
      hide PageOf;
      assert |tables| > 1;
      FallenComeBelow(tables[0], tables[1], after, limit);
      assert |tables[1..]| * limit == |tables| * limit - limit;
      WalkFinishes(tables[1..], next, limit);
      FinishesStep(tables, after, limit);
    }
  }

  lemma PageLeavesLess(table: set<Key>, after: Option<Key>, limit: nat)
    requires limit > 0 && PageOf(table, after, limit).1.Some?
    ensures var next := PageOf(table, after, limit).1;
            |Below(table, after)| > limit && |Below(table, next)| == |Below(table, after)| - limit
  {
    var next := PageOf(table, after, limit).1;
    NextPageResumes(table, after, limit);
    DescLists(Below(table, after));
    DescLists(Below(table, next));
  }

  lemma FallenComeBelow(table: set<Key>, later: set<Key>, after: Option<Key>, limit: nat)
    requires limit > 0 && PageOf(table, after, limit).1.Some?
    ensures var next := PageOf(table, after, limit).1;
            |Below(later, next)| <= |Below(table, next)| + |Fallen(table, later)|
  {
    var (page, next) := PageOf(table, after, limit);
    PageFacts(table, after, limit);
    PageRowsAreInTable(table, after, limit);
    assert page[|page| - 1] in page;
    assert next.value in table;
    var rest, fallen := Below(table, next), Fallen(table, later);
    forall k | k in Below(later, next) ensures k in rest + fallen {
      LessAsymmetric(k, next.value);
    }
    NoLarger(Below(later, next), rest + fallen);
    assert |rest + fallen| <= |rest| + |fallen| by {
      assert rest + fallen == rest + (fallen - rest);
      NoLarger(fallen - rest, fallen);
    }
  }

  lemma NoLarger(a: set<Key>, b: set<Key>)
    requires a <= b
    ensures |a| <= |b|
  {
    assert b == a + (b - a);
  }

  lemma {:induction false} CountInDescending(s: seq<Key>, k: Key)
    requires Descending(s) && k in s
    ensures multiset(s)[k] == 1
  {
    assert s == [s[0]] + s[1..];
    TailListing(s, k);
    if k == s[0] {
      assert k !in s[1..];
      assert multiset(s[1..])[k] == 0;
    } else {
      CountInDescending(s[1..], k);
    }
  }

  // ---------- walks over insights, whose sort key can change ----------

  type Id = nat

  /** ORDER BY updated_at DESC, id DESC. */
  function ListKey(updatedAt: int, id: Id): (k: Key) {
    [updatedAt, id]
  }

  function ListKeys(rows: map<Id, int>): (keys: set<Key>) {
    set id | id in rows :: ListKey(rows[id], id)
  }

  function KeySets(tables: seq<map<Id, int>>): (keys: seq<set<Key>>)
    ensures |keys| == |tables|
    ensures forall i | 0 <= i < |tables| :: keys[i] == ListKeys(tables[i])
  {
    if tables == [] then [] else [ListKeys(tables[0])] + KeySets(tables[1..])
  }

  /** An insight that is modified only forwards in time is not listed twice, whichever pages
      its old and new positions fall on. */
  lemma {:induction false} WalkListsInsightOnce(tables: seq<map<Id, int>>, after: Option<Key>, limit: nat, id: Id, t: int, u: int)
    requires limit > 0
    requires forall i, j | 0 <= i < j < |tables| && id in tables[i] && id in tables[j] :: tables[i][id] <= tables[j][id]
    requires ListKey(t, id) in WalkOver(KeySets(tables), after, limit)
    requires ListKey(u, id) in WalkOver(KeySets(tables), after, limit)
    ensures t == u
  {
    var keys := KeySets(tables);
    var (page, next) := PageOf(keys[0], after, limit);
    PageFacts(keys[0], after, limit);
    if next.Some? {
      var rest := WalkOver(keys[1..], next, limit);
      assert keys[1..] == KeySets(tables[1..]);
      if ListKey(t, id) in rest && ListKey(u, id) in rest {
        WalkListsInsightOnce(tables[1..], next, limit, id, t, u);
      } else if ListKey(t, id) in page && ListKey(u, id) in rest {
        LaterPagesLackInsight(tables, page, next.value, limit, id, t, u);
      } else if ListKey(u, id) in page && ListKey(t, id) in rest {
        LaterPagesLackInsight(tables, page, next.value, limit, id, u, t);
      } else {
        OneKeyPerInsight(tables[0], id, t, u);
      }
    } else {
      OneKeyPerInsight(tables[0], id, t, u);
    }
  }

  lemma OneKeyPerInsight(table: map<Id, int>, id: Id, t: int, u: int)
    requires ListKey(t, id) in ListKeys(table) && ListKey(u, id) in ListKeys(table)
    ensures id in table && table[id] == t == u
  {
    var a :| a in table && ListKey(t, id) == ListKey(table[a], a);
    var b :| b in table && ListKey(u, id) == ListKey(table[b], b);
    assert ListKey(t, id)[0] == t && ListKey(t, id)[1] == id;
    assert ListKey(u, id)[0] == u && ListKey(u, id)[1] == id;
  }

  lemma EarlierIsBelow(t: int, u: int, id: Id, cursor: Key)
    requires t <= u && Less(ListKey(u, id), cursor)
    ensures Less(ListKey(t, id), cursor)
  {
    if t < u {
      LessTransitive(ListKey(t, id), ListKey(u, id), cursor);
    }
  }

  lemma LaterPagesLackInsight(tables: seq<map<Id, int>>, page: seq<Key>, cursor: Key, limit: nat, id: Id, t: int, u: int)
    requires limit > 0 && tables != []
    requires forall i, j | 0 <= i < j < |tables| && id in tables[i] && id in tables[j] :: tables[i][id] <= tables[j][id]
    requires forall k | k in page :: k in ListKeys(tables[0]) && !Less(k, cursor)
    requires ListKey(t, id) in page
    ensures ListKey(u, id) !in WalkOver(KeySets(tables)[1..], Some(cursor), limit)
  {
    OneKeyPerInsight(tables[0], id, t, t);
    var later := KeySets(tables)[1..];
    forall i | 0 <= i < |later| && ListKey(u, id) in later[i] ensures !Less(ListKey(u, id), cursor) {
      OneKeyPerInsight(tables[i + 1], id, u, u);
      if Less(ListKey(u, id), cursor) {
        EarlierIsBelow(t, u, id, cursor);
      }
    }
    WalkDescends(later, Some(cursor), limit);
  }

  // ---------- history pages ----------

  function RevisionKeys(n: nat): (keys: set<Key>) {
    set r | 1 <= r <= n :: [r]
  }

  /** n, n-1, ..., 1 */
  function Countdown(n: nat): (s: seq<Key>)
    ensures |s| == n && forall i | 0 <= i < n :: s[i] == [n - i]
  {
    if n == 0 then [] else [[n]] + Countdown(n - 1)
  }

  lemma CountdownListsBelow(n: nat, c: nat)
    requires c <= n
    ensures Desc(Below(RevisionKeys(n), Some([c + 1]))) == Countdown(c)
  {
    var rest := Below(RevisionKeys(n), Some([c + 1]));
    forall k ensures k in Countdown(c) <==> k in rest {
      if k in Countdown(c) {
        var i :| 0 <= i < c && Countdown(c)[i] == k;
        assert k == [c - i] && Less(k, [c + 1]);
      }
      if k in rest {
        var r :| 1 <= r <= n && k == [r];
        assert r < c + 1 by { assert !Less([r][1..], [c + 1][1..]); }
        assert Countdown(c)[c - r] == k;
      }
    }
    assert Lists(Countdown(c), rest);
    DescLists(rest);
    SameListing(Countdown(c), Desc(rest), rest);
  }

  lemma CountdownListsAll(n: nat)
    ensures Desc(Below(RevisionKeys(n), None)) == Countdown(n)
  {
    var all := RevisionKeys(n);
    assert Below(all, None) == Below(all, Some([n + 1])) by {
      assert forall r | 1 <= r <= n :: Less([r], [n + 1]);
    }
    CountdownListsBelow(n, n);
  }

  lemma {:induction false} CountdownSplit(n: nat, m: nat)
    requires m <= n
    ensures Countdown(n) == Countdown(n)[..n - m] + Countdown(m)
  {
    if m < n {
      CountdownSplit(n - 1, m);
      assert Countdown(n)[..n - m] == [[n]] + Countdown(n - 1)[..n - 1 - m];
    }
  }

  lemma FirstHistoryPage(n: nat, limit: nat)
    requires 0 < limit
    ensures PageOf(RevisionKeys(n), None, limit) ==
            if n > limit then (Countdown(n)[..limit], Some([n - limit + 1])) else (Countdown(n), None)
  {
    CountdownListsAll(n);
  }

  /** A history walk comes to its end exactly if it reads as many pages as the revisions that
      existed at its first page fill, however many more are appended meanwhile. */
  lemma HistoryWalkFinishes(counts: seq<nat>, tables: seq<set<Key>>, limit: nat)
    requires limit > 0 && counts != [] && |tables| == |counts|
    requires forall i | 0 <= i < |counts| :: tables[i] == RevisionKeys(counts[i]) && counts[0] <= counts[i]
    ensures Finishes(tables, None, limit) <==> counts[0] <= |tables| * limit
  {
    hide PageOf, Countdown, Finishes, RevisionKeys;
    var n := counts[0];
    assert tables[0] == RevisionKeys(n);
    FirstHistoryPage(n, limit);
    FinishesStep(tables, None, limit);
    OnePageLess(|tables|, limit);
    if n > limit {
      LaterPagesFinish(tables[1..], counts[1..], n - limit, limit);
    }
  }

  lemma OnePageLess(pages: nat, limit: nat)
    requires pages > 0
    ensures 0 <= (pages - 1) * limit == pages * limit - limit
  {
  }

  lemma FinishesStep(tables: seq<set<Key>>, after: Option<Key>, limit: nat)
    requires limit > 0 && tables != []
    ensures var next := PageOf(tables[0], after, limit).1;
            Finishes(tables, after, limit) <==> next.None? || Finishes(tables[1..], next, limit)
  {
  }

  lemma {:induction false} LaterPagesFinish(tables: seq<set<Key>>, counts: seq<nat>, c: nat, limit: nat)
    requires limit > 0 && c > 0 && |tables| == |counts|
    requires forall i | 0 <= i < |counts| :: tables[i] == RevisionKeys(counts[i]) && c <= counts[i]
    ensures Finishes(tables, Some([c + 1]), limit) <==> c <= |tables| * limit
  {
    if tables != [] {
      hide PageOf, Countdown, Finishes, RevisionKeys;
      assert tables[0] == RevisionKeys(counts[0]);
      LaterHistoryPage(counts[0], c, limit);
      FinishesStep(tables, Some([c + 1]), limit);
      OnePageLess(|tables|, limit);
      if c > limit {
        LaterPagesFinish(tables[1..], counts[1..], c - limit, limit);
        assert |tables[1..]| == |tables| - 1;
      }
    }
  }

  /** Revisions appended between pages change nothing: a history walk is exactly the revisions
      that existed at its first page, newest first, if it reads pages enough for them. */
  lemma HistoryWalk(counts: seq<nat>, tables: seq<set<Key>>, limit: nat)
    requires limit > 0 && counts != [] && |tables| == |counts|
    requires forall i | 0 <= i < |counts| :: tables[i] == RevisionKeys(counts[i])
    requires forall i | 0 <= i < |counts| :: counts[0] <= counts[i]
    requires counts[0] <= |tables| * limit
    ensures WalkOver(tables, None, limit) == Countdown(counts[0])
  {
    hide PageOf, Countdown, Finishes, RevisionKeys, WalkOver;
    HistoryWalkFinishes(counts, tables, limit);
    var n := counts[0];
    assert tables[0] == RevisionKeys(n);
    FirstHistoryPage(n, limit);
    WalkStep(tables, None, limit);
    FinishesStep(tables, None, limit);
    if n > limit {
      HistoryWalkBelow(tables[1..], counts[1..], n - limit, limit);
      CountdownSplit(n, n - limit);
    }
  }

  lemma WalkStep(tables: seq<set<Key>>, after: Option<Key>, limit: nat)
    requires limit > 0 && tables != []
    ensures var (page, next) := PageOf(tables[0], after, limit);
            WalkOver(tables, after, limit) == if next.None? then page else page + WalkOver(tables[1..], next, limit)
  {
  }

  lemma LaterHistoryPage(n: nat, c: nat, limit: nat)
    requires 0 < limit && c <= n
    ensures PageOf(RevisionKeys(n), Some([c + 1]), limit) ==
            if c > limit then (Countdown(c)[..limit], Some([c - limit + 1])) else (Countdown(c), None)
  {
    CountdownListsBelow(n, c);
  }

  lemma {:induction false} HistoryWalkBelow(tables: seq<set<Key>>, counts: seq<nat>, c: nat, limit: nat)
    requires limit > 0 && |tables| == |counts|
    requires forall i | 0 <= i < |counts| :: tables[i] == RevisionKeys(counts[i]) && c <= counts[i]
    requires Finishes(tables, Some([c + 1]), limit)
    ensures WalkOver(tables, Some([c + 1]), limit) == Countdown(c)
  {
    hide PageOf, Countdown, RevisionKeys, WalkOver;
    assert tables[0] == RevisionKeys(counts[0]);
    LaterHistoryPage(counts[0], c, limit);
    WalkStep(tables, Some([c + 1]), limit);
    if c > limit {
      HistoryWalkBelow(tables[1..], counts[1..], c - limit, limit);
      CountdownSplit(c, c - limit);
    }
  }
}
