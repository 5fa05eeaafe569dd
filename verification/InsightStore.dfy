/**
  The insight tables and the transactions that write them. Three tables are kept:
  the current rows, the immutable revisions and the link index. `log` is the history they
  stand for; Valid() says that the tables agree with it.
 */
module InsightStore {
  import opened Wrappers
  import opened InsightLog
  import K = Keyset
  import C = Canonical
  import G = Aggregates

  datatype Row = Row(project: Project, createdBy: User, fields: Fields, updatedAt: Time, deletedAt: Option<Time>, revision: nat)

  function RowOf(i: Insight): (row: Row) {
    Row(i.project, i.createdBy, Current(i).fields, Current(i).changedAt, Current(i).deletedAt, Revision(i))
  }

  /** SQL equality on the nullable key column. */
  predicate EqualKeys(a: string, b: string) {
    a == b && a != ""
  }

  /** The tables say what the log says: the row is the last snapshot, the revisions are the
      history without a gap, and the link index is what parsing the content again would give. */
  ghost predicate Agrees(world: World, log: Log, rows: map<Id, Row>, revisions: map<(Id, int), Snapshot>, links: set<(Id, string)>) {
    && rows.Keys == log.Keys
    && (forall id | id in log :: rows[id] == RowOf(log[id]))
    && (forall id, k :: (id, k) in revisions <==> id in log && 1 <= k <= Revision(log[id]))
    && (forall id, k | (id, k) in revisions :: revisions[(id, k)] == log[id].history[k - 1])
    && (forall id, t :: (id, t) in links <==> id in log && t in LinksOf(world, Current(log[id]).fields))
  }

  /** Writing the row, the index of its content and one revision moves the tables to the
      log with that snapshot appended (or with that insight created). */
  lemma TablesFollow(world: World, log: Log, rows: map<Id, Row>, revisions: map<(Id, int), Snapshot>, links: set<(Id, string)>,
                     id: Id, i: Insight, rows': map<Id, Row>, revisions': map<(Id, int), Snapshot>, links': set<(Id, string)>)
    requires Agrees(world, log, rows, revisions, links)
    requires if id in log then i.history[..|i.history| - 1] == log[id].history else |i.history| == 1
    requires rows' == rows[id := RowOf(i)]
    requires revisions' == revisions[(id, Revision(i)) := Current(i)]
    requires forall j, t :: (j, t) in links' <==> if j == id then t in LinksOf(world, Current(i).fields) else (j, t) in links
    ensures Agrees(world, log[id := i], rows', revisions', links')
  {
    var log' := log[id := i];
    forall j, k ensures (j, k) in revisions' <==> j in log' && 1 <= k <= Revision(log'[j]) {
      assert (j, k) in revisions' <==> (j, k) in revisions || (j == id && k == Revision(i));
    }
    forall j, k | (j, k) in revisions' ensures revisions'[(j, k)] == log'[j].history[k - 1] {
      if j == id && k < Revision(i) {
        assert (j, k) in revisions;
        assert i.history[k - 1] == i.history[..|i.history| - 1][k - 1];
      }
    }
  }

  function Kept(targets: seq<string>, key: string): (kept: seq<string>)
    ensures forall t :: t in kept <==> t in targets && !(t == key && key != "")
  {
    if targets == [] then []
    else if targets[0] == key && key != "" then Kept(targets[1..], key)
    else [targets[0]] + Kept(targets[1..], key)
  }

  lemma {:induction false} KeptAppend(a: seq<string>, b: seq<string>, key: string)
    ensures Kept(a + b, key) == Kept(a, key) + Kept(b, key)
  {
    if a == [] {
      assert a + b == b;
    } else {
      assert (a + b)[1..] == a[1..] + b;
      KeptAppend(a[1..], b, key);
    }
  }

  /** The filter writes into the slice it is reading (`stored := targets[:0]`): it is safe
      because the write position never passes the read position. */
  method FilterInPlace(targets: array<string>, key: string) returns (n: nat, self: bool)
    modifies targets
    ensures n <= targets.Length
    ensures targets[..n] == Kept(old(targets[..]), key)
    ensures self == (key != "" && key in old(targets[..]))
  {
    n, self := 0, false;
    ghost var original := targets[..];
    for i := 0 to targets.Length
      invariant n <= i
      invariant targets[..n] == Kept(original[..i], key)
      invariant targets[i..] == original[i..]
      invariant self == (key != "" && key in original[..i])
    {
      assert original[..i + 1] == original[..i] + [original[i]];
      KeptAppend(original[..i], [original[i]], key);
      assert targets[i] == original[i];
      assert targets[i + 1..] == original[i + 1..];
      if targets[i] == key && key != "" {
        self := true;
      } else {
        targets[n] := targets[i];
        n := n + 1;
      }
    }
    assert original[..targets.Length] == original;
  }

  ghost function Together(self: seq<Warning>, unresolved: set<string>): (warnings: set<Warning>) {
    (set w | w in self) + set t | t in unresolved :: Unresolved(t)
  }

  /** The self link first, then the unresolved targets in "C" collation; then all are sorted. */
  method AddUnresolved(self: seq<Warning>, unresolved: set<string>) returns (warnings: seq<Warning>)
    requires |self| <= 1 && forall w | w in self :: w.SelfLink?
    ensures ListsWarnings(warnings, Together(self, unresolved))
  {
    hide ListsWarnings, WarnedFirst, G.Strict;
    var keys := FirstTargets(unresolved, |unresolved|);
    DistinctCoverAll(keys, unresolved);
    var all := Followed(self, keys);
    WarnedFirstIsStrict();
    warnings := G.SortSlice(all, WarnedFirst);
    SortedIsListed(warnings, all, self, keys, unresolved);
  }

  lemma SelfWarning(self: seq<Warning>)
    requires |self| <= 1
    ensures ListsWarnings(self, Together(self, {}))
  {
  }

  lemma NothingToWarnOf()
    ensures ListsWarnings([], {})
  {
  }

  method Followed(self: seq<Warning>, keys: seq<string>) returns (all: seq<Warning>)
    ensures all == self + seq(|keys|, k requires 0 <= k < |keys| => Unresolved(keys[k]))
  {
    all := self;
    for i := 0 to |keys|
      invariant all == self + seq(i, k requires 0 <= k < i => Unresolved(keys[k]))
    {
      all := all + [Unresolved(keys[i])];
    }
  }

  lemma WarnedFirstIsStrict()
    ensures G.Strict(WarnedFirst)
  {
    G.LessIsStrict();
    forall a, b ensures C.Less(a, b) || a == b || C.Less(b, a) {
      C.LessTotal(a, b);
    }
  }

  lemma {:induction false} DistinctCoverAll(shown: seq<string>, all: set<string>)
    requires |shown| == |all| && forall i | 0 <= i < |shown| :: shown[i] in all
    requires forall i, j | 0 <= i < j < |shown| :: C.Less(shown[i], shown[j])
    ensures forall t :: t in all <==> t in shown
  {
    if shown != [] {
      var x, rest := shown[0], shown[1..];
      forall i | 0 <= i < |rest| ensures rest[i] in all - {x} {
        assert rest[i] == shown[i + 1];
        C.LessTotal(x, x);
      }
      assert forall i, j | 0 <= i < j < |rest| :: rest[i] == shown[i + 1] && rest[j] == shown[j + 1];
      DistinctCoverAll(rest, all - {x});
      assert shown == [x] + rest;
    }
  }

  lemma SortedIsListed(sorted: seq<Warning>, all: seq<Warning>, self: seq<Warning>, keys: seq<string>, unresolved: set<string>)
    requires G.Sorted(sorted, WarnedFirst) && multiset(sorted) == multiset(all)
    requires |self| <= 1 && (forall w | w in self :: w.SelfLink?) && all == self + seq(|keys|, k requires 0 <= k < |keys| => Unresolved(keys[k]))
    requires (forall t :: t in unresolved <==> t in keys) && forall i, j | 0 <= i < j < |keys| :: C.Less(keys[i], keys[j])
    ensures ListsWarnings(sorted, Together(self, unresolved))
  {
    var elements := Together(self, unresolved);
    forall w ensures w in sorted <==> w in elements {
      assert w in multiset(sorted) <==> w in multiset(all);
      MemberOf(all, self, keys, w);
    }
    NoRepeat(all, self, keys);
    SortedDistinct(sorted, all);
  }

  lemma MemberOf(all: seq<Warning>, self: seq<Warning>, keys: seq<string>, w: Warning)
    requires all == self + seq(|keys|, k requires 0 <= k < |keys| => Unresolved(keys[k]))
    ensures w in all <==> w in self || (w.Unresolved? && w.key in keys)
  {
    if w.Unresolved? && w.key in keys {
      var k :| 0 <= k < |keys| && keys[k] == w.key;
      assert all[|self| + k] == w;
    }
    if w in self {
      var k :| 0 <= k < |self| && self[k] == w;
      assert all[k] == w;
    }
    if w in all {
      var k :| 0 <= k < |all| && all[k] == w;
      if k >= |self| {
        assert w == Unresolved(keys[k - |self|]);
      } else {
        assert self[k] == w;
      }
    }
  }

  lemma NoRepeat(all: seq<Warning>, self: seq<Warning>, keys: seq<string>)
    requires |self| <= 1 && (forall w | w in self :: w.SelfLink?) && all == self + seq(|keys|, k requires 0 <= k < |keys| => Unresolved(keys[k]))
    requires forall i, j | 0 <= i < j < |keys| :: C.Less(keys[i], keys[j])
    ensures G.Distinct(all)
  {
    forall i, j | 0 <= i < j < |all| ensures all[i] != all[j] {
      if i < |self| {
        assert all[i] in self;
      } else {
        C.LessTotal(keys[i - |self|], keys[j - |self|]);
      }
    }
  }

  lemma SortedDistinct(sorted: seq<Warning>, all: seq<Warning>)
    requires G.Sorted(sorted, WarnedFirst) && multiset(sorted) == multiset(all) && G.Distinct(all)
    ensures forall i, j | 0 <= i < j < |sorted| :: WarnedFirst(sorted[i], sorted[j])
  {
    G.DistinctPermutes(sorted, all);
    forall i, j | 0 <= i < j < |sorted| ensures WarnedFirst(sorted[i], sorted[j]) {
      C.LessTotal(sorted[i].key, sorted[j].key);
    }
  }

  class Store {
    const world: World
    var rows: map<Id, Row>
    var revisions: map<(Id, int), Snapshot>
    var links: set<(Id, string)>
    var nextId: Id
    ghost var log: Log

    ghost predicate Valid()
      reads this
    {
      && Good(log)
      && Agrees(world, log, rows, revisions, links)
      && forall id | id in rows :: id < nextId
    }

    constructor (world: World)
      ensures Valid() && log == map[] && this.world == world
    {
      this.world := world;
      rows, revisions, links := map[], map[], {};
      nextId := 0;
      log := map[];
    }

    /** Other transactions may commit between two statements of this one, as long as no row is
        locked yet. All that is known afterwards is that they were mutations of this kind. */
    method OtherTransactions()
      requires Valid()
      modifies this
      ensures Valid() && Extends(old(log), log)
    {
    }

    /** SELECT ... WHERE project_id = $1 AND key = $2 AND deleted_at IS NULL FOR UPDATE */
    method GetByKeyForUpdate(project: Project, key: string) returns (id: Option<Id>)
      requires Valid()
      ensures id.Some? ==> Holds(log, id.value, project, key)
      ensures id.None? ==> !Taken(log, project, key)
    {
      var found := set i | i in rows && rows[i].project == project && EqualKeys(rows[i].fields.key, key) && rows[i].deletedAt.None?;
      if found == {} {
        assert forall i | Holds(log, i, project, key) :: i in found;
        return None;
      }
      var i :| i in found;
      return Some(i);
    }

    /** Rewrites the index of one source from its content and reports what is worth a warning. */
    method SyncContent(id: Id) returns (warnings: seq<Warning>)
      requires id in rows
      modifies this`links
      ensures forall i, t :: (i, t) in links <==> if i == id then t in LinksOf(world, rows[id].fields) else (i, t) in old(links)
      ensures ListsWarnings(warnings, RowWarnings(id))
    {
      var row := rows[id];
      var parsed := world.targets(row.fields.content);
      var targets := new string[|parsed|](i requires 0 <= i < |parsed| => parsed[i]);
      assert targets[..] == parsed;
      var n, self := FilterInPlace(targets, row.fields.key);
      var desired := set t | t in targets[..n];
      assert desired == LinksOf(world, row.fields);
      links := (set l | l in links && !(l.0 == id && l.1 !in desired)) + (set t | t in desired :: (id, t));
      warnings := if self then [SelfLink(row.fields.key)] else [];
      hide ListsWarnings, Together;
      RowWarningsAre(id, warnings, desired);
      if n == 0 {
        assert desired == {};
        SelfWarning(warnings);
        return;
      }
      warnings := AddUnresolved(warnings, UnresolvedOf(row.project, desired));
    }

    function UnresolvedOf(project: Project, targets: set<string>): (keys: set<string>)
      reads this
    {
      set t | t in targets && !RowHolds(project, t)
    }

    lemma RowWarningsAre(id: Id, self: seq<Warning>, desired: set<string>)
      requires id in rows && var f := rows[id].fields; self == if f.key != "" && f.key in world.targets(f.content) then [SelfLink(f.key)] else []
      requires desired == LinksOf(world, rows[id].fields)
      ensures RowWarnings(id) == Together(self, UnresolvedOf(rows[id].project, desired))
      ensures desired == {} ==> UnresolvedOf(rows[id].project, desired) == {}
    {
    }

    /** The warnings, as the tables show them. */
    ghost function RowWarnings(id: Id): (w: set<Warning>)
      requires id in rows
      reads this
    {
      var f := rows[id].fields;
      (if f.key != "" && f.key in world.targets(f.content) then {SelfLink(f.key)} else {})
      + set t | t in LinksOf(world, f) && !RowHolds(rows[id].project, t) :: Unresolved(t)
    }

    predicate RowHolds(project: Project, key: string)
      reads this
    {
      exists i :: i in rows && rows[i].project == project && EqualKeys(rows[i].fields.key, key) && rows[i].deletedAt.None?
    }

    ghost predicate RowsSay(l: Log)
      reads this
    {
      rows.Keys == l.Keys && forall id | id in l :: rows[id] == RowOf(l[id])
    }

    lemma RowHoldsIsTaken(l: Log, project: Project, key: string)
      requires RowsSay(l)
      ensures RowHolds(project, key) <==> Taken(l, project, key)
    {
      if RowHolds(project, key) {
        var i :| i in rows && rows[i].project == project && EqualKeys(rows[i].fields.key, key) && rows[i].deletedAt.None?;
        assert Holds(l, i, project, key);
      }
      if Taken(l, project, key) {
        var i :| Holds(l, i, project, key);
        assert i in rows && rows[i] == RowOf(l[i]);
      }
    }

    lemma WarningsAgree(l: Log, id: Id, warnings: seq<Warning>)
      requires RowsSay(l) && id in l && ListsWarnings(warnings, RowWarnings(id))
      ensures ListsWarnings(warnings, Warnings(world, l, id))
    {
      forall t ensures RowHolds(rows[id].project, t) <==> Taken(l, l[id].project, t) {
        RowHoldsIsTaken(l, rows[id].project, t);
      }
      assert RowWarnings(id) == Warnings(world, l, id);
    }

    /** INSERT INTO insight_revisions ... SELECT ... FROM insights WHERE id = $1 */
    method InsertRevision(id: Id, operation: Operation, author: User, now: Time)
      requires id in rows
      modifies this`revisions
      ensures revisions == old(revisions)[(id, rows[id].revision) :=
                Snapshot(operation, rows[id].fields, rows[id].deletedAt, author, now)]
    {
      var row := rows[id];
      revisions := revisions[(id, row.revision) := Snapshot(operation, row.fields, row.deletedAt, author, now)];
    }

    /** UPDATE insights SET ..., updated_at = now(), revision = revision + 1, then the link
        index if content was given, then the revision. */
    method WriteTables(id: Id, next: Snapshot, sync: bool) returns (warnings: seq<Warning>)
      requires id in rows
      modifies this`rows, this`revisions, this`links
      ensures rows == old(rows)[id := Row(old(rows)[id].project, old(rows)[id].createdBy, next.fields, next.changedAt,
                                          next.deletedAt, old(rows)[id].revision + 1)]
      ensures revisions == old(revisions)[(id, old(rows)[id].revision + 1) := next]
      ensures !sync ==> links == old(links) && warnings == []
      ensures sync ==>
                && (forall i, t :: (i, t) in links <==> if i == id then t in LinksOf(world, next.fields) else (i, t) in old(links))
                && ListsWarnings(warnings, RowWarnings(id))
    {
      var row := rows[id];
      rows := rows[id := Row(row.project, row.createdBy, next.fields, next.changedAt, next.deletedAt, row.revision + 1)];
      warnings := [];
      if sync {
        warnings := SyncContent(id);
      }
      InsertRevision(id, next.operation, next.changedBy, next.changedAt);
    }

    method Amend(id: Id, next: Snapshot, sync: bool) returns (warnings: seq<Warning>)
      requires Valid() && id in log
      requires !sync ==> LinksOf(world, next.fields) == LinksOf(world, Current(log[id]).fields)
      modifies this
      ensures log == old(log)[id := old(log)[id].(history := old(log)[id].history + [next])]
      ensures id in rows && rows[id].revision == Revision(old(log)[id]) + 1
      ensures Agrees(world, log, rows, revisions, links)
      ensures forall i | i in rows :: i < nextId
      ensures ListsWarnings(warnings, if sync then Warnings(world, log, id) else {})
    {
      hide ListsWarnings, Warnings;
      warnings := WriteTables(id, next, sync);
      ghost var i := log[id].(history := log[id].history + [next]);
      assert i.history[..|i.history| - 1] == log[id].history;
      TablesFollow(world, log, old(rows), old(revisions), old(links), id, i, rows, revisions, links);
      log := log[id := i];
      if sync {
        WarningsAgree(log, id, warnings);
      } else {
        NothingToWarnOf();
      }
    }

    /** Carries out a call on an existing insight that nothing refuses. */
    method Carry(p: Call, now: Time, id: Id, next: Snapshot, sync: bool) returns (r: Result<Reply, Error>)
      requires Valid() && Refusal(world, log, p).None? && Subject(world, log, p) == Some(id)
      requires !NoOp(log[id], p) && next == Successor(log[id], p, now)
      requires sync == !(p.Remove? || (p.Edit? && p.content == ""))
      modifies this
      ensures Valid() && Commits(world, old(log), p, now, log, r) && r.Success?
    {
      var contentChanged := rows[id].fields.content != next.fields.content;
      var warnings := Amend(id, next, sync);
      r := Success(Reply(id, rows[id].revision, contentChanged, warnings));
      AppendCommits(world, old(log), p, now, id, next, log, r.value);
    }

    /** A call that would change nothing rewrites the index all the same. */
    method Resync(p: Call, now: Time, id: Id) returns (r: Result<Reply, Error>)
      requires Valid() && Refusal(world, log, p).None? && Subject(world, log, p) == Some(id)
      requires NoOp(log[id], p) && !p.Remove? && !(p.Edit? && p.content == "")
      modifies this`links
      ensures Valid() && Commits(world, old(log), p, now, log, r) && r.Success?
    {
      hide ListsWarnings, Warnings, Commits, Refusal, Subject, NoOp;
      var warnings := SyncContent(id);
      WarningsAgree(log, id, warnings);
      r := Success(Reply(id, rows[id].revision, false, warnings));
      NoOpCommits(world, log, p, now, id, r.value);
    }

    /** INSERT ... ON CONFLICT (project_id, key) DO NOTHING; NotFound stands for no row returned. */
    method CreateInsight(p: Call, now: Time) returns (r: Result<Reply, Error>)
      requires Valid() && p.Write? && !BadExpectation(p)
      requires p.expected.Some? ==> p.expected.value == 0
      modifies this
      ensures Valid()
      ensures r.Success? ==> Commits(world, old(log), p, now, log, r)
      ensures r.Failure? ==> log == old(log) && (r.error == Rejected || r.error == NotFound)
      ensures r == Failure(Rejected) <==>
              || !KnownCategory(Written(p).category) || !KnownSource(Written(p).source)
              || (!(p.key != "" && Taken(old(log), p.project, p.key)) && p.project !in world.orgOf)
      ensures r == Failure(NotFound) ==> p.key != "" && Taken(old(log), p.project, p.key)
    {
      var f := Written(p);
      RowHoldsIsTaken(log, p.project, p.key);
      if !KnownCategory(f.category) || !KnownSource(f.source) {
        return Failure(Rejected);
      }
      if p.key != "" && RowHolds(p.project, p.key) {
        return Failure(NotFound);
      }
      if p.project !in world.orgOf {
        return Failure(Rejected);
      }
      r := InsertNew(p, now);
    }

    method InsertNew(p: Call, now: Time) returns (r: Result<Reply, Error>)
      requires Valid() && p.Write? && Refusal(world, log, p).None? && Subject(world, log, p).None?
      modifies this
      ensures Valid() && Commits(world, old(log), p, now, log, r) && r.Success?
    {
      ghost var i: Insight := Record(p.project, p.author, [Snapshot(Create, Written(p), None, p.author, now)]);
      var id, warnings := Add(p, now, i);
      r := Success(Reply(id, 1, false, warnings));
      CreateCommits(world, old(log), p, now, id, i, log, r.value);
    }

    method Add(p: Call, now: Time, ghost i: Insight) returns (id: Id, warnings: seq<Warning>)
      requires Valid() && p.Write?
      requires i == Record(p.project, p.author, [Snapshot(Create, Written(p), None, p.author, now)])
      modifies this
      ensures id !in old(log) && log == old(log)[id := i]
      ensures Agrees(world, log, rows, revisions, links)
      ensures forall j | j in rows :: j < nextId
      ensures ListsWarnings(warnings, Warnings(world, log, id))
    {
      id := nextId;
      nextId := nextId + 1;
      warnings := InsertTables(id, p, now);
      TablesFollow(world, log, old(rows), old(revisions), old(links), id, i, rows, revisions, links);
      log := log[id := i];
      WarningsAgree(log, id, warnings);
    }

    method InsertTables(id: Id, p: Call, now: Time) returns (warnings: seq<Warning>)
      requires p.Write? && id !in rows
      modifies this`rows, this`revisions, this`links
      ensures rows == old(rows)[id := Row(p.project, p.author, Written(p), now, None, 1)]
      ensures revisions == old(revisions)[(id, 1) := Snapshot(Create, Written(p), None, p.author, now)]
      ensures forall i, t :: (i, t) in links <==> if i == id then t in LinksOf(world, Written(p)) else (i, t) in old(links)
      ensures ListsWarnings(warnings, RowWarnings(id))
    {
      rows := rows[id := Row(p.project, p.author, Written(p), now, None, 1)];
      warnings := SyncContent(id);
      InsertRevision(id, Create, p.author, now);
    }

    method UpdateByKey(current: Id, p: Call, now: Time) returns (r: Result<Reply, Error>)
      requires Valid() && p.Write? && !BadExpectation(p)
      requires Holds(log, current, p.project, p.key)
      modifies this
      ensures Valid() && Commits(world, old(log), p, now, log, r) && r != Failure(NotFound)
    {
      SubjectIsHolder(world, log, p, current);
      var f := Written(p);
      var row := rows[current];
      if p.expected.Some? && p.expected.value != row.revision {
        return Failure(RevisionConflict(p.expected.value, row.revision));
      }
      var contentChanged := row.fields.content != p.content;
      if !contentChanged && row.fields.tags == f.tags && row.fields.category == f.category && row.fields.source == f.source {
        r := Resync(p, now, current);
        return;
      }
      if row.revision >= MAX_REVISION || !KnownCategory(f.category) || !KnownSource(f.source) {
        return Failure(Rejected);
      }
      r := Carry(p, now, current, Snapshot(Update, f, None, p.author, now), true);
    }

    /** WriteInsight takes effect at one state of the log, `at`, between its start and its end.
        The only failure that state does not explain is a lost race: the key was free, then
        taken (in `lost`) when the insert was tried, and free again when it was looked up. */
    method WriteInsight(p: Call, now: Time) returns (r: Result<Reply, Error>, ghost at: Log, ghost lost: Log)
      requires Valid() && p.Write?
      modifies this
      ensures Valid()
      ensures Extends(old(log), at) && Extends(at, log)
      ensures Commits(world, at, p, now, if r.Success? then log else at, r)
      ensures r == Failure(NotFound) ==>
                && !Taken(old(log), p.project, p.key)
                && Extends(old(log), lost) && Taken(lost, p.project, p.key)
                && Extends(lost, at) && !Taken(at, p.project, p.key)
    {
      at, lost := log, log;
      if p.expected.Some? && (p.expected.value < 0 || p.expected.value > MAX_REVISION) {
        return Failure(InvalidExpectedRevision), at, lost;
      }
      if p.key == "" {
        if p.expected.Some? && p.expected.value > 0 {
          return Failure(InvalidExpectedRevision), at, lost;
        }
        r := CreateInsight(p, now);
      } else {
        var current := GetByKeyForUpdate(p.project, p.key);
        if current.Some? {
          r := UpdateByKey(current.value, p, now);
        } else if p.expected.Some? && p.expected.value > 0 {
          r := Failure(RevisionConflict(p.expected.value, 0));
        } else {
          r, at, lost := CreateOrUpdate(p, now);
          return;
        }
      }
      CommitTouchesOne(world, at, p, now, log, r);
    }

    /** The rest of a keyed write that found no live insight to update. */
    method CreateOrUpdate(p: Call, now: Time) returns (r: Result<Reply, Error>, ghost at: Log, ghost lost: Log)
      requires Valid() && p.Write? && p.key != "" && !BadExpectation(p)
      requires p.expected.Some? ==> p.expected.value == 0
      requires !Taken(log, p.project, p.key)
      modifies this
      ensures Valid()
      ensures Extends(old(log), at) && Extends(at, log)
      ensures Commits(world, at, p, now, if r.Success? then log else at, r)
      ensures r == Failure(NotFound) ==>
                && Extends(old(log), lost) && Taken(lost, p.project, p.key)
                && Extends(lost, at) && !Taken(at, p.project, p.key)
    {
      OtherTransactions();
      at, lost := log, log;
      r := CreateInsight(p, now);
      if r.Success? {
        CommitTouchesOne(world, at, p, now, log, r);
      } else if r.error == Rejected {
        // Refused by what the statement says, whether or not the key was free.
        at := old(log);
      } else {
        OtherTransactions();
        ExtendsTransitive(old(log), lost, log);
        at := log;
        var current := GetByKeyForUpdate(p.project, p.key);
        if current.Some? {
          r := UpdateByKey(current.value, p, now);
        }
        CommitTouchesOne(world, at, p, now, log, r);
      }
    }

    /** SELECT ... WHERE id = $1 AND deleted_at IS NULL AND project_id IN (...) FOR UPDATE */
    method GetForUpdate(org: Org, id: Id) returns (found: bool)
      requires Valid()
      ensures found == Reachable(world, log, org, id)
    {
      found := id in rows && rows[id].deletedAt.None? && rows[id].project in world.orgOf && world.orgOf[rows[id].project] == org;
    }

    method UpdateInsight(p: Call, now: Time) returns (r: Result<Reply, Error>)
      requires Valid() && p.Edit?
      modifies this
      ensures Valid() && Commits(world, old(log), p, now, log, r)
    {
      hide ListsWarnings, Warnings, Applies, GoodHistory;
      if p.expected.Some? && (p.expected.value <= 0 || p.expected.value > MAX_REVISION) {
        return Failure(InvalidExpectedRevision);
      }
      var found := GetForUpdate(p.org, p.id);
      if !found {
        return Failure(NotFound);
      }
      var row := rows[p.id];
      if p.expected.Some? && p.expected.value != row.revision {
        return Failure(RevisionConflict(p.expected.value, row.revision));
      }
      var content := if p.content != "" then p.content else row.fields.content;
      var tags := if p.tags.Some? then p.tags.value else row.fields.tags;
      var contentChanged := content != row.fields.content;
      if !contentChanged && tags == row.fields.tags {
        if p.content == "" {
          NothingToWarnOf();
          r := Success(Reply(p.id, row.revision, false, []));
          NoOpCommits(world, log, p, now, p.id, r.value);
          return;
        }
        r := Resync(p, now, p.id);
        return;
      }
      if row.revision >= MAX_REVISION {
        return Failure(Rejected);
      }
      var f := row.fields.(content := content, tags := tags);
      CurrentIsKnown(log[p.id].history);
      r := Carry(p, now, p.id, Snapshot(Update, f, None, p.author, now), p.content != "");
    }

    lemma CurrentIsKnown(h: seq<Snapshot>)
      requires GoodHistory(h)
      ensures KnownCategory(h[|h| - 1].fields.category) && KnownSource(h[|h| - 1].fields.source)
    {
    }

    method DeleteInsight(p: Call, now: Time) returns (r: Result<Reply, Error>)
      requires Valid() && p.Remove?
      modifies this
      ensures Valid() && Commits(world, old(log), p, now, log, r)
    {
      if p.expected.Some? && (p.expected.value <= 0 || p.expected.value > MAX_REVISION) {
        return Failure(InvalidExpectedRevision);
      }
      var found := GetForUpdate(p.org, p.id);
      if !found {
        return Failure(NotFound);
      }
      var row := rows[p.id];
      if p.expected.Some? && p.expected.value != row.revision {
        return Failure(RevisionConflict(p.expected.value, row.revision));
      }
      if row.revision >= MAX_REVISION {
        return Failure(Rejected);
      }
      CurrentIsKnown(log[p.id].history);
      r := Carry(p, now, p.id, Snapshot(Delete, row.fields, Some(now), p.author, now), false);
    }

    method RestoreInsight(p: Call, now: Time) returns (r: Result<Reply, Error>)
      requires Valid() && p.Recover? && p.expected.Some?
      modifies this
      ensures Valid() && Commits(world, old(log), p, now, log, r)
    {
      hide ListsWarnings, Warnings, Applies, GoodHistory;
      if p.target <= 0 || p.target > MAX_REVISION {
        return Failure(InvalidTargetRevision);
      }
      if p.expected.value <= 0 || p.expected.value > MAX_REVISION {
        return Failure(InvalidExpectedRevision);
      }
      if p.id !in rows || rows[p.id].project != p.project {
        return Failure(NotFound);
      }
      var row := rows[p.id];
      if p.expected.value != row.revision {
        return Failure(RevisionConflict(p.expected.value, row.revision));
      }
      if (p.id, p.target) !in revisions {
        return Failure(RevisionNotFound);
      }
      var f := revisions[(p.id, p.target)].fields;
      if row.deletedAt.None? && row.fields == f {
        r := Resync(p, now, p.id);
        return;
      }
      r := Reinstate(p, f, now);
    }

    /** The UPDATE of a restore, which the unique index on live keys may reject. */
    method Reinstate(p: Call, f: Fields, now: Time) returns (r: Result<Reply, Error>)
      requires Valid() && p.Recover? && !BadExpectation(p) && 0 < p.target <= MAX_REVISION
      requires Subject(world, log, p) == Some(p.id) && p.expected == Some(Revision(log[p.id]))
      requires p.target <= Revision(log[p.id]) && f == log[p.id].history[p.target - 1].fields
      requires !NoOp(log[p.id], p)
      modifies this
      ensures Valid() && Commits(world, old(log), p, now, log, r)
    {
      hide ListsWarnings, Warnings, Applies;
      var row := rows[p.id];
      if row.revision >= MAX_REVISION {
        return Failure(Rejected);
      }
      ContestedRows(p.id, f.key);
      if OtherRowHolds(p.id, f.key) {
        return Failure(KeyConflict);
      }
      r := Carry(p, now, p.id, Snapshot(Restore, f, None, p.author, now), true);
    }

    predicate OtherRowHolds(id: Id, key: string)
      requires id in rows
      reads this
    {
      exists i :: i in rows && i != id && rows[i].project == rows[id].project && EqualKeys(rows[i].fields.key, key) && rows[i].deletedAt.None?
    }

    /** The unique index on live keys rejects exactly what Contested describes. */
    lemma ContestedRows(id: Id, key: string)
      requires Valid() && id in rows
      ensures Contested(log, id, key) <==> OtherRowHolds(id, key)
    {
      if OtherRowHolds(id, key) {
        var i :| i in rows && i != id && rows[i].project == rows[id].project && EqualKeys(rows[i].fields.key, key) && rows[i].deletedAt.None?;
        assert Holds(log, i, log[id].project, key);
      }
      if Contested(log, id, key) {
        var i :| i != id && Holds(log, i, log[id].project, key);
        assert i in rows && rows[i] == RowOf(log[i]);
      }
    }

    // ---------- reads ----------

    /** GetInsight, by id or (with no id) by key: the insight and its immediate relations. */
    method GetInsight(project: Project, byId: Option<Id>, key: string, limit: nat) returns (r: Result<Detail, Error>)
      requires Valid()
      ensures r.Failure? ==> r.error == NotFound
      ensures r.Failure? ==> if byId.Some? then !(byId.value in log && Live(log[byId.value]) && log[byId.value].project == project)
                             else !Taken(log, project, key)
      ensures r.Success? ==> r.value.id in log && Live(log[r.value.id]) && log[r.value.id].project == project
      ensures r.Success? ==> if byId.Some? then r.value.id == byId.value else Holds(log, r.value.id, project, key)
      ensures r.Success? ==> Describes(world, log, limit, r.value)
    {
      var found := byId;
      if byId.Some? {
        var id := byId.value;
        if !(id in rows && rows[id].project == project && rows[id].deletedAt.None?) {
          return Failure(NotFound);
        }
      } else {
        found := GetByKeyForUpdate(project, key);
        if found.None? {
          return Failure(NotFound);
        }
      }
      var id := found.value;
      var refs, linkCount := ForwardLinks(id, limit);
      var backlinks, backlinkCount := Backlinks(id, limit);
      r := Success(Detail(id, rows[id], refs, linkCount, linkCount > |refs|, backlinks, backlinkCount, backlinkCount > |backlinks|));
    }

    /** SELECT ... FROM insight_links LEFT JOIN insights target ... ORDER BY target_key LIMIT n */
    method ForwardLinks(id: Id, limit: nat) returns (refs: seq<LinkRef>, count: nat)
      requires Valid() && id in log
      ensures DescribesLinks(world, log, id, limit, refs, count)
    {
      var targets := set l | l in links && l.0 == id :: l.1;
      assert targets == LinksOf(world, Current(log[id]).fields) by {
        assert forall t :: t in targets <==> (id, t) in links;
      }
      count := |targets|;
      var shown := FirstTargets(targets, limit);
      refs := [];
      for i := 0 to |shown|
        invariant |refs| == i
        invariant forall j | 0 <= j < i :: refs[j].target == shown[j] && Resolves(log, log[id].project, refs[j])
      {
        var holder := GetByKeyForUpdate(rows[id].project, shown[i]);
        refs := refs + [LinkRef(shown[i], holder)];
      }
      assert Targets(refs) == shown;
    }

    /** SELECT ... JOIN insights source ... ORDER BY updated_at DESC, id DESC LIMIT n */
    method Backlinks(id: Id, limit: nat) returns (page: seq<K.Key>, count: nat)
      requires Valid() && id in log
      ensures DescribesBacklinks(world, log, id, limit, page, count)
    {
      var back := {};
      var own := rows[id].fields.key;
      if own != "" {
        back := set l | l in links && l.1 == own && l.0 in rows && rows[l.0].project == rows[id].project && rows[l.0].deletedAt.None?
                  :: K.ListKey(rows[l.0].updatedAt, l.0);
      }
      BacklinkRows(id, back);
      count := |back|;
      page := K.SelectDesc(back, limit);
    }

    lemma BacklinkRows(id: Id, back: set<K.Key>)
      requires Valid() && id in log
      requires back == if rows[id].fields.key == "" then {} else
                         set l | l in links && l.1 == rows[id].fields.key && l.0 in rows && rows[l.0].project == rows[id].project && rows[l.0].deletedAt.None?
                           :: K.ListKey(rows[l.0].updatedAt, l.0)
      ensures back == BacklinkKeys(world, log, id)
    {
      var own := rows[id].fields.key;
      if own != "" {
        forall k ensures k in back <==> k in BacklinkKeys(world, log, id) {
          if k in back {
            var l :| l in links && l.1 == own && l.0 in rows && rows[l.0].project == rows[id].project && rows[l.0].deletedAt.None?
                     && k == K.ListKey(rows[l.0].updatedAt, l.0);
            assert (l.0, l.1) in links;
            assert LinksBack(world, log, l.0, id);
          }
          if k in BacklinkKeys(world, log, id) {
            var a :| a in log && LinksBack(world, log, a, id) && k == K.ListKey(Current(log[a]).changedAt, a);
            assert (a, own) in links && rows[a] == RowOf(log[a]);
          }
        }
      }
    }

    /** ORDER BY updated_at DESC, id DESC over the live rows of a project, optionally by tag. */
    method ListInsights(project: Project, tag: string, limit: int, after: Option<K.Key>)
      returns (page: seq<K.Key>, next: Option<K.Key>)
      requires Valid()
      ensures limit <= 0 ==> page == [] && next == None
      ensures limit > 0 ==> (page, next) == K.PageOf(K.ListKeys(Listing(log, project, tag)), after, limit)
      ensures limit > 0 ==> Pages(log, project, tag, limit, after, page, next)
    {
      RowsList(project, tag);
      page, next := K.ListPage(K.ListKeys(Matching(project, tag)), after, limit);
      if limit > 0 {
        PageOfListing(log, project, tag, limit, after);
      }
    }

    /** SELECT ... WHERE project_id = $1 AND deleted_at IS NULL, optionally AND $2 = ANY(tags) */
    function Matching(project: Project, tag: string): (matching: map<Id, Time>)
      reads this
    {
      map id | id in rows && rows[id].project == project && rows[id].deletedAt.None? && (tag == "" || tag in rows[id].fields.tags)
        :: rows[id].updatedAt
    }

    lemma RowsList(project: Project, tag: string)
      requires Agrees(world, log, rows, revisions, links)
      ensures Matching(project, tag) == Listing(log, project, tag)
    {
      assert forall id | id in rows :: id in log && rows[id] == RowOf(log[id]);
    }

    /** Revisions below the cursor, newest first; deleted insights stay readable. `keys` are
        the rows of the page. */
    method ListInsightHistory(project: Project, id: Id, limit: int, after: Option<K.Key>)
      returns (r: Result<(seq<Snapshot>, Option<K.Key>), Error>, ghost keys: seq<K.Key>)
      requires Valid()
      ensures limit <= 0 ==> r == Success(([], None))
      ensures limit > 0 ==> (r.Failure? <==> !(id in log && log[id].project == project))
      ensures r.Failure? ==> r.error == NotFound
      ensures limit > 0 && r.Success? ==>
                && (keys, r.value.1) == K.PageOf(K.RevisionKeys(Revision(log[id])), after, limit)
                && AreRevisions(log[id].history, keys, r.value.0)
      ensures limit > 0 && r.Success? ==> |r.value.0| == |keys| && forall j | 0 <= j < |keys| ::
                |keys[j]| == 1 && 1 <= keys[j][0] <= |log[id].history| && r.value.0[j] == log[id].history[keys[j][0] - 1]
    {
      hide Good, LinksOf, K.PageOf;
      keys := [];
      if limit <= 0 {
        return Success(([], None)), keys;
      }
      if id !in rows || rows[id].project != project {
        return Failure(NotFound), keys;
      }
      var table := set l | l in revisions && l.0 == id :: [l.1];
      RevisionRows(id, table);
      var shown, next := K.ListPage(table, after, limit);
      K.PageRowsAreInTable(table, after, limit);
      var page := FetchRevisions(id, shown);
      r, keys := Success((page, next)), shown;
    }

    lemma RevisionRows(id: Id, table: set<K.Key>)
      requires Valid() && id in log && table == set l | l in revisions && l.0 == id :: [l.1]
      ensures table == K.RevisionKeys(Revision(log[id]))
    {
      forall x ensures x in table <==> x in K.RevisionKeys(Revision(log[id])) {
        if x in table {
          var l :| l in revisions && l.0 == id && x == [l.1];
          assert (l.0, l.1) in revisions;
          var k := l.1;
          assert 1 <= k <= Revision(log[id]) && x == [k];
        }
        if x in K.RevisionKeys(Revision(log[id])) {
          var k :| 1 <= k <= Revision(log[id]) && x == [k];
          var l := (id, k);
          assert l in revisions && x == [l.1];
        }
      }
    }

    lemma RevisionAt(id: Id, k: K.Key)
      requires Valid() && id in log && k in K.RevisionKeys(Revision(log[id]))
      ensures |k| == 1 && 1 <= k[0] <= Revision(log[id])
      ensures (id, k[0]) in revisions && revisions[(id, k[0])] == log[id].history[k[0] - 1]
    {
    }

    method FetchRevisions(id: Id, keys: seq<K.Key>) returns (page: seq<Snapshot>)
      requires Valid() && id in log
      requires forall k | k in keys :: k in K.RevisionKeys(Revision(log[id]))
      ensures AreRevisions(log[id].history, keys, page)
    {
      hide Agrees, Good, K.RevisionKeys;
      page := [];
      for i := 0 to |keys|
        invariant AreRevisions(log[id].history, keys[..i], page)
      {
        RevisionAt(id, keys[i]);
        page := page + [revisions[(id, keys[i][0])]];
      }
    }
  }

  /** The snapshots shown are those of the revisions listed. */
  ghost predicate AreRevisions(h: seq<Snapshot>, keys: seq<K.Key>, page: seq<Snapshot>) {
    && |page| == |keys|
    && forall j | 0 <= j < |keys| :: |keys[j]| == 1 && 1 <= keys[j][0] <= |h| && page[j] == h[keys[j][0] - 1]
  }

  datatype LinkRef = LinkRef(target: string, resolved: Option<Id>)

  /** What GetInsight shows of an insight's neighbours; a backlink is its (updated_at, id). */
  datatype Detail = Detail(id: Id, row: Row, links: seq<LinkRef>, linkCount: nat, linksTruncated: bool,
                           backlinks: seq<K.Key>, backlinkCount: nat, backlinksTruncated: bool)

  function Targets(refs: seq<LinkRef>): (targets: seq<string>)
    ensures |targets| == |refs| && forall i | 0 <= i < |refs| :: targets[i] == refs[i].target
  {
    if refs == [] then [] else [refs[0].target] + Targets(refs[1..])
  }

  ghost predicate Resolves(log: Log, project: Project, ref: LinkRef) {
    match ref.resolved
    case Some(id) => Holds(log, id, project, ref.target)
    case None => !Taken(log, project, ref.target)
  }

  /** Live `a` mentions the key of `b` in the same project. */
  predicate LinksBack(world: World, log: Log, a: Id, b: Id)
    requires a in log && b in log
  {
    && Live(log[a]) && log[a].project == log[b].project
    && Current(log[b]).fields.key != "" && Current(log[b]).fields.key in LinksOf(world, Current(log[a]).fields)
  }

  function BacklinkKeys(world: World, log: Log, id: Id): (keys: set<K.Key>)
    requires id in log
  {
    set a | a in log && LinksBack(world, log, a, id) :: K.ListKey(Current(log[a]).changedAt, a)
  }

  /** "C" collation: code point by code point. */
  ghost predicate FirstInOrder(shown: seq<string>, targets: set<string>, limit: nat) {
    && |shown| == (if |targets| <= limit then |targets| else limit)
    && (forall i | 0 <= i < |shown| :: shown[i] in targets)
    && (forall i, j | 0 <= i < j < |shown| :: C.Less(shown[i], shown[j]))
    && (forall t, i | t in targets && t !in shown && 0 <= i < |shown| :: C.Less(shown[i], t))
  }

  /** The row is the insight's last snapshot. */
  predicate Shows(i: Insight, row: Row) {
    && row.project == i.project && row.createdBy == i.createdBy && row.revision == |i.history|
    && row.fields == i.history[|i.history| - 1].fields
    && row.updatedAt == i.history[|i.history| - 1].changedAt && row.deletedAt == i.history[|i.history| - 1].deletedAt
  }

  ghost predicate Describes(world: World, log: Log, limit: nat, d: Detail) {
    && d.id in log && Shows(log[d.id], d.row)
    && DescribesLinks(world, log, d.id, limit, d.links, d.linkCount) && d.linksTruncated == (d.linkCount > |d.links|)
    && DescribesBacklinks(world, log, d.id, limit, d.backlinks, d.backlinkCount) && d.backlinksTruncated == (d.backlinkCount > |d.backlinks|)
  }

  /** The first targets in order, each with the live insight that holds its key, if any. */
  ghost predicate DescribesLinks(world: World, log: Log, id: Id, limit: nat, refs: seq<LinkRef>, count: nat)
    requires id in log
  {
    var targets := LinksOf(world, Current(log[id]).fields);
    && FirstInOrder(Targets(refs), targets, limit) && count == |targets|
    && forall i | 0 <= i < |refs| :: Resolves(log, log[id].project, refs[i])
  }

  /** The newest live insights that link here. */
  ghost predicate DescribesBacklinks(world: World, log: Log, id: Id, limit: nat, page: seq<K.Key>, count: nat)
    requires id in log
  {
    var back := BacklinkKeys(world, log, id);
    && count == |back| && |page| == (if |back| <= limit then |back| else limit)
    && page == K.Desc(back)[..|page|]
  }

  predicate IsFirst(t: string, targets: set<string>) {
    t in targets && forall u | u in targets :: u == t || C.Less(t, u)
  }

  lemma {:induction false} FirstExists(targets: set<string>)
    requires targets != {}
    ensures exists t :: IsFirst(t, targets)
    decreases |targets|
  {
    var t :| t in targets;
    var rest := targets - {t};
    assert targets == rest + {t} && |rest| < |targets|;
    if rest == {} {
      assert IsFirst(t, targets);
    } else {
      FirstExists(rest);
      var u :| IsFirst(u, rest);
      C.LessTotal(t, u);
      if C.Less(t, u) {
        forall v | v in targets ensures v == t || C.Less(t, v) {
          if v != t && v != u {
            C.LessTransitive(t, u, v);
          }
        }
        assert IsFirst(t, targets);
      } else {
        assert IsFirst(u, targets);
      }
    }
  }

  /** ORDER BY target_key COLLATE "C" ASC LIMIT n */
  method FirstTargets(targets: set<string>, n: nat) returns (shown: seq<string>)
    ensures FirstInOrder(shown, targets, n)
  {
    hide C.Less;
    shown := [];
    var rest := targets;
    while rest != {} && |shown| < n
      invariant |shown| <= n && |shown| + |rest| == |targets|
      invariant forall t :: t in targets <==> t in rest || t in shown
      invariant forall i | 0 <= i < |shown| :: shown[i] in targets
      invariant forall i, j | 0 <= i < j < |shown| :: C.Less(shown[i], shown[j])
      invariant forall t, i | t in rest && 0 <= i < |shown| :: C.Less(shown[i], t)
      decreases |rest|
    {
      FirstExists(rest);
      var t :| t in rest && IsFirst(t, rest);
      shown := shown + [t];
      rest := rest - {t};
    }
  }

  function Listing(log: Log, project: Project, tag: string): (rows: map<Id, Time>) {
    map id | id in log && log[id].project == project && Live(log[id]) && (tag == "" || tag in Current(log[id]).fields.tags)
      :: Current(log[id]).changedAt
  }

  /** An insight that a listing is asked for: live, of the project, and with the tag, if one is
      given. */
  predicate Wanted(log: Log, project: Project, tag: string, id: Id): (wanted: bool)
    ensures wanted ==> id in log
  {
    && id in log && log[id].project == project
    && var s := log[id].history[|log[id].history| - 1];
       s.deletedAt == None && (tag != "" ==> exists i :: 0 <= i < |s.fields.tags| && s.fields.tags[i] == tag)
  }

  /** Where an insight stands in a listing. */
  function Place(log: Log, id: Id): (k: K.Key)
    requires id in log
  {
    [log[id].history[|log[id].history| - 1].changedAt, id]
  }

  /** Later changes come first, and of equal ones the greater id. */
  predicate Precedes(k: K.Key, m: K.Key) {
    |k| == 2 && |m| == 2 && (k[0] > m[0] || (k[0] == m[0] && k[1] > m[1]))
  }

  /** What a page of a listing shows: only insights asked for, in order, after the cursor; and
      each of those is on it, or comes behind the cursor it gives. */
  ghost predicate Pages(log: Log, project: Project, tag: string, limit: int, after: Option<K.Key>, page: seq<K.Key>, next: Option<K.Key>) {
    && |page| <= limit
    && (forall k | k in page :: exists id :: Wanted(log, project, tag, id) && k == Place(log, id))
    && (forall i, j | 0 <= i < j < |page| :: Precedes(page[i], page[j]))
    && (after.Some? && |after.value| == 2 ==> forall k | k in page :: Precedes(after.value, k))
    && (next.Some? ==> |page| == limit > 0 && next.value == page[|page| - 1]
                       && exists id :: Wanted(log, project, tag, id) && Precedes(next.value, Place(log, id)))
    && forall id | Wanted(log, project, tag, id) && (after.Some? ==> |after.value| == 2 && Precedes(after.value, Place(log, id))) ::
         Place(log, id) in page || (next.Some? && Precedes(next.value, Place(log, id)))
  }

  /** A listing holds exactly the insights asked for. */
  lemma ListedExactly(log: Log, project: Project, tag: string)
    ensures forall id :: id in Listing(log, project, tag) <==> Wanted(log, project, tag, id)
    ensures forall k :: k in K.ListKeys(Listing(log, project, tag)) <==> exists id :: Wanted(log, project, tag, id) && k == Place(log, id)
  {
    var rows := Listing(log, project, tag);
    forall k ensures k in K.ListKeys(rows) <==> exists id :: Wanted(log, project, tag, id) && k == Place(log, id) {
      if k in K.ListKeys(rows) {
        var id :| id in rows && k == K.ListKey(rows[id], id);
        assert Wanted(log, project, tag, id) && k == Place(log, id);
      }
      if id :| Wanted(log, project, tag, id) && k == Place(log, id) {
        assert id in rows && k == K.ListKey(rows[id], id);
      }
    }
  }

  lemma PrecedesIsGreater(k: K.Key, m: K.Key)
    requires |k| == 2 && |m| == 2
    ensures Precedes(k, m) <==> K.Less(m, k)
  {
    assert K.Less(m[1..], k[1..]) <==> m[1] < k[1] || (m[1] == k[1] && K.Less(m[1..][1..], k[1..][1..]));
  }

  ghost predicate OfPairs(table: set<K.Key>) {
    forall k | k in table :: |k| == 2
  }

  lemma PageInOrder(table: set<K.Key>, after: Option<K.Key>, limit: nat)
    requires limit > 0 && OfPairs(table)
    ensures var (page, next) := K.PageOf(table, after, limit);
            && |page| <= limit && (forall k | k in page :: k in table)
            && (forall i, j | 0 <= i < j < |page| :: Precedes(page[i], page[j]))
            && (after.Some? && |after.value| == 2 ==> forall k | k in page :: Precedes(after.value, k))
            && (next.Some? ==> |page| == limit && next.value == page[|page| - 1] && exists m :: m in table && Precedes(next.value, m))
  {
    var (page, next) := K.PageOf(table, after, limit);
    K.PageFacts(table, after, limit);
    K.PageRowsAreInTable(table, after, limit);
    hide K.PageOf, K.Less, Precedes;
    forall i, j | 0 <= i < j < |page| ensures Precedes(page[i], page[j]) {
      assert page[i] in page && page[j] in page;
      PrecedesIsGreater(page[i], page[j]);
    }
    forall k | after.Some? && |after.value| == 2 && k in page ensures Precedes(after.value, k) {
      PrecedesIsGreater(after.value, k);
    }
    if next.Some? {
      assert page[|page| - 1] in page;
      var m :| m in K.Below(table, next);
      PrecedesIsGreater(next.value, m);
    }
  }

  lemma PageLeavesRest(table: set<K.Key>, after: Option<K.Key>, limit: nat, m: K.Key)
    requires limit > 0 && OfPairs(table) && m in table && (after.Some? ==> |after.value| == 2 && Precedes(after.value, m))
    ensures var (page, next) := K.PageOf(table, after, limit); m in page || (next.Some? && Precedes(next.value, m))
  {
    var (page, next) := K.PageOf(table, after, limit);
    K.PageFacts(table, after, limit);
    K.PageRowsAreInTable(table, after, limit);
    hide K.PageOf, K.Less, Precedes;
    if after.Some? {
      PrecedesIsGreater(after.value, m);
    }
    assert m in K.Below(table, after);
    if next.Some? {
      assert page[|page| - 1] in page;
      PrecedesIsGreater(next.value, m);
    }
  }

  lemma PageOfListing(log: Log, project: Project, tag: string, limit: nat, after: Option<K.Key>)
    requires limit > 0
    ensures var (page, next) := K.PageOf(K.ListKeys(Listing(log, project, tag)), after, limit);
            Pages(log, project, tag, limit, after, page, next)
  {
    var table := K.ListKeys(Listing(log, project, tag));
    ListedExactly(log, project, tag);
    hide Wanted, Listing, Precedes, K.PageOf, K.ListKeys;
    PageInOrder(table, after, limit);
    forall id | Wanted(log, project, tag, id) && (after.Some? ==> |after.value| == 2 && Precedes(after.value, Place(log, id)))
      ensures var (page, next) := K.PageOf(table, after, limit); Place(log, id) in page || (next.Some? && Precedes(next.value, Place(log, id)))
    {
      PageLeavesRest(table, after, limit, Place(log, id));
    }
  }
}
