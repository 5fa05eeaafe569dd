/**
  Schema migrations. Any statement may fail, and a process may stop at any statement: both
  are a statement that reports failure, after which the run does nothing more.
 */
module Migrations {
  import opened Wrappers
  import opened Aggregates

  /** An ordinary migration is one transaction that also records its version; one with an index
      builds that index concurrently, outside any transaction. */
  datatype Migration = Migration(version: int, index: Option<string>)

  /** The database as migrations see it: versions recorded, versions whose own SQL took effect,
      and concurrently built indexes with their validity. */
  datatype Schema = Schema(hasTable: bool, recorded: set<int>, applied: set<int>, indexes: map<string, bool>)

  // ---------- the embedded files ----------

  /** A file's version is the number before its first underscore, if there is one; its content
      is None if it names an index but no SQL, or the reverse. */
  datatype Entry = Entry(isDir: bool, isSql: bool, version: Option<int>, content: Option<Migration>)

  predicate Kept(e: Entry) {
    !e.isDir && e.isSql && e.version.Some?
  }

  predicate Older(a: Migration, b: Migration) {
    a.version < b.version
  }

  function Loaded(entries: seq<Entry>): (ms: seq<Migration>) {
    if entries == [] then []
    else
      var e := entries[|entries| - 1];
      Loaded(entries[..|entries| - 1]) + if Kept(e) && e.content.Some? then [e.content.value.(version := e.version.value)] else []
  }

  predicate WellFormed(entries: seq<Entry>) {
    forall i | 0 <= i < |entries| && Kept(entries[i]) :: entries[i].content.Some?
  }

  /** The migrations among the files, each as often as it is there, by version. */
  predicate InOrderOf(ms: seq<Migration>, entries: seq<Entry>) {
    multiset(ms) == multiset(Loaded(entries)) && Sorted(ms, Older)
  }

  /** Directory order is by name, so version 10 comes before 2; loading puts them in order. */
  method LoadMigrations(entries: seq<Entry>) returns (r: Option<seq<Migration>>)
    ensures r.Some? <==> WellFormed(entries)
    ensures r.Some? ==> InOrderOf(r.value, entries)
  {
    var migrations: seq<Migration> := [];
    for i := 0 to |entries|
      invariant WellFormed(entries[..i])
      invariant migrations == Loaded(entries[..i])
    {
      var entry := entries[i];
      Last(entries, i);
      if entry.isDir || !entry.isSql {
        continue;
      }
      if entry.version.None? {
        continue;
      }
      if entry.content.None? {
        return None;
      }
      migrations := migrations + [entry.content.value.(version := entry.version.value)];
    }
    assert entries[..|entries|] == entries;
    migrations := SortSlice(migrations, Older);
    r := Some(migrations);
  }

  /** What a release embeds: versions count up from one, and the first file, which creates the
      table of versions, is ordinary. */
  predicate Release(ms: seq<Migration>) {
    && (forall i, j | 0 <= i < j < |ms| :: ms[i].version < ms[j].version)
    && (ms != [] ==> ms[0].version >= 1 && ms[0].index.None?)
  }

  function Versions(ms: seq<Migration>): (vs: set<int>) {
    set m | m in ms :: m.version
  }

  lemma VersionIn(ms: seq<Migration>, k: nat)
    requires k < |ms|
    ensures ms[k].version in Versions(ms)
  {
  }

  // ---------- the invariant ----------

  /** What a migration stands for is there: its SQL took effect, or its index is valid. */
  predicate Effected(m: Migration, s: Schema) {
    match m.index case None => m.version in s.applied case Some(name) => name in s.indexes && s.indexes[name]
  }

  /** What is recorded is true, whichever versions those are. */
  ghost predicate Sound(ms: seq<Migration>, s: Schema) {
    && s.applied <= s.recorded && (s.recorded != {} ==> s.hasTable)
    && forall i | 0 <= i < |ms| && ms[i].version in s.recorded :: Effected(ms[i], s)
  }

  /** No version is recorded before an earlier one. */
  predicate NoGaps(ms: seq<Migration>, recorded: set<int>) {
    forall i, j | 0 <= i < j < |ms| && ms[j].version in recorded :: ms[i].version in recorded
  }

  /** The recorded versions are those of the first migrations, up to some point. */
  ghost predicate Inv(ms: seq<Migration>, s: Schema) {
    Sound(ms, s) && s.recorded <= Versions(ms) && NoGaps(ms, s.recorded)
  }

  /** What a run may add: versions of its migrations, each after all earlier ones are there. */
  predicate Fills(ms: seq<Migration>, before: set<int>, after: set<int>) {
    && before <= after <= before + Versions(ms)
    && forall i, j | 0 <= i < j < |ms| && ms[j].version in after - before :: ms[i].version in after
  }

  lemma FillingLeavesNoGaps(ms: seq<Migration>, before: set<int>, after: set<int>)
    requires Fills(ms, before, after) && NoGaps(ms, before)
    ensures NoGaps(ms, after)
  {
    forall i, j | 0 <= i < j < |ms| && ms[j].version in after ensures ms[i].version in after {
      assert ms[j].version in before || ms[j].version in after - before;
    }
  }

  // ---------- statements ----------

  class Database {
    var schema: Schema
    /** Nothing fails while this is so. */
    var healthy: bool

    constructor (schema: Schema, healthy: bool)
      ensures this.schema == schema && this.healthy == healthy
    {
      this.schema, this.healthy := schema, healthy;
    }

    method Luck() returns (fine: bool)
      ensures healthy ==> fine
    {
      fine := *;
      fine := healthy || fine;
    }

    /** No table of versions reads as not applied. */
    method IsApplied(version: int) returns (applied: Option<bool>)
      ensures healthy ==> applied.Some?
      ensures applied.Some? ==> applied.value == (schema.hasTable && version in schema.recorded)
    {
      var fine := Luck();
      applied := if fine then Some(schema.hasTable && version in schema.recorded) else None;
    }

    /** All of it or nothing; a failed commit may have gone through all the same. */
    method ExecuteInTransaction(m: Migration) returns (ok: bool)
      modifies this`schema
      ensures healthy ==> ok
      ensures var done := old(schema).(hasTable := true, recorded := old(schema.recorded) + {m.version}, applied := old(schema.applied) + {m.version});
              schema == done || (!ok && schema == old(schema))
    {
      ok := Luck();
      if !ok {
        var wentThrough: bool := *;
        if !wentThrough {
          return;
        }
      }
      schema := schema.(hasTable := true, recorded := schema.recorded + {m.version}, applied := schema.applied + {m.version});
    }

    /** A build that fails may leave an invalid index behind. */
    method CreateIndexConcurrently(name: string) returns (ok: bool)
      modifies this`schema
      ensures healthy ==> ok
      ensures ok ==> schema == old(schema).(indexes := old(schema.indexes)[name := true])
      ensures !ok ==> schema == old(schema) || schema == old(schema).(indexes := old(schema.indexes)[name := true])
                      || schema == old(schema).(indexes := old(schema.indexes)[name := false])
    {
      ok := Luck();
      if ok {
        schema := schema.(indexes := schema.indexes[name := true]);
      } else {
        var leftBehind: bool := *;
        if leftBehind {
          var valid: bool := *;
          schema := schema.(indexes := schema.indexes[name := valid]);
        }
      }
    }

    method DropIndexConcurrently(name: string) returns (ok: bool)
      modifies this`schema
      ensures healthy ==> ok
      ensures schema == old(schema).(indexes := old(schema.indexes) - {name}) || (!ok && schema == old(schema))
    {
      ok := Luck();
      if !ok {
        var wentThrough: bool := *;
        if !wentThrough {
          return;
        }
      }
      schema := schema.(indexes := schema.indexes - {name});
    }

    /** Some: whether the index exists and is valid. */
    method IndexState(name: string) returns (state: Option<(bool, bool)>)
      ensures healthy ==> state.Some?
      ensures state.Some? ==> state.value == (name in schema.indexes, name in schema.indexes && schema.indexes[name])
    {
      var fine := Luck();
      state := if fine then Some((name in schema.indexes, name in schema.indexes && schema.indexes[name])) else None;
    }

    method RecordVersion(version: int) returns (ok: bool)
      modifies this`schema
      ensures healthy && old(schema.hasTable) ==> ok
      ensures (old(schema.hasTable) && schema == old(schema).(recorded := old(schema.recorded) + {version})) || (!ok && schema == old(schema))
    {
      var fine := Luck();
      var wentThrough: bool := *;
      ok := fine && schema.hasTable;
      if ok || (wentThrough && schema.hasTable) {
        schema := schema.(recorded := schema.recorded + {version});
      }
    }

    // ---------- runs ----------

    method RunConcurrentIndexMigration(ghost ms: seq<Migration>, ghost k: nat, m: Migration) returns (ok: bool)
      requires Release(ms) && k < |ms| && ms[k] == m && m.index.Some?
      requires Sound(ms, schema) && m.version !in schema.recorded && forall i | 0 <= i < k :: ms[i].version in schema.recorded
      modifies this`schema
      ensures Sound(ms, schema) && old(schema.recorded) <= schema.recorded <= old(schema.recorded) + {m.version}
      ensures ok ==> m.version in schema.recorded
      ensures healthy ==> ok
    {
      var name := m.index.value;
      var state := IndexState(name);
      if state.None? {
        return false;
      }
      var exists_ := state.value.0;
      if exists_ && !state.value.1 {
        ok := DropIndexConcurrently(name);
        if !ok {
          return;
        }
        exists_ := false;
      }
      if !exists_ {
        ok := CreateIndexConcurrently(name);
        if !ok {
          return;
        }
      }
      state := IndexState(name);
      if state.None? {
        return false;
      }
      if !state.value.0 || !state.value.1 {
        return false;
      }
      ok := RecordVersion(m.version);
    }

    method RunMigration(ghost ms: seq<Migration>, ghost k: nat, m: Migration) returns (ok: bool)
      requires Release(ms) && k < |ms| && ms[k] == m
      requires Sound(ms, schema) && forall i | 0 <= i < k :: ms[i].version in schema.recorded
      modifies this`schema
      ensures Sound(ms, schema) && old(schema.recorded) <= schema.recorded <= old(schema.recorded) + {m.version}
      ensures ok ==> m.version in schema.recorded
      ensures healthy ==> ok
    {
      var applied := IsApplied(m.version);
      if applied.None? {
        return false;
      }
      if applied.value {
        return true;
      }
      if m.index.Some? {
        ok := RunConcurrentIndexMigration(ms, k, m);
        return;
      }
      ok := ExecuteInTransaction(m);
    }

    /** However it ends, a run loses no version and fills what is missing from below, so a prefix
        stays a prefix and gaps are filled first; if it reports success everything is recorded,
        and it does so when nothing fails, from whatever an interrupted run left behind. */
    method RunMigrations(ms: seq<Migration>) returns (ok: bool)
      requires Release(ms) && Sound(ms, schema)
      modifies this`schema
      ensures Sound(ms, schema) && Fills(ms, old(schema.recorded), schema.recorded)
      ensures old(Inv(ms, schema)) ==> Inv(ms, schema)
      ensures ok ==> Versions(ms) <= schema.recorded
      ensures healthy ==> ok
    {
      ghost var before := schema.recorded;
      for k := 0 to |ms|
        invariant Sound(ms, schema) && Fills(ms, before, schema.recorded)
        invariant forall i | 0 <= i < k :: ms[i].version in schema.recorded
      {
        VersionIn(ms, k);
        ghost var reached := schema.recorded;
        ok := RunMigration(ms, k, ms[k]);
        StillFills(ms, k, before, reached, schema.recorded);
        if !ok {
          GapsStayFilled(ms, before, schema);
          return;
        }
      }
      GapsStayFilled(ms, before, schema);
      ok := true;
    }

    lemma GapsStayFilled(ms: seq<Migration>, before: set<int>, s: Schema)
      requires Sound(ms, s) && Fills(ms, before, s.recorded)
      ensures before <= Versions(ms) && NoGaps(ms, before) ==> Inv(ms, s)
    {
      if NoGaps(ms, before) {
        FillingLeavesNoGaps(ms, before, s.recorded);
      }
    }

    lemma StillFills(ms: seq<Migration>, k: nat, before: set<int>, reached: set<int>, after: set<int>)
      requires Release(ms) && k < |ms| && Fills(ms, before, reached) && reached <= after <= reached + {ms[k].version}
      requires forall i | 0 <= i < k :: ms[i].version in reached
      ensures Fills(ms, before, after)
    {
      VersionIn(ms, k);
      forall i, j | 0 <= i < j < |ms| && ms[j].version in after - before ensures ms[i].version in after {
        if ms[j].version in reached {
          assert ms[j].version in reached - before;
        } else {
          InOrder(ms, j, k);
        }
      }
    }

    /** The startup check compares two numbers only. */
    method CheckSchema(ms: seq<Migration>) returns (ok: bool)
      requires Release(ms)
      ensures ok <==> (if schema.hasTable then Highest(schema.recorded) else 0) >= Wanted(ms)
    {
      var want := if ms == [] then 0 else ms[|ms| - 1].version;
      var have := if schema.hasTable then Highest(schema.recorded) else 0;
      ok := have >= want;
    }
  }

  function Wanted(ms: seq<Migration>): (v: int) {
    if ms == [] then 0 else ms[|ms| - 1].version
  }

  predicate IsHighest(vs: set<int>, v: int) {
    v in vs && forall u | u in vs :: u <= v
  }

  /** The highest version recorded, or 0. */
  function Highest(vs: set<int>): (v: int)
    ensures vs == {} ==> v == 0
    ensures vs != {} ==> IsHighest(vs, v)
  {
    if vs == {} then 0
    else
      HighestExists(vs);
      var v :| IsHighest(vs, v);
      v
  }

  lemma Member<T>(s: set<T>) returns (x: T)
    requires s != {}
    ensures x in s
  {
    x :| x in s;
  }

  lemma {:induction false} HighestExists(vs: set<int>)
    requires vs != {}
    ensures exists v :: IsHighest(vs, v)
    decreases |vs|
  {
    var u := Member(vs);
    var rest := vs - {u};
    if rest == {} {
      assert vs == {u};
      assert IsHighest(vs, u);
    } else {
      HighestExists(rest);
      var w :| IsHighest(rest, w);
      assert forall x | x in vs :: x == u || x in rest;
      assert IsHighest(vs, if u > w then u else w);
    }
  }

  // ---------- what follows ----------

  lemma InOrder(ms: seq<Migration>, i: nat, j: nat)
    requires Release(ms) && i < |ms| && j < |ms| && ms[i].version <= ms[j].version
    ensures i <= j
  {
  }

  /** The check passes if and only if every embedded migration is recorded: also on a database
      that a newer release, with more migrations, has begun to migrate. */
  lemma CheckIsExact(ms: seq<Migration>, later: seq<Migration>, s: Schema)
    requires Release(ms + later) && Inv(ms + later, s)
    ensures Release(ms)
    ensures Highest(s.recorded) >= Wanted(ms) <==> Versions(ms) <= s.recorded
  {
    var all := ms + later;
    assert forall i | 0 <= i < |ms| :: all[i] == ms[i];
    if ms != [] {
      var top := ms[|ms| - 1];
      assert top in ms && top.version in Versions(ms);
      if Highest(s.recorded) >= top.version {
        assert all[0].version <= all[|ms| - 1].version;
        var h := Highest(s.recorded);
        assert h in Versions(all);
        var j :| 0 <= j < |all| && all[j].version == h;
        InOrder(all, |ms| - 1, j);
        forall v | v in Versions(ms) ensures v in s.recorded {
          var i :| 0 <= i < |ms| && ms[i].version == v;
          assert all[i].version == v;
          if i < j {
            assert all[i].version in s.recorded;
          } else {
            assert i == j;
          }
        }
      }
    }
  }

  /** A release with more migrations, all of higher versions, takes over where the last one was. */
  lemma NewReleaseKeepsInv(ms: seq<Migration>, later: seq<Migration>, s: Schema)
    requires Release(ms) && Release(ms + later) && Inv(ms, s)
    ensures Inv(ms + later, s)
  {
    var all := ms + later;
    forall j | |ms| <= j < |all| ensures all[j].version !in s.recorded {
      forall m | m in ms ensures m.version < all[j].version {
        var i :| 0 <= i < |ms| && ms[i] == m;
        assert all[i] == m;
      }
    }
    assert forall i | 0 <= i < |ms| :: all[i] == ms[i];
    assert forall m | m in ms :: m in all;
  }

  /** A server that passed the check finds everything it was built against: each index valid, and
      the effects of each SQL file. */
  lemma PassedCheckMeansReady(ms: seq<Migration>, later: seq<Migration>, s: Schema)
    requires Release(ms + later) && Inv(ms + later, s) && Highest(s.recorded) >= Wanted(ms)
    ensures forall m | m in ms :: Effected(m, s)
  {
    CheckIsExact(ms, later, s);
    forall m | m in ms ensures Effected(m, s) {
      var i :| 0 <= i < |ms| && ms[i] == m;
      assert (ms + later)[i] == m && m.version in Versions(ms);
    }
  }

  /** A database left by a release that embedded these files is sound for any other that still
      does, wherever its own versions lie; so a run applies what is missing. */
  lemma SoundForOtherRelease(before: seq<Migration>, ms: seq<Migration>, s: Schema)
    requires Release(ms) && Inv(before, s) && forall m | m in before :: m in ms
    ensures Sound(ms, s)
  {
    forall i | 0 <= i < |ms| && ms[i].version in s.recorded ensures Effected(ms[i], s) {
      assert ms[i].version in Versions(before);
      var k :| 0 <= k < |before| && before[k].version == ms[i].version;
      assert before[k] in ms;
      var j :| 0 <= j < |ms| && ms[j] == before[k];
      InOrder(ms, i, j);
      InOrder(ms, j, i);
    }
  }

  /** When the check is wrong: it passes although a migration is missing if and only if the last
      embedded version is already recorded while the release adds a version, necessarily lower,
      that the database was not migrated with. */
  lemma CheckMissesExactly(before: seq<Migration>, ms: seq<Migration>, s: Schema)
    requires Release(before) && Release(ms) && Inv(before, s) && Versions(before) <= Versions(ms) && ms != []
    ensures Highest(s.recorded) >= Wanted(ms) && !(Versions(ms) <= s.recorded)
            <==> ms[|ms| - 1].version in s.recorded && !(Versions(ms) <= Versions(before))
  {
  }

  /** A witness: version 2 added to 1 and 3. (With a version 4 beside it, the check would tell.) */
  lemma LowerVersionGoesUnnoticed()
    ensures var first, second, third, fourth := Migration(1, None), Migration(2, None), Migration(3, None), Migration(4, None);
            var s := Schema(true, {1, 3}, {1, 3}, map[]);
            && Release([first, third]) && Release([first, second, third]) && Inv([first, third], s)
            && Highest(s.recorded) >= Wanted([first, second, third]) && second.version !in s.recorded
            && Highest(s.recorded) < Wanted([first, second, third, fourth])
  {
    var first, third := Migration(1, None), Migration(3, None);
    assert first in [first, third] && third in [first, third];
    var h := Highest({1, 3});
    assert 3 <= h && h in {1, 3};
  }
}
