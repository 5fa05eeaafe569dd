/** What readers of the insight store may rely on, across reads and while writers run. */
module InsightReads {
  import opened Wrappers
  import opened InsightLog
  import opened InsightStore
  import K = Keyset

  // ---------- links and backlinks ----------

  ghost predicate ShowsLink(d: Detail, target: Id) {
    exists i :: 0 <= i < |d.links| && d.links[i].resolved == Some(target)
  }

  ghost predicate ShowsBacklink(log: Log, d: Detail, source: Id) {
    source in log && K.ListKey(Current(log[source]).changedAt, source) in d.backlinks
  }

  lemma AllTargetsShown(world: World, log: Log, limit: nat, d: Detail, target: string)
    requires Describes(world, log, limit, d) && !d.linksTruncated
    ensures target in LinksOf(world, Current(log[d.id]).fields) <==> exists i :: 0 <= i < |d.links| && d.links[i].target == target
  {
    var shown, all := Targets(d.links), LinksOf(world, Current(log[d.id]).fields);
    assert |shown| == |all|;
    DistinctCoverAll(shown, all);
    if target in all {
      var i :| 0 <= i < |shown| && shown[i] == target;
      assert d.links[i].target == target;
    }
    if i :| 0 <= i < |d.links| && d.links[i].target == target {
      assert shown[i] == target;
    }
  }

  lemma AllBacklinksShown(world: World, log: Log, limit: nat, d: Detail, source: Id)
    requires Describes(world, log, limit, d) && !d.backlinksTruncated && source in log
    ensures LinksBack(world, log, source, d.id) <==> ShowsBacklink(log, d, source)
  {
    var back := BacklinkKeys(world, log, d.id);
    assert d.backlinks == K.Desc(back);
    K.DescLists(back);
    var key := K.ListKey(Current(log[source]).changedAt, source);
    if key in back {
      var a :| a in log && LinksBack(world, log, a, d.id) && key == K.ListKey(Current(log[a]).changedAt, a);
      assert key[1] == source && key[1] == a;
    }
  }

  /** What GetInsight shows of an insight's links: targets its content names, other than its own
      key, each resolved to the live insight of the project that holds it, or to none if none
      does; all of them, unless it says that the list was cut. */
  lemma LinksAreShown(world: World, log: Log, limit: nat, d: Detail)
    requires Describes(world, log, limit, d)
    ensures var f, project := Current(log[d.id]).fields, log[d.id].project;
            && (forall i | 0 <= i < |d.links| ::
                  && d.links[i].target in world.targets(f.content) && !(d.links[i].target == f.key && f.key != "")
                  && match d.links[i].resolved
                     case Some(id) => Holds(log, id, project, d.links[i].target)
                     case None => !exists id :: Holds(log, id, project, d.links[i].target))
            && (!d.linksTruncated ==> forall t | t in world.targets(f.content) && !(t == f.key && f.key != "") ::
                  exists i :: 0 <= i < |d.links| && d.links[i].target == t)
            && (d.linksTruncated ==> |d.links| == limit)
  {
    hide DescribesBacklinks;
    var shown := Targets(d.links);
    forall i | 0 <= i < |d.links| ensures d.links[i].target in LinksOf(world, Current(log[d.id]).fields) && Resolves(log, log[d.id].project, d.links[i]) {
      assert shown[i] in LinksOf(world, Current(log[d.id]).fields);
    }
    if !d.linksTruncated {
      forall t | t in LinksOf(world, Current(log[d.id]).fields) ensures exists i :: 0 <= i < |d.links| && d.links[i].target == t {
        AllTargetsShown(world, log, limit, d, t);
      }
    }
    assert forall t :: Taken(log, log[d.id].project, t) <==> exists id :: Holds(log, id, log[d.id].project, t);
  }

  /** And of its backlinks: the live insights of the project whose content names its key, newest
      first; all of them, unless it says that the list was cut. */
  lemma BacklinksAreShown(world: World, log: Log, limit: nat, d: Detail)
    requires Describes(world, log, limit, d)
    ensures forall k | k in d.backlinks :: exists a :: Mentions(world, log, a, d.id) && k == Place(log, a)
    ensures !d.backlinksTruncated ==> forall a | Mentions(world, log, a, d.id) :: Place(log, a) in d.backlinks
    ensures d.backlinksTruncated ==> |d.backlinks| == limit
  {
    hide DescribesLinks;
    var back := BacklinkKeys(world, log, d.id);
    K.DescLists(back);
    forall k | k in d.backlinks ensures exists a :: Mentions(world, log, a, d.id) && k == Place(log, a) {
      assert k in K.Desc(back);
      var a :| a in log && LinksBack(world, log, a, d.id) && k == K.ListKey(Current(log[a]).changedAt, a);
      assert Mentions(world, log, a, d.id) && k == Place(log, a);
    }
    if !d.backlinksTruncated {
      forall a | Mentions(world, log, a, d.id) ensures Place(log, a) in d.backlinks {
        assert LinksBack(world, log, a, d.id) && Place(log, a) == K.ListKey(Current(log[a]).changedAt, a);
        assert Place(log, a) in back;
      }
    }
  }

  /** Live `a` names the key of `b` of the same project in its content, a key not its own. */
  predicate Mentions(world: World, log: Log, a: Id, b: Id) {
    && a in log && b in log && log[a].project == log[b].project && Current(log[a]).deletedAt == None
    && var key := Current(log[b]).fields.key;
       key != "" && key != Current(log[a]).fields.key && key in world.targets(Current(log[a]).fields.content)
  }

  /** Forward and backward links are dual: unless a limit cut a list short, `a` shows a
      resolved link to `b` exactly when `b` shows a backlink from `a`. */
  lemma LinksAreDual(world: World, log: Log, limit: nat, a: Detail, b: Detail)
    requires Good(log) && Describes(world, log, limit, a) && Describes(world, log, limit, b)
    requires Live(log[a.id]) && Live(log[b.id]) && log[a.id].project == log[b.id].project
    requires !a.linksTruncated && !b.backlinksTruncated
    ensures ShowsLink(a, b.id) <==> ShowsBacklink(log, b, a.id)
  {
    hide FirstInOrder, DescribesBacklinks, BacklinkKeys, K.ListKey;
    var project, key := log[a.id].project, Current(log[b.id]).fields.key;
    AllBacklinksShown(world, log, limit, b, a.id);
    AllTargetsShown(world, log, limit, a, key);
    if ShowsLink(a, b.id) {
      var i :| 0 <= i < |a.links| && a.links[i].resolved == Some(b.id);
      assert Resolves(log, project, a.links[i]);
      assert a.links[i].target == key && key != "";
    }
    if LinksBack(world, log, a.id, b.id) {
      var i :| 0 <= i < |a.links| && a.links[i].target == key;
      assert Resolves(log, project, a.links[i]);
      assert Holds(log, b.id, project, key);
      assert a.links[i].resolved == Some(b.id);
    }
  }

  // ---------- pages while writers run ----------

  /** What each page query of a walk sees. */
  function Tables(logs: seq<Log>, project: Project, tag: string): (tables: seq<set<K.Key>>)
    ensures |tables| == |logs|
    ensures forall i | 0 <= i < |logs| :: tables[i] == K.ListKeys(Listing(logs[i], project, tag))
  {
    if logs == [] then [] else [K.ListKeys(Listing(logs[0], project, tag))] + Tables(logs[1..], project, tag)
  }

  /** An insight nobody modifies during a walk, and which is asked for, is listed by the walk
      exactly once, whatever is written to the others between the pages. */
  lemma UnmodifiedIsListedOnce(logs: seq<Log>, project: Project, tag: string, limit: nat, id: Id)
    requires limit > 0 && logs != [] && K.Finishes(Tables(logs, project, tag), None, limit)
    requires Wanted(logs[0], project, tag, id)
    requires forall i | 0 <= i < |logs| :: id in logs[i] && logs[i][id] == logs[0][id]
    ensures multiset(K.WalkOver(Tables(logs, project, tag), None, limit))[Place(logs[0], id)] == 1
  {
    var tables, key := Tables(logs, project, tag), Place(logs[0], id);
    forall i | 0 <= i < |tables| ensures key in tables[i] {
      assert logs[i][id] == logs[0][id];
      assert Wanted(logs[i], project, tag, id) && key == Place(logs[i], id);
      ListedExactly(logs[i], project, tag);
    }
    K.WalkReturnsStableRows(tables, None, limit, key);
  }

  /** And a walk lists nothing else: each of its rows was, at some page, an insight asked for. */
  lemma OnlyWantedAreListed(logs: seq<Log>, project: Project, tag: string, limit: nat, k: K.Key)
    requires limit > 0 && k in K.WalkOver(Tables(logs, project, tag), None, limit)
    ensures exists i, id :: 0 <= i < |logs| && Wanted(logs[i], project, tag, id) && k == Place(logs[i], id)
  {
    var tables := Tables(logs, project, tag);
    K.WalkDescends(tables, None, limit);
    var i :| 0 <= i < |tables| && k in tables[i];
    ListedExactly(logs[i], project, tag);
  }

  /** While nobody writes, the first page and those that follow it list the insights asked for:
      each once, in order, and nothing else. */
  lemma QuietWalkIsListing(log: Log, project: Project, tag: string, limit: nat)
    requires limit > 0
    ensures var rows := K.Walk(K.ListKeys(Listing(log, project, tag)), None, limit);
            && (forall k :: k in rows <==> exists id :: Wanted(log, project, tag, id) && k == Place(log, id))
            && (forall i, j | 0 <= i < j < |rows| :: Precedes(rows[i], rows[j]))
  {
    var table := K.ListKeys(Listing(log, project, tag));
    ListedExactly(log, project, tag);
    hide Listing, K.ListKeys, K.Walk, Wanted, Precedes;
    WalkInOrder(table, limit);
  }

  lemma WalkInOrder(table: set<K.Key>, limit: nat)
    requires limit > 0 && OfPairs(table)
    ensures var rows := K.Walk(table, None, limit);
            && (forall k :: k in rows <==> k in table)
            && (forall i, j | 0 <= i < j < |rows| :: Precedes(rows[i], rows[j]))
  {
    hide K.Walk, Precedes, K.Less;
    var rows := K.Walk(table, None, limit);
    K.WalkFromStart(table, limit);
    K.DescLists(table);
    forall i, j | 0 <= i < j < |rows| ensures Precedes(rows[i], rows[j]) {
      assert rows[i] in rows && rows[j] in rows;
      PrecedesIsGreater(rows[i], rows[j]);
    }
  }

  /** How many insights are asked for. */
  ghost function WantedIds(log: Log, project: Project, tag: string): (ids: set<Id>) {
    set id | id in log && Wanted(log, project, tag, id)
  }

  lemma ListingIsNoLonger(log: Log, project: Project, tag: string)
    ensures |K.ListKeys(Listing(log, project, tag))| <= |WantedIds(log, project, tag)|
  {
    ListedExactly(log, project, tag);
    var keys, ids := K.ListKeys(Listing(log, project, tag)), WantedIds(log, project, tag);
    forall k | k in keys ensures exists id :: id in ids && id in log && k == K.ListKey(Current(log[id]).changedAt, id) {
      var id :| Wanted(log, project, tag, id) && k == Place(log, id);
      assert id in ids;
    }
    NoMoreThanIds(keys, ids, log);
  }

  /** The insights that changed between two pages. */
  ghost function Changed(before: Log, after: Log): (ids: set<Id>) {
    set id | id in after && !(id in before && before[id] == after[id])
  }

  /** Those of them that a reader may still have ahead, because another insight bears a stamp no
      earlier than theirs: what a transaction stamps is the time at which it began. */
  ghost function Late(before: Log, after: Log): (ids: set<Id>) {
    set id | id in Changed(before, after) &&
             exists other :: other in before && Current(after[id]).changedAt <= Current(before[other]).changedAt
  }

  ghost function LateChanges(logs: seq<Log>): (n: nat) {
    if |logs| <= 1 then 0 else |Late(logs[0], logs[1])| + LateChanges(logs[1..])
  }

  /** A walk over a listing comes to its end in as many pages as the first listing fills together
      with the late changes, whoever writes what. */
  lemma ListingWalkFinishes(logs: seq<Log>, project: Project, tag: string, limit: nat)
    requires limit > 0 && logs != []
    requires |WantedIds(logs[0], project, tag)| + LateChanges(logs) <= |logs| * limit
    ensures K.Finishes(Tables(logs, project, tag), None, limit)
  {
    ListingIsNoLonger(logs[0], project, tag);
    var tables := Tables(logs, project, tag);
    assert K.Below(tables[0], None) == tables[0];
    OnlyLateFall(logs, project, tag);
    K.WalkFinishes(tables, None, limit);
  }

  lemma {:induction false} OnlyLateFall(logs: seq<Log>, project: Project, tag: string)
    ensures K.Falls(Tables(logs, project, tag)) <= LateChanges(logs)
  {
    if |logs| > 1 {
      var tables := Tables(logs, project, tag);
      assert tables[1..] == Tables(logs[1..], project, tag);
      FallenIsLate(logs[0], logs[1], project, tag);
      OnlyLateFall(logs[1..], project, tag);
    }
  }

  lemma FallenIsLate(before: Log, after: Log, project: Project, tag: string)
    ensures |K.Fallen(K.ListKeys(Listing(before, project, tag)), K.ListKeys(Listing(after, project, tag)))| <= |Late(before, after)|
  {
    var was, now := Listing(before, project, tag), Listing(after, project, tag);
    var fallen, late := K.Fallen(K.ListKeys(was), K.ListKeys(now)), Late(before, after);
    forall k | k in fallen ensures exists id :: id in late && id in after && k == K.ListKey(Current(after[id]).changedAt, id) {
      var id :| id in now && k == K.ListKey(now[id], id);
      var m :| m in K.ListKeys(was) && !K.Less(m, k);
      var other :| other in was && m == K.ListKey(was[other], other);
      UnmodifiedStaysListed(before, after, project, tag, id);
      assert id in Changed(before, after);
    }
    NoMoreThanIds(fallen, late, after);
  }

  lemma {:induction false} NoMoreThanIds(keys: set<K.Key>, ids: set<Id>, log: Log)
    requires forall k | k in keys :: exists id :: id in ids && id in log && k == K.ListKey(Current(log[id]).changedAt, id)
    ensures |keys| <= |ids|
    decreases |keys|
  {
    if k :| k in keys {
      var id :| id in ids && id in log && k == K.ListKey(Current(log[id]).changedAt, id);
      NoMoreThanIds(keys - {k}, ids - {id}, log);
    }
  }

  lemma UnmodifiedStaysListed(before: Log, after: Log, project: Project, tag: string, id: Id)
    ensures id in before && id in after && before[id] == after[id] && id in Listing(after, project, tag) ==>
              id in Listing(before, project, tag) && Listing(before, project, tag)[id] == Listing(after, project, tag)[id]
  {
  }

  /** Late or not, at most one insight changes in each transaction. */
  lemma {:induction false} ChangesAreCommits(world: World, run: seq<Log>, steps: seq<Step>, i: nat, j: nat)
    requires IsRun(world, run, steps) && i <= j < |run|
    ensures |Changed(run[i], run[j])| <= j - i
    decreases j - i
  {
    if i == j {
      assert Changed(run[i], run[j]) == {};
    } else {
      ChangesAreCommits(world, run, steps, i, j - 1);
      var step := steps[j - 1];
      CommitTouchesOne(world, run[j - 1], step.call, step.now, run[j], step.out);
      var once := if step.out.Success? then {step.out.value.id} else {};
      var so := Changed(run[i], run[j - 1]);
      assert Changed(run[i], run[j]) <= so + once;
      NoMoreThan(Changed(run[i], run[j]), so + once);
      assert |so + once| <= |so| + 1;
    }
  }

  lemma NoMoreThan(a: set<Id>, b: set<Id>)
    requires a <= b
    ensures |a| <= |b|
  {
    assert b == a + (b - a);
  }

  /** What the page queries see of a run, the first after `at[0]` transactions and so on. */
  function Seen(run: seq<Log>, at: seq<nat>): (logs: seq<Log>)
    requires forall i | 0 <= i < |at| :: at[i] < |run|
    ensures |logs| == |at| && forall i | 0 <= i < |at| :: logs[i] == run[at[i]]
  {
    if at == [] then [] else [run[at[0]]] + Seen(run, at[1..])
  }

  predicate InOrder(run: seq<Log>, at: seq<nat>) {
    at != [] && at[|at| - 1] < |run| && forall i, j | 0 <= i <= j < |at| :: at[i] <= at[j]
  }

  lemma {:induction false} LateChangesAreCommits(world: World, run: seq<Log>, steps: seq<Step>, at: seq<nat>)
    requires IsRun(world, run, steps) && InOrder(run, at)
    ensures LateChanges(Seen(run, at)) <= at[|at| - 1] - at[0]
  {
    if |at| > 1 {
      var logs := Seen(run, at);
      assert logs[1..] == Seen(run, at[1..]);
      ChangesAreCommits(world, run, steps, at[0], at[1]);
      NoMoreThan(Late(logs[0], logs[1]), Changed(logs[0], logs[1]));
      LateChangesAreCommits(world, run, steps, at[1..]);
    }
  }

  /** So over any run, and nothing said about its clock: read pages enough for the listing as it
      was at the first one and for one more insight per transaction committed meanwhile, and every
      insight that stays unmodified comes exactly once. */
  lemma EveryUnmodifiedIsListed(world: World, run: seq<Log>, steps: seq<Step>, at: seq<nat>,
                                project: Project, tag: string, limit: nat, id: Id)
    requires IsRun(world, run, steps) && InOrder(run, at) && limit > 0
    requires |WantedIds(run[at[0]], project, tag)| + (at[|at| - 1] - at[0]) <= |at| * limit
    requires Wanted(run[at[0]], project, tag, id)
    requires forall i | 0 <= i < |at| :: id in run[at[i]] && run[at[i]][id] == run[at[0]][id]
    ensures multiset(K.WalkOver(Tables(Seen(run, at), project, tag), None, limit))[Place(run[at[0]], id)] == 1
  {
    LateChangesAreCommits(world, run, steps, at);
    ListingWalkFinishes(Seen(run, at), project, tag, limit);
    UnmodifiedIsListedOnce(Seen(run, at), project, tag, limit, id);
  }

  /** A walk through the history of an insight, of pages enough, reads revisions current..1 as
      they were when the walk began, whatever is committed between the pages. */
  lemma HistoryWalkIsWholeHistory(world: World, logs: seq<Log>, steps: seq<Step>, at: seq<nat>, id: Id,
                                  tables: seq<set<K.Key>>, limit: nat)
    requires IsRun(world, logs, steps) && limit > 0 && at != [] && |tables| == |at|
    requires forall i | 0 <= i < |at| :: at[0] <= at[i] < |logs|
    requires id in logs[at[0]]
    requires forall i | 0 <= i < |at| :: id in logs[at[i]] ==> tables[i] == K.RevisionKeys(Revision(logs[at[i]][id]))
    requires Revision(logs[at[0]][id]) <= |tables| * limit
    ensures K.WalkOver(tables, None, limit) == K.Countdown(Revision(logs[at[0]][id]))
    ensures forall i | 0 <= i < |at| :: id in logs[at[i]] && logs[at[0]][id].history <= logs[at[i]][id].history
  {
    forall i | 0 <= i < |at|
      ensures id in logs[at[i]] && logs[at[0]][id].history <= logs[at[i]][id].history
    {
      RunOnlyExtends(world, logs, steps, at[0], at[i]);
    }
    var counts := seq(|at|, i requires 0 <= i < |at| && id in logs[at[i]] => Revision(logs[at[i]][id]));
    K.HistoryWalk(counts, tables, limit);
  }

  // ---------- what was written is what is read ----------

  /** An insight stays as it is until a mutation of it succeeds that changes something. */
  lemma {:induction false} StaysUntilChanged(world: World, logs: seq<Log>, steps: seq<Step>, i: nat, k: nat, id: Id)
    requires IsRun(world, logs, steps) && i <= k < |logs| && id in logs[i]
    requires forall j | i <= j < k :: steps[j].out.Failure? || steps[j].out.value.id != id || logs[j + 1] == logs[j]
    ensures id in logs[k] && logs[k][id] == logs[i][id]
    decreases k - i
  {
    if i < k {
      StaysUntilChanged(world, logs, steps, i, k - 1, id);
      var step := steps[k - 1];
      CommitTouchesOne(world, logs[k - 1], step.call, step.now, logs[k], step.out);
    }
  }

  /** What a write wrote is what everyone reads of the insight until something else is changed
      about it: by id, in the listing of the project and of each of its tags, and at the head of
      its history. */
  lemma WrittenIsRead(world: World, logs: seq<Log>, steps: seq<Step>, i: nat, k: nat, limit: nat, d: Detail, page: seq<Snapshot>)
    requires IsRun(world, logs, steps) && i < |steps| && i < k < |logs| && steps[i].call.Write? && steps[i].out.Success?
    requires forall j | i < j < k ::
               steps[j].out.Failure? || steps[j].out.value.id != steps[i].out.value.id || logs[j + 1] == logs[j]
    requires Describes(world, logs[k], limit, d) && d.id == steps[i].out.value.id
    requires AreRevisions(logs[k][d.id].history, [[Revision(logs[k][d.id])]], page)
    ensures var call, f := steps[i].call, d.row.fields;
            && d.row.project == call.project && d.row.deletedAt == None && d.row.revision == steps[i].out.value.revision
            && f.key == call.key && f.content == call.content
            && f.tags == (match call.tags case None => [] case Some(tags) => tags)
            && f.category == (if call.category == "" then "general" else call.category)
            && f.source == (if call.source == "" then "user" else call.source)
            && page[0].fields == f && page[0].changedAt == d.row.updatedAt
            && (logs[i + 1] != logs[i] ==> page[0].changedBy == call.author && page[0].changedAt == steps[i].now)
            && Wanted(logs[k], call.project, "", d.id) && forall tag | tag in f.tags :: Wanted(logs[k], call.project, tag, d.id)
  {
    var step := steps[i];
    RunIsGood(world, logs, steps, i);
    assert Commits(world, logs[i], step.call, step.now, logs[i + 1], step.out);
    hide Commits, IsRun, Good, Describes, AreRevisions, Wanted;
    WriteStores(world, logs[i], step.call, step.now, logs[i + 1], step.out);
    RepliesRevision(world, logs[i], step.call, step.now, logs[i + 1], step.out);
    StaysUntilChanged(world, logs, steps, i + 1, k, d.id);
    CurrentIsRead(world, logs[k], limit, d, page);
  }

  lemma RepliesRevision(world: World, before: Log, call: Call, now: Time, after: Log, out: Result<Reply, Error>)
    requires Commits(world, before, call, now, after, out) && out.Success?
    ensures out.value.id in after && out.value.revision == Revision(after[out.value.id])
  {
    hide Refusal, Applies, ListsWarnings, Warnings;
  }

  /** By id and at the head of its history, an insight shows its last snapshot; if live, it is in
      the listing of its project and of each of its tags. */
  lemma CurrentIsRead(world: World, log: Log, limit: nat, d: Detail, page: seq<Snapshot>)
    requires Describes(world, log, limit, d) && AreRevisions(log[d.id].history, [[Revision(log[d.id])]], page)
    ensures var s := Current(log[d.id]);
            && d.row.project == log[d.id].project && d.row.deletedAt == s.deletedAt && d.row.revision == Revision(log[d.id])
            && d.row.fields == s.fields && d.row.updatedAt == s.changedAt && page == [s]
            && (s.deletedAt.None? ==> Wanted(log, d.row.project, "", d.id) && forall tag | tag in s.fields.tags :: Wanted(log, d.row.project, tag, d.id))
  {
    hide DescribesLinks, DescribesBacklinks;
  }
}
