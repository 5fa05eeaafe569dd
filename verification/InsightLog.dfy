/**
  What the insight store means: every insight is an append-only history of snapshots, and
  everything else (the current row, its revision number, the link index) follows from it.
  A committed transaction is one step that appends at most one snapshot to at most one history.
 */
module InsightLog {
  import opened Wrappers
  import C = Canonical

  type Id = nat
  type Project = nat
  type Org = nat
  type User = nat
  type Time = int

  /** The INTEGER column bound, also the largest revision a caller may name. */
  const MAX_REVISION := 0x7fff_ffff

  datatype Operation = Create | Update | Delete | Restore

  /** The columns a revision copies; the empty key stands for NULL. */
  datatype Fields = Fields(key: string, content: string, tags: seq<string>, category: string, source: string)

  datatype Snapshot = Snapshot(operation: Operation, fields: Fields, deletedAt: Option<Time>, changedBy: User, changedAt: Time)

  datatype Record = Record(project: Project, createdBy: User, history: seq<Snapshot>)

  type Insight = r: Record | r.history != []
    witness Record(0, 0, [Snapshot(Create, Fields("", "", [], "general", "user"), None, 0, 0)])

  type Log = map<Id, Insight>

  /** What surrounds the store: which organisation owns a project, and the Markdown parser. */
  datatype World = World(orgOf: map<Project, Org>, targets: string -> seq<string>)

  function Current(i: Insight): Snapshot { i.history[|i.history| - 1] }

  function Revision(i: Insight): nat { |i.history| }

  predicate Live(i: Insight) { Current(i).deletedAt.None? }

  predicate KnownCategory(c: string) {
    c in {"fact", "decision", "insight", "preference", "context", "general"}
  }

  predicate KnownSource(s: string) {
    s in {"user", "repo", "agent", "command"}
  }

  /** The link index derived from content: the targets the parser finds, less the own key. */
  function LinksOf(world: World, f: Fields): (links: set<string>)
    ensures forall t :: t in links <==> t in world.targets(f.content) && !(t == f.key && f.key != "")
  {
    set t | t in world.targets(f.content) && !(t == f.key && f.key != "")
  }

  /** A live insight carries this key in this project; no key (NULL) equals nothing. */
  ghost predicate Holds(log: Log, id: Id, project: Project, key: string) {
    && key != "" && id in log && Live(log[id]) && log[id].project == project && Current(log[id]).fields.key == key
  }

  ghost predicate Taken(log: Log, project: Project, key: string) {
    exists id :: Holds(log, id, project, key)
  }

  // ---------- what one history looks like ----------

  /** Every revision is a real change of what came before it. */
  ghost predicate Follows(earlier: seq<Snapshot>, next: Snapshot)
    requires earlier != []
  {
    var prev := earlier[|earlier| - 1];
    && next.fields.key == prev.fields.key
    && match next.operation
       case Create => false
       case Update => prev.deletedAt.None? && next.deletedAt.None? && next.fields != prev.fields
       case Delete => prev.deletedAt.None? && next.deletedAt.Some? && next.fields == prev.fields
       case Restore =>
         && next.deletedAt.None?
         && (prev.deletedAt.Some? || next.fields != prev.fields)
         && exists j :: 0 <= j < |earlier| && earlier[j].fields == next.fields
  }

  ghost predicate GoodHistory(h: seq<Snapshot>) {
    && 1 <= |h| <= MAX_REVISION
    && h[0].operation == Create && h[0].deletedAt.None?
    && (forall k | 1 <= k < |h| :: Follows(h[..k], h[k]))
    && (forall k | 0 <= k < |h| :: KnownCategory(h[k].fields.category) && KnownSource(h[k].fields.source))
  }

  ghost predicate UniqueLiveKeys(log: Log) {
    forall a, b, project, key | Holds(log, a, project, key) && Holds(log, b, project, key) :: a == b
  }

  ghost predicate Good(log: Log) {
    && (forall id | id in log :: GoodHistory(log[id].history))
    && UniqueLiveKeys(log)
  }

  /** The later log knows everything the earlier one did: nothing is rewritten or forgotten. */
  ghost predicate Extends(before: Log, after: Log) {
    forall id | id in before ::
      && id in after
      && after[id].project == before[id].project
      && after[id].createdBy == before[id].createdBy
      && before[id].history <= after[id].history
  }

  // ---------- the five mutations ----------

  datatype Call =
    | Write(project: Project, key: string, content: string, tags: Option<seq<string>>, category: string,
            source: string, author: User, expected: Option<int>)
    | Edit(org: Org, id: Id, content: string, tags: Option<seq<string>>, author: User, expected: Option<int>)
    | Remove(org: Org, id: Id, author: User, expected: Option<int>)
    | Recover(project: Project, id: Id, target: int, author: User, expected: Option<int>)

  datatype Warning = SelfLink(key: string) | Unresolved(key: string)

  datatype Reply = Reply(id: Id, revision: nat, contentChanged: bool, warnings: seq<Warning>)

  predicate WarnedFirst(a: Warning, b: Warning) {
    C.Less(a.key, b.key) || (a.key == b.key && a.SelfLink? && b.Unresolved?)
  }

  /** A reply lists its warnings once each, by target and then by kind. */
  ghost predicate ListsWarnings(listed: seq<Warning>, warnings: set<Warning>) {
    && (forall w :: w in listed <==> w in warnings)
    && forall i, j | 0 <= i < j < |listed| :: WarnedFirst(listed[i], listed[j])
  }

  datatype Error =
    | InvalidExpectedRevision
    | InvalidTargetRevision
    | NotFound
    | RevisionNotFound
    | RevisionConflict(expected: int, current: int)
    | KeyConflict
    | Rejected  // a CHECK constraint, a foreign key or the integer range

  function Written(call: Call): (f: Fields)
    requires call.Write?
  {
    Fields(call.key, call.content,
           if call.tags.Some? then call.tags.value else [],
           if call.category == "" then "general" else call.category,
           if call.source == "" then "user" else call.source)
  }

  predicate Reachable(world: World, log: Log, org: Org, id: Id) {
    && id in log && Live(log[id])
    && log[id].project in world.orgOf && world.orgOf[log[id].project] == org
  }

  /** The insight a call is about, if there is one it may touch; a keyless write is about none. */
  ghost function Subject(world: World, log: Log, call: Call): (subject: Option<Id>)
    ensures subject.Some? ==> subject.value in log
  {
    match call
    case Write(project, key, _, _, _, _, _, _) =>
      if Taken(log, project, key)
      then var id :| Holds(log, id, project, key); Some(id)
      else None
    case Edit(org, id, _, _, _, _) => if Reachable(world, log, org, id) then Some(id) else None
    case Remove(org, id, _, _) => if Reachable(world, log, org, id) then Some(id) else None
    case Recover(project, id, _, _, _) => if id in log && log[id].project == project then Some(id) else None
  }

  /** The fields the insight will have once the call is done. */
  function Proposed(i: Insight, call: Call): (f: Fields)
    requires call.Recover? ==> 1 <= call.target <= Revision(i)
  {
    var f := Current(i).fields;
    match call
    case Write(_, _, _, _, _, _, _, _) => Written(call)
    case Edit(_, _, content, tags, _, _) =>
      f.(content := if content != "" then content else f.content,
         tags := if tags.Some? then tags.value else f.tags)
    case Remove(_, _, _, _) => f
    case Recover(_, _, target, _, _) => i.history[target - 1].fields
  }

  /** The call would leave the insight as it is. */
  predicate NoOp(i: Insight, call: Call)
    requires call.Recover? ==> 1 <= call.target <= Revision(i)
  {
    !call.Remove? && Live(i) && Proposed(i, call) == Current(i).fields
  }

  function Successor(i: Insight, call: Call, now: Time): (s: Snapshot)
    requires call.Recover? ==> 1 <= call.target <= Revision(i)
  {
    Snapshot(match call
               case Write(_, _, _, _, _, _, _, _) => Update
               case Edit(_, _, _, _, _, _) => Update
               case Remove(_, _, _, _) => Delete
               case Recover(_, _, _, _, _) => Restore,
             Proposed(i, call), if call.Remove? then Some(now) else None, call.author, now)
  }

  /** A precondition no insight can meet. Omitting it is last-write-wins, except for Recover. */
  predicate BadExpectation(call: Call) {
    match call.expected
    case None => call.Recover?
    case Some(e) => e < 0 || e > MAX_REVISION || (e == 0 && !call.Write?) || (e > 0 && call.Write? && call.key == "")
  }

  /** Why a call is refused in this log, checks in the order they are made; None if it is not. */
  ghost function Refusal(world: World, log: Log, call: Call): (e: Option<Error>) {
    if call.Recover? && !(0 < call.target <= MAX_REVISION) then Some(InvalidTargetRevision)
    else if BadExpectation(call) then Some(InvalidExpectedRevision)
    else match Subject(world, log, call)
      case None =>
        if !call.Write? then Some(NotFound)
        else if call.expected.Some? && call.expected.value > 0 then Some(RevisionConflict(call.expected.value, 0))
        else if !KnownCategory(Written(call).category) || !KnownSource(Written(call).source) then Some(Rejected)
        else if call.project !in world.orgOf then Some(Rejected)
        else None
      case Some(id) =>
        var i := log[id];
        if call.expected.Some? && call.expected.value != Revision(i)
        then Some(RevisionConflict(call.expected.value, Revision(i)))
        else if call.Recover? && call.target > Revision(i) then Some(RevisionNotFound)
        else if NoOp(i, call) then None
        else if Revision(i) >= MAX_REVISION then Some(Rejected)
        else if !KnownCategory(Proposed(i, call).category) || !KnownSource(Proposed(i, call).source) then Some(Rejected)
        else if call.Recover? && Contested(log, id, Proposed(i, call).key) then Some(KeyConflict)
        else None
  }

  /** Another live insight of the project carries the key. */
  ghost predicate Contested(log: Log, id: Id, key: string)
    requires id in log
  {
    exists other :: other != id && Holds(log, other, log[id].project, key)
  }

  ghost function Warnings(world: World, log: Log, id: Id): (w: set<Warning>)
    requires id in log
  {
    var f := Current(log[id]).fields;
    (if f.key != "" && f.key in world.targets(f.content) then {SelfLink(f.key)} else {})
    + set t | t in LinksOf(world, f) && !Taken(log, log[id].project, t) :: Unresolved(t)
  }

  /** The log after a call that is not refused. */
  ghost predicate Applies(world: World, before: Log, call: Call, now: Time, id: Id, after: Log)
    requires Refusal(world, before, call).None?
  {
    match Subject(world, before, call)
    case None =>
      && id !in before
      && after == before[id := Record(call.project, call.author, [Snapshot(Create, Written(call), None, call.author, now)])]
    case Some(subject) =>
      && id == subject
      && after == if NoOp(before[id], call) then before
                  else before[id := before[id].(history := before[id].history + [Successor(before[id], call, now)])]
  }

  /** The one way a call that nothing refuses may still fail: a keyed write loses the insert
      race and then finds the winner deleted again. */
  predicate LostTwice(call: Call, e: Error) {
    call.Write? && call.key != "" && e == NotFound
  }

  /** One committed (or refused) transaction. */
  ghost predicate Commits(world: World, before: Log, call: Call, now: Time, after: Log, out: Result<Reply, Error>) {
    match out
    case Failure(e) =>
      after == before && (Refusal(world, before, call) == Some(e) || LostTwice(call, e))
    case Success(r) =>
      && Refusal(world, before, call).None?
      && Applies(world, before, call, now, r.id, after)
      && r.id in after && r.revision == Revision(after[r.id])
      && r.contentChanged == (r.id in before && Current(before[r.id]).fields.content != Current(after[r.id]).fields.content)
      && ListsWarnings(r.warnings, if call.Remove? || (call.Edit? && call.content == "") then {} else Warnings(world, after, r.id))
  }

  // ---------- every committed step ----------

  /** A step leaves every other insight alone and lengthens its own history by at most one. */
  lemma CommitTouchesOne(world: World, before: Log, call: Call, now: Time, after: Log, out: Result<Reply, Error>)
    requires Commits(world, before, call, now, after, out)
    ensures Extends(before, after)
    ensures out.Failure? ==> after == before
    ensures out.Success? ==> forall id | id != out.value.id :: (id in after <==> id in before) && (id in before ==> after[id] == before[id])
    ensures out.Success? && out.value.id in before ==>
              var h, g := before[out.value.id].history, after[out.value.id].history;
              |g| <= |h| + 1 && (|g| == |h| ==> after == before)
  {
    if out.Success? && out.value.id in before {
      var id := out.value.id;
      if !NoOp(before[id], call) {
        var h, g := before[id].history, after[id].history;
        assert h <= g;
      }
    }
  }

  lemma SubjectIsHolder(world: World, log: Log, call: Call, id: Id)
    requires Good(log) && call.Write? && Holds(log, id, call.project, call.key)
    ensures Subject(world, log, call) == Some(id)
  {
    assert Taken(log, call.project, call.key);
  }

  lemma AppendKeepsGoodHistory(h: seq<Snapshot>, next: Snapshot)
    requires GoodHistory(h) && |h| < MAX_REVISION && Follows(h, next)
    requires KnownCategory(next.fields.category) && KnownSource(next.fields.source)
    ensures GoodHistory(h + [next])
  {
    var g := h + [next];
    forall k | 1 <= k < |g| ensures Follows(g[..k], g[k]) {
      if k < |h| {
        assert g[..k] == h[..k];
      } else {
        assert g[..k] == h;
      }
    }
  }

  /** The key of an insight is the same in every one of its revisions. */
  lemma {:induction false} KeyNeverChanges(h: seq<Snapshot>, k: nat)
    requires GoodHistory(h) && k < |h|
    ensures h[k].fields.key == h[0].fields.key
  {
    if k > 0 {
      assert Follows(h[..k], h[k]);
      KeyNeverChanges(h, k - 1);
    }
  }

  lemma SuccessorFollows(world: World, log: Log, call: Call, now: Time, id: Id)
    requires Good(log) && Refusal(world, log, call).None? && Subject(world, log, call) == Some(id) && !NoOp(log[id], call)
    ensures Follows(log[id].history, Successor(log[id], call, now))
  {
    var i := log[id];
    match call
    case Write(project, key, _, _, _, _, _, _) =>
      assert Holds(log, id, project, key);
    case Edit(_, _, _, _, _, _) =>
    case Remove(_, _, _, _) =>
    case Recover(_, _, target, _, _) =>
      KeyNeverChanges(i.history, target - 1);
      KeyNeverChanges(i.history, |i.history| - 1);
  }

  /** The invariant of every reachable log: gap-free good histories, one live insight per key. */
  lemma CommitKeepsGood(world: World, before: Log, call: Call, now: Time, after: Log, out: Result<Reply, Error>)
    requires Good(before) && Commits(world, before, call, now, after, out)
    ensures Good(after)
  {
    hide ListsWarnings;
    hide Warnings;
    if out.Success? && after != before {
      var id := out.value.id;
      match Subject(world, before, call)
      case None =>
        NewHistoryIsGood(after[id].history);
        CreateKeepsKeysUnique(world, before, call, after, id);
      case Some(_) =>
        SuccessorFollows(world, before, call, now, id);
        AppendKeepsGoodHistory(before[id].history, Successor(before[id], call, now));
        AppendKeepsKeysUnique(world, before, call, now, after, id);
    }
  }

  lemma NewHistoryIsGood(h: seq<Snapshot>)
    requires |h| == 1 && h[0].operation == Create && h[0].deletedAt.None?
    requires KnownCategory(h[0].fields.category) && KnownSource(h[0].fields.source)
    ensures GoodHistory(h)
  {
  }

  /** What a transaction must have done to have created an insight. */
  lemma CreateCommits(world: World, before: Log, call: Call, now: Time, id: Id, i: Insight, after: Log, r: Reply)
    requires Good(before) && call.Write? && Refusal(world, before, call).None? && Subject(world, before, call).None?
    requires id !in before && after == before[id := i]
    requires i == Record(call.project, call.author, [Snapshot(Create, Written(call), None, call.author, now)])
    requires r.id == id && r.revision == 1 && !r.contentChanged && ListsWarnings(r.warnings, Warnings(world, after, id))
    ensures Commits(world, before, call, now, after, Success(r)) && Good(after)
  {
    CommitKeepsGood(world, before, call, now, after, Success(r));
  }

  /** What a transaction must have done to have carried out a call on an existing insight. */
  lemma AppendCommits(world: World, before: Log, call: Call, now: Time, id: Id, next: Snapshot, after: Log, r: Reply)
    requires Good(before) && Refusal(world, before, call).None? && Subject(world, before, call) == Some(id)
    requires !NoOp(before[id], call) && next == Successor(before[id], call, now)
    requires after == before[id := before[id].(history := before[id].history + [next])]
    requires r.id == id && r.revision == Revision(before[id]) + 1
    requires r.contentChanged == (Current(before[id]).fields.content != next.fields.content)
    requires ListsWarnings(r.warnings, if call.Remove? || (call.Edit? && call.content == "") then {} else Warnings(world, after, id))
    ensures Commits(world, before, call, now, after, Success(r)) && Good(after)
  {
    CommitKeepsGood(world, before, call, now, after, Success(r));
  }

  /** What a transaction must have done to have carried out a call that changes nothing. */
  lemma NoOpCommits(world: World, log: Log, call: Call, now: Time, id: Id, r: Reply)
    requires id in log && Refusal(world, log, call).None? && Subject(world, log, call) == Some(id) && NoOp(log[id], call)
    requires r.id == id && r.revision == Revision(log[id]) && !r.contentChanged
    requires ListsWarnings(r.warnings, if call.Remove? || (call.Edit? && call.content == "") then {} else Warnings(world, log, id))
    ensures Commits(world, log, call, now, log, Success(r))
  {
    hide Refusal, Subject, NoOp, ListsWarnings, Warnings;
  }

  lemma CreateKeepsKeysUnique(world: World, before: Log, call: Call, after: Log, id: Id)
    requires UniqueLiveKeys(before) && call.Write? && Subject(world, before, call).None? && id !in before && id in after
    requires after[id].project == call.project && Current(after[id]).fields.key == call.key
    requires after == before[id := after[id]]
    ensures UniqueLiveKeys(after)
  {
    assert call.key != "" ==> !Taken(before, call.project, call.key);
    assert forall b :: !Holds(before, b, call.project, call.key);
    forall a, b, project, key | Holds(after, a, project, key) && Holds(after, b, project, key)
      ensures a == b
    {
      assert a != id ==> Holds(before, a, project, key);
      assert b != id ==> Holds(before, b, project, key);
    }
  }

  /** Nobody else holds the key of an insight that a call is about to make (or keep) live. */
  lemma NoOtherHolder(world: World, log: Log, call: Call, id: Id, other: Id)
    requires Good(log) && Refusal(world, log, call).None? && Subject(world, log, call) == Some(id)
    requires !NoOp(log[id], call) && !call.Remove? && other != id
    ensures !Holds(log, other, log[id].project, Proposed(log[id], call).key)
  {
    var key := Proposed(log[id], call).key;
    SuccessorFollows(world, log, call, 0, id);
    if Live(log[id]) && key != "" {
      assert Holds(log, id, log[id].project, key);
    }
  }

  lemma AppendKeepsKeysUnique(world: World, before: Log, call: Call, now: Time, after: Log, id: Id)
    requires Good(before) && Refusal(world, before, call).None? && Subject(world, before, call) == Some(id)
    requires !NoOp(before[id], call)
    requires after == before[id := before[id].(history := before[id].history + [Successor(before[id], call, now)])]
    ensures UniqueLiveKeys(after)
  {
    var next := Successor(before[id], call, now);
    assert Current(after[id]) == next;
    forall other | other != id
      ensures !call.Remove? ==> !Holds(after, other, after[id].project, next.fields.key)
    {
      if !call.Remove? {
        NoOtherHolder(world, before, call, id, other);
        assert Holds(after, other, after[id].project, next.fields.key) == Holds(before, other, before[id].project, next.fields.key);
      }
    }
    forall a, b, project, key | Holds(after, a, project, key) && Holds(after, b, project, key)
      ensures a == b
    {
      assert a != id ==> Holds(before, a, project, key);
      assert b != id ==> Holds(before, b, project, key);
    }
  }

  // ---------- whole runs ----------

  datatype Step = Step(call: Call, now: Time, out: Result<Reply, Error>)

  /** Any interleaving of committed transactions, from the empty store. */
  ghost predicate IsRun(world: World, logs: seq<Log>, steps: seq<Step>) {
    && |logs| == |steps| + 1 && logs[0] == map[]
    && forall i | 0 <= i < |steps| :: Commits(world, logs[i], steps[i].call, steps[i].now, logs[i + 1], steps[i].out)
  }

  lemma {:induction false} RunIsGood(world: World, logs: seq<Log>, steps: seq<Step>, i: nat)
    requires IsRun(world, logs, steps) && i < |logs|
    ensures Good(logs[i])
  {
    if i > 0 {
      RunIsGood(world, logs, steps, i - 1);
      CommitKeepsGood(world, logs[i - 1], steps[i - 1].call, steps[i - 1].now, logs[i], steps[i - 1].out);
    }
  }

  lemma {:induction false} RunOnlyExtends(world: World, logs: seq<Log>, steps: seq<Step>, i: nat, j: nat)
    requires IsRun(world, logs, steps) && i <= j < |logs|
    ensures Extends(logs[i], logs[j])
    decreases j - i
  {
    if i < j {
      RunOnlyExtends(world, logs, steps, i, j - 1);
      CommitTouchesOne(world, logs[j - 1], steps[j - 1].call, steps[j - 1].now, logs[j], steps[j - 1].out);
      ExtendsTransitive(logs[i], logs[j - 1], logs[j]);
    }
  }

  lemma ExtendsTransitive(a: Log, b: Log, c: Log)
    requires Extends(a, b) && Extends(b, c)
    ensures Extends(a, c)
  {
    forall id | id in a ensures id in c && a[id].history <= c[id].history {
      assert id in b;
      var x, y, z := a[id].history, b[id].history, c[id].history;
      assert x == y[..|x|] && y == z[..|y|];
      assert x == z[..|x|];
    }
  }

  /** A mutation that names revision r succeeds only on an insight at r, and leaves it at r
      (nothing changed at all) or at r + 1; r == 0 succeeds only by creating the insight. */
  lemma PreconditionHonoured(world: World, before: Log, call: Call, now: Time, after: Log, out: Result<Reply, Error>)
    requires Good(before) && Commits(world, before, call, now, after, out)
    requires out.Success? && call.expected.Some?
    ensures var id, r := out.value.id, call.expected.value;
            if r == 0 then id !in before && out.value.revision == 1
            else
              && id in before && Revision(before[id]) == r
              && out.value.revision == (if after == before then r else r + 1)
  {
    var id := out.value.id;
    if id in before && after != before {
      var h, g := before[id].history, after[id].history;
      assert |g| == |h| + 1;
    }
    assert id in before && !NoOp(before[id], call) ==> |after[id].history| == |before[id].history| + 1;
  }

  /** No lost updates: once a mutation naming r has changed an insight, no later mutation of it
      that still names r succeeds, whatever else runs in between. */
  lemma NoLostUpdate(world: World, logs: seq<Log>, steps: seq<Step>, i: nat, j: nat)
    requires IsRun(world, logs, steps) && i < j < |steps|
    requires steps[i].out.Success? && steps[i].call.expected.Some? && logs[i + 1] != logs[i]
    requires steps[j].out.Success? && steps[j].out.value.id == steps[i].out.value.id
    ensures steps[j].call.expected != steps[i].call.expected
  {
    RunIsGood(world, logs, steps, i);
    RunIsGood(world, logs, steps, j);
    PreconditionHonoured(world, logs[i], steps[i].call, steps[i].now, logs[i + 1], steps[i].out);
    var id := steps[i].out.value.id;
    RunOnlyExtends(world, logs, steps, i + 1, j);
    assert id in logs[i + 1];
    assert logs[i + 1][id].history <= logs[j][id].history;
    if steps[j].call.expected.Some? {
      PreconditionHonoured(world, logs[j], steps[j].call, steps[j].now, logs[j + 1], steps[j].out);
    }
  }

  /** A revision, once committed, reads the same for ever. */
  lemma RevisionsAreImmutable(world: World, logs: seq<Log>, steps: seq<Step>, i: nat, j: nat, id: Id, revision: int)
    requires IsRun(world, logs, steps) && i <= j < |logs|
    requires id in logs[i] && 1 <= revision <= Revision(logs[i][id])
    ensures id in logs[j] && revision <= Revision(logs[j][id])
    ensures logs[j][id].history[revision - 1] == logs[i][id].history[revision - 1]
    ensures logs[j][id].history[revision - 1].fields.key == Current(logs[i][id]).fields.key
  {
    RunOnlyExtends(world, logs, steps, i, j);
    RunIsGood(world, logs, steps, i);
    var h, g := logs[i][id].history, logs[j][id].history;
    assert h == g[..|h|];
    KeyNeverChanges(h, revision - 1);
    KeyNeverChanges(h, |h| - 1);
  }

  // ---------- what each mutation does, in so many words ----------

  /** A write leaves a live insight of the project that says what was written: nothing given is
      lost, nothing left over from before, and what was not given has its default. It is the
      insight that held the key, if one did, and else a new one. */
  lemma WriteStores(world: World, before: Log, call: Call, now: Time, after: Log, out: Result<Reply, Error>)
    requires Good(before) && call.Write? && Commits(world, before, call, now, after, out) && out.Success?
    ensures var id := out.value.id;
            && id in after && after[id].project == call.project
            && (id in before <==> exists other :: Holds(before, other, call.project, call.key))
            && (id in before ==> Holds(before, id, call.project, call.key))
            && (id !in before ==> after[id].createdBy == call.author && Revision(after[id]) == 1)
            && var s := Current(after[id]);
               && s.deletedAt == None
               && s.fields.key == call.key
               && s.fields.content == call.content
               && s.fields.tags == (match call.tags case None => [] case Some(tags) => tags)
               && s.fields.category == (if call.category == "" then "general" else call.category)
               && s.fields.source == (if call.source == "" then "user" else call.source)
               && (after != before ==>
                     s.changedBy == call.author && s.changedAt == now && s.operation == if id in before then Update else Create)
               && out.value.contentChanged == (id in before && Current(before[id]).fields.content != call.content)
               && (after == before <==> id in before && Current(before[id]).fields == s.fields)
  {
    hide ListsWarnings, Warnings, Refusal;
    assert Taken(before, call.project, call.key) <==> exists other :: Holds(before, other, call.project, call.key);
  }

  /** An edit stores what is given and keeps every other field; what it does not change at all
      gets no new revision. */
  lemma EditStores(world: World, before: Log, call: Call, now: Time, after: Log, out: Result<Reply, Error>)
    requires call.Edit? && Commits(world, before, call, now, after, out) && out.Success?
    ensures var id := out.value.id;
            && id == call.id && id in before && id in after && Live(before[id])
            && var old_, s := Current(before[id]), Current(after[id]);
               && s.deletedAt == None
               && s.fields.key == old_.fields.key
               && s.fields.category == old_.fields.category && s.fields.source == old_.fields.source
               && s.fields.content == (if call.content == "" then old_.fields.content else call.content)
               && s.fields.tags == (match call.tags case None => old_.fields.tags case Some(tags) => tags)
               && (after != before ==> s.operation == Update && s.changedBy == call.author && s.changedAt == now)
               && out.value.contentChanged == (call.content != "" && call.content != old_.fields.content)
               && (after == before <==> old_.fields == s.fields)
  {
    hide ListsWarnings, Warnings;
  }

  /** A deletion keeps every field and marks when it was deleted; it always is a new revision. */
  lemma RemoveMarks(world: World, before: Log, call: Call, now: Time, after: Log, out: Result<Reply, Error>)
    requires call.Remove? && Commits(world, before, call, now, after, out) && out.Success?
    ensures var id := out.value.id;
            && id == call.id && id in before && id in after && Live(before[id])
            && Revision(after[id]) == Revision(before[id]) + 1
            && Current(after[id]) == Snapshot(Delete, Current(before[id]).fields, Some(now), call.author, now)
            && !out.value.contentChanged && out.value.warnings == []
  {
    hide Warnings;
    NoneListed(out.value.warnings);
  }

  lemma NoneListed(listed: seq<Warning>)
    requires ListsWarnings(listed, {})
    ensures listed == []
  {
    HasMember(listed);
  }

  lemma HasMember<T>(s: seq<T>)
    ensures s != [] ==> exists x :: x in s
  {
    if s != [] {
      assert s[0] in s;
    }
  }

  /** When an edit or a deletion succeeds, and what it answers otherwise: its subject is a live
      insight of the caller's organization at the revision named, if one is. */
  lemma EditsAnswer(world: World, before: Log, call: Call, now: Time, after: Log, out: Result<Reply, Error>)
    requires Good(before) && (call.Edit? || call.Remove?) && Commits(world, before, call, now, after, out)
    ensures if call.expected.Some? && !(1 <= call.expected.value <= MAX_REVISION) then out == Failure(InvalidExpectedRevision)
            else if !(call.id in before && Current(before[call.id]).deletedAt == None
                      && before[call.id].project in world.orgOf && world.orgOf[before[call.id].project] == call.org)
            then out == Failure(NotFound)
            else
              var i := before[call.id];
              if call.expected.Some? && call.expected.value != |i.history|
              then out == Failure(RevisionConflict(call.expected.value, |i.history|))
              else if |i.history| == MAX_REVISION then out.Success? ==> after == before
              else out.Success?
    ensures out.Failure? ==> after == before
  {
    hide ListsWarnings, Warnings;
    if call.id in before {
      assert GoodHistory(before[call.id].history);
    }
  }

  /** The same of a write to a key that a live insight holds: it is updated at the revision named,
      if one is. (A write that lost its race twice answers NotFound.) */
  lemma OverwritesAnswer(world: World, before: Log, call: Call, now: Time, after: Log, out: Result<Reply, Error>, id: Id)
    requires Good(before) && call.Write? && Commits(world, before, call, now, after, out) && out != Failure(NotFound)
    requires Holds(before, id, call.project, call.key)
    ensures var e, revision := call.expected, |before[id].history|;
            if e.Some? && !(0 <= e.value <= MAX_REVISION) then out == Failure(InvalidExpectedRevision)
            else if e.Some? && e.value != revision then out == Failure(RevisionConflict(e.value, revision))
            else if after == before && out.Success? then Current(before[id]).fields.content == call.content
            else if revision == MAX_REVISION || (call.category != "" && !KnownCategory(call.category)) || (call.source != "" && !KnownSource(call.source))
            then out == Failure(Rejected)
            else out.Success?
    ensures out.Failure? ==> after == before
  {
    hide ListsWarnings, Warnings;
    SubjectIsHolder(world, before, call, id);
    assert GoodHistory(before[id].history);
  }

  /** And of a write to a key that no live insight holds, or without a key: it may name revision 0
      only, and creates the insight. */
  lemma CreationsAnswer(world: World, before: Log, call: Call, now: Time, after: Log, out: Result<Reply, Error>)
    requires Good(before) && call.Write? && Commits(world, before, call, now, after, out) && out != Failure(NotFound)
    requires !exists id :: Holds(before, id, call.project, call.key)
    ensures var e := call.expected;
            if e.Some? && (!(0 <= e.value <= MAX_REVISION) || (call.key == "" && e.value > 0)) then out == Failure(InvalidExpectedRevision)
            else if e.Some? && e.value > 0 then out == Failure(RevisionConflict(e.value, 0))
            else if (call.category != "" && !KnownCategory(call.category)) || (call.source != "" && !KnownSource(call.source))
                    || call.project !in world.orgOf
            then out == Failure(Rejected)
            else out.Success? && out.value.id !in before
    ensures out.Failure? ==> after == before
  {
    hide ListsWarnings, Warnings;
    assert !Taken(before, call.project, call.key);
  }

  /** And of a restore, deleted or not: any insight of the project at the revision named. */
  lemma RestoresAnswer(world: World, before: Log, call: Call, now: Time, after: Log, out: Result<Reply, Error>)
    requires Good(before) && call.Recover? && Commits(world, before, call, now, after, out)
    ensures var e := call.expected;
            if !(1 <= call.target <= MAX_REVISION) then out == Failure(InvalidTargetRevision)
            else if e.None? || !(1 <= e.value <= MAX_REVISION) then out == Failure(InvalidExpectedRevision)
            else if !(call.id in before && before[call.id].project == call.project) then out == Failure(NotFound)
            else
              var h := before[call.id].history;
              var contested := call.target <= |h| && Contested(before, call.id, h[call.target - 1].fields.key);
              if e.value != |h| then out == Failure(RevisionConflict(e.value, |h|))
              else if call.target > |h| then out == Failure(RevisionNotFound)
              else if Live(before[call.id]) && h[call.target - 1].fields == h[|h| - 1].fields then out.Success? && after == before
              else if |h| == MAX_REVISION then out == Failure(Rejected)
              else if contested then out == Failure(KeyConflict)
              else out.Success? && after != before
    ensures out.Failure? ==> after == before
  {
    hide ListsWarnings, Warnings, GoodHistory, UniqueLiveKeys;
    if call.id in before {
      var h := before[call.id].history;
      GoodHistoryIsKnown(h);
      assert after != before && call.id in after ==> after[call.id] != before[call.id];
    }
  }

  lemma GoodHistoryIsKnown(h: seq<Snapshot>)
    requires GoodHistory(h)
    ensures 1 <= |h| <= MAX_REVISION && forall k | 0 <= k < |h| :: KnownCategory(h[k].fields.category) && KnownSource(h[k].fields.source)
  {
  }

  /** Restore undoes: the insight is live again with the fields of the revision it names. */
  lemma RecoverRestores(world: World, before: Log, call: Call, now: Time, after: Log, out: Result<Reply, Error>)
    requires Good(before) && call.Recover? && Commits(world, before, call, now, after, out) && out.Success?
    ensures var id := call.id;
            && out.value.id == id && id in before && id in after && Live(after[id])
            && 1 <= call.target <= Revision(before[id])
            && Current(after[id]).fields == before[id].history[call.target - 1].fields
            && (after != before ==>
                  Current(after[id]).operation == Restore && Current(after[id]).changedBy == call.author && Current(after[id]).changedAt == now)
            && (after == before <==> Live(before[id]) && Current(before[id]).fields == before[id].history[call.target - 1].fields)
  {
    hide ListsWarnings, Warnings, GoodHistory;
  }

  /** What a reply warns of: a link to the insight itself, and each link whose target no live
      insight of the project holds. */
  lemma WarnsExactly(world: World, before: Log, call: Call, now: Time, after: Log, out: Result<Reply, Error>)
    requires Commits(world, before, call, now, after, out) && out.Success?
    requires !call.Remove? && !(call.Edit? && call.content == "")
    ensures var f, project := Current(after[out.value.id]).fields, after[out.value.id].project;
            && (forall key :: SelfLink(key) in out.value.warnings <==> key == f.key && key != "" && key in world.targets(f.content))
            && (forall key :: Unresolved(key) in out.value.warnings <==>
                  && key in world.targets(f.content) && !(key == f.key && key != "")
                  && !exists other :: Holds(after, other, project, key))
  {
    hide Refusal, Applies;
    var id := out.value.id;
    assert forall key :: Taken(after, after[id].project, key) <==> exists other :: Holds(after, other, after[id].project, key);
    assert forall w :: w in out.value.warnings <==> w in Warnings(world, after, id);
  }

  /** A key conflict is met exactly by restoring a deleted insight whose key another live
      insight has since taken. */
  lemma KeyConflictExactly(world: World, log: Log, call: Call)
    requires Good(log) && call.Recover?
    ensures Refusal(world, log, call) == Some(KeyConflict) <==>
            && call.id in log && log[call.id].project == call.project
            && call.expected == Some(Revision(log[call.id])) && 1 <= call.target <= Revision(log[call.id]) < MAX_REVISION
            && !Live(log[call.id])
            && Taken(log, call.project, Current(log[call.id]).fields.key)
  {
    hide GoodHistory;
    if call.id in log && 1 <= call.target <= Revision(log[call.id]) {
      var i := log[call.id];
      GoodHistoryIsKnown(i.history);
      KeyNeverChanges(i.history, call.target - 1);
      KeyNeverChanges(i.history, |i.history| - 1);
      var key := Current(i).fields.key;
      if Live(i) && i.project == call.project && key != "" {
        assert Holds(log, call.id, call.project, key);
        assert !Contested(log, call.id, key);
      }
      if !Live(i) && Taken(log, i.project, key) {
        var other :| Holds(log, other, i.project, key);
        assert other != call.id;
      }
    }
  }
}
