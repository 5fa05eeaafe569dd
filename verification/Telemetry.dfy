/** The operations snapshot: aggregating the rows of three log queries over a day, and its cache. */
module Telemetry {
  import opened Wrappers
  import opened Clock
  import opened Aggregates
  import C = Canonical

  const WINDOW: Time := 24 * HOUR
  const CACHE_TTL: Time := 60 * SECOND
  const DASHBOARD_LOGIN := "ui.session.created"

  // ---------- rows, as read from their text ----------

  /** None: the text is no count (or no time). */
  datatype ToolRow = ToolRow(calls: Option<nat>, bucket: Option<Time>, tool: string, outcome: string)

  datatype FlowRow = FlowRow(events: Option<nat>, eventName: string, outcome: string, reason: string)

  datatype Float = NaN | Infinite | Finite(value: real)

  datatype Latency = Absent | Unparsable | Parsed(p95: Float)

  predicate KnownOutcome(outcome: string) {
    outcome == "success" || outcome == "failure"
  }

  predicate ValidTool(r: ToolRow) {
    r.calls.Some? && r.bucket.Some? && r.tool != "" && KnownOutcome(r.outcome)
  }

  predicate ValidFlow(r: FlowRow) {
    r.events.Some? && (r.eventName == DASHBOARD_LOGIN || (r.eventName != "" && KnownOutcome(r.outcome)))
  }

  predicate ValidLatency(l: Latency) {
    l.Absent? || (l.Parsed? && l.p95.Finite? && l.p95.value >= 0.0)
  }

  // ---------- what a row counts for ----------

  function Calls(r: ToolRow): (n: nat) {
    if r.calls.Some? then r.calls.value else 0
  }

  function Failures(r: ToolRow): (n: nat) {
    if r.outcome == "failure" then Calls(r) else 0
  }

  function Successes(r: ToolRow): (n: nat) {
    if r.outcome == "failure" then 0 else Calls(r)
  }

  function Bucket(r: ToolRow): (t: Time) {
    if r.bucket.Some? then r.bucket.value else 0
  }

  function Tool(r: ToolRow): (name: string) {
    r.tool
  }

  predicate IsLogin(r: FlowRow) {
    r.eventName == DASHBOARD_LOGIN
  }

  function Events(r: FlowRow): (n: nat) {
    if r.events.Some? then r.events.value else 0
  }

  function FlowFailures(r: FlowRow): (n: nat) {
    if !IsLogin(r) && r.outcome == "failure" then Events(r) else 0
  }

  function FlowSuccesses(r: FlowRow): (n: nat) {
    if !IsLogin(r) && r.outcome != "failure" then Events(r) else 0
  }

  function Logins(r: FlowRow): (n: nat) {
    if IsLogin(r) && r.outcome == "success" then Events(r) else 0
  }

  function EventName(r: FlowRow): (name: string) {
    r.eventName
  }

  // ---------- the snapshot ----------

  datatype TimeBucket = TimeBucket(startedAt: Time, success: nat, failure: nat)
  datatype ToolAggregate = ToolAggregate(tool: string, calls: nat, failures: nat)
  datatype FlowAggregate = FlowAggregate(eventName: string, success: nat, failure: nat)
  datatype FailureAggregate = FailureAggregate(eventName: string, reason: string, count: nat)

  datatype Snapshot = Snapshot(generatedAt: Time, windowStartedAt: Time, windowEndedAt: Time,
                               totalToolCalls: nat, failedToolCalls: nat, p95ToolDurationMs: int, successfulDashboardLogins: nat,
                               toolSeries: seq<TimeBucket>, tools: seq<ToolAggregate>,
                               oauthFlows: seq<FlowAggregate>, oauthFailures: seq<FailureAggregate>)

  predicate Earlier(a: TimeBucket, b: TimeBucket) {
    a.startedAt < b.startedAt
  }

  predicate Busier(a: ToolAggregate, b: ToolAggregate) {
    a.calls > b.calls || (a.calls == b.calls && C.Less(a.tool, b.tool))
  }

  predicate FlowFirst(a: FlowAggregate, b: FlowAggregate) {
    C.Less(a.eventName, b.eventName)
  }

  predicate Worse(a: FailureAggregate, b: FailureAggregate) {
    a.count > b.count
    || (a.count == b.count && (C.Less(a.eventName, b.eventName)
                               || (a.eventName == b.eventName && C.Less(a.reason, b.reason))))
  }

  /** The hours that begin in the window, from the one its start falls in. */
  function Hours(startedAt: Time, now: Time): (hours: set<Time>) {
    HourRange(startedAt / HOUR, now / HOUR)
  }

  function HourRange(first: int, last: int): (hours: set<Time>) {
    set k | first <= k <= last :: k * HOUR
  }

  function Times(rows: seq<ToolRow>): (times: set<Time>) {
    set r | r in rows :: Bucket(r)
  }

  function ToolNames(rows: seq<ToolRow>): (names: set<string>) {
    set r | r in rows :: r.tool
  }

  function FlowNames(rows: seq<FlowRow>): (names: set<string>) {
    set r | r in rows && !IsLogin(r) :: r.eventName
  }

  function BucketAt(rows: seq<ToolRow>, t: Time): (b: TimeBucket) {
    TimeBucket(t, Part(rows, Bucket, t, Successes), Part(rows, Bucket, t, Failures))
  }

  function ToolAt(rows: seq<ToolRow>, name: string): (a: ToolAggregate) {
    ToolAggregate(name, Part(rows, Tool, name, Calls), Part(rows, Tool, name, Failures))
  }

  function FlowAt(rows: seq<FlowRow>, name: string): (a: FlowAggregate) {
    FlowAggregate(name, Part(rows, EventName, name, FlowSuccesses), Part(rows, EventName, name, FlowFailures))
  }

  function Series(rows: seq<ToolRow>, startedAt: Time, now: Time): (buckets: set<TimeBucket>) {
    set t | t in Hours(startedAt, now) + Times(rows) :: BucketAt(rows, t)
  }

  function ToolSet(rows: seq<ToolRow>): (tools: set<ToolAggregate>) {
    set n | n in ToolNames(rows) :: ToolAt(rows, n)
  }

  function FlowSet(rows: seq<FlowRow>): (flows: set<FlowAggregate>) {
    set n | n in FlowNames(rows) :: FlowAt(rows, n)
  }

  predicate IsFailure(r: FlowRow) {
    !IsLogin(r) && r.outcome == "failure"
  }

  /** Each failure row keeps its reason. */
  function FailureRows(rows: seq<FlowRow>): (failures: seq<FailureAggregate>) {
    if rows == [] then []
    else
      var r := rows[|rows| - 1];
      FailureRows(rows[..|rows| - 1]) + if IsFailure(r) then [FailureAggregate(r.eventName, r.reason, Events(r))] else []
  }

  function P95(l: Latency): (ms: int) {
    if l.Parsed? && l.p95.Finite? then (l.p95.value + 0.5).Floor else 0
  }

  /** What the snapshot says, in terms of the rows alone: every list is sorted and has one entry
      for each hour, tool, flow or failure row, with the sums of just its rows. */
  ghost predicate Describes(s: Snapshot, startedAt: Time, now: Time, tools: seq<ToolRow>, latency: Latency, flows: seq<FlowRow>) {
    && s.generatedAt == now && s.windowStartedAt == startedAt && s.windowEndedAt == now
    && s.totalToolCalls == Sum(tools, Calls) && s.failedToolCalls == Sum(tools, Failures)
    && s.p95ToolDurationMs == P95(latency) && s.successfulDashboardLogins == Sum(flows, Logins)
    && Sorted(s.toolSeries, Earlier)
    && multiset(s.toolSeries) == multiset(Series(tools, startedAt, now))
    && Sorted(s.tools, Busier)
    && multiset(s.tools) == multiset(ToolSet(tools))
    && Sorted(s.oauthFlows, FlowFirst)
    && multiset(s.oauthFlows) == multiset(FlowSet(flows))
    && Sorted(s.oauthFailures, Worse)
    && multiset(s.oauthFailures) == multiset(FailureRows(flows))
  }

  // ---------- building it ----------

  datatype Error = Unavailable | QueryFailed | BadCount | BadBucket | BadToolRow | BadLatency | BadFlowRow

  datatype ToolTotals = ToolTotals(total: nat, failed: nat, buckets: map<Time, TimeBucket>, tools: map<string, ToolAggregate>)

  predicate ToolsOf(t: ToolTotals, startedAt: Time, now: Time, rows: seq<ToolRow>) {
    && t.total == Sum(rows, Calls) && t.failed == Sum(rows, Failures)
    && t.buckets.Keys == Hours(startedAt, now) + Times(rows)
    && (forall b | b in t.buckets :: t.buckets[b] == BucketAt(rows, b))
    && t.tools.Keys == ToolNames(rows)
    && (forall n | n in t.tools :: t.tools[n] == ToolAt(rows, n))
  }

  method SeedBuckets(startedAt: Time, now: Time) returns (buckets: map<Time, TimeBucket>)
    requires startedAt <= now
    ensures buckets.Keys == Hours(startedAt, now)
    ensures forall b | b in buckets :: buckets[b] == TimeBucket(b, 0, 0)
  {
    buckets := map[];
    var bucket := startedAt - startedAt % HOUR;
    ghost var k := startedAt / HOUR;
    HourBegun(k, startedAt);
    HourBegun(k, now);
    while bucket <= now
      invariant bucket == k * HOUR && startedAt / HOUR <= k <= now / HOUR + 1
      invariant buckets.Keys == HourRange(startedAt / HOUR, k - 1)
      invariant forall b | b in buckets :: buckets[b] == TimeBucket(b, 0, 0)
      decreases now - bucket
    {
      HourBegun(k, now);
      buckets := buckets[bucket := TimeBucket(bucket, 0, 0)];
      bucket := bucket + HOUR;
      k := k + 1;
    }
    HourBegun(k, now);
  }

  lemma HourBegun(k: int, t: Time)
    ensures k * HOUR <= t <==> k <= t / HOUR
    ensures t - t % HOUR == (t / HOUR) * HOUR
  {
  }

  lemma AddRow(rows: seq<ToolRow>, i: nat)
    requires i < |rows|
    ensures var r, before, after := rows[i], rows[..i], rows[..i + 1];
            && Sum(after, Calls) == Sum(before, Calls) + Calls(r) && Sum(after, Failures) == Sum(before, Failures) + Failures(r)
            && Times(after) == Times(before) + {Bucket(r)} && ToolNames(after) == ToolNames(before) + {r.tool}
            && (forall b :: BucketAt(after, b) == if b == Bucket(r) then TimeBucket(b, BucketAt(before, b).success + Successes(r), BucketAt(before, b).failure + Failures(r)) else BucketAt(before, b))
            && (forall n :: ToolAt(after, n) == if n == r.tool then ToolAggregate(n, ToolAt(before, n).calls + Calls(r), ToolAt(before, n).failures + Failures(r)) else ToolAt(before, n))
  {
    Last(rows, i);
    assert rows[..i + 1] == rows[..i] + [rows[i]];
  }

  lemma NoRow(rows: seq<ToolRow>, b: Time, n: string)
    ensures b !in Times(rows) ==> BucketAt(rows, b) == TimeBucket(b, 0, 0)
    ensures n !in ToolNames(rows) ==> ToolAt(rows, n) == ToolAggregate(n, 0, 0)
  {
    if rows != [] {
      var i := |rows| - 1;
      NoRow(rows[..i], b, n);
      AddRow(rows, i);
      assert rows[..i + 1] == rows;
    }
  }

  function BucketIn(t: ToolTotals, b: Time): (bucket: TimeBucket) {
    if b in t.buckets then t.buckets[b] else TimeBucket(b, 0, 0)
  }

  function ToolIn(t: ToolTotals, n: string): (tool: ToolAggregate) {
    if n in t.tools then t.tools[n] else ToolAggregate(n, 0, 0)
  }

  /** One row more. */
  function Plus(t: ToolTotals, r: ToolRow): (after: ToolTotals) {
    var bucket, tool := BucketIn(t, Bucket(r)), ToolIn(t, r.tool);
    ToolTotals(t.total + Calls(r), t.failed + Failures(r),
               t.buckets[Bucket(r) := TimeBucket(bucket.startedAt, bucket.success + Successes(r), bucket.failure + Failures(r))],
               t.tools[r.tool := ToolAggregate(tool.tool, tool.calls + Calls(r), tool.failures + Failures(r))])
  }

  lemma PlusDescribes(t: ToolTotals, startedAt: Time, now: Time, rows: seq<ToolRow>, i: nat)
    requires i < |rows| && ToolsOf(t, startedAt, now, rows[..i])
    ensures ToolsOf(Plus(t, rows[i]), startedAt, now, rows[..i + 1])
  {
    hide BucketAt, ToolAt, Times, ToolNames, Hours;
    PlusBucket(t, rows, i);
    PlusTool(t, rows, i);
    AddRow(rows, i);
  }

  lemma PlusBucket(t: ToolTotals, rows: seq<ToolRow>, i: nat)
    requires i < |rows| && t.buckets.Keys >= Times(rows[..i]) && forall b | b in t.buckets :: t.buckets[b] == BucketAt(rows[..i], b)
    ensures var u := Plus(t, rows[i]);
            u.buckets.Keys == t.buckets.Keys + {Bucket(rows[i])} && forall b | b in u.buckets :: u.buckets[b] == BucketAt(rows[..i + 1], b)
    ensures Plus(t, rows[i]).total == t.total + Calls(rows[i]) && Plus(t, rows[i]).failed == t.failed + Failures(rows[i])
  {
    AddRow(rows, i);
    NoRow(rows[..i], Bucket(rows[i]), rows[i].tool);
    hide BucketAt, ToolAt, Times, ToolNames;
  }

  lemma PlusTool(t: ToolTotals, rows: seq<ToolRow>, i: nat)
    requires i < |rows| && t.tools.Keys == ToolNames(rows[..i]) && forall n | n in t.tools :: t.tools[n] == ToolAt(rows[..i], n)
    ensures var u := Plus(t, rows[i]);
            u.tools.Keys == t.tools.Keys + {rows[i].tool} && forall n | n in u.tools :: u.tools[n] == ToolAt(rows[..i + 1], n)
  {
    AddRow(rows, i);
    NoRow(rows[..i], Bucket(rows[i]), rows[i].tool);
    hide BucketAt, ToolAt, Times, ToolNames;
  }

  lemma SeedsDescribe(buckets: map<Time, TimeBucket>, startedAt: Time, now: Time)
    requires buckets.Keys == Hours(startedAt, now) && forall b | b in buckets :: buckets[b] == TimeBucket(b, 0, 0)
    ensures ToolsOf(ToolTotals(0, 0, buckets, map[]), startedAt, now, [])
  {
  }

  method AggregateTools(startedAt: Time, now: Time, rows: seq<ToolRow>) returns (r: Result<ToolTotals, Error>)
    requires startedAt <= now
    ensures r.Success? <==> forall i | 0 <= i < |rows| :: ValidTool(rows[i])
    ensures r.Success? ==> ToolsOf(r.value, startedAt, now, rows)
  {
    hide ToolsOf;
    var buckets := SeedBuckets(startedAt, now);
    var tools: map<string, ToolAggregate> := map[];
    var total, failed := 0, 0;
    SeedsDescribe(buckets, startedAt, now);
    for i := 0 to |rows|
      invariant forall k | 0 <= k < i :: ValidTool(rows[k])
      invariant ToolsOf(ToolTotals(total, failed, buckets, tools), startedAt, now, rows[..i])
    {
      var row := rows[i];
      if row.calls.None? {
        return Failure(BadCount);
      }
      if row.bucket.None? {
        return Failure(BadBucket);
      }
      if row.tool == "" || !KnownOutcome(row.outcome) {
        return Failure(BadToolRow);
      }
      ghost var before := ToolTotals(total, failed, buckets, tools);
      PlusDescribes(before, startedAt, now, rows, i);
      var count := row.calls.value;
      total := total + count;
      var bucket := if row.bucket.value in buckets then buckets[row.bucket.value] else TimeBucket(row.bucket.value, 0, 0);
      var tool := if row.tool in tools then tools[row.tool] else ToolAggregate(row.tool, 0, 0);
      tool := tool.(calls := tool.calls + count);
      if row.outcome == "failure" {
        failed := failed + count;
        bucket := bucket.(failure := bucket.failure + count);
        tool := tool.(failures := tool.failures + count);
      } else {
        bucket := bucket.(success := bucket.success + count);
      }
      buckets := buckets[row.bucket.value := bucket];
      tools := tools[row.tool := tool];
      assert ToolTotals(total, failed, buckets, tools) == Plus(before, row);
    }
    assert rows[..|rows|] == rows;
    r := Success(ToolTotals(total, failed, buckets, tools));
  }

  datatype FlowTotals = FlowTotals(logins: nat, flows: map<string, FlowAggregate>, failures: seq<FailureAggregate>)

  predicate FlowsOf(t: FlowTotals, rows: seq<FlowRow>) {
    && t.logins == Sum(rows, Logins)
    && t.flows.Keys == FlowNames(rows)
    && (forall n | n in t.flows :: t.flows[n] == FlowAt(rows, n))
    && t.failures == FailureRows(rows)
  }

  function FlowIn(t: FlowTotals, n: string): (flow: FlowAggregate) {
    if n in t.flows then t.flows[n] else FlowAggregate(n, 0, 0)
  }

  /** One row more. */
  function PlusFlow(t: FlowTotals, r: FlowRow): (after: FlowTotals) {
    if IsLogin(r) then t.(logins := t.logins + Logins(r))
    else
      var flow := FlowIn(t, r.eventName);
      FlowTotals(t.logins,
                 t.flows[r.eventName := FlowAggregate(flow.eventName, flow.success + FlowSuccesses(r), flow.failure + FlowFailures(r))],
                 t.failures + if IsFailure(r) then [FailureAggregate(r.eventName, r.reason, Events(r))] else [])
  }

  lemma AddFlow(rows: seq<FlowRow>, i: nat)
    requires i < |rows|
    ensures var r, before, after := rows[i], rows[..i], rows[..i + 1];
            && Sum(after, Logins) == Sum(before, Logins) + Logins(r)
            && FlowNames(after) == FlowNames(before) + (if IsLogin(r) then {} else {r.eventName})
            && (forall n :: FlowAt(after, n) == if n == r.eventName then FlowAggregate(n, FlowAt(before, n).success + FlowSuccesses(r), FlowAt(before, n).failure + FlowFailures(r)) else FlowAt(before, n))
            && FailureRows(after) == FailureRows(before) + if IsFailure(r) then [FailureAggregate(r.eventName, r.reason, Events(r))] else []
  {
    Last(rows, i);
    assert rows[..i + 1] == rows[..i] + [rows[i]];
  }

  lemma NoFlow(rows: seq<FlowRow>, n: string)
    ensures n !in FlowNames(rows) ==> FlowAt(rows, n) == FlowAggregate(n, 0, 0)
  {
    if rows != [] {
      var i := |rows| - 1;
      NoFlow(rows[..i], n);
      AddFlow(rows, i);
      assert rows[..i + 1] == rows;
    }
  }

  lemma PlusFlowDescribes(t: FlowTotals, rows: seq<FlowRow>, i: nat)
    requires i < |rows| && FlowsOf(t, rows[..i])
    ensures FlowsOf(PlusFlow(t, rows[i]), rows[..i + 1])
  {
    AddFlow(rows, i);
    NoFlow(rows[..i], rows[i].eventName);
    hide FlowAt, FlowNames, FailureRows;
    var u := PlusFlow(t, rows[i]);
    if !IsLogin(rows[i]) {
      assert u.flows.Keys == t.flows.Keys + {rows[i].eventName};
    }
  }

  lemma NoFlowsYet()
    ensures FlowsOf(FlowTotals(0, map[], []), [])
  {
  }

  method AggregateFlows(rows: seq<FlowRow>) returns (r: Result<FlowTotals, Error>)
    ensures r.Success? <==> forall i | 0 <= i < |rows| :: ValidFlow(rows[i])
    ensures r.Success? ==> FlowsOf(r.value, rows)
  {
    hide FlowsOf;
    var logins := 0;
    var flows: map<string, FlowAggregate> := map[];
    var failures: seq<FailureAggregate> := [];
    NoFlowsYet();
    for i := 0 to |rows|
      invariant forall k | 0 <= k < i :: ValidFlow(rows[k])
      invariant FlowsOf(FlowTotals(logins, flows, failures), rows[..i])
    {
      var row := rows[i];
      if row.events.None? {
        return Failure(BadCount);
      }
      var count := row.events.value;
      ghost var before := FlowTotals(logins, flows, failures);
      PlusFlowDescribes(before, rows, i);
      if row.eventName == DASHBOARD_LOGIN {
        if row.outcome == "success" {
          logins := logins + count;
        }
        assert FlowTotals(logins, flows, failures) == PlusFlow(before, row);
        continue;
      }
      if row.eventName == "" || !KnownOutcome(row.outcome) {
        return Failure(BadFlowRow);
      }
      var flow := if row.eventName in flows then flows[row.eventName] else FlowAggregate(row.eventName, 0, 0);
      if row.outcome == "failure" {
        flow := flow.(failure := flow.failure + count);
        failures := failures + [FailureAggregate(row.eventName, row.reason, count)];
      } else {
        flow := flow.(success := flow.success + count);
        assert failures == before.failures + [];
      }
      flows := flows[row.eventName := flow];
      assert flow == PlusFlow(before, row).flows[row.eventName];
      assert FlowTotals(logins, flows, failures) == PlusFlow(before, row);
    }
    assert rows[..|rows|] == rows;
    r := Success(FlowTotals(logins, flows, failures));
  }

  lemma OrdersAreStrict()
    ensures Strict(Earlier) && Strict(Busier) && Strict(FlowFirst) && Strict(Worse)
  {
    LessIsStrict();
    LessTellsApart();
  }

  lemma LessTellsApart()
    ensures forall a, b :: C.Less(a, b) || a == b || C.Less(b, a)
  {
    forall a, b ensures C.Less(a, b) || a == b || C.Less(b, a) {
      C.LessTotal(a, b);
    }
  }

  /** The snapshot is built exactly when every row makes sense, and then it describes them. */
  method BuildSnapshot(now: Time, startedAt: Time, toolRows: seq<ToolRow>, latency: Latency, flowRows: seq<FlowRow>)
    returns (r: Result<Snapshot, Error>)
    requires startedAt <= now
    ensures r.Success? <==> (forall i | 0 <= i < |toolRows| :: ValidTool(toolRows[i])) && ValidLatency(latency)
                            && (forall i | 0 <= i < |flowRows| :: ValidFlow(flowRows[i]))
    ensures r.Success? ==> Describes(r.value, startedAt, now, toolRows, latency, flowRows)
  {
    hide ToolsOf, FlowsOf, Series, ToolSet, FlowSet, ValueSet, FailureRows, ValidTool, ValidFlow, Strict, Sum;
    var tools := AggregateTools(startedAt, now, toolRows);
    if tools.Failure? {
      return Failure(tools.error);
    }
    var p95 := 0;
    if !latency.Absent? {
      if latency.Unparsable? {
        return Failure(BadLatency);
      }
      if !latency.p95.Finite? || latency.p95.value < 0.0 {
        return Failure(BadLatency);
      }
      p95 := (latency.p95.value + 0.5).Floor;
    }
    var flows := AggregateFlows(flowRows);
    if flows.Failure? {
      return Failure(flows.error);
    }
    var t, f := tools.value, flows.value;
    ListingsMatch(t, f, startedAt, now, toolRows, flowRows);
    var series := Values(t.buckets);
    var toolList := Values(t.tools);
    var flowList := Values(f.flows);
    OrdersAreStrict();
    series := SortSlice(series, Earlier);
    toolList := SortSlice(toolList, Busier);
    flowList := SortSlice(flowList, FlowFirst);
    var failures := SortSlice(f.failures, Worse);
    r := Success(Snapshot(now, startedAt, now, t.total, t.failed, p95, f.logins, series, toolList, flowList, failures));
  }

  lemma ListingsMatch(t: ToolTotals, f: FlowTotals, startedAt: Time, now: Time, tools: seq<ToolRow>, flows: seq<FlowRow>)
    requires ToolsOf(t, startedAt, now, tools) && FlowsOf(f, flows)
    ensures t.total == Sum(tools, Calls) && t.failed == Sum(tools, Failures) && f.logins == Sum(flows, Logins) && f.failures == FailureRows(flows)
    ensures forall a, b | a in t.buckets && b in t.buckets && a != b :: t.buckets[a] != t.buckets[b]
    ensures forall a, b | a in t.tools && b in t.tools && a != b :: t.tools[a] != t.tools[b]
    ensures forall a, b | a in f.flows && b in f.flows && a != b :: f.flows[a] != f.flows[b]
    ensures ValueSet(t.buckets) == Series(tools, startedAt, now)
    ensures ValueSet(t.tools) == ToolSet(tools)
    ensures ValueSet(f.flows) == FlowSet(flows)
  {
  }

  // ---------- what follows from the description ----------

  lemma SameNames(a: seq<ToolRow>, b: seq<ToolRow>)
    requires multiset(a) == multiset(b)
    ensures Times(a) == Times(b) && ToolNames(a) == ToolNames(b)
  {
    forall r ensures r in a <==> r in b {
      assert r in multiset(a) <==> r in multiset(b);
    }
  }

  lemma SameRows(a: seq<ToolRow>, b: seq<ToolRow>, startedAt: Time, now: Time)
    requires multiset(a) == multiset(b)
    ensures Sum(a, Calls) == Sum(b, Calls) && Sum(a, Failures) == Sum(b, Failures)
    ensures Series(a, startedAt, now) == Series(b, startedAt, now)
    ensures ToolSet(a) == ToolSet(b)
  {
    SumOfPermutation(a, b, Calls);
    SumOfPermutation(a, b, Failures);
    SameNames(a, b);
    forall t ensures BucketAt(a, t) == BucketAt(b, t) {
      PartOfPermutation(a, b, Bucket, t, Successes);
      PartOfPermutation(a, b, Bucket, t, Failures);
    }
    forall n ensures ToolAt(a, n) == ToolAt(b, n) {
      PartOfPermutation(a, b, Tool, n, Calls);
      PartOfPermutation(a, b, Tool, n, Failures);
    }
  }

  lemma SameFlows(a: seq<FlowRow>, b: seq<FlowRow>)
    requires multiset(a) == multiset(b)
    ensures Sum(a, Logins) == Sum(b, Logins)
    ensures FlowSet(a) == FlowSet(b)
    ensures multiset(FailureRows(a)) == multiset(FailureRows(b))
  {
    SumOfPermutation(a, b, Logins);
    SameFailures(a, b);
    SameFlowNames(a, b);
    hide FailureRows;
    forall n ensures FlowAt(a, n) == FlowAt(b, n) {
      PartOfPermutation(a, b, EventName, n, FlowSuccesses);
      PartOfPermutation(a, b, EventName, n, FlowFailures);
    }
  }

  lemma SameFlowNames(a: seq<FlowRow>, b: seq<FlowRow>)
    requires multiset(a) == multiset(b)
    ensures FlowNames(a) == FlowNames(b)
  {
    forall r ensures r in a <==> r in b {
      assert r in multiset(a) <==> r in multiset(b);
    }
  }

  lemma {:induction false} FailuresAppend(a: seq<FlowRow>, b: seq<FlowRow>)
    ensures FailureRows(a + b) == FailureRows(a) + FailureRows(b)
  {
    if b == [] {
      assert a + b == a;
    } else {
      assert (a + b)[..|a + b| - 1] == a + b[..|b| - 1];
      FailuresAppend(a, b[..|b| - 1]);
    }
  }

  lemma FailuresRemoved(s: seq<FlowRow>, i: nat)
    requires i < |s|
    ensures multiset(FailureRows(s)) == multiset(FailureRows(s[..i] + s[i + 1..])) + multiset(FailureRows([s[i]]))
  {
    hide FailureRows;
    assert s == s[..i] + ([s[i]] + s[i + 1..]);
    FailuresAppend(s[..i], [s[i]] + s[i + 1..]);
    FailuresAppend([s[i]], s[i + 1..]);
    FailuresAppend(s[..i], s[i + 1..]);
    Middle(FailureRows(s[..i]), FailureRows([s[i]]), FailureRows(s[i + 1..]));
  }

  lemma Middle<T>(a: seq<T>, b: seq<T>, c: seq<T>)
    ensures multiset(a + (b + c)) == multiset(a + c) + multiset(b)
  {
  }

  lemma {:induction false} SameFailures(a: seq<FlowRow>, b: seq<FlowRow>)
    requires multiset(a) == multiset(b)
    ensures multiset(FailureRows(a)) == multiset(FailureRows(b))
  {
    if a == [] {
      assert |multiset(b)| == |multiset(a)| == 0;
    } else {
      var n := |a| - 1;
      assert a[n] in multiset(b);
      var i :| 0 <= i < |b| && b[i] == a[n];
      Removed(a, n);
      Removed(b, i);
      FailuresRemoved(a, n);
      FailuresRemoved(b, i);
      SameFailures(a[..n] + a[n + 1..], b[..i] + b[i + 1..]);
    }
  }

  /** The calls that the rows report of an hour or of a tool (or of all), with one outcome. */
  function CallsIn(rows: seq<ToolRow>, hour: Option<Time>, tool: Option<string>, outcome: string): (n: nat) {
    if rows == [] then 0
    else
      var r := rows[|rows| - 1];
      CallsIn(rows[..|rows| - 1], hour, tool, outcome)
      + if (hour.Some? ==> r.bucket == hour) && (tool.Some? ==> r.tool == tool.value) && r.outcome == outcome && r.calls.Some?
        then r.calls.value else 0
  }

  /** The events that the rows report under a name, with one outcome. */
  function EventsIn(rows: seq<FlowRow>, name: string, outcome: string): (n: nat) {
    if rows == [] then 0
    else
      var r := rows[|rows| - 1];
      EventsIn(rows[..|rows| - 1], name, outcome) + if r.eventName == name && r.outcome == outcome && r.events.Some? then r.events.value else 0
  }

  lemma {:induction false} CallsAdd(rows: seq<ToolRow>, hour: Time, tool: string)
    requires forall i | 0 <= i < |rows| :: ValidTool(rows[i])
    ensures Sum(rows, Calls) == CallsIn(rows, None, None, "success") + CallsIn(rows, None, None, "failure")
    ensures Sum(rows, Failures) == CallsIn(rows, None, None, "failure")
    ensures BucketAt(rows, hour) == TimeBucket(hour, CallsIn(rows, Some(hour), None, "success"), CallsIn(rows, Some(hour), None, "failure"))
    ensures ToolAt(rows, tool) == ToolAggregate(tool, CallsIn(rows, None, Some(tool), "success") + CallsIn(rows, None, Some(tool), "failure"),
                                                CallsIn(rows, None, Some(tool), "failure"))
  {
    if rows != [] {
      CallsAdd(rows[..|rows| - 1], hour, tool);
    }
  }

  lemma {:induction false} EventsAdd(rows: seq<FlowRow>, name: string)
    requires forall i | 0 <= i < |rows| :: ValidFlow(rows[i])
    ensures Sum(rows, Logins) == EventsIn(rows, "ui.session.created", "success")
    ensures name != "ui.session.created" ==>
              FlowAt(rows, name) == FlowAggregate(name, EventsIn(rows, name, "success"), EventsIn(rows, name, "failure"))
  {
    if rows != [] {
      EventsAdd(rows[..|rows| - 1], name);
    }
  }

  /** What the numbers of a snapshot are: of all calls and of each hour's and each tool's, those that
      the rows report with that outcome; of each flow, its events; and of logins, those that
      succeeded. Hours are in order, tools and failures by how many. */
  lemma SnapshotCounts(s: Snapshot, startedAt: Time, now: Time, tools: seq<ToolRow>, latency: Latency, flows: seq<FlowRow>)
    requires Describes(s, startedAt, now, tools, latency, flows)
    requires (forall i | 0 <= i < |tools| :: ValidTool(tools[i])) && (forall i | 0 <= i < |flows| :: ValidFlow(flows[i]))
    ensures s.totalToolCalls == CallsIn(tools, None, None, "success") + CallsIn(tools, None, None, "failure")
    ensures s.failedToolCalls == CallsIn(tools, None, None, "failure")
    ensures s.successfulDashboardLogins == EventsIn(flows, "ui.session.created", "success")
    ensures forall b | b in s.toolSeries ::
              b == TimeBucket(b.startedAt, CallsIn(tools, Some(b.startedAt), None, "success"), CallsIn(tools, Some(b.startedAt), None, "failure"))
    ensures forall a | a in s.tools ::
              && a.calls == CallsIn(tools, None, Some(a.tool), "success") + CallsIn(tools, None, Some(a.tool), "failure")
              && a.failures == CallsIn(tools, None, Some(a.tool), "failure")
    ensures forall f | f in s.oauthFlows ::
              f.eventName != "ui.session.created" && f.success == EventsIn(flows, f.eventName, "success") && f.failure == EventsIn(flows, f.eventName, "failure")
    ensures forall i, j | 0 <= i < j < |s.toolSeries| :: s.toolSeries[i].startedAt <= s.toolSeries[j].startedAt
    ensures forall i, j | 0 <= i < j < |s.tools| :: s.tools[i].calls >= s.tools[j].calls
    ensures forall i, j | 0 <= i < j < |s.oauthFailures| :: s.oauthFailures[i].count >= s.oauthFailures[j].count
  {
    CallsAdd(tools, 0, "");
    EventsAdd(flows, "");
    SeriesApart(s, startedAt, now, tools, latency, flows);
    ToolsApart(s, startedAt, now, tools, latency, flows);
    FlowsApart(s, startedAt, now, tools, latency, flows);
    hide BucketAt, ToolAt, FlowAt, Series, ToolSet, FlowSet, FailureRows, CallsIn, EventsIn, ValidTool, ValidFlow;
    forall b | b in s.toolSeries
      ensures b == TimeBucket(b.startedAt, CallsIn(tools, Some(b.startedAt), None, "success"), CallsIn(tools, Some(b.startedAt), None, "failure"))
    {
      CallsAdd(tools, b.startedAt, "");
    }
    forall a | a in s.tools
      ensures a == ToolAggregate(a.tool, CallsIn(tools, None, Some(a.tool), "success") + CallsIn(tools, None, Some(a.tool), "failure"),
                                 CallsIn(tools, None, Some(a.tool), "failure"))
    {
      CallsAdd(tools, 0, a.tool);
    }
    forall f | f in s.oauthFlows
      ensures f.eventName != "ui.session.created" && f == FlowAggregate(f.eventName, EventsIn(flows, f.eventName, "success"), EventsIn(flows, f.eventName, "failure"))
    {
      EventsAdd(flows, f.eventName);
    }
  }

  /** The rows and the maps may be gone through in any order: what describes the same rows, in
      whatever order they came, is the same snapshot. */
  lemma OrderDoesNotMatter(s: Snapshot, t: Snapshot, startedAt: Time, now: Time, latency: Latency,
                           tools: seq<ToolRow>, tools': seq<ToolRow>, flows: seq<FlowRow>, flows': seq<FlowRow>)
    requires Describes(s, startedAt, now, tools, latency, flows) && Describes(t, startedAt, now, tools', latency, flows')
    requires multiset(tools) == multiset(tools') && multiset(flows) == multiset(flows')
    ensures s == t
  {
    SameRows(tools, tools', startedAt, now);
    SameFlows(flows, flows');
    SeriesApart(s, startedAt, now, tools, latency, flows);
    ToolsApart(s, startedAt, now, tools, latency, flows);
    FlowsApart(s, startedAt, now, tools, latency, flows);
    FailuresApart(s.oauthFailures);
    hide Sorted, TellsApart, Series, ToolSet, FlowSet, FailureRows;
    SortedUnique(s.toolSeries, t.toolSeries, Earlier);
    SortedUnique(s.tools, t.tools, Busier);
    SortedUnique(s.oauthFlows, t.oauthFlows, FlowFirst);
    SortedUnique(s.oauthFailures, t.oauthFailures, Worse);
  }

  lemma SeriesApart(s: Snapshot, startedAt: Time, now: Time, tools: seq<ToolRow>, latency: Latency, flows: seq<FlowRow>)
    requires Describes(s, startedAt, now, tools, latency, flows)
    ensures TellsApart(s.toolSeries, Earlier)
    ensures Distinct(s.toolSeries) && forall i | 0 <= i < |s.toolSeries| :: s.toolSeries[i] == BucketAt(tools, s.toolSeries[i].startedAt)
    ensures forall t | t in Hours(startedAt, now) + Times(tools) :: BucketAt(tools, t) in s.toolSeries
  {
    var all := Series(tools, startedAt, now);
    ListsOnce(s.toolSeries, all);
    forall i | 0 <= i < |s.toolSeries| ensures s.toolSeries[i] == BucketAt(tools, s.toolSeries[i].startedAt) {
      assert s.toolSeries[i] in all;
    }
    forall t | t in Hours(startedAt, now) + Times(tools) ensures BucketAt(tools, t) in s.toolSeries {
      assert BucketAt(tools, t) in all;
    }
  }

  lemma ToolsApart(s: Snapshot, startedAt: Time, now: Time, tools: seq<ToolRow>, latency: Latency, flows: seq<FlowRow>)
    requires Describes(s, startedAt, now, tools, latency, flows)
    ensures TellsApart(s.tools, Busier)
    ensures Distinct(s.tools) && forall i | 0 <= i < |s.tools| :: s.tools[i] == ToolAt(tools, s.tools[i].tool)
    ensures forall n | n in ToolNames(tools) :: ToolAt(tools, n) in s.tools
  {
    var all := ToolSet(tools);
    ListsOnce(s.tools, all);
    forall i | 0 <= i < |s.tools| ensures s.tools[i] == ToolAt(tools, s.tools[i].tool) {
      assert s.tools[i] in all;
    }
    forall n | n in ToolNames(tools) ensures ToolAt(tools, n) in s.tools {
      assert ToolAt(tools, n) in all;
    }
    LessTellsApart();
  }

  lemma FlowsApart(s: Snapshot, startedAt: Time, now: Time, tools: seq<ToolRow>, latency: Latency, flows: seq<FlowRow>)
    requires Describes(s, startedAt, now, tools, latency, flows)
    ensures TellsApart(s.oauthFlows, FlowFirst)
    ensures Distinct(s.oauthFlows) && forall i | 0 <= i < |s.oauthFlows| :: s.oauthFlows[i] == FlowAt(flows, s.oauthFlows[i].eventName)
    ensures forall i | 0 <= i < |s.oauthFlows| :: s.oauthFlows[i].eventName in FlowNames(flows)
    ensures forall n | n in FlowNames(flows) :: FlowAt(flows, n) in s.oauthFlows
  {
    var all := FlowSet(flows);
    ListsOnce(s.oauthFlows, all);
    forall i | 0 <= i < |s.oauthFlows| ensures s.oauthFlows[i] == FlowAt(flows, s.oauthFlows[i].eventName) && s.oauthFlows[i].eventName in FlowNames(flows) {
      assert s.oauthFlows[i] in all;
    }
    forall n | n in FlowNames(flows) ensures FlowAt(flows, n) in s.oauthFlows {
      assert FlowAt(flows, n) in all;
    }
    LessTellsApart();
  }

  lemma FailuresApart(failures: seq<FailureAggregate>)
    ensures TellsApart(failures, Worse)
  {
    LessTellsApart();
  }

  // ---------- conservation ----------

  function BucketCalls(b: TimeBucket): (n: nat) { b.success + b.failure }
  function BucketFailures(b: TimeBucket): (n: nat) { b.failure }
  function ToolCalls(a: ToolAggregate): (n: nat) { a.calls }
  function ToolFailures(a: ToolAggregate): (n: nat) { a.failures }
  function FlowFailureCount(a: FlowAggregate): (n: nat) { a.failure }
  function FailureCount(a: FailureAggregate): (n: nat) { a.count }
  function FailureEvent(a: FailureAggregate): (name: string) { a.eventName }

  function Starts(series: seq<TimeBucket>): (ts: seq<Time>) {
    seq(|series|, i requires 0 <= i < |series| => series[i].startedAt)
  }

  function Names(tools: seq<ToolAggregate>): (ns: seq<string>) {
    seq(|tools|, i requires 0 <= i < |tools| => tools[i].tool)
  }

  function Flows(flows: seq<FlowAggregate>): (ns: seq<string>) {
    seq(|flows|, i requires 0 <= i < |flows| => flows[i].eventName)
  }

  lemma {:induction false} OutcomesMakeCalls(rows: seq<ToolRow>, t: Time)
    ensures Part(rows, Bucket, t, Calls) == Part(rows, Bucket, t, Successes) + Part(rows, Bucket, t, Failures)
  {
    if rows != [] {
      OutcomesMakeCalls(rows[..|rows| - 1], t);
    }
  }

  lemma {:induction false} SeriesSums(series: seq<TimeBucket>, rows: seq<ToolRow>)
    requires forall i | 0 <= i < |series| :: series[i] == BucketAt(rows, series[i].startedAt)
    ensures Sum(series, BucketCalls) == Parts(rows, Bucket, Starts(series), Calls)
    ensures Sum(series, BucketFailures) == Parts(rows, Bucket, Starts(series), Failures)
  {
    if series != [] {
      var n := |series| - 1;
      SeriesSums(series[..n], rows);
      assert Starts(series)[..n] == Starts(series[..n]);
      OutcomesMakeCalls(rows, series[n].startedAt);
    }
  }

  lemma {:induction false} ToolSums(tools: seq<ToolAggregate>, rows: seq<ToolRow>)
    requires forall i | 0 <= i < |tools| :: tools[i] == ToolAt(rows, tools[i].tool)
    ensures Sum(tools, ToolCalls) == Parts(rows, Tool, Names(tools), Calls)
    ensures Sum(tools, ToolFailures) == Parts(rows, Tool, Names(tools), Failures)
  {
    if tools != [] {
      var n := |tools| - 1;
      ToolSums(tools[..n], rows);
      assert Names(tools)[..n] == Names(tools[..n]);
    }
  }

  lemma {:induction false} FlowSums(flows: seq<FlowAggregate>, rows: seq<FlowRow>)
    requires forall i | 0 <= i < |flows| :: flows[i] == FlowAt(rows, flows[i].eventName)
    ensures Sum(flows, FlowFailureCount) == Parts(rows, EventName, Flows(flows), FlowFailures)
  {
    if flows != [] {
      var n := |flows| - 1;
      FlowSums(flows[..n], rows);
      assert Flows(flows)[..n] == Flows(flows[..n]);
    }
  }

  lemma SeriesCovers(series: seq<TimeBucket>, rows: seq<ToolRow>)
    requires Distinct(series) && forall i | 0 <= i < |series| :: series[i] == BucketAt(rows, series[i].startedAt)
    requires forall t | t in Times(rows) :: BucketAt(rows, t) in series
    ensures Distinct(Starts(series)) && forall i | 0 <= i < |rows| :: Bucket(rows[i]) in Starts(series)
  {
    forall i | 0 <= i < |rows| ensures Bucket(rows[i]) in Starts(series) {
      assert rows[i] in rows && Bucket(rows[i]) in Times(rows);
      var k :| 0 <= k < |series| && series[k] == BucketAt(rows, Bucket(rows[i]));
      assert Starts(series)[k] == Bucket(rows[i]);
    }
  }

  lemma ToolsCover(tools: seq<ToolAggregate>, rows: seq<ToolRow>)
    requires Distinct(tools) && forall i | 0 <= i < |tools| :: tools[i] == ToolAt(rows, tools[i].tool)
    requires forall n | n in ToolNames(rows) :: ToolAt(rows, n) in tools
    ensures Distinct(Names(tools)) && forall i | 0 <= i < |rows| :: Tool(rows[i]) in Names(tools)
  {
    forall i | 0 <= i < |rows| ensures Tool(rows[i]) in Names(tools) {
      assert rows[i] in rows && rows[i].tool in ToolNames(rows);
      var k :| 0 <= k < |tools| && tools[k] == ToolAt(rows, rows[i].tool);
      assert Names(tools)[k] == rows[i].tool;
    }
  }

  lemma FlowsCover(flows: seq<FlowAggregate>, rows: seq<FlowRow>)
    requires Distinct(flows) && forall i | 0 <= i < |flows| :: flows[i] == FlowAt(rows, flows[i].eventName)
    requires forall n | n in FlowNames(rows) :: FlowAt(rows, n) in flows
    ensures Distinct(Flows(flows)) && forall i | 0 <= i < |rows| && FlowFailures(rows[i]) > 0 :: EventName(rows[i]) in Flows(flows)
  {
    forall i | 0 <= i < |rows| && FlowFailures(rows[i]) > 0 ensures EventName(rows[i]) in Flows(flows) {
      assert rows[i] in rows && rows[i].eventName in FlowNames(rows);
      var k :| 0 <= k < |flows| && flows[k] == FlowAt(rows, rows[i].eventName);
      assert Flows(flows)[k] == rows[i].eventName;
    }
  }

  /** No call is lost or counted twice: the totals are the sums over the hours, and over the
      tools; likewise for failures. */
  lemma CallsAreConserved(s: Snapshot, startedAt: Time, now: Time, tools: seq<ToolRow>, latency: Latency, flows: seq<FlowRow>)
    requires Describes(s, startedAt, now, tools, latency, flows)
    ensures s.totalToolCalls == Sum(s.toolSeries, BucketCalls) == Sum(s.tools, ToolCalls)
    ensures s.failedToolCalls == Sum(s.toolSeries, BucketFailures) == Sum(s.tools, ToolFailures)
  {
    SeriesApart(s, startedAt, now, tools, latency, flows);
    ToolsApart(s, startedAt, now, tools, latency, flows);
    SeriesCovers(s.toolSeries, tools);
    ToolsCover(s.tools, tools);
    SeriesSums(s.toolSeries, tools);
    ToolSums(s.tools, tools);
    PartsMakeWhole(tools, Bucket, Starts(s.toolSeries), Calls);
    PartsMakeWhole(tools, Bucket, Starts(s.toolSeries), Failures);
    PartsMakeWhole(tools, Tool, Names(s.tools), Calls);
    PartsMakeWhole(tools, Tool, Names(s.tools), Failures);
  }

  lemma {:induction false} FailuresOfEvent(rows: seq<FlowRow>, e: string)
    ensures e != DASHBOARD_LOGIN ==> Part(FailureRows(rows), FailureEvent, e, FailureCount) == Part(rows, EventName, e, FlowFailures)
    ensures Sum(FailureRows(rows), FailureCount) == Sum(rows, FlowFailures)
  {
    if rows != [] {
      FailuresOfEvent(rows[..|rows| - 1], e);
      LastFailure(rows, e);
    }
  }

  lemma LastFailure(rows: seq<FlowRow>, e: string)
    requires rows != []
    ensures var front, r := FailureRows(rows[..|rows| - 1]), rows[|rows| - 1];
            && Sum(FailureRows(rows), FailureCount) == Sum(front, FailureCount) + FlowFailures(r)
            && Part(FailureRows(rows), FailureEvent, e, FailureCount)
               == Part(front, FailureEvent, e, FailureCount) + if r.eventName == e then FlowFailures(r) else 0
  {
    var front, r := FailureRows(rows[..|rows| - 1]), rows[|rows| - 1];
    if IsFailure(r) {
      assert FailureRows(rows)[..|FailureRows(rows)| - 1] == front;
    } else {
      assert FailureRows(rows) == front;
    }
  }

  /** The failures listed with their reasons add up, for each flow, to that flow's failures, and
      all together to those of all flows. */
  lemma FailuresAreConserved(s: Snapshot, startedAt: Time, now: Time, tools: seq<ToolRow>, latency: Latency, flows: seq<FlowRow>)
    requires Describes(s, startedAt, now, tools, latency, flows)
    ensures forall i | 0 <= i < |s.oauthFlows| ::
              Part(s.oauthFailures, FailureEvent, s.oauthFlows[i].eventName, FailureCount) == s.oauthFlows[i].failure
    ensures Sum(s.oauthFailures, FailureCount) == Sum(s.oauthFlows, FlowFailureCount)
  {
    FlowsApart(s, startedAt, now, tools, latency, flows);
    FlowsCover(s.oauthFlows, flows);
    FlowSums(s.oauthFlows, flows);
    PartsMakeWhole(flows, EventName, Flows(s.oauthFlows), FlowFailures);
    SumOfPermutation(s.oauthFailures, FailureRows(flows), FailureCount);
    FailuresOfEvent(flows, "");
    forall i | 0 <= i < |s.oauthFlows|
      ensures Part(s.oauthFailures, FailureEvent, s.oauthFlows[i].eventName, FailureCount) == s.oauthFlows[i].failure
    {
      var e := s.oauthFlows[i].eventName;
      PartOfPermutation(s.oauthFailures, FailureRows(flows), FailureEvent, e, FailureCount);
      FailuresOfEvent(flows, e);
    }
  }

  /** A day always touches twenty-five hours, so every series has at least as many entries. */
  lemma TwentyFiveHours(now: Time)
    ensures |Hours(now - WINDOW, now)| == 25
  {
    CountHours((now - WINDOW) / HOUR, now / HOUR);
  }

  lemma {:induction false} CountHours(first: int, last: int)
    requires first <= last + 1
    ensures |HourRange(first, last)| == last + 1 - first
    decreases last + 1 - first
  {
    if first <= last {
      CountHours(first, last - 1);
      assert HourRange(first, last) == HourRange(first, last - 1) + {last * HOUR};
    } else {
      assert HourRange(first, last) == {};
    }
  }

  // ---------- the cache ----------

  /** What the three queries brought, or None if one of them failed. */
  datatype Fetched = Fetched(tools: seq<ToolRow>, latency: Latency, flows: seq<FlowRow>)

  class CloudWatch {
    const configured: bool
    var cached: Option<Snapshot>
    var expires: Time

    predicate Valid()
      reads this
    {
      cached.Some? ==> configured && expires == cached.value.generatedAt + CACHE_TTL
    }

    constructor (configured: bool)
      ensures Valid() && this.configured == configured && cached.None?
    {
      this.configured, cached, expires := configured, None, 0;
    }

    /** A snapshot younger than the TTL is served again; otherwise a new one is built and kept.
        A failure keeps what was there, and nothing older than the TTL is ever served. */
    method Get(now: Time, fetched: Option<Fetched>) returns (r: Result<Snapshot, Error>)
      requires Valid()
      modifies this
      ensures Valid()
      ensures !configured ==> r == Failure(Unavailable)
      ensures r.Success? ==> cached == Some(r.value) && now < r.value.generatedAt + CACHE_TTL
      ensures r.Failure? ==> cached == old(cached) && expires == old(expires)
      ensures configured && old(cached).Some? && now < old(cached).value.generatedAt + CACHE_TTL ==> r == Success(old(cached).value)
      ensures r.Success? && Some(r.value) != old(cached) ==>
                fetched.Some? && Describes(r.value, now - WINDOW, now, fetched.value.tools, fetched.value.latency, fetched.value.flows)
    {
      if !configured {
        return Failure(Unavailable);
      }
      if cached.Some? && now < expires {
        return Success(cached.value);
      }
      var startedAt := now - WINDOW;
      if fetched.None? {
        return Failure(QueryFailed);
      }
      r := BuildSnapshot(now, startedAt, fetched.value.tools, fetched.value.latency, fetched.value.flows);
      if r.Success? {
        cached := Some(r.value);
        expires := now + CACHE_TTL;
      }
    }
  }
}
