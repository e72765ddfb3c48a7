/**
 * `build_final_report`: what is accepted from each tool, how it is counted, and when the report calls itself complete.
 */
module Report {
  import opened Prelude
  import opened Connectivity
  import opened MergeLaws
  import opened Records
  import opened VulnerabilityMerge
  import Text

  type Tool = Kind

  /** A tool result's status, normalized; anything unknown is a failure. */
  datatype Status = Success | Partial | Failure | Unavailable | Timeout | Skipped

  function NormalizedStatus(raw: string): Status {
    var s := Text.Upper(raw);
    if s == "SUCCESS" then Success
    else if s == "PARTIAL" then Partial
    else if s == "UNAVAILABLE" then Unavailable
    else if s == "TIMEOUT" then Timeout
    else if s == "SKIPPED" then Skipped
    else Failure
  }

  /**
   * A persisted tool result. `vulnerabilities` is `None` when it is not an array; an entry that does not validate as a
   * record is `None` in it.
   */
  datatype Persisted = Persisted(
    status: string, scanId: Option<string>, endpointId: Option<string>,
        vulnerabilities: Option<seq<Option<Vulnerability>>>, fixture: bool)

  datatype Scan = Scan(scanId: string, endpointId: string, expected: seq<Tool>, hasEndpointResult: bool)

  datatype Summary = Summary(status: Status, fixture: bool, accepted: nat, rejected: nat)

  datatype Gap = FixtureEvidence | NotSuccessful(tool: Tool, status: Status) | RejectedRecords(tool: Tool)

  datatype ReportStatus = FixtureReport | SuccessReport | PartialReport | FailedReport

  datatype Report = Report(
    tools: map<Tool, Summary>, merged: seq<Vulnerability>, bySeverity: map<Severity, nat>,
    successful: seq<Tool>, usable: seq<Tool>, degraded: seq<Tool>, fixture: bool, complete: bool, status: ReportStatus,
        gaps: seq<Gap>)

  datatype Built = Done(report: Report) | MissingResults | Unacceptable

  ghost predicate UniqueTools(tools: seq<Tool>) {
    forall i, j | 0 <= i < j < |tools| :: tools[i] != tools[j]
  }

  /** `CloudScanInput` only exists with distinct expected tools, and validated entries can be merged. */
  ghost predicate ValidInput(scan: Scan, results: map<Tool, Persisted>) {
    && scan.expected != [] && UniqueTools(scan.expected)
    && forall tool, k: nat | tool in results && results[tool].vulnerabilities.Some?
       && k < |results[tool].vulnerabilities.value|
                            && results[tool].vulnerabilities.value[k].Some? ::
                               Mergeable(results[tool].vulnerabilities.value[k].value)
  }

  // ---------------------------------------------------------------- what is accepted

  /** A dead-letter summary names no scan; every other result must name this one. */
  predicate Acceptable(p: Persisted, scan: Scan, limit: nat) {
    && ((NormalizedStatus(p.status) == Failure && p.scanId.None?)
        || (OrEmpty(p.scanId) == scan.scanId && OrEmpty(p.endpointId) == scan.endpointId))
    && p.vulnerabilities.Some? && |p.vulnerabilities.value| <= limit
  }

  predicate Usable(status: Status) {
    status == Success || status == Partial
  }

  /** The records that validated, in order. */
  function Valid(items: seq<Option<Vulnerability>>): (r: seq<Vulnerability>)
    ensures |r| <= |items|
  {
    if items == [] then []
    else
      var front, last := Valid(items[..|items| - 1]), items[|items| - 1];
      if last.Some? then front + [last.value] else front
  }

  function AcceptedFrom(p: Persisted): seq<Vulnerability> {
    if p.vulnerabilities.Some? && Usable(NormalizedStatus(p.status)) then Valid(p.vulnerabilities.value) else []
  }

  /** The records of all expected tools, in the order of the tools. */
  function Accepted(expected: seq<Tool>, results: map<Tool, Persisted>): seq<Vulnerability>
    requires forall tool | tool in expected :: tool in results
  {
    if expected == [] then []
    else Accepted(expected[..|expected| - 1], results) + AcceptedFrom(results[expected[|expected| - 1]])
  }

  lemma {:induction false} ValidRecordsAccepted(items: seq<Option<Vulnerability>>)
    requires forall k: nat | k < |items| && items[k].Some? :: Mergeable(items[k].value)
    ensures AllMergeable(Valid(items))
  {
    hide Mergeable;
    if items == [] {
    } else {
      ValidRecordsAccepted(items[..|items| - 1]);
    }
  }

  lemma {:induction false} AcceptedAreValid(scan: Scan, results: map<Tool, Persisted>, n: nat)
    requires ValidInput(scan, results) && n <= |scan.expected| && forall tool | tool in scan.expected[..n] ::
             tool in results
    ensures AllMergeable(Accepted(scan.expected[..n], results))
  {
    hide Mergeable;
    if n == 0 {
    } else {
      assert scan.expected[..n][..n - 1] == scan.expected[..n - 1];
      AcceptedAreValid(scan, results, n - 1);
      var p := results[scan.expected[n - 1]];
      if p.vulnerabilities.Some? { ValidRecordsAccepted(p.vulnerabilities.value); }
    }
  }

  function TotalAccepted(expected: seq<Tool>, tools: map<Tool, Summary>): nat
    requires forall tool | tool in expected :: tool in tools
  {
    if expected == [] then 0
    else TotalAccepted(expected[..|expected| - 1], tools) + tools[expected[|expected| - 1]].accepted
  }

  /** What the summary of a tool counts. */
  ghost predicate Accounts(s: Summary, p: Persisted) {
    && p.vulnerabilities.Some?
    && s.status == NormalizedStatus(p.status) && s.fixture == p.fixture
    && s.accepted + s.rejected == |p.vulnerabilities.value|
    && s.accepted == |AcceptedFrom(p)|
  }

  lemma {:induction false} AcceptedCount(expected: seq<Tool>, tools: map<Tool, Summary>, results: map<Tool, Persisted>)
    requires forall tool | tool in expected :: tool in tools && tool in results && Accounts(tools[tool], results[tool])
    ensures |Accepted(expected, results)| == TotalAccepted(expected, tools)
  {
    if expected == [] {
    } else {
      AcceptedCount(expected[..|expected| - 1], tools, results);
    }
  }

  lemma ToolBound(p: Persisted, scan: Scan, limit: nat)
    requires Acceptable(p, scan, limit)
    ensures |AcceptedFrom(p)| <= limit
  {
  }

  lemma OneMore(n: nat, limit: nat)
    requires n > 0
    ensures n * limit == (n - 1) * limit + limit
  {
  }

  lemma {:induction false} AcceptedBound(scan: Scan, results: map<Tool, Persisted>, limit: nat, n: nat)
    requires n <= |scan.expected| && forall tool | tool in scan.expected[..n] ::
             tool in results && Acceptable(results[tool], scan, limit)
    ensures |Accepted(scan.expected[..n], results)| <= n * limit
  {
    if n == 0 {
    } else {
      hide Acceptable, AcceptedFrom;
      assert scan.expected[..n][..n - 1] == scan.expected[..n - 1];
      AcceptedBound(scan, results, limit, n - 1);
      assert scan.expected[n - 1] in scan.expected[..n];
      ToolBound(results[scan.expected[n - 1]], scan, limit);
      OneMore(n, limit);
    }
  }

  // ---------------------------------------------------------------- severities

  function WithSeverity(items: seq<Vulnerability>, s: Severity): nat {
    if items == [] then 0 else WithSeverity(items[..|items| - 1], s) + if items[|items| - 1].severity == s then 1 else 0
  }

  /** The five buckets of the severity table. */
  ghost predicate Buckets(table: map<Severity, nat>, items: seq<Vulnerability>) {
    table.Keys == {Info, Low, Medium, High, Critical} && forall s | s in table :: table[s] == WithSeverity(items, s)
  }

  lemma {:induction false} BucketsSum(items: seq<Vulnerability>)
    ensures WithSeverity(items, Info) + WithSeverity(items, Low) + WithSeverity(items, Medium)
            + WithSeverity(items, High)
            + WithSeverity(items, Critical) == |items|
  {
    if items == [] {
    } else {
      BucketsSum(items[..|items| - 1]);
    }
  }

  lemma EverySeverity(s: Severity)
    ensures s in {Info, Low, Medium, High, Critical}
  {
    match s
    case _ =>
  }

  method CountSeverities(items: seq<Vulnerability>) returns (table: map<Severity, nat>)
    ensures Buckets(table, items)
    ensures table[Info] + table[Low] + table[Medium] + table[High] + table[Critical] == |items|
  {
    table := map[Critical := 0, High := 0, Medium := 0, Low := 0, Info := 0];
    var i := 0;
    while i < |items|
      invariant 0 <= i <= |items|
      invariant Buckets(table, items[..i])
    {
      assert items[..i + 1][..i] == items[..i];
      EverySeverity(items[i].severity);
      table := table[items[i].severity := table[items[i].severity] + 1];
      i := i + 1;
    }
    assert items[..i] == items;
    BucketsSum(items);
  }

  // ---------------------------------------------------------------- the report

  lemma AtMostTwo(chosen: set<Tool>)
    ensures chosen == (if DepScan in chosen then {DepScan} else {}) + (if Osv in chosen then {Osv} else {})
    ensures |chosen| == (if DepScan in chosen then 1 else 0) + (if Osv in chosen then 1 else 0)
  {
    var a: set<Tool>, b: set<Tool> := if DepScan in chosen then {DepScan} else {}, if Osv in chosen then {Osv} else {};
    forall tool | tool in chosen ensures tool in a + b { match tool case Osv => case DepScan => }
    assert chosen == a + b && a !! b;
  }

  /** `sorted` on tool names. */
  function SortedTools(chosen: set<Tool>): (r: seq<Tool>)
    ensures forall tool :: tool in r <==> tool in chosen
    ensures |r| == |chosen|
  {
    AtMostTwo(chosen);
    (if DepScan in chosen then [DepScan] else []) + (if Osv in chosen then [Osv] else [])
  }

  /** Counts one tool's entries; nothing from a tool that did not deliver is accepted. */
  method CountRecords(items: seq<Option<Vulnerability>>, status: Status) returns (accepted: seq<Vulnerability>,
          rejected: nat)
    ensures accepted == if Usable(status) then Valid(items) else []
    ensures |accepted| + rejected == |items|
  {
    accepted, rejected := [], 0;
    if !Usable(status) {
      rejected := |items|;
      return;
    }
    var i := 0;
    while i < |items|
      invariant 0 <= i <= |items|
      invariant accepted == Valid(items[..i]) && |accepted| + rejected == i
    {
      assert items[..i + 1][..i] == items[..i];
      if items[i].Some? {
        accepted := accepted + [items[i].value];
      } else {
        rejected := rejected + 1;
      }
      i := i + 1;
    }
    assert items[..i] == items;
  }

  function Unsuccessful(degraded: seq<Tool>, tools: map<Tool, Summary>): (r: seq<Gap>)
    requires forall tool | tool in degraded :: tool in tools
    ensures r == [] <==> degraded == []
  {
    if degraded == [] then []
    else [NotSuccessful(degraded[0], tools[degraded[0]].status)] + Unsuccessful(degraded[1..], tools)
  }

  function Rejecting(expected: seq<Tool>, tools: map<Tool, Summary>): (r: seq<Gap>)
    requires forall tool | tool in expected :: tool in tools
    ensures r == [] <==> forall tool | tool in expected :: tools[tool].rejected == 0
  {
    if expected == [] then []
    else
      assert expected == [expected[0]] + expected[1..];
      (if tools[expected[0]].rejected > 0 then [RejectedRecords(expected[0])] else []) + Rejecting(expected[1..], tools)
  }

  /** The gaps a report lists: fixture evidence, tools that did not succeed, and tools with rejected records. */
  function GapsOf(expected: seq<Tool>, degraded: seq<Tool>, tools: map<Tool, Summary>, fixture: bool): seq<Gap>
    requires forall tool | tool in expected || tool in degraded :: tool in tools
  {
    (if fixture then [FixtureEvidence] else []) + Unsuccessful(degraded, tools) + Rejecting(expected, tools)
  }

  /** Every tool delivered, in full and for real. */
  ghost predicate FullyDelivered(scan: Scan, results: map<Tool, Persisted>, fixtureMode: bool) {
    && !fixtureMode
    && forall tool | tool in scan.expected ::
         && tool in results && results[tool].vulnerabilities.Some? && !results[tool].fixture
         && NormalizedStatus(results[tool].status) == Success
         && |AcceptedFrom(results[tool])| == |results[tool].vulnerabilities.value|
  }

  ghost predicate Partition(expected: seq<Tool>, a: seq<Tool>, b: seq<Tool>) {
    && (forall tool :: tool in expected <==> tool in a || tool in b)
    && (forall tool | tool in a :: tool !in b)
    && |a| + |b| == |expected|
  }

  /** What the accounting of a report promises. */
  ghost predicate AddsUp(scan: Scan, results: map<Tool, Persisted>, r: Report)
    requires forall tool | tool in scan.expected :: tool in results
  {
    && r.tools.Keys == (set tool | tool in scan.expected)
    && (forall tool | tool in scan.expected :: Accounts(r.tools[tool], results[tool]))
    && IsMerge(Accepted(scan.expected, results), r.merged)
    && |r.merged| <= TotalAccepted(scan.expected, r.tools)
    && Buckets(r.bySeverity, r.merged)
    && r.bySeverity[Info] + r.bySeverity[Low] + r.bySeverity[Medium] + r.bySeverity[High] + r.bySeverity[Critical]
       == |r.merged|
  }

  lemma ToolCount(tools: seq<Tool>)
    requires UniqueTools(tools)
    ensures |set tool | tool in tools| == |tools|
  {
    if tools == [] {
    } else {
      var front := tools[..|tools| - 1];
      ToolCount(front);
      assert (set tool | tool in tools) == (set tool | tool in front) + {tools[|tools| - 1]};
    }
  }

  lemma TwoTools(tools: seq<Tool>)
    requires UniqueTools(tools)
    ensures |tools| <= 2
  {
    ToolCount(tools);
    AtMostTwo(set tool | tool in tools);
  }

  /** Successful and other tools divide the expected ones. */
  lemma Divide(expected: seq<Tool>, tools: map<Tool, Summary>, successful: set<Tool>, degraded: set<Tool>)
    requires UniqueTools(expected) && tools.Keys == (set tool | tool in expected)
    requires successful == (set tool | tool in tools && tools[tool].status == Success)
    requires degraded == (set tool | tool in expected && tool !in successful)
    ensures Partition(expected, SortedTools(successful), SortedTools(degraded))
  {
    ToolCount(expected);
    assert (set tool | tool in expected) == successful + degraded;
  }

  /** The summaries and records of the first `n` expected tools. */
  ghost predicate Summarized(expected: seq<Tool>, n: nat, results: map<Tool, Persisted>, records: seq<Vulnerability>,
          tools: map<Tool, Summary>)
    requires n <= |expected| && forall tool | tool in expected :: tool in results
  {
    && records == Accepted(expected[..n], results)
    && tools.Keys == (set tool | tool in expected[..n])
    && forall tool | tool in expected[..n] :: Accounts(tools[tool], results[tool])
  }

  lemma SummarizeNext(expected: seq<Tool>, n: nat, results: map<Tool, Persisted>, records: seq<Vulnerability>,
          tools: map<Tool, Summary>, s: Summary)
    requires n < |expected| && (forall tool | tool in expected :: tool in results)
             && Summarized(expected, n, results, records, tools)
    requires Accounts(s, results[expected[n]])
    ensures Summarized(expected, n + 1, results, records + AcceptedFrom(results[expected[n]]), tools[expected[n] := s])
  {
    hide Accounts, AcceptedFrom;
    assert expected[..n + 1][..n] == expected[..n];
    assert expected[..n + 1] == expected[..n] + [expected[n]];
  }

  lemma NothingSummarized(expected: seq<Tool>, results: map<Tool, Persisted>)
    requires forall tool | tool in expected :: tool in results
    ensures Summarized(expected, 0, results, [], map[])
  {
  }

  lemma AcceptableHasRecords(p: Persisted, scan: Scan, limit: nat)
    requires Acceptable(p, scan, limit)
    ensures p.vulnerabilities.Some?
  {
  }

  /** The tools' results, one after the other. */
  method Summarize(scan: Scan, results: map<Tool, Persisted>, limit: nat)
    returns (ok: bool, records: seq<Vulnerability>, tools: map<Tool, Summary>)
    requires forall tool | tool in scan.expected :: tool in results
    ensures ok <==> forall tool | tool in scan.expected :: Acceptable(results[tool], scan, limit)
    ensures ok ==> Summarized(scan.expected, |scan.expected|, results, records, tools)
  {
    hide Acceptable, NormalizedStatus, Summarized;
    ok, records, tools := true, [], map[];
    NothingSummarized(scan.expected, results);
    var i := 0;
    while i < |scan.expected|
      invariant 0 <= i <= |scan.expected| && ok
      invariant forall k | 0 <= k < i :: Acceptable(results[scan.expected[k]], scan, limit)
      invariant Summarized(scan.expected, i, results, records, tools)
    {
      var tool := scan.expected[i];
      var raw := results[tool];
      if !Acceptable(raw, scan, limit) {
        ok := false;
        return;
      }
      AcceptableHasRecords(raw, scan, limit);
      var status := NormalizedStatus(raw.status);
      var accepted, rejected := CountRecords(raw.vulnerabilities.value, status);
      var summary := Summary(status, raw.fixture, |accepted|, rejected);
      SummarizeNext(scan.expected, i, results, records, tools, summary);
      records := records + accepted;
      tools := tools[tool := summary];
      i := i + 1;
    }
  }

  lemma GapsExactly(expected: seq<Tool>, degraded: seq<Tool>, tools: map<Tool, Summary>, fixture: bool)
    requires tools.Keys == (set tool | tool in expected) && forall tool | tool in degraded :: tool in tools
    ensures forall tool | tool in expected :: tool in tools
    ensures GapsOf(expected, degraded, tools, fixture) == [] <==>
              !fixture && degraded == [] && forall tool | tool in tools :: tools[tool].rejected == 0
  {
    assert forall tool | tool in expected :: tool in tools;
  }

  /** Each tool is listed where its status puts it, and its shortcomings are listed as gaps. */
  ghost predicate Placed(r: Report, tool: Tool)
    requires tool in r.tools
  {
    && (tool in r.successful <==> r.tools[tool].status == Success)
    && (tool in r.usable <==> r.tools[tool].status == Success || r.tools[tool].status == Partial)
    && (NotSuccessful(tool, r.tools[tool].status) in r.gaps <==> r.tools[tool].status != Success)
    && (RejectedRecords(tool) in r.gaps <==> r.tools[tool].rejected > 0)
  }

  lemma {:induction false} UnsuccessfulContents(degraded: seq<Tool>, tools: map<Tool, Summary>)
    requires forall tool | tool in degraded :: tool in tools
    ensures forall tool | tool in tools ::
              NotSuccessful(tool, tools[tool].status) in Unsuccessful(degraded, tools) <==> tool in degraded
    ensures forall gap | gap in Unsuccessful(degraded, tools) :: gap.NotSuccessful?
  {
    if degraded == [] {
    } else {
      assert degraded == [degraded[0]] + degraded[1..];
      UnsuccessfulContents(degraded[1..], tools);
    }
  }

  lemma {:induction false} RejectingContents(expected: seq<Tool>, tools: map<Tool, Summary>)
    requires forall tool | tool in expected :: tool in tools
    ensures forall tool | tool in tools ::
              RejectedRecords(tool) in Rejecting(expected, tools) <==> tool in expected && tools[tool].rejected > 0
    ensures forall gap | gap in Rejecting(expected, tools) :: gap.RejectedRecords?
  {
    if expected == [] {
    } else {
      assert expected == [expected[0]] + expected[1..];
      RejectingContents(expected[1..], tools);
    }
  }

  ghost predicate Covers(expected: seq<Tool>, tools: map<Tool, Summary>) {
    tools.Keys == (set tool | tool in expected)
  }

  lemma GapsContents(expected: seq<Tool>, degraded: seq<Tool>, tools: map<Tool, Summary>, fixture: bool)
    requires Covers(expected, tools) && forall tool | tool in degraded :: tool in tools
    ensures forall tool | tool in expected :: tool in tools
    ensures var gaps := GapsOf(expected, degraded, tools, fixture);
            && (FixtureEvidence in gaps <==> fixture)
            && forall tool | tool in expected ::
                 && (NotSuccessful(tool, tools[tool].status) in gaps <==> tool in degraded)
                 && (RejectedRecords(tool) in gaps <==> tools[tool].rejected > 0)
  {
    assert forall tool | tool in expected :: tool in tools;
    UnsuccessfulContents(degraded, tools);
    RejectingContents(expected, tools);
    hide Unsuccessful, Rejecting;
  }

  /** What a report says about its own completeness. */
  ghost predicate SaysSo(scan: Scan, results: map<Tool, Persisted>, fixtureMode: bool, r: Report) {
    && Partition(scan.expected, r.successful, r.degraded)
    && (forall tool | tool in scan.expected :: tool in r.tools && Placed(r, tool))
    && (r.fixture <==> fixtureMode || exists tool :: tool in scan.expected && tool in r.tools && r.tools[tool].fixture)
    && (FixtureEvidence in r.gaps <==> r.fixture) && (r.status == FixtureReport <==> r.fixture)
    && (r.complete <==> r.gaps == [])
    && (r.complete <==> FullyDelivered(scan, results, fixtureMode))
    && (r.status == SuccessReport <==> r.complete)
    && (r.status == FailedReport <==> !r.fixture && r.usable == [] && !scan.hasEndpointResult)
  }

  function WithStatus(tools: map<Tool, Summary>): set<Tool> {
    set tool | tool in tools && tools[tool].status == Success
  }

  function Delivering(tools: map<Tool, Summary>): set<Tool> {
    set tool | tool in tools && Usable(tools[tool].status)
  }

  function Remaining(expected: seq<Tool>, successful: set<Tool>): set<Tool> {
    set tool | tool in expected && tool !in successful
  }

  predicate AnyFixture(tools: map<Tool, Summary>) {
    exists tool | tool in tools :: tools[tool].fixture
  }

  predicate NothingRejected(tools: map<Tool, Summary>) {
    forall tool | tool in tools :: tools[tool].rejected == 0
  }

  function StatusOf(fixture: bool, complete: bool, usable: bool, hasEndpointResult: bool): ReportStatus {
    if fixture then FixtureReport else if complete then SuccessReport else if usable || hasEndpointResult
        then PartialReport else FailedReport
  }

  lemma KnownTools(expected: seq<Tool>, tools: map<Tool, Summary>)
    requires Covers(expected, tools)
    ensures forall tool | tool in expected || tool in SortedTools(Remaining(expected, WithStatus(tools))) ::
            tool in tools
  {
  }

  /** The sets of tools, the gaps and the status, from the summaries. */
  function Concluded(scan: Scan, tools: map<Tool, Summary>, merged: seq<Vulnerability>,
          bySeverity: map<Severity, nat>, fixtureMode: bool): Report
    requires Covers(scan.expected, tools)
  {
    KnownTools(scan.expected, tools);
    var successful, usable, degraded :=
      SortedTools(WithStatus(tools)), SortedTools(Delivering(tools)),
          SortedTools(Remaining(scan.expected, WithStatus(tools)));
    var fixture := fixtureMode || AnyFixture(tools);
    var complete := !fixture && degraded == [] && NothingRejected(tools);
    Report(tools, merged, bySeverity, successful, usable, degraded, fixture, complete,
           StatusOf(fixture, complete, usable != [], scan.hasEndpointResult),
               GapsOf(scan.expected, degraded, tools, fixture))
  }

  lemma CompleteExactly(scan: Scan, results: map<Tool, Persisted>, tools: map<Tool, Summary>, fixtureMode: bool,
          fixture: bool, degraded: seq<Tool>, complete: bool)
    requires tools.Keys == (set tool | tool in scan.expected) && forall tool | tool in scan.expected ::
             tool in results && Accounts(tools[tool], results[tool])
    requires fixture <==> fixtureMode || exists tool :: tool in tools && tools[tool].fixture
    requires forall tool :: tool in degraded <==> tool in scan.expected && tools[tool].status != Success
    requires complete <==> !fixture && degraded == [] && forall tool | tool in tools :: tools[tool].rejected == 0
    ensures complete <==> FullyDelivered(scan, results, fixtureMode)
  {
    hide NormalizedStatus, AcceptedFrom;
    assert degraded == [] <==> forall tool | tool in scan.expected :: tools[tool].status == Success by {
      if degraded != [] { assert degraded[0] in degraded; }
    }
    assert forall tool | tool in scan.expected :: tool in tools;
  }

  lemma SuccessIsUsable(expected: seq<Tool>, tools: map<Tool, Summary>, degraded: seq<Tool>, usable: seq<Tool>,
          complete: bool)
    requires expected != [] && tools.Keys == (set tool | tool in expected)
    requires forall tool :: tool in degraded <==> tool in expected && tools[tool].status != Success
    requires forall tool :: tool in usable <==> tool in tools && Usable(tools[tool].status)
    requires complete ==> degraded == []
    ensures complete ==> usable != []
  {
    if complete {
      assert expected[0] in expected && expected[0] !in degraded;
      assert expected[0] in usable;
    }
  }

  lemma ConcludedSaysSo(scan: Scan, results: map<Tool, Persisted>, tools: map<Tool, Summary>,
          merged: seq<Vulnerability>, bySeverity: map<Severity, nat>,
                        fixtureMode: bool)
    requires scan.expected != [] && UniqueTools(scan.expected) && Covers(scan.expected, tools)
    requires forall tool | tool in scan.expected :: tool in results && Accounts(tools[tool], results[tool])
    ensures var r := Concluded(scan, tools, merged, bySeverity, fixtureMode);
            r.tools == tools && r.merged == merged && r.bySeverity == bySeverity
                && SaysSo(scan, results, fixtureMode, r)
  {
    hide Accounts, FullyDelivered, Partition, GapsOf, SortedTools;
    var r := Concluded(scan, tools, merged, bySeverity, fixtureMode);
    KnownTools(scan.expected, tools);
    Divide(scan.expected, tools, WithStatus(tools), Remaining(scan.expected, WithStatus(tools)));
    GapsExactly(scan.expected, r.degraded, tools, r.fixture);
    GapsContents(scan.expected, r.degraded, tools, r.fixture);
    CompleteExactly(scan, results, tools, fixtureMode, r.fixture, r.degraded, r.complete);
    SuccessIsUsable(scan.expected, tools, r.degraded, r.usable, r.complete);
  }

  lemma BoundTotal(n: nat, limit: nat)
    requires n <= 2 && limit <= 50_000
    ensures n * limit <= MAX_RECORDS
  {
  }

  /** `build_final_report`, for its accounting. */
  method BuildFinalReport(scan: Scan, results: map<Tool, Persisted>, limit: nat,
          fixtureMode: bool) returns (built: Built)
    requires ValidInput(scan, results) && 1 <= limit <= 50_000
    ensures built.MissingResults? <==> exists tool :: tool in scan.expected && tool !in results
    ensures built.Unacceptable? <==>
              (forall tool | tool in scan.expected :: tool in results)
              && (exists tool :: tool in scan.expected && tool in results && !Acceptable(results[tool], scan, limit))
    ensures built.Done? ==> (forall tool | tool in scan.expected :: tool in results)
    ensures built.Done? ==> AddsUp(scan, results, built.report) && SaysSo(scan, results, fixtureMode, built.report)
  {
    hide Acceptable, Mergeable, IsMerge, NormalizedStatus, SaysSo, Accounts, AcceptedFrom, Concluded;
    if exists tool | tool in scan.expected :: tool !in results {
      return MissingResults;
    }
    var ok, records, tools := Summarize(scan, results, limit);
    if !ok {
      return Unacceptable;
    }
    assert scan.expected[..|scan.expected|] == scan.expected;
    AcceptedAreValid(scan, results, |scan.expected|);
    AcceptedBound(scan, results, limit, |scan.expected|);
    TwoTools(scan.expected);
    BoundTotal(|scan.expected|, limit);
    var merged := MergeVulnerabilities(records);
    var bySeverity := CountSeverities(merged.value);
    AcceptedCount(scan.expected, tools, results);
    ConcludedSaysSo(scan, results, tools, merged.value, bySeverity, fixtureMode);
    built := Done(Concluded(scan, tools, merged.value, bySeverity, fixtureMode));
  }
}
