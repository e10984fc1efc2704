/**
 * `henry pulse`: discovering the checks, emitting their results as they
 * complete, and the two checks that assemble their own tables (database
 * connections and enabled legacy features).
 */
module Pulse {
  import opened Outcomes
  import opened Seqs
  import opened Text
  import opened Looker

  const CheckPrefix := "check_"
  const ReservedNames: seq<string> := ["looker__internal__analytics", "looker", "looker__ilooker"]
  const NoConnections := "No connections found."
  const ConnectionsTitle := "Checking connections"
  const LegacyFeaturesTitle := "Checking for enabled legacy features"
  const RunCountField := "history.query_run_count"

  /** What a check returns: a title and the table printed under it. */
  datatype CheckResult = CheckResult(name: string, rows: seq<Row>)

  /**
   * The calls the checks make on the instance. The two futures submitted for
   * the `k`-th kept connection have handles `2k` and `2k + 1`; `decode` is
   * `json.loads` on a query response, and `fill` is `textwrap.fill` at width 100.
   */
  datatype Sdk = Sdk(
    allConnections: Result<seq<Connection>>,
    testConnection: nat -> Result<seq<ConnectionTestResult>>,
    inlineQuery: nat -> Result<string>,
    decode: string -> Result<seq<map<string, Scalar>>>,
    fill: string -> string,
    allLegacyFeatures: Result<seq<LegacyFeature>>)

  // =====================================================================
  // run: discovering and emitting the checks

  /** An entry of `dir(pulse)`: a name and whether the attribute is callable. */
  datatype Attribute = Attribute(name: string, isCallable: bool)

  predicate IsCheck(a: Attribute)
  {
    a.isCallable && StartsWith(a.name, CheckPrefix)
  }

  /** `[func for func in dir(pulse) if callable(...) and func.startswith("check_")]`. */
  function CheckNames(attrs: seq<Attribute>): seq<string>
  {
    if |attrs| == 0 then []
    else (if IsCheck(attrs[0]) then [attrs[0].name] else []) + CheckNames(attrs[1..])
  }

  /** `dir` lists each attribute name once. */
  predicate DistinctNames(attrs: seq<Attribute>)
  {
    forall i, j :: 0 <= i < j < |attrs| ==> attrs[i].name != attrs[j].name
  }

  /** The checks run are exactly the callable attributes whose name starts with `check_`. */
  lemma {:induction false} CheckNamesMembers(attrs: seq<Attribute>)
    ensures forall t :: t in CheckNames(attrs) <==>
      exists i :: 0 <= i < |attrs| && attrs[i].name == t && IsCheck(attrs[i])
  {
    if |attrs| > 0 {
      CheckNamesMembers(attrs[1..]);
      forall t | (exists i :: 0 <= i < |attrs| && attrs[i].name == t && IsCheck(attrs[i]))
        ensures t in CheckNames(attrs)
      {
        var i :| 0 <= i < |attrs| && attrs[i].name == t && IsCheck(attrs[i]);
        if i > 0 {
          assert attrs[1..][i - 1] == attrs[i];
        }
      }
      forall t | t in CheckNames(attrs[1..])
        ensures exists i :: 0 <= i < |attrs| && attrs[i].name == t && IsCheck(attrs[i])
      {
        var i :| 0 <= i < |attrs[1..]| && attrs[1..][i].name == t && IsCheck(attrs[1..][i]);
        assert attrs[i + 1] == attrs[1..][i];
      }
    }
  }

  /** Since `dir` lists each name once, no check is submitted twice. */
  lemma {:induction false} CheckNamesDistinct(attrs: seq<Attribute>)
    requires DistinctNames(attrs)
    ensures Distinct(CheckNames(attrs))
  {
    if |attrs| > 0 {
      var rest := attrs[1..];
      assert DistinctNames(rest) by {
        forall i, j | 0 <= i < j < |rest| ensures rest[i].name != rest[j].name {
          assert rest[i] == attrs[i + 1] && rest[j] == attrs[j + 1];
        }
      }
      CheckNamesDistinct(rest);
      CheckNamesMembers(rest);
      if IsCheck(attrs[0]) {
        forall i | 0 <= i < |rest| ensures rest[i].name != attrs[0].name {
          assert rest[i] == attrs[i + 1];
        }
        assert attrs[0].name !in CheckNames(rest);
        var ts := CheckNames(attrs);
        assert ts == [attrs[0].name] + CheckNames(rest);
        forall i, j | 0 <= i < j < |ts| ensures ts[i] != ts[j] {
          assert ts[j] == CheckNames(rest)[j - 1];
          assert ts[j] in CheckNames(rest);
          if i > 0 {
            assert ts[i] == CheckNames(rest)[i - 1];
          }
        }
      }
    }
  }

  /** One `pool.submit` per check, in the order of `dir`. */
  function RunBatch(tests: seq<string>): seq<Task>
  {
    seq(|tests|, k requires 0 <= k < |tests| => RunCheck(tests[k]))
  }

  /**
   * The order in which `as_completed` yields the futures: every submitted
   * future exactly once.
   */
  predicate IsCompletionOrder(order: seq<nat>, n: nat)
  {
    |order| == n && Distinct(order) && forall i :: 0 <= i < n ==> order[i] < n
  }

  /** One printed result: `Test {position}/{total}: {name}` and its table. */
  datatype Emission = Emission(position: nat, total: nat, result: CheckResult)

  /** The outcome of each future, in completion order. */
  function Finished(order: seq<nat>, outcomes: nat -> Result<CheckResult>): seq<Result<CheckResult>>
  {
    seq(|order|, i requires 0 <= i < |order| => outcomes(order[i]))
  }

  /** How many futures in a row complete successfully before the first failure. */
  function OkPrefix(rs: seq<Result<CheckResult>>): (n: nat)
    ensures n <= |rs|
    ensures forall i :: 0 <= i < n ==> rs[i].Ok?
    ensures n < |rs| ==> rs[n].Err?
  {
    if |rs| == 0 || rs[0].Err? then 0 else 1 + OkPrefix(rs[1..])
  }

  /**
   * `Pulse.run`: submits one future per discovered check, then prints each
   * result as its future completes, numbered from 1. The first failed future
   * re-raises and stops the loop.
   */
  method Run(attrs: seq<Attribute>, order: seq<nat>, outcomes: nat -> Result<CheckResult>)
    returns (batch: seq<Task>, out: seq<Emission>, failure: Option<Error>)
    requires IsCompletionOrder(order, |CheckNames(attrs)|)
    ensures batch == RunBatch(CheckNames(attrs))
    ensures |out| == OkPrefix(Finished(order, outcomes))
    ensures forall i :: 0 <= i < |out| ==>
      outcomes(order[i]).Ok? && out[i] == Emission(i + 1, |CheckNames(attrs)|, outcomes(order[i]).value)
    ensures failure.None? <==> |out| == |order|
    ensures failure.Some? ==> failure == Some(outcomes(order[|out|]).error)
  {
    var tests := CheckNames(attrs);
    batch := RunBatch(tests);
    out := [];
    ghost var finished := Finished(order, outcomes);
    var i := 0;
    while i < |order|
      invariant 0 <= i <= |order| && |out| == i
      invariant forall k :: 0 <= k < i ==> finished[k].Ok?
      invariant forall k :: 0 <= k < i ==>
        outcomes(order[k]).Ok? && out[k] == Emission(k + 1, |tests|, outcomes(order[k]).value)
    {
      var result := outcomes(order[i]);
      if result.Err? {
        OkPrefixAt(finished, i);
        return batch, out, Some(result.error);
      }
      out := out + [Emission(i + 1, |tests|, result.value)];
      i := i + 1;
    }
    OkPrefixAt(finished, i);
    failure := None;
  }

  /** The leading run of successes ends at the first failure, or covers everything. */
  lemma {:induction false} OkPrefixAt(rs: seq<Result<CheckResult>>, i: nat)
    requires i <= |rs|
    requires forall k :: 0 <= k < i ==> rs[k].Ok?
    requires i < |rs| ==> rs[i].Err?
    ensures OkPrefix(rs) == i
  {
    if i > 0 {
      OkPrefixAt(rs[1..], i - 1);
    }
  }

  /** The handles a completion order yields. */
  function Yielded(s: seq<nat>): set<nat>
  {
    if |s| == 0 then {} else {s[0]} + Yielded(s[1..])
  }

  lemma {:induction false} YieldedSize(s: seq<nat>)
    requires Distinct(s)
    ensures |Yielded(s)| == |s|
    ensures forall x: nat :: x in Yielded(s) <==> x in s
  {
    if |s| > 0 {
      var rest := s[1..];
      assert Distinct(rest) by {
        forall i, j | 0 <= i < j < |rest| ensures rest[i] != rest[j] {
          assert rest[i] == s[i + 1] && rest[j] == s[j + 1];
        }
      }
      YieldedSize(rest);
      assert s[0] !in rest by {
        forall i | 0 <= i < |rest| ensures rest[i] != s[0] {
          assert rest[i] == s[i + 1];
        }
      }
      assert s == [s[0]] + rest;
    }
  }

  /** The handles `0 .. n - 1`. */
  function Handles(n: nat): set<nat>
  {
    if n == 0 then {} else Handles(n - 1) + {n - 1}
  }

  lemma {:induction false} HandlesSize(n: nat)
    ensures |Handles(n)| == n
    ensures forall j: nat :: j in Handles(n) <==> j < n
  {
    if n > 0 {
      HandlesSize(n - 1);
      assert n - 1 !in Handles(n - 1);
      forall j: nat ensures j in Handles(n) <==> j < n {
        assert j in Handles(n) <==> j in Handles(n - 1) || j == n - 1;
      }
    }
  }

  /** A completion order yields every future at exactly one position. */
  lemma CompletionCoversAll(order: seq<nat>, n: nat)
    requires IsCompletionOrder(order, n)
    ensures forall j: nat :: j < n ==> j in order
    ensures forall i, i' :: 0 <= i < n && 0 <= i' < n && order[i] == order[i'] ==> i == i'
  {
    var yielded := Yielded(order);
    var all := Handles(n);
    YieldedSize(order);
    HandlesSize(n);
    assert yielded <= all;
    var missing := all - yielded;
    assert yielded + missing == all && yielded !! missing;
    assert |missing| == 0;
    forall j: nat | j < n ensures j in order {
      assert j in all;
      assert j in yielded;
    }
  }

  /**
   * When no check fails, exactly `len(tests)` results are printed, numbered
   * 1 to `len(tests)`, and the result of every submitted check is printed at
   * exactly one position.
   */
  lemma EveryCheckEmittedOnce(order: seq<nat>, n: nat, outcomes: nat -> Result<CheckResult>, out: seq<Emission>)
    requires IsCompletionOrder(order, n)
    requires |out| == n
    requires forall i :: 0 <= i < n ==> outcomes(order[i]).Ok? && out[i] == Emission(i + 1, n, outcomes(order[i]).value)
    ensures forall i :: 0 <= i < n ==> out[i].position == i + 1 && out[i].total == n
    ensures forall j: nat :: j < n ==>
      (outcomes(j).Ok? && exists i :: 0 <= i < n && order[i] == j && out[i].result == outcomes(j).value)
    ensures forall i, i' :: 0 <= i < n && 0 <= i' < n && order[i] == order[i'] ==> i == i'
  {
    CompletionCoversAll(order, n);
    forall j: nat | j < n
      ensures outcomes(j).Ok? && exists i :: 0 <= i < n && order[i] == j && out[i].result == outcomes(j).value
    {
      assert j in order;
      var i :| 0 <= i < n && order[i] == j;
      assert out[i].result == outcomes(j).value;
    }
  }

  // =====================================================================
  // check_db_connections

  /** `c.name not in reserved_names`: a connection without a name is kept. */
  predicate IsUserConnection(c: Connection)
  {
    !(c.name.Some? && c.name.value in ReservedNames)
  }

  /** `list(filter(lambda c: c.name not in reserved_names, ...))`. */
  function KeptConnections(cs: seq<Connection>): seq<Connection>
  {
    Keep(cs, IsUserConnection)
  }

  /**
   * A connection is kept exactly when it is listed and does not carry a
   * reserved name, and the kept ones stay in their relative order.
   */
  lemma KeptConnectionsFilter(cs: seq<Connection>, more: seq<Connection>)
    ensures forall c :: c in KeptConnections(cs) <==>
      c in cs && !(c.name.Some? && c.name.value in ReservedNames)
    ensures KeptConnections(cs + more) == KeptConnections(cs) + KeptConnections(more)
    ensures |KeptConnections(cs)| <= |cs|
  {
    KeepMembers(cs, IsUserConnection);
    KeepAppend(cs, more, IsUserConnection);
    KeepShorter(cs, IsUserConnection);
  }

  /** What the fan-out loop knows about a connection once its assertions pass. */
  datatype ConnectionEntry = ConnectionEntry(name: string, tests: seq<string>)

  /** `assert connection.dialect`, then `assert isinstance(connection.name, str)`. */
  function ConnectionStep(c: Connection): Result<ConnectionEntry>
  {
    if c.dialect.None? || c.name.None? then Err(AssertionError)
    else Ok(ConnectionEntry(c.name.value, c.dialect.value.connectionTests))
  }

  function ConnectionSteps(cs: seq<Connection>): seq<Result<ConnectionEntry>>
  {
    seq(|cs|, k requires 0 <= k < |cs| => ConnectionStep(cs[k]))
  }

  /** Two futures per connection: its connection tests, then its query-run count. */
  function ConnectionsBatch(es: seq<ConnectionEntry>): seq<Task>
    decreases |es|
  {
    if |es| == 0 then []
    else
      var e := es[|es| - 1];
      ConnectionsBatch(es[..|es| - 1]) + [TestConnection(e.name, e.tests), QueryRunCount(e.name)]
  }

  /** The dict the fan-out loop appends for a connection whose futures have handles `h` and `h + 1`. */
  function PartialConnectionRow(e: ConnectionEntry, h: nat): Row
  {
    map["Connection" := Concrete(Str(e.name)),
        "Status" := Pending(h),
        "Query Count" := Pending(h + 1)]
  }

  predicate IsFailedTest(t: ConnectionTestResult)
  {
    t.status == "error"
  }

  /** `[f"- {fill(e.message)}" for e in conn_results]`, the failed tests in their order. */
  function ErrorLines(ts: seq<ConnectionTestResult>, fill: string -> string): seq<string>
  {
    var failed := Keep(ts, IsFailedTest);
    seq(|failed|, i requires 0 <= i < |failed| => "- " + fill(failed[i].message))
  }

  /** The status collapse: "OK", or one line per failed test. */
  function Status(ts: seq<ConnectionTestResult>, fill: string -> string): string
  {
    var lines := ErrorLines(ts, fill);
    if |lines| == 0 then "OK" else Join(lines, "\n")
  }

  /** The status is "OK" exactly when no test result has status "error". */
  lemma StatusOkIff(ts: seq<ConnectionTestResult>, fill: string -> string)
    ensures Status(ts, fill) == "OK" <==> forall i :: 0 <= i < |ts| ==> ts[i].status != "error"
  {
    KeepMembers(ts, IsFailedTest);
    var lines := ErrorLines(ts, fill);
    if |lines| > 0 {
      JoinStartsWithFirst(lines, "\n");
      assert Status(ts, fill)[0] == '-';
      var failed := Keep(ts, IsFailedTest);
      assert failed[0] in failed;
    } else {
      forall i | 0 <= i < |ts| ensures ts[i].status != "error" {
        assert ts[i] in ts;
      }
    }
  }

  /**
   * Otherwise the status joins, with line breaks, one line `- ` + the filled
   * message per failed test, as many lines as there are failed tests, in
   * their original order.
   */
  lemma StatusListsErrors(ts: seq<ConnectionTestResult>, fill: string -> string)
    requires exists i :: 0 <= i < |ts| && ts[i].status == "error"
    ensures |ErrorLines(ts, fill)| == CountWhere(ts, IsFailedTest) >= 1
    ensures Status(ts, fill) == Join(ErrorLines(ts, fill), "\n")
    ensures forall i :: 0 <= i < |ErrorLines(ts, fill)| ==> StartsWith(ErrorLines(ts, fill)[i], "- ")
    ensures forall more: seq<ConnectionTestResult> ::
      ErrorLines(ts + more, fill) == ErrorLines(ts, fill) + ErrorLines(more, fill)
  {
    StatusOkIff(ts, fill);
    CountIsKeptLength(ts, IsFailedTest);
    forall more: seq<ConnectionTestResult>
      ensures ErrorLines(ts + more, fill) == ErrorLines(ts, fill) + ErrorLines(more, fill)
    {
      KeepAppend(ts, more, IsFailedTest);
    }
  }

  /** `json.loads(text)[0]["history.query_run_count"]`. */
  function FirstRunCount(decoded: Result<seq<map<string, Scalar>>>): (r: Result<Scalar>)
    ensures r.Ok? <==> decoded.Ok? && |decoded.value| > 0 && RunCountField in decoded.value[0]
    ensures r.Ok? ==> r.value == decoded.value[0][RunCountField]
    ensures decoded.Ok? && |decoded.value| == 0 ==> r == Err(IndexError)
    ensures decoded.Ok? && |decoded.value| > 0 && RunCountField !in decoded.value[0] ==>
      r == Err(KeyError(RunCountField))
    ensures decoded.Err? ==> r == Err(decoded.error)
  {
    if decoded.Err? then Err(decoded.error)
    else if |decoded.value| == 0 then Err(IndexError)
    else if RunCountField !in decoded.value[0] then Err(KeyError(RunCountField))
    else Ok(decoded.value[0][RunCountField])
  }

  const ConnectionColumns: set<string> := {"Connection", "Status", "Query Count"}

  /** The finished row of a connection: its tests are awaited before its query. */
  function ConnectionRow(e: ConnectionEntry, h: nat, sdk: Sdk): Result<Row>
  {
    var tests := sdk.testConnection(h);
    if tests.Err? then Err(tests.error)
    else
      var text := sdk.inlineQuery(h + 1);
      if text.Err? then Err(text.error)
      else
        var count := FirstRunCount(sdk.decode(text.value));
        if count.Err? then Err(count.error)
        else Ok(map["Connection" := Concrete(Str(e.name)),
                    "Status" := Concrete(Str(Status(tests.value, sdk.fill))),
                    "Query Count" := Concrete(count.value)])
  }

  function ConnectionRows(es: seq<ConnectionEntry>, sdk: Sdk): seq<Result<Row>>
  {
    seq(|es|, k requires 0 <= k < |es| => ConnectionRow(es[k], 2 * k, sdk))
  }

  /** The result `check_db_connections` returns. */
  function ConnectionsReport(sdk: Sdk): Result<CheckResult>
  {
    match sdk.allConnections
    case Err(e) => Err(e)
    case Ok(cs) =>
      var kept := KeptConnections(cs);
      if |kept| == 0 then Err(NotFoundError(NoConnections))
      else
        match Collect(ConnectionSteps(kept))
        case Err(e) => Err(e)
        case Ok(es) =>
          match Collect(ConnectionRows(es, sdk))
          case Err(e) => Err(e)
          case Ok(rows) => Ok(CheckResult(ConnectionsTitle, rows))
  }

  lemma {:induction false} ConnectionsBatchLayout(es: seq<ConnectionEntry>)
    ensures |ConnectionsBatch(es)| == 2 * |es|
    ensures forall k :: 0 <= k < |es| ==>
      ConnectionsBatch(es)[2 * k] == TestConnection(es[k].name, es[k].tests) &&
      ConnectionsBatch(es)[2 * k + 1] == QueryRunCount(es[k].name)
    decreases |es|
  {
    if |es| > 0 {
      var init := es[..|es| - 1];
      ConnectionsBatchLayout(init);
      forall k | 0 <= k < |es|
        ensures ConnectionsBatch(es)[2 * k] == TestConnection(es[k].name, es[k].tests) &&
                ConnectionsBatch(es)[2 * k + 1] == QueryRunCount(es[k].name)
      {
        if k < |init| {
          assert init[k] == es[k];
        }
      }
    }
  }

  /** One iteration of the fan-out loop of `check_db_connections`. */
  method SubmitConnection(c: Connection, batch: seq<Task>) returns (r: Result<Row>, batch': seq<Task>)
    ensures ConnectionStep(c).Err? ==> r == Err(ConnectionStep(c).error)
    ensures ConnectionStep(c).Ok? ==>
      var e := ConnectionStep(c).value;
      r == Ok(PartialConnectionRow(e, |batch|)) &&
      batch' == batch + [TestConnection(e.name, e.tests), QueryRunCount(e.name)]
  {
    batch' := batch;
    if c.dialect.None? || c.name.None? {
      return Err(AssertionError), batch';
    }
    var connTest := |batch'|;
    var queries := connTest + 1;
    batch' := batch' + [TestConnection(c.name.value, c.dialect.value.connectionTests), QueryRunCount(c.name.value)];
    r := Ok(map["Connection" := Concrete(Str(c.name.value)),
                "Status" := Pending(connTest),
                "Query Count" := Pending(queries)]);
  }

  /** Appending a connection's partial row adds its two tasks and keeps every row's handles in step. */
  lemma ConnectionsRowsExtend(rows: seq<Row>, es: seq<ConnectionEntry>, e: ConnectionEntry, row: Row)
    requires |rows| == |es|
    requires forall k :: 0 <= k < |es| ==> rows[k] == PartialConnectionRow(es[k], 2 * k)
    requires row == PartialConnectionRow(e, 2 * |es|)
    ensures ConnectionsBatch(es + [e]) == ConnectionsBatch(es) + [TestConnection(e.name, e.tests), QueryRunCount(e.name)]
    ensures forall k :: 0 <= k < |es| + 1 ==> (rows + [row])[k] == PartialConnectionRow((es + [e])[k], 2 * k)
  {
    assert (es + [e])[..|es|] == es;
    forall k | 0 <= k < |es| + 1 ensures (rows + [row])[k] == PartialConnectionRow((es + [e])[k], 2 * k) {
      if k < |es| {
        assert (rows + [row])[k] == rows[k] && (es + [e])[k] == es[k];
      }
    }
  }

  /** The fan-out loop of `check_db_connections`. */
  method FanOutConnections(cs: seq<Connection>)
    returns (r: Result<seq<Row>>, batch: seq<Task>, ghost es: seq<ConnectionEntry>)
    ensures Collect(ConnectionSteps(cs)).Err? <==> r.Err?
    ensures r.Err? ==> r.error == Collect(ConnectionSteps(cs)).error
    ensures r.Ok? ==> Collect(ConnectionSteps(cs)) == Ok(es) && batch == ConnectionsBatch(es)
    ensures r.Ok? ==> |r.value| == |es|
    ensures r.Ok? ==> forall k :: 0 <= k < |es| ==> r.value[k] == PartialConnectionRow(es[k], 2 * k)
  {
    var rows: seq<Row> := [];
    batch := [];
    es := [];
    var i := 0;
    while i < |cs|
      invariant 0 <= i <= |cs|
      invariant |es| == i && |rows| == i
      invariant forall k :: 0 <= k < i ==> ConnectionStep(cs[k]) == Ok(es[k])
      invariant batch == ConnectionsBatch(es) && |batch| == 2 * i
      invariant forall k :: 0 <= k < i ==> rows[k] == PartialConnectionRow(es[k], 2 * k)
    {
      var row;
      row, batch := SubmitConnection(cs[i], batch);
      if row.Err? {
        CollectFirstErr(ConnectionSteps(cs), i);
        return Err(row.error), batch, es;
      }
      ghost var e := ConnectionStep(cs[i]).value;
      ConnectionsRowsExtend(rows, es, e, row.value);
      rows := rows + [row.value];
      es := es + [e];
      i := i + 1;
    }
    CollectAllOk(ConnectionSteps(cs), es);
    r := Ok(rows);
  }

  /** One iteration of the resolution loop of `check_db_connections`. */
  method ResolveConnectionRow(row: Row, ghost e: ConnectionEntry, ghost h: nat, sdk: Sdk) returns (r: Result<Row>)
    requires row == PartialConnectionRow(e, h)
    ensures r == ConnectionRow(e, h, sdk)
  {
    var row := row;
    var tests := sdk.testConnection(row["Status"].handle);
    if tests.Err? {
      return Err(tests.error);
    }
    var status := Status(tests.value, sdk.fill);
    row := row["Status" := Concrete(Str(status))];
    var text := sdk.inlineQuery(row["Query Count"].handle);
    if text.Err? {
      return Err(text.error);
    }
    var count := FirstRunCount(sdk.decode(text.value));
    if count.Err? {
      return Err(count.error);
    }
    row := row["Query Count" := Concrete(count.value)];
    ghost var expected := ConnectionRow(e, h, sdk).value;
    assert row.Keys == expected.Keys;
    assert row == expected;
    return Ok(row);
  }

  /** The resolution loop of `check_db_connections`. */
  method ResolveConnections(rows: seq<Row>, ghost es: seq<ConnectionEntry>, sdk: Sdk) returns (r: Result<seq<Row>>)
    requires |rows| == |es|
    requires forall k :: 0 <= k < |es| ==> rows[k] == PartialConnectionRow(es[k], 2 * k)
    ensures r == Collect(ConnectionRows(es, sdk))
  {
    var rows := rows;
    var j := 0;
    while j < |rows|
      invariant 0 <= j <= |rows| == |es|
      invariant forall k :: 0 <= k < j ==> ConnectionRow(es[k], 2 * k, sdk) == Ok(rows[k])
      invariant forall k :: j <= k < |rows| ==> rows[k] == PartialConnectionRow(es[k], 2 * k)
    {
      var resolved := ResolveConnectionRow(rows[j], es[j], 2 * j, sdk);
      if resolved.Err? {
        CollectFirstErr(ConnectionRows(es, sdk), j);
        return Err(resolved.error);
      }
      rows := rows[j := resolved.value];
      j := j + 1;
    }
    CollectAllOk(ConnectionRows(es, sdk), rows);
    r := Ok(rows);
  }

  /** `Pulse.check_db_connections`. */
  method CheckDbConnections(sdk: Sdk) returns (r: Result<CheckResult>, batch: seq<Task>)
    ensures r == ConnectionsReport(sdk)
    ensures sdk.allConnections.Err? || |KeptConnections(sdk.allConnections.value)| == 0 ==> batch == []
    ensures sdk.allConnections.Ok? && |KeptConnections(sdk.allConnections.value)| > 0 &&
            Collect(ConnectionSteps(KeptConnections(sdk.allConnections.value))).Ok? ==>
      batch == ConnectionsBatch(Collect(ConnectionSteps(KeptConnections(sdk.allConnections.value))).value)
  {
    batch := [];
    if sdk.allConnections.Err? {
      return Err(sdk.allConnections.error), batch;
    }
    var dbConnections := KeptConnections(sdk.allConnections.value);
    if |dbConnections| == 0 {
      return Err(NotFoundError(NoConnections)), batch;
    }
    var partial;
    ghost var es;
    partial, batch, es := FanOutConnections(dbConnections);
    if partial.Err? {
      return Err(partial.error), batch;
    }
    var rows := ResolveConnections(partial.value, es, sdk);
    if rows.Err? {
      return Err(rows.error), batch;
    }
    r := Ok(CheckResult(ConnectionsTitle, rows.value));
  }

  /** With no connection left after the reserved names are dropped, the check fails and builds no rows. */
  lemma ConnectionsNoneFound(sdk: Sdk)
    requires sdk.allConnections.Ok?
    requires forall c :: c in sdk.allConnections.value ==> c.name.Some? && c.name.value in ReservedNames
    ensures ConnectionsReport(sdk) == Err(NotFoundError(NoConnections))
  {
    var cs := sdk.allConnections.value;
    KeepNone(cs, IsUserConnection);
  }

  /**
   * A finished connections table has one row per kept connection, in order:
   * Connection is its name, Status the collapse of its own test results and
   * Query Count the run count of the first row of its own query.
   */
  lemma ConnectionsCells(sdk: Sdk, k: nat)
    requires ConnectionsReport(sdk).Ok? && sdk.allConnections.Ok?
    requires k < |KeptConnections(sdk.allConnections.value)|
    ensures ConnectionsReport(sdk).value.name == ConnectionsTitle
    ensures |ConnectionsReport(sdk).value.rows| == |KeptConnections(sdk.allConnections.value)|
    ensures KeptConnections(sdk.allConnections.value)[k].name.Some?
    ensures sdk.testConnection(2 * k).Ok? && sdk.inlineQuery(2 * k + 1).Ok?
    ensures FirstRunCount(sdk.decode(sdk.inlineQuery(2 * k + 1).value)).Ok?
    ensures ConnectionsReport(sdk).value.rows[k].Keys == ConnectionColumns
    ensures
      var row := ConnectionsReport(sdk).value.rows[k];
      && Resolved(row)
      && row["Connection"] == Concrete(Str(KeptConnections(sdk.allConnections.value)[k].name.value))
      && row["Status"] == Concrete(Str(Status(sdk.testConnection(2 * k).value, sdk.fill)))
      && row["Query Count"] == Concrete(FirstRunCount(sdk.decode(sdk.inlineQuery(2 * k + 1).value)).value)
  {
    var kept := KeptConnections(sdk.allConnections.value);
    var steps := ConnectionSteps(kept);
    CollectOkValues(steps);
    var es := Collect(steps).value;
    assert steps[k] == Ok(es[k]);
    CollectOkValues(ConnectionRows(es, sdk));
    assert ConnectionRows(es, sdk)[k] == Ok(ConnectionsReport(sdk).value.rows[k]);
  }

  /** Kept connection `k` submits its tests at handle `2k` and its query at `2k + 1`. */
  lemma ConnectionsSubmitted(cs: seq<Connection>, k: nat)
    requires Collect(ConnectionSteps(cs)).Ok? && k < |cs|
    ensures cs[k].name.Some? && cs[k].dialect.Some?
    ensures |ConnectionsBatch(Collect(ConnectionSteps(cs)).value)| == 2 * |cs|
    ensures ConnectionsBatch(Collect(ConnectionSteps(cs)).value)[2 * k] ==
      TestConnection(cs[k].name.value, cs[k].dialect.value.connectionTests)
    ensures ConnectionsBatch(Collect(ConnectionSteps(cs)).value)[2 * k + 1] == QueryRunCount(cs[k].name.value)
  {
    CollectOkValues(ConnectionSteps(cs));
    var es := Collect(ConnectionSteps(cs)).value;
    assert ConnectionSteps(cs)[k] == Ok(es[k]);
    ConnectionsBatchLayout(es);
  }

  /** A single failing future or an unusable query response for any connection fails the whole check. */
  lemma ConnectionsFailureAborts(sdk: Sdk, k: nat)
    requires sdk.allConnections.Ok?
    requires Collect(ConnectionSteps(KeptConnections(sdk.allConnections.value))).Ok?
    requires k < |KeptConnections(sdk.allConnections.value)|
    requires sdk.testConnection(2 * k).Err? || sdk.inlineQuery(2 * k + 1).Err? ||
             FirstRunCount(sdk.decode(sdk.inlineQuery(2 * k + 1).value)).Err?
    ensures ConnectionsReport(sdk).Err?
  {
    var steps := ConnectionSteps(KeptConnections(sdk.allConnections.value));
    CollectOkValues(steps);
    var rs := ConnectionRows(Collect(steps).value, sdk);
    assert rs[k].Err?;
    CollectFailsIffSomeStepFails(rs);
  }

  // =====================================================================
  // check_legacy_features

  predicate IsEnabled(f: LegacyFeature)
  {
    f.enabled
  }

  /** `[{"Feature": f.name} for f in filter(lambda f: f.enabled, features)]`. */
  function FeatureRows(fs: seq<LegacyFeature>): seq<Row>
  {
    var enabled := Keep(fs, IsEnabled);
    seq(|enabled|, i requires 0 <= i < |enabled| => map["Feature" := Concrete(Str(enabled[i].name))])
  }

  /** `Pulse.check_legacy_features`. */
  function LegacyFeatures(sdk: Sdk): Result<CheckResult>
  {
    match sdk.allLegacyFeatures
    case Err(e) => Err(e)
    case Ok(fs) => Ok(CheckResult(LegacyFeaturesTitle, FeatureRows(fs)))
  }

  /** One row per enabled feature. */
  lemma FeatureRowsCount(fs: seq<LegacyFeature>)
    ensures |FeatureRows(fs)| == CountWhere(fs, IsEnabled)
  {
    CountIsKeptLength(fs, IsEnabled);
  }

  /** Every enabled feature has its `{"Feature": name}` row. */
  lemma FeatureRowsListEnabled(fs: seq<LegacyFeature>)
    ensures forall f :: f in fs && f.enabled ==> map["Feature" := Concrete(Str(f.name))] in FeatureRows(fs)
  {
    var enabled := Keep(fs, IsEnabled);
    KeepMembers(fs, IsEnabled);
    forall f | f in fs && f.enabled ensures map["Feature" := Concrete(Str(f.name))] in FeatureRows(fs) {
      assert f in enabled;
      var i :| 0 <= i < |enabled| && enabled[i] == f;
      assert FeatureRows(fs)[i] == map["Feature" := Concrete(Str(f.name))];
    }
  }

  /** Every row names an enabled feature: a disabled one never appears. */
  lemma FeatureRowsOnlyEnabled(fs: seq<LegacyFeature>)
    ensures forall row :: row in FeatureRows(fs) ==>
      exists f :: f in fs && f.enabled && row == map["Feature" := Concrete(Str(f.name))]
  {
    var enabled := Keep(fs, IsEnabled);
    KeepMembers(fs, IsEnabled);
    forall row | row in FeatureRows(fs)
      ensures exists f :: f in fs && f.enabled && row == map["Feature" := Concrete(Str(f.name))]
    {
      var i :| 0 <= i < |FeatureRows(fs)| && FeatureRows(fs)[i] == row;
      var f := enabled[i];
      assert f in enabled;
      assert f in fs && IsEnabled(f);
      assert row == map["Feature" := Concrete(Str(f.name))];
    }
  }

  /** The rows keep the order in which the instance listed the features. */
  lemma FeatureRowsInOrder(fs: seq<LegacyFeature>, more: seq<LegacyFeature>)
    ensures FeatureRows(fs + more) == FeatureRows(fs) + FeatureRows(more)
  {
    KeepAppend(fs, more, IsEnabled);
  }

  /** The legacy-features check keeps its title and fails only when the listing call fails. */
  lemma LegacyFeaturesResult(sdk: Sdk)
    ensures LegacyFeatures(sdk).Ok? <==> sdk.allLegacyFeatures.Ok?
    ensures sdk.allLegacyFeatures.Ok? ==>
      LegacyFeatures(sdk).value.name == LegacyFeaturesTitle &&
      |LegacyFeatures(sdk).value.rows| == CountWhere(sdk.allLegacyFeatures.value, IsEnabled)
  {
    if sdk.allLegacyFeatures.Ok? {
      FeatureRowsCount(sdk.allLegacyFeatures.value);
    }
  }
}
