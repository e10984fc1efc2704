/**
 * `henry vacuum`: the models and explores reports, which list what is unused.
 *
 * The reports follow the same two-loop shape as `henry analyze`: a fan-out
 * loop appends one partial row per subject, a resolution loop then fills in
 * the resolved futures. The names each cell lists are joined with line breaks
 * after sorting. Each method is proved equal to a closed-form reference
 * (`ModelsReport`, `ExploresReport`).
 */
module Vacuum {
  import opened Outcomes
  import opened Seqs
  import opened Text
  import opened Looker

  /**
   * `Vacuum.models` submits the model listing at handle 0 and the usage counts
   * at handle 1 before its loop. The listing's outcome is `getModels` of the
   * two filters, the same call `henry analyze` makes synchronously.
   */
  const UsedModelsHandle: nat := 1

  // =====================================================================
  // models

  /** A model once its assertion passes, with the query count looked up under its own name. */
  datatype ModelEntry = ModelEntry(name: string, queryCount: int)

  /** The assertion on the model, then `used_models.result().get(m.name, 0)`. */
  function ModelStep(m: Model, used: Result<map<string, int>>): Result<ModelEntry>
  {
    if m.name.None? then Err(AssertionError)
    else if used.Err? then Err(used.error)
    else Ok(ModelEntry(m.name.value, Get(used.value, m.name.value, 0)))
  }

  function ModelSteps(ms: seq<Model>, used: Result<map<string, int>>): seq<Result<ModelEntry>>
  {
    seq(|ms|, k requires 0 <= k < |ms| => ModelStep(ms[k], used))
  }

  /** The model list and the usage counts first, then one unused-explores future per model. */
  function ModelsBatch(project: Option<string>, model: Option<string>, es: seq<ModelEntry>): seq<Task>
  {
    [GetModels(project, model), UsedModels] + seq(|es|, k requires 0 <= k < |es| => UnusedExplores(es[k].name))
  }

  /** The dict the fan-out loop appends for a model whose future has handle `h`. */
  function PartialModelRow(e: ModelEntry, h: nat): Row
  {
    map["Model" := Concrete(Str(e.name)),
        "Model Query Count" := Concrete(Int(e.queryCount)),
        "future" := Pending(h)]
  }

  const ModelColumns: set<string> := {"Model", "Model Query Count", "Unused Explores"}

  function ModelRow(e: ModelEntry, h: nat, inst: Instance): Result<Row>
  {
    var unused := inst.unusedExplores(h);
    if unused.Err? then Err(unused.error)
    else Ok(map["Model" := Concrete(Str(e.name)),
                "Model Query Count" := Concrete(Int(e.queryCount)),
                "Unused Explores" := Concrete(Str(SortedLines(unused.value)))])
  }

  function ModelRows(es: seq<ModelEntry>, inst: Instance): seq<Result<Row>>
  {
    seq(|es|, k requires 0 <= k < |es| => ModelRow(es[k], 2 + k, inst))
  }

  /** The table `Vacuum.models` returns. */
  function ModelsReport(project: Option<string>, model: Option<string>, inst: Instance): Result<seq<Row>>
  {
    match inst.getModels(project, model)
    case Err(e) => Err(e)
    case Ok(ms) =>
      match Collect(ModelSteps(ms, inst.usedModels(UsedModelsHandle)))
      case Err(e) => Err(e)
      case Ok(es) => Collect(ModelRows(es, inst))
  }

  /** One iteration of the fan-out loop of `Vacuum.models`. */
  method SubmitModel(m: Model, batch: seq<Task>, inst: Instance) returns (r: Result<Row>, batch': seq<Task>)
    ensures ModelStep(m, inst.usedModels(UsedModelsHandle)).Err? ==>
      r == Err(ModelStep(m, inst.usedModels(UsedModelsHandle)).error)
    ensures ModelStep(m, inst.usedModels(UsedModelsHandle)).Ok? ==>
      r == Ok(PartialModelRow(ModelStep(m, inst.usedModels(UsedModelsHandle)).value, |batch|)) &&
      batch' == batch + [UnusedExplores(m.name.value)]
    ensures m.name.None? ==> batch' == batch
    ensures m.name.Some? ==> batch' == batch + [UnusedExplores(m.name.value)]
  {
    batch' := batch;
    if m.name.None? {
      return Err(AssertionError), batch';
    }
    var unusedExplores := |batch'|;
    batch' := batch' + [UnusedExplores(m.name.value)];
    var used := inst.usedModels(UsedModelsHandle);
    if used.Err? {
      return Err(used.error), batch';
    }
    r := Ok(map["Model" := Concrete(Str(m.name.value)),
                "Model Query Count" := Concrete(Int(Get(used.value, m.name.value, 0))),
                "future" := Pending(unusedExplores)]);
  }

  /** The fan-out loop of `Vacuum.models`, after the two first futures are submitted. */
  method FanOutModels(ms: seq<Model>, batch0: seq<Task>, inst: Instance)
    returns (r: Result<seq<Row>>, batch: seq<Task>, ghost es: seq<ModelEntry>)
    requires |batch0| == 2
    ensures Collect(ModelSteps(ms, inst.usedModels(UsedModelsHandle))).Err? <==> r.Err?
    ensures r.Err? ==> r.error == Collect(ModelSteps(ms, inst.usedModels(UsedModelsHandle))).error
    ensures r.Ok? ==> Collect(ModelSteps(ms, inst.usedModels(UsedModelsHandle))) == Ok(es)
    ensures r.Ok? ==> batch == batch0 + seq(|es|, k requires 0 <= k < |es| => UnusedExplores(es[k].name))
    ensures r.Ok? ==> |r.value| == |es|
    ensures r.Ok? ==> forall k :: 0 <= k < |es| ==> r.value[k] == PartialModelRow(es[k], 2 + k)
  {
    var rows: seq<Row> := [];
    batch := batch0;
    es := [];
    var i := 0;
    while i < |ms|
      invariant 0 <= i <= |ms|
      invariant |es| == i && |rows| == i
      invariant forall k :: 0 <= k < i ==> ModelStep(ms[k], inst.usedModels(UsedModelsHandle)) == Ok(es[k])
      invariant batch == batch0 + seq(|es|, k requires 0 <= k < |es| => UnusedExplores(es[k].name))
      invariant forall k :: 0 <= k < i ==> rows[k] == PartialModelRow(es[k], 2 + k)
    {
      var row;
      row, batch := SubmitModel(ms[i], batch, inst);
      if row.Err? {
        CollectFirstErr(ModelSteps(ms, inst.usedModels(UsedModelsHandle)), i);
        return Err(row.error), batch, es;
      }
      ghost var e := ModelStep(ms[i], inst.usedModels(UsedModelsHandle)).value;
      rows := rows + [row.value];
      es := es + [e];
      assert batch == batch0 + seq(|es|, k requires 0 <= k < |es| => UnusedExplores(es[k].name));
      i := i + 1;
    }
    CollectAllOk(ModelSteps(ms, inst.usedModels(UsedModelsHandle)), es);
    r := Ok(rows);
  }

  /** One iteration of the resolution loop of `Vacuum.models`. */
  method ResolveModelRow(row: Row, ghost e: ModelEntry, ghost h: nat, inst: Instance) returns (r: Result<Row>)
    requires row == PartialModelRow(e, h)
    ensures r == ModelRow(e, h, inst)
  {
    var row := row;
    var unused := inst.unusedExplores(row["future"].handle);
    if unused.Err? {
      return Err(unused.error);
    }
    row := row["Unused Explores" := Concrete(Str(Join(Sort(unused.value), "\n")))];
    row := row - {"future"};
    ghost var expected := ModelRow(e, h, inst).value;
    assert row.Keys == expected.Keys;
    assert forall c :: c in row ==> row[c] == expected[c];
    assert row == expected;
    return Ok(row);
  }

  /** The resolution loop of `Vacuum.models`. */
  method ResolveModels(rows: seq<Row>, ghost es: seq<ModelEntry>, inst: Instance) returns (r: Result<seq<Row>>)
    requires |rows| == |es|
    requires forall k :: 0 <= k < |es| ==> rows[k] == PartialModelRow(es[k], 2 + k)
    ensures r == Collect(ModelRows(es, inst))
  {
    var rows := rows;
    var j := 0;
    while j < |rows|
      invariant 0 <= j <= |rows| == |es|
      invariant forall k :: 0 <= k < j ==> ModelRow(es[k], 2 + k, inst) == Ok(rows[k])
      invariant forall k :: j <= k < |rows| ==> rows[k] == PartialModelRow(es[k], 2 + k)
    {
      var resolved := ResolveModelRow(rows[j], es[j], 2 + j, inst);
      if resolved.Err? {
        CollectFirstErr(ModelRows(es, inst), j);
        return Err(resolved.error);
      }
      rows := rows[j := resolved.value];
      j := j + 1;
    }
    CollectAllOk(ModelRows(es, inst), rows);
    r := Ok(rows);
  }

  /** `Vacuum.models`. */
  method Models(project: Option<string>, model: Option<string>, inst: Instance)
    returns (r: Result<seq<Row>>, batch: seq<Task>)
    ensures r == ModelsReport(project, model, inst)
    ensures inst.getModels(project, model).Ok? &&
            Collect(ModelSteps(inst.getModels(project, model).value, inst.usedModels(UsedModelsHandle))).Ok? ==>
      batch == ModelsBatch(project, model, ModelEntries(project, model, inst))
  {
    batch := [GetModels(project, model), UsedModels];
    var allModels := inst.getModels(project, model);
    if allModels.Err? {
      return Err(allModels.error), batch;
    }
    var partial;
    ghost var es;
    partial, batch, es := FanOutModels(allModels.value, batch, inst);
    if partial.Err? {
      return Err(partial.error), batch;
    }
    r := ResolveModels(partial.value, es, inst);
  }

  /** The models the report is about, once the model list has arrived and every assertion passed. */
  function ModelEntries(project: Option<string>, model: Option<string>, inst: Instance): seq<ModelEntry>
    requires inst.getModels(project, model).Ok?
    requires Collect(ModelSteps(inst.getModels(project, model).value, inst.usedModels(UsedModelsHandle))).Ok?
  {
    Collect(ModelSteps(inst.getModels(project, model).value, inst.usedModels(UsedModelsHandle))).value
  }

  /**
   * A finished models table has one row per model of the model list, in
   * order. The query count is looked up under the row's OWN model name, with
   * a default of 0, and Unused Explores lists the row's own future.
   */
  lemma ModelsCells(project: Option<string>, model: Option<string>, inst: Instance, k: nat)
    requires ModelsReport(project, model, inst).Ok?
    requires inst.getModels(project, model).Ok? && k < |inst.getModels(project, model).value|
    ensures |ModelsReport(project, model, inst).value| == |inst.getModels(project, model).value|
    ensures inst.getModels(project, model).value[k].name.Some?
    ensures inst.usedModels(UsedModelsHandle).Ok? && inst.unusedExplores(2 + k).Ok?
    ensures ModelsReport(project, model, inst).value[k].Keys == ModelColumns
    ensures
      var row := ModelsReport(project, model, inst).value[k];
      var name := inst.getModels(project, model).value[k].name.value;
      && Resolved(row)
      && row["Model"] == Concrete(Str(name))
      && row["Model Query Count"] == Concrete(Int(Get(inst.usedModels(UsedModelsHandle).value, name, 0)))
      && row["Unused Explores"] == Concrete(Str(SortedLines(inst.unusedExplores(2 + k).value)))
  {
    var ms := inst.getModels(project, model).value;
    var steps := ModelSteps(ms, inst.usedModels(UsedModelsHandle));
    CollectOkValues(steps);
    var es := Collect(steps).value;
    assert steps[k] == Ok(es[k]);
    CollectOkValues(ModelRows(es, inst));
    assert ModelRows(es, inst)[k] == Ok(ModelsReport(project, model, inst).value[k]);
  }

  /**
   * Unused Explores lists every unused explore of the model, each as often
   * as the future reported it, in ascending order.
   */
  lemma ModelsUnusedExploresListed(project: Option<string>, model: Option<string>, inst: Instance, k: nat)
    requires ModelsReport(project, model, inst).Ok?
    requires inst.getModels(project, model).Ok? && k < |inst.getModels(project, model).value|
    requires inst.unusedExplores(2 + k).Ok? && |inst.unusedExplores(2 + k).value| >= 1
    requires SingleLine(inst.unusedExplores(2 + k).value)
    ensures |ModelsReport(project, model, inst).value| == |inst.getModels(project, model).value|
    ensures ModelsReport(project, model, inst).value[k].Keys == ModelColumns
    ensures ModelsReport(project, model, inst).value[k]["Unused Explores"].Concrete?
    ensures ModelsReport(project, model, inst).value[k]["Unused Explores"].value.Str?
    ensures
      var lines := Split(ModelsReport(project, model, inst).value[k]["Unused Explores"].value.s, '\n');
      Sorted(lines) && multiset(lines) == multiset(inst.unusedExplores(2 + k).value)
  {
    ModelsCells(project, model, inst, k);
    SortedLinesRecover(inst.unusedExplores(2 + k).value);
  }

  /** Once there is a model, a failing usage-count future fails the whole report. */
  lemma ModelsUsageFailure(project: Option<string>, model: Option<string>, inst: Instance)
    requires inst.getModels(project, model).Ok? && |inst.getModels(project, model).value| > 0
    requires inst.getModels(project, model).value[0].name.Some?
    requires inst.usedModels(UsedModelsHandle).Err?
    ensures ModelsReport(project, model, inst) == Err(inst.usedModels(UsedModelsHandle).error)
  {
    var steps := ModelSteps(inst.getModels(project, model).value, inst.usedModels(UsedModelsHandle));
    CollectFirstErr(steps, 0);
  }

  /** With no models the usage counts are never awaited: an empty table even if they fail. */
  lemma ModelsNoModels(project: Option<string>, model: Option<string>, inst: Instance)
    requires inst.getModels(project, model) == Ok([])
    ensures ModelsReport(project, model, inst) == Ok([])
  {
  }

  /** A failing unused-explores future leaves no models table at all. */
  lemma ModelsFailureAborts(project: Option<string>, model: Option<string>, inst: Instance, k: nat)
    requires inst.getModels(project, model).Ok? && k < |inst.getModels(project, model).value|
    requires Collect(ModelSteps(inst.getModels(project, model).value, inst.usedModels(UsedModelsHandle))).Ok?
    requires inst.unusedExplores(2 + k).Err?
    ensures ModelsReport(project, model, inst).Err?
  {
    var steps := ModelSteps(inst.getModels(project, model).value, inst.usedModels(UsedModelsHandle));
    CollectOkValues(steps);
    var rs := ModelRows(ModelEntries(project, model, inst), inst);
    assert rs[k].Err?;
    CollectFailsIffSomeStepFails(rs);
  }

  // =====================================================================
  // explores

  /** An explore once its assertions pass and its field stats have arrived. */
  datatype ExploreEntry = ExploreEntry(name: string, model: string, fieldStats: seq<string>)

  function ExploreStep(x: Explore, inst: Instance): Result<ExploreEntry>
  {
    if x.name.None? || x.modelName.None? then Err(AssertionError)
    else
      var fs := inst.fieldStats(x);
      if fs.Err? then Err(fs.error)
      else Ok(ExploreEntry(x.name.value, x.modelName.value, fs.value))
  }

  function ExploreSteps(xs: seq<Explore>, inst: Instance): seq<Result<ExploreEntry>>
  {
    seq(|xs|, k requires 0 <= k < |xs| => ExploreStep(xs[k], inst))
  }

  /** One join-stats future per explore. */
  function ExploresBatch(es: seq<ExploreEntry>): seq<Task>
  {
    seq(|es|, k requires 0 <= k < |es| => JoinStats(es[k].model, es[k].name, es[k].fieldStats))
  }

  /** The dict the fan-out loop appends for an explore whose future has handle `h`. */
  function PartialExploreRow(e: ExploreEntry, h: nat, inst: Instance): Row
  {
    map["Model" := Concrete(Str(e.model)),
        "Explore" := Concrete(Str(e.name)),
        "Unused Joins" := Pending(h),
        "Unused Fields" := Concrete(Str(SortedLines(inst.filterFields(e.fieldStats))))]
  }

  const ExploreColumns: set<string> := {"Model", "Explore", "Unused Joins", "Unused Fields"}

  function ExploreRow(e: ExploreEntry, h: nat, inst: Instance): Result<Row>
  {
    var join := inst.joinStats(h);
    if join.Err? then Err(join.error)
    else Ok(map["Model" := Concrete(Str(e.model)),
                "Explore" := Concrete(Str(e.name)),
                "Unused Joins" := Concrete(Str(SortedKeyLines(inst.filterJoins(join.value).Keys))),
                "Unused Fields" := Concrete(Str(SortedLines(inst.filterFields(e.fieldStats))))])
  }

  function ExploreRows(es: seq<ExploreEntry>, inst: Instance): seq<Result<Row>>
  {
    seq(|es|, k requires 0 <= k < |es| => ExploreRow(es[k], k, inst))
  }

  /** The table `Vacuum.explores` returns for the explores the instance listed. */
  function ExploresReport(xs: seq<Explore>, inst: Instance): Result<seq<Row>>
  {
    match Collect(ExploreSteps(xs, inst))
    case Err(e) => Err(e)
    case Ok(es) => Collect(ExploreRows(es, inst))
  }

  function ExploreEntries(xs: seq<Explore>, inst: Instance): seq<ExploreEntry>
    requires Collect(ExploreSteps(xs, inst)).Ok?
  {
    Collect(ExploreSteps(xs, inst)).value
  }

  /** One iteration of the fan-out loop of `Vacuum.explores`. */
  method SubmitExplore(x: Explore, batch: seq<Task>, inst: Instance) returns (r: Result<Row>, batch': seq<Task>)
    ensures ExploreStep(x, inst).Err? ==> r == Err(ExploreStep(x, inst).error)
    ensures ExploreStep(x, inst).Ok? ==>
      var e := ExploreStep(x, inst).value;
      r == Ok(PartialExploreRow(e, |batch|, inst)) && batch' == batch + [JoinStats(e.model, e.name, e.fieldStats)]
  {
    batch' := batch;
    if x.name.None? || x.modelName.None? {
      return Err(AssertionError), batch';
    }
    var fieldStats := inst.fieldStats(x);
    if fieldStats.Err? {
      return Err(fieldStats.error), batch';
    }
    var joinStats := |batch'|;
    batch' := batch' + [JoinStats(x.modelName.value, x.name.value, fieldStats.value)];
    r := Ok(map["Model" := Concrete(Str(x.modelName.value)),
                "Explore" := Concrete(Str(x.name.value)),
                "Unused Joins" := Pending(joinStats),
                "Unused Fields" := Concrete(Str(Join(Sort(inst.filterFields(fieldStats.value)), "\n")))]);
  }

  /** The fan-out loop of `Vacuum.explores`. */
  method FanOutExplores(xs: seq<Explore>, inst: Instance)
    returns (r: Result<seq<Row>>, batch: seq<Task>, ghost es: seq<ExploreEntry>)
    ensures Collect(ExploreSteps(xs, inst)).Err? <==> r.Err?
    ensures r.Err? ==> r.error == Collect(ExploreSteps(xs, inst)).error
    ensures r.Ok? ==> Collect(ExploreSteps(xs, inst)) == Ok(es) && batch == ExploresBatch(es)
    ensures r.Ok? ==> |r.value| == |es|
    ensures r.Ok? ==> forall k :: 0 <= k < |es| ==> r.value[k] == PartialExploreRow(es[k], k, inst)
  {
    var rows: seq<Row> := [];
    batch := [];
    es := [];
    var i := 0;
    while i < |xs|
      invariant 0 <= i <= |xs|
      invariant |es| == i && |rows| == i
      invariant forall k :: 0 <= k < i ==> ExploreStep(xs[k], inst) == Ok(es[k])
      invariant batch == ExploresBatch(es)
      invariant forall k :: 0 <= k < i ==> rows[k] == PartialExploreRow(es[k], k, inst)
    {
      var row;
      row, batch := SubmitExplore(xs[i], batch, inst);
      if row.Err? {
        CollectFirstErr(ExploreSteps(xs, inst), i);
        return Err(row.error), batch, es;
      }
      ghost var e := ExploreStep(xs[i], inst).value;
      rows := rows + [row.value];
      es := es + [e];
      assert batch == ExploresBatch(es);
      i := i + 1;
    }
    CollectAllOk(ExploreSteps(xs, inst), es);
    r := Ok(rows);
  }

  /** One iteration of the resolution loop of `Vacuum.explores`. */
  method ResolveExploreRow(row: Row, ghost e: ExploreEntry, ghost h: nat, inst: Instance) returns (r: Result<Row>)
    requires row == PartialExploreRow(e, h, inst)
    ensures r == ExploreRow(e, h, inst)
  {
    var row := row;
    var join := inst.joinStats(row["Unused Joins"].handle);
    if join.Err? {
      return Err(join.error);
    }
    row := row["Unused Joins" := Concrete(Str(Join(SortSet(inst.filterJoins(join.value).Keys), "\n")))];
    ghost var expected := ExploreRow(e, h, inst).value;
    assert row.Keys == expected.Keys;
    assert row == expected;
    return Ok(row);
  }

  /** The resolution loop of `Vacuum.explores`. */
  method ResolveExplores(rows: seq<Row>, ghost es: seq<ExploreEntry>, inst: Instance) returns (r: Result<seq<Row>>)
    requires |rows| == |es|
    requires forall k :: 0 <= k < |es| ==> rows[k] == PartialExploreRow(es[k], k, inst)
    ensures r == Collect(ExploreRows(es, inst))
  {
    var rows := rows;
    var j := 0;
    while j < |rows|
      invariant 0 <= j <= |rows| == |es|
      invariant forall k :: 0 <= k < j ==> ExploreRow(es[k], k, inst) == Ok(rows[k])
      invariant forall k :: j <= k < |rows| ==> rows[k] == PartialExploreRow(es[k], k, inst)
    {
      var resolved := ResolveExploreRow(rows[j], es[j], j, inst);
      if resolved.Err? {
        CollectFirstErr(ExploreRows(es, inst), j);
        return Err(resolved.error);
      }
      rows := rows[j := resolved.value];
      j := j + 1;
    }
    CollectAllOk(ExploreRows(es, inst), rows);
    r := Ok(rows);
  }

  /** `Vacuum.explores`, after the synchronous `get_explores`. */
  method Explores(xs: seq<Explore>, inst: Instance) returns (r: Result<seq<Row>>, batch: seq<Task>)
    ensures r == ExploresReport(xs, inst)
    ensures Collect(ExploreSteps(xs, inst)).Ok? ==> batch == ExploresBatch(ExploreEntries(xs, inst))
  {
    var partial;
    ghost var es;
    partial, batch, es := FanOutExplores(xs, inst);
    if partial.Err? {
      return Err(partial.error), batch;
    }
    r := ResolveExplores(partial.value, es, inst);
  }

  /**
   * A finished explores table has one row per explore, in order, with Model
   * and Explore copied, Unused Fields listing the filtered field stats and
   * Unused Joins the keys of the filtered join stats of the row's own future.
   */
  lemma ExploresCells(xs: seq<Explore>, inst: Instance, k: nat)
    requires ExploresReport(xs, inst).Ok? && k < |xs|
    ensures |ExploresReport(xs, inst).value| == |xs|
    ensures xs[k].name.Some? && xs[k].modelName.Some? && inst.fieldStats(xs[k]).Ok?
    ensures inst.joinStats(k).Ok?
    ensures ExploresReport(xs, inst).value[k].Keys == ExploreColumns
    ensures
      var row := ExploresReport(xs, inst).value[k];
      && Resolved(row)
      && row["Model"] == Concrete(Str(xs[k].modelName.value))
      && row["Explore"] == Concrete(Str(xs[k].name.value))
      && row["Unused Fields"] == Concrete(Str(SortedLines(inst.filterFields(inst.fieldStats(xs[k]).value))))
      && row["Unused Joins"] == Concrete(Str(SortedKeyLines(inst.filterJoins(inst.joinStats(k).value).Keys)))
  {
    var steps := ExploreSteps(xs, inst);
    CollectOkValues(steps);
    var es := Collect(steps).value;
    assert steps[k] == Ok(es[k]);
    CollectOkValues(ExploreRows(es, inst));
    assert ExploreRows(es, inst)[k] == Ok(ExploresReport(xs, inst).value[k]);
  }

  /**
   * Unused Fields lists every name the filter kept, in ascending order, each
   * as often as the filter returned it: exactly once when the filter returns
   * no duplicates.
   */
  lemma ExploresUnusedFieldsListed(xs: seq<Explore>, inst: Instance, k: nat)
    requires ExploresReport(xs, inst).Ok? && k < |xs|
    requires inst.fieldStats(xs[k]).Ok?
    requires var kept := inst.filterFields(inst.fieldStats(xs[k]).value); |kept| >= 1 && SingleLine(kept)
    ensures |ExploresReport(xs, inst).value| == |xs|
    ensures ExploresReport(xs, inst).value[k].Keys == ExploreColumns
    ensures ExploresReport(xs, inst).value[k]["Unused Fields"].Concrete?
    ensures ExploresReport(xs, inst).value[k]["Unused Fields"].value.Str?
    ensures
      var kept := inst.filterFields(inst.fieldStats(xs[k]).value);
      var lines := Split(ExploresReport(xs, inst).value[k]["Unused Fields"].value.s, '\n');
      && Sorted(lines) && multiset(lines) == multiset(kept)
      && (Distinct(kept) ==> forall x :: x in kept ==> multiset(lines)[x] == 1)
  {
    ExploresCells(xs, inst, k);
    var kept := inst.filterFields(inst.fieldStats(xs[k]).value);
    SortedLinesRecover(kept);
    if Distinct(kept) {
      forall x | x in kept ensures multiset(kept)[x] == 1 {
        DistinctOccursOnce(kept, x);
      }
    }
  }

  /** Unused Joins lists each key of the filtered join stats exactly once, in strictly ascending order. */
  lemma ExploresUnusedJoinsListed(xs: seq<Explore>, inst: Instance, k: nat)
    requires ExploresReport(xs, inst).Ok? && k < |xs|
    requires inst.joinStats(k).Ok?
    requires var kept := inst.filterJoins(inst.joinStats(k).value).Keys; kept != {} && forall j :: j in kept ==> '\n' !in j
    ensures |ExploresReport(xs, inst).value| == |xs|
    ensures ExploresReport(xs, inst).value[k].Keys == ExploreColumns
    ensures ExploresReport(xs, inst).value[k]["Unused Joins"].Concrete?
    ensures ExploresReport(xs, inst).value[k]["Unused Joins"].value.Str?
    ensures
      var kept := inst.filterJoins(inst.joinStats(k).value).Keys;
      var lines := Split(ExploresReport(xs, inst).value[k]["Unused Joins"].value.s, '\n');
      && StrictlySorted(lines) && |lines| == |kept|
      && forall x :: x in lines <==> x in kept
  {
    ExploresCells(xs, inst, k);
    SortedKeyLinesRecover(inst.filterJoins(inst.joinStats(k).value).Keys);
  }

  /** Explore `k` submits its join-stats future at handle `k`. */
  lemma ExploresSubmitted(xs: seq<Explore>, inst: Instance, k: nat)
    requires Collect(ExploreSteps(xs, inst)).Ok? && k < |xs|
    ensures xs[k].name.Some? && xs[k].modelName.Some? && inst.fieldStats(xs[k]).Ok?
    ensures |ExploresBatch(ExploreEntries(xs, inst))| == |xs|
    ensures ExploresBatch(ExploreEntries(xs, inst))[k] ==
      JoinStats(xs[k].modelName.value, xs[k].name.value, inst.fieldStats(xs[k]).value)
  {
    CollectOkValues(ExploreSteps(xs, inst));
    assert ExploreSteps(xs, inst)[k] == Ok(ExploreEntries(xs, inst)[k]);
  }

  /** A failing join-stats future leaves no explores table at all. */
  lemma ExploresFailureAborts(xs: seq<Explore>, inst: Instance, k: nat)
    requires Collect(ExploreSteps(xs, inst)).Ok? && k < |xs|
    requires inst.joinStats(k).Err?
    ensures ExploresReport(xs, inst).Err?
  {
    CollectOkValues(ExploreSteps(xs, inst));
    var rs := ExploreRows(ExploreEntries(xs, inst), inst);
    assert rs[k].Err?;
    CollectFailsIffSomeStepFails(rs);
  }

  // =====================================================================
  // run

  /**
   * The table of `Vacuum.run` before it is printed. Any other subcommand
   * leaves `result` unbound, so printing it raises.
   */
  function VacuumReport(input: Input, inst: Instance): Result<seq<Row>>
  {
    if input.subcommand == "models" then ModelsReport(input.project, input.model, inst)
    else if input.subcommand == "explores" then
      (match inst.getExplores(input.model, input.explore)
       case Err(e) => Err(e)
       case Ok(xs) => ExploresReport(xs, inst))
    else Err(UnboundLocalError("result"))
  }

  /** `Vacuum.run`: dispatches on the subcommand. */
  method Run(input: Input, inst: Instance) returns (r: Result<seq<Row>>)
    ensures r == VacuumReport(input, inst)
  {
    if input.subcommand == "models" {
      var batch;
      r, batch := Models(input.project, input.model, inst);
    } else if input.subcommand == "explores" {
      var xs := inst.getExplores(input.model, input.explore);
      if xs.Err? {
        return Err(xs.error);
      }
      var batch;
      r, batch := Explores(xs.value, inst);
    } else {
      r := Err(UnboundLocalError("result"));
    }
  }

  /** Only `models` and `explores` produce a table; anything else fails on the unbound `result`. */
  lemma VacuumUnknownSubcommand(input: Input, inst: Instance)
    ensures VacuumReport(input, inst).Ok? ==> input.subcommand in {"models", "explores"}
    ensures input.subcommand !in {"models", "explores"} ==>
      VacuumReport(input, inst) == Err(UnboundLocalError("result"))
  {
  }
}
