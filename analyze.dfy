/**
 * `henry analyze`: the projects, models and explores reports.
 *
 * Each report is one method with the two loops of the source: a fan-out loop
 * that appends one partial row per subject (some cells copied, some computed
 * on the spot, some holding the handle of a submitted future) and a
 * resolution loop that replaces every handle by its resolved value, derives
 * the counts and deletes the helper keys. Each method is proved equal to a
 * closed-form reference (`ProjectsReport`, `ModelsReport`, `ExploresReport`)
 * whose properties are proved as lemmas.
 */
module Analyze {
  import opened Outcomes
  import opened Seqs
  import opened Text
  import opened Looker

  const UsageMessage := "Please specify one of 'projects', 'models' or 'explores'"
  const BareMarker := "/bare_models/"
  const BareRepoStatus := "Bare repo, no tests required"

  // =====================================================================
  // projects

  /** What the fan-out loop knows about a project once its checks pass. */
  datatype ProjectEntry = ProjectEntry(
    name: string, id: Option<string>, mode: string, validationRequired: bool, bare: bool)

  /** The assertions on a project, then the bare-repository test on its remote URL. */
  function ProjectStep(p: Project): Result<ProjectEntry>
  {
    if p.name.None? || p.pullRequestMode.None? || p.validationRequired.None? then Err(AssertionError)
    else if p.gitRemoteUrl.None? then Err(TypeError)
    else Ok(ProjectEntry(p.name.value, p.id, p.pullRequestMode.value, p.validationRequired.value,
                         Contains(p.gitRemoteUrl.value, BareMarker)))
  }

  function ProjectSteps(ps: seq<Project>): seq<Result<ProjectEntry>>
  {
    seq(|ps|, k requires 0 <= k < |ps| => ProjectStep(ps[k]))
  }

  /** The futures submitted for one project: its files, then (unless bare) its git tests. */
  function ProjectTasks(e: ProjectEntry): seq<Task>
  {
    [AllProjectFiles(e.name)] + (if e.bare then [] else [GitConnectionTests(e.id)])
  }

  /** Everything the fan-out loop submits, in submission order. */
  function ProjectsBatch(es: seq<ProjectEntry>): seq<Task>
    decreases |es|
  {
    if |es| == 0 then [] else ProjectsBatch(es[..|es| - 1]) + ProjectTasks(es[|es| - 1])
  }

  /** The handle of project `k`'s file listing; its git tests, if any, come next. */
  function FilesHandle(es: seq<ProjectEntry>, k: nat): nat
    requires k <= |es|
  {
    |ProjectsBatch(es[..k])|
  }

  /** The dict the fan-out loop appends for a project. */
  function PartialProjectRow(e: ProjectEntry, h: nat): Row
  {
    map["Project" := Concrete(Str(e.name)),
        "pending_files" := Pending(h),
        "Git Connection Status" := if e.bare then Concrete(Str(BareRepoStatus)) else Pending(h + 1),
        "git_results_pending" := Concrete(Bool(!e.bare)),
        "PR Mode" := Concrete(Str(e.mode)),
        "Is Validation Required" := Concrete(Bool(e.validationRequired))]
  }

  predicate IsModelFile(f: ProjectFile) { f.fileType == Some("model") }

  predicate IsViewFile(f: ProjectFile) { f.fileType == Some("view") }

  /** The columns of a finished projects row. */
  const ProjectColumns: set<string> :=
    {"Project", "Git Connection Status", "PR Mode", "Is Validation Required", "# Models", "# View Files"}

  /**
   * The finished row for a project whose file listing has handle `h`: the git
   * status is resolved first (a bare repository has the literal status), then
   * the files are counted by type.
   */
  function ProjectRow(e: ProjectEntry, h: nat, inst: Instance): Result<Row>
  {
    var git := if e.bare then Ok(BareRepoStatus) else inst.gitTests(h + 1);
    if git.Err? then Err(git.error)
    else
      var files := inst.projectFiles(h);
      if files.Err? then Err(files.error)
      else Ok(map["Project" := Concrete(Str(e.name)),
                  "Git Connection Status" := Concrete(Str(git.value)),
                  "PR Mode" := Concrete(Str(e.mode)),
                  "Is Validation Required" := Concrete(Bool(e.validationRequired)),
                  "# Models" := Concrete(Int(CountWhere(files.value, IsModelFile))),
                  "# View Files" := Concrete(Int(CountWhere(files.value, IsViewFile)))])
  }

  function ProjectRows(es: seq<ProjectEntry>, inst: Instance): seq<Result<Row>>
  {
    seq(|es|, k requires 0 <= k < |es| => ProjectRow(es[k], FilesHandle(es, k), inst))
  }

  /** The projects report: the fan-out stops at the first failing project, the resolution at the first failing future. */
  function ProjectsReport(ps: seq<Project>, inst: Instance): Result<seq<Row>>
  {
    match Collect(ProjectSteps(ps))
    case Err(e) => Err(e)
    case Ok(es) => Collect(ProjectRows(es, inst))
  }

  /** One iteration of the resolution loop of `Analyze.projects`. */
  method ResolveProjectRow(row: Row, ghost e: ProjectEntry, ghost h: nat, inst: Instance) returns (r: Result<Row>)
    requires row == PartialProjectRow(e, h)
    ensures r == ProjectRow(e, h, inst)
  {
    var row := row;
    if row["git_results_pending"] == Concrete(Bool(true)) {
      var git := inst.gitTests(row["Git Connection Status"].handle);
      if git.Err? {
        return Err(git.error);
      }
      row := row["Git Connection Status" := Concrete(Str(git.value))];
    }
    row := row - {"git_results_pending"};
    // Both counts read the same future, so one resolution serves both.
    var files := inst.projectFiles(row["pending_files"].handle);
    if files.Err? {
      return Err(files.error);
    }
    row := row["# Models" := Concrete(Int(CountWhere(files.value, IsModelFile)))];
    row := row["# View Files" := Concrete(Int(CountWhere(files.value, IsViewFile)))];
    row := row - {"pending_files"};
    ghost var expected := ProjectRow(e, h, inst).value;
    assert row.Keys == expected.Keys;
    assert forall c :: c in row ==> row[c] == expected[c];
    assert row == expected;
    assert ProjectRow(e, h, inst) == Ok(expected);
    return Ok(row);
  }

  /** Appending a project to the entries leaves the earlier handles where they were. */
  lemma ProjectsBatchExtend(es: seq<ProjectEntry>, e: ProjectEntry)
    ensures ProjectsBatch(es + [e]) == ProjectsBatch(es) + ProjectTasks(e)
    ensures forall k :: 0 <= k <= |es| ==> FilesHandle(es + [e], k) == FilesHandle(es, k)
  {
    assert (es + [e])[..|es|] == es;
    forall k | 0 <= k <= |es| ensures FilesHandle(es + [e], k) == FilesHandle(es, k) {
      assert (es + [e])[..k] == es[..k];
    }
  }

  /** Appending a project's partial row keeps every row's handles pointing at its own tasks. */
  lemma ProjectsRowsExtend(rows: seq<Row>, es: seq<ProjectEntry>, e: ProjectEntry, row: Row)
    requires |rows| == |es|
    requires forall k :: 0 <= k < |es| ==> rows[k] == PartialProjectRow(es[k], FilesHandle(es, k))
    requires row == PartialProjectRow(e, |ProjectsBatch(es)|)
    ensures ProjectsBatch(es + [e]) == ProjectsBatch(es) + ProjectTasks(e)
    ensures forall k :: 0 <= k < |es| + 1 ==>
      (rows + [row])[k] == PartialProjectRow((es + [e])[k], FilesHandle(es + [e], k))
  {
    ProjectsBatchExtend(es, e);
    assert es[..|es|] == es;
    forall k | 0 <= k < |es| + 1
      ensures (rows + [row])[k] == PartialProjectRow((es + [e])[k], FilesHandle(es + [e], k))
    {
      if k < |es| {
        assert (rows + [row])[k] == rows[k] && (es + [e])[k] == es[k];
      }
    }
  }

  /** One iteration of the fan-out loop of `Analyze.projects`. */
  method SubmitProject(p: Project, batch: seq<Task>) returns (r: Result<Row>, batch': seq<Task>)
    ensures ProjectStep(p).Err? ==> r == Err(ProjectStep(p).error)
    ensures ProjectStep(p).Ok? ==>
      r == Ok(PartialProjectRow(ProjectStep(p).value, |batch|)) &&
      batch' == batch + ProjectTasks(ProjectStep(p).value)
  {
    batch' := batch;
    if p.name.None? || p.pullRequestMode.None? || p.validationRequired.None? {
      return Err(AssertionError), batch';
    }
    var filesHandle := |batch'|;
    batch' := batch' + [AllProjectFiles(p.name.value)];
    if p.gitRemoteUrl.None? {
      return Err(TypeError), batch';
    }
    var status: Cell;
    var pending: bool;
    if Contains(p.gitRemoteUrl.value, BareMarker) {
      status := Concrete(Str(BareRepoStatus));
      pending := false;
    } else {
      status := Pending(|batch'|);
      pending := true;
      batch' := batch' + [GitConnectionTests(p.id)];
    }
    r := Ok(map["Project" := Concrete(Str(p.name.value)),
                "pending_files" := Pending(filesHandle),
                "Git Connection Status" := status,
                "git_results_pending" := Concrete(Bool(pending)),
                "PR Mode" := Concrete(Str(p.pullRequestMode.value)),
                "Is Validation Required" := Concrete(Bool(p.validationRequired.value))]);
  }

  /** The entries of a fan-out that got through every project. */
  function ProjectEntries(ps: seq<Project>): seq<ProjectEntry>
    requires Collect(ProjectSteps(ps)).Ok?
  {
    Collect(ProjectSteps(ps)).value
  }

  lemma ProjectEntriesMatch(ps: seq<Project>)
    requires Collect(ProjectSteps(ps)).Ok?
    ensures |ProjectEntries(ps)| == |ps|
    ensures forall k :: 0 <= k < |ps| ==> ProjectStep(ps[k]) == Ok(ProjectEntries(ps)[k])
  {
    CollectOkValues(ProjectSteps(ps));
  }

  predicate IsGitTested(e: ProjectEntry) { !e.bare }

  /** The batch submitted for a prefix of the projects is a prefix of the whole batch. */
  lemma {:induction false} ProjectsBatchPrefix(es: seq<ProjectEntry>, j: nat)
    requires j <= |es|
    ensures |ProjectsBatch(es[..j])| <= |ProjectsBatch(es)|
    ensures ProjectsBatch(es)[..|ProjectsBatch(es[..j])|] == ProjectsBatch(es[..j])
    decreases |es|
  {
    if j == |es| {
      assert es[..j] == es;
    } else {
      var init := es[..|es| - 1];
      assert init[..j] == es[..j];
      ProjectsBatchPrefix(init, j);
    }
  }

  /**
   * One future per project for its files, plus one per project that is not a
   * bare repository for its git tests.
   */
  lemma {:induction false} ProjectsBatchSize(es: seq<ProjectEntry>)
    ensures |ProjectsBatch(es)| == |es| + CountWhere(es, IsGitTested)
    decreases |es|
  {
    if |es| > 0 {
      var init := es[..|es| - 1];
      ProjectsBatchSize(init);
      assert es == init + [es[|es| - 1]];
      CountWhereAppend(init, [es[|es| - 1]], IsGitTested);
    }
  }

  /**
   * Where project `k`'s futures sit in the batch: its file listing at
   * `FilesHandle(es, k)`, then its git tests exactly when it is not bare.
   */
  lemma ProjectsBatchLayout(es: seq<ProjectEntry>, k: nat)
    requires k < |es|
    ensures FilesHandle(es, k + 1) == FilesHandle(es, k) + (if es[k].bare then 1 else 2)
    ensures FilesHandle(es, k + 1) <= |ProjectsBatch(es)|
    ensures ProjectsBatch(es)[FilesHandle(es, k)] == AllProjectFiles(es[k].name)
    ensures !es[k].bare ==> ProjectsBatch(es)[FilesHandle(es, k) + 1] == GitConnectionTests(es[k].id)
  {
    var upto := es[..k + 1];
    assert upto[..k] == es[..k] && upto[k] == es[k];
    var before := ProjectsBatch(es[..k]);
    var through := ProjectsBatch(upto);
    assert through == before + ProjectTasks(es[k]);
    ProjectsBatchPrefix(es, k + 1);
    var whole := ProjectsBatch(es);
    assert whole[..|through|] == through;
    assert whole[|before|] == through[|before|];
    if !es[k].bare {
      assert whole[|before| + 1] == through[|before| + 1];
    }
  }

  /**
   * A finished projects table has one row per project, in order, with exactly
   * the report's columns, no future left in it, and the name, PR mode and
   * validation flag copied from the project.
   */
  lemma ProjectsOneRowPerProject(ps: seq<Project>, inst: Instance)
    requires ProjectsReport(ps, inst).Ok?
    ensures |ProjectsReport(ps, inst).value| == |ps|
    ensures forall k :: 0 <= k < |ps| ==>
      var row := ProjectsReport(ps, inst).value[k];
      && row.Keys == ProjectColumns
      && Resolved(row)
      && ps[k].name.Some? && row["Project"] == Concrete(Str(ps[k].name.value))
      && ps[k].pullRequestMode.Some? && row["PR Mode"] == Concrete(Str(ps[k].pullRequestMode.value))
      && ps[k].validationRequired.Some?
      && row["Is Validation Required"] == Concrete(Bool(ps[k].validationRequired.value))
  {
    ProjectEntriesMatch(ps);
    var es := ProjectEntries(ps);
    CollectOkValues(ProjectRows(es, inst));
    forall k | 0 <= k < |ps|
      ensures
        var row := ProjectsReport(ps, inst).value[k];
        && row.Keys == ProjectColumns
        && Resolved(row)
        && ps[k].name.Some? && row["Project"] == Concrete(Str(ps[k].name.value))
        && ps[k].pullRequestMode.Some? && row["PR Mode"] == Concrete(Str(ps[k].pullRequestMode.value))
        && ps[k].validationRequired.Some?
        && row["Is Validation Required"] == Concrete(Bool(ps[k].validationRequired.value))
    {
      ProjectsRowIs(ps, inst, k);
      ProjectStepShape(ps[k]);
      ProjectRowShape(es[k], FilesHandle(es, k), inst);
    }
  }

  /** A project that passes the assertions yields its name, mode and validation flag. */
  lemma ProjectStepShape(p: Project)
    requires ProjectStep(p).Ok?
    ensures p.name.Some? && p.pullRequestMode.Some? && p.validationRequired.Some?
    ensures ProjectStep(p).value.name == p.name.value
    ensures ProjectStep(p).value.mode == p.pullRequestMode.value
    ensures ProjectStep(p).value.validationRequired == p.validationRequired.value
  {
  }

  /** A finished project row has exactly the report's columns, the copied ones taken from its entry. */
  lemma ProjectRowShape(e: ProjectEntry, h: nat, inst: Instance)
    requires ProjectRow(e, h, inst).Ok?
    ensures
      var row := ProjectRow(e, h, inst).value;
      && row.Keys == ProjectColumns
      && Resolved(row)
      && row["Project"] == Concrete(Str(e.name))
      && row["PR Mode"] == Concrete(Str(e.mode))
      && row["Is Validation Required"] == Concrete(Bool(e.validationRequired))
  {
  }

  /** Row `k` of a finished table is the reference row of project `k`. */
  lemma ProjectsRowIs(ps: seq<Project>, inst: Instance, k: nat)
    requires ProjectsReport(ps, inst).Ok? && k < |ps|
    ensures Collect(ProjectSteps(ps)).Ok? && |ProjectEntries(ps)| == |ps|
    ensures |ProjectsReport(ps, inst).value| == |ps|
    ensures ProjectStep(ps[k]) == Ok(ProjectEntries(ps)[k])
    ensures ProjectRow(ProjectEntries(ps)[k], FilesHandle(ProjectEntries(ps), k), inst)
            == Ok(ProjectsReport(ps, inst).value[k])
  {
    ProjectEntriesMatch(ps);
    CollectOkValues(ProjectRows(ProjectEntries(ps), inst));
  }

  /**
   * The counts of a finished row are taken over the file listing of the
   * future submitted for that project, and never exceed it together.
   */
  lemma ProjectsFileCounts(ps: seq<Project>, inst: Instance, k: nat)
    requires ProjectsReport(ps, inst).Ok? && k < |ps|
    ensures Collect(ProjectSteps(ps)).Ok? && |ProjectEntries(ps)| == |ps| && ps[k].name.Some?
    ensures |ProjectsReport(ps, inst).value| == |ps|
    ensures
      var h := FilesHandle(ProjectEntries(ps), k);
      var row := ProjectsReport(ps, inst).value[k];
      && h < |ProjectsBatch(ProjectEntries(ps))|
      && ProjectsBatch(ProjectEntries(ps))[h] == AllProjectFiles(ps[k].name.value)
      && inst.projectFiles(h).Ok?
      && "# Models" in row && "# View Files" in row
      && row["# Models"] == Concrete(Int(CountWhere(inst.projectFiles(h).value, IsModelFile)))
      && row["# View Files"] == Concrete(Int(CountWhere(inst.projectFiles(h).value, IsViewFile)))
      && CountWhere(inst.projectFiles(h).value, IsModelFile)
         + CountWhere(inst.projectFiles(h).value, IsViewFile) <= |inst.projectFiles(h).value|
  {
    ProjectsRowIs(ps, inst, k);
    var es := ProjectEntries(ps);
    ProjectsBatchLayout(es, k);
    var files := inst.projectFiles(FilesHandle(es, k)).value;
    DisjointCountsBounded(files, IsModelFile, IsViewFile);
  }

  /**
   * A project whose remote URL contains "/bare_models/" gets the literal
   * status and no git-test future; any other gets the result of the git-test
   * future submitted for it, right after its file listing.
   */
  lemma ProjectsGitStatus(ps: seq<Project>, inst: Instance, k: nat)
    requires ProjectsReport(ps, inst).Ok? && k < |ps|
    ensures Collect(ProjectSteps(ps)).Ok? && |ProjectEntries(ps)| == |ps| && ps[k].gitRemoteUrl.Some?
    ensures |ProjectsReport(ps, inst).value| == |ps|
    ensures
      var es := ProjectEntries(ps);
      var h := FilesHandle(es, k);
      var row := ProjectsReport(ps, inst).value[k];
      && "Git Connection Status" in row
      && (Contains(ps[k].gitRemoteUrl.value, BareMarker) ==>
            FilesHandle(es, k + 1) == h + 1
            && row["Git Connection Status"] == Concrete(Str(BareRepoStatus)))
      && (!Contains(ps[k].gitRemoteUrl.value, BareMarker) ==>
            h + 1 < |ProjectsBatch(es)|
            && ProjectsBatch(es)[h + 1] == GitConnectionTests(ps[k].id)
            && inst.gitTests(h + 1).Ok?
            && row["Git Connection Status"] == Concrete(Str(inst.gitTests(h + 1).value)))
  {
    ProjectsRowIs(ps, inst, k);
    ProjectsBatchLayout(ProjectEntries(ps), k);
  }

  /**
   * Failures are not isolated: once the fan-out has got through, a single
   * failing file listing leaves no table at all.
   */
  lemma ProjectsFailureAborts(ps: seq<Project>, inst: Instance, k: nat)
    requires Collect(ProjectSteps(ps)).Ok?
    requires k < |ProjectEntries(ps)|
    requires inst.projectFiles(FilesHandle(ProjectEntries(ps), k)).Err?
    ensures ProjectsReport(ps, inst).Err?
  {
    var rs := ProjectRows(ProjectEntries(ps), inst);
    assert rs[k].Err?;
    CollectFailsIffSomeStepFails(rs);
  }

  /** The fan-out loop of `Analyze.projects`. */
  method FanOutProjects(ps: seq<Project>) returns (r: Result<seq<Row>>, batch: seq<Task>, ghost es: seq<ProjectEntry>)
    ensures Collect(ProjectSteps(ps)).Err? <==> r.Err?
    ensures r.Err? ==> r.error == Collect(ProjectSteps(ps)).error
    ensures r.Ok? ==> Collect(ProjectSteps(ps)) == Ok(es) && batch == ProjectsBatch(es)
    ensures r.Ok? ==> |r.value| == |es|
    ensures r.Ok? ==> forall k :: 0 <= k < |es| ==> r.value[k] == PartialProjectRow(es[k], FilesHandle(es, k))
  {
    var rows: seq<Row> := [];
    batch := [];
    es := [];
    var i := 0;
    while i < |ps|
      invariant 0 <= i <= |ps|
      invariant |es| == i && |rows| == i
      invariant forall k :: 0 <= k < i ==> ProjectStep(ps[k]) == Ok(es[k])
      invariant batch == ProjectsBatch(es)
      invariant forall k :: 0 <= k < i ==> rows[k] == PartialProjectRow(es[k], FilesHandle(es, k))
    {
      var row;
      row, batch := SubmitProject(ps[i], batch);
      if row.Err? {
        CollectFirstErr(ProjectSteps(ps), i);
        return Err(row.error), batch, es;
      }
      ghost var e := ProjectStep(ps[i]).value;
      ProjectsRowsExtend(rows, es, e, row.value);
      rows := rows + [row.value];
      es := es + [e];
      i := i + 1;
    }
    CollectAllOk(ProjectSteps(ps), es);
    r := Ok(rows);
  }

  /** The resolution loop of `Analyze.projects`. */
  method ResolveProjects(rows: seq<Row>, ghost es: seq<ProjectEntry>, inst: Instance) returns (r: Result<seq<Row>>)
    requires |rows| == |es|
    requires forall k :: 0 <= k < |es| ==> rows[k] == PartialProjectRow(es[k], FilesHandle(es, k))
    ensures r == Collect(ProjectRows(es, inst))
  {
    ghost var want := ProjectRows(es, inst);
    var rows := rows;
    var j := 0;
    while j < |rows|
      invariant 0 <= j <= |rows| == |es| == |want|
      invariant forall k :: 0 <= k < j ==> want[k] == Ok(rows[k])
      invariant forall k :: j <= k < |rows| ==> rows[k] == PartialProjectRow(es[k], FilesHandle(es, k))
    {
      var resolved := ResolveProjectRow(rows[j], es[j], FilesHandle(es, j), inst);
      assert resolved == want[j];
      if resolved.Err? {
        CollectFirstErr(want, j);
        return Err(resolved.error);
      }
      rows := rows[j := resolved.value];
      j := j + 1;
    }
    CollectAllOk(want, rows);
    r := Ok(rows);
  }

  /** `Analyze.projects`: fan out, wait for the batch, resolve. */
  method Projects(ps: seq<Project>, inst: Instance) returns (r: Result<seq<Row>>, batch: seq<Task>)
    ensures r == ProjectsReport(ps, inst)
    ensures Collect(ProjectSteps(ps)).Ok? ==> batch == ProjectsBatch(Collect(ProjectSteps(ps)).value)
  {
    var partial;
    ghost var es;
    partial, batch, es := FanOutProjects(ps);
    if partial.Err? {
      return Err(partial.error), batch;
    }
    r := ResolveProjects(partial.value, es, inst);
  }

  // =====================================================================
  // models

  /** What the fan-out loop knows about a model once its assertions pass. */
  datatype ModelEntry = ModelEntry(name: string, project: string, exploreCount: nat)

  function ModelStep(m: Model): Result<ModelEntry>
  {
    if m.name.None? || m.projectName.None? || m.explores.None? then Err(AssertionError)
    else Ok(ModelEntry(m.name.value, m.projectName.value, |m.explores.value|))
  }

  function ModelSteps(ms: seq<Model>): seq<Result<ModelEntry>>
  {
    seq(|ms|, k requires 0 <= k < |ms| => ModelStep(ms[k]))
  }

  /** Two futures per model: its unused explores, then the usage counts of all models. */
  function ModelsBatch(es: seq<ModelEntry>): seq<Task>
    decreases |es|
  {
    if |es| == 0 then [] else ModelsBatch(es[..|es| - 1]) + [UnusedExplores(es[|es| - 1].name), UsedModels]
  }

  /** The dict the fan-out loop appends for a model whose futures have handles `h` and `h + 1`. */
  function PartialModelRow(e: ModelEntry, h: nat): Row
  {
    map["Project" := Concrete(Str(e.project)),
        "Model" := Concrete(Str(e.name)),
        "# Explores" := Concrete(Int(e.exploreCount)),
        "# Unused Explores" := Pending(h),
        "Query Count" := Pending(h + 1)]
  }

  /** `d.get(key) or 0`: a missing key and a count of 0 both give 0. */
  function GetOrZero(d: map<string, int>, key: string): int
  {
    if key in d && d[key] != 0 then d[key] else 0
  }

  /** `d.get(key) or 0` is the lookup with a default of 0. */
  lemma GetOrZeroIsGetDefault(d: map<string, int>, key: string)
    ensures GetOrZero(d, key) == Get(d, key, 0)
    ensures key !in d ==> GetOrZero(d, key) == 0
  {
  }

  const ModelColumns: set<string> := {"Project", "Model", "# Explores", "# Unused Explores", "Query Count"}

  /**
   * The finished row of a model. `name` is the model whose usage is looked
   * up: the resolution loop uses the loop variable of the fan-out loop, which
   * still holds the last model.
   */
  function ModelRow(e: ModelEntry, h: nat, name: string, inst: Instance): Result<Row>
  {
    var unused := inst.unusedExplores(h);
    if unused.Err? then Err(unused.error)
    else
      var usage := inst.usedModels(h + 1);
      if usage.Err? then Err(usage.error)
      else Ok(map["Project" := Concrete(Str(e.project)),
                  "Model" := Concrete(Str(e.name)),
                  "# Explores" := Concrete(Int(e.exploreCount)),
                  "# Unused Explores" := Concrete(Int(|unused.value|)),
                  "Query Count" := Concrete(Int(GetOrZero(usage.value, name)))])
  }

  /** The name left in the loop variable `m` after the fan-out loop. */
  function LastModelName(es: seq<ModelEntry>): string
  {
    if |es| == 0 then "" else es[|es| - 1].name
  }

  function ModelRows(es: seq<ModelEntry>, inst: Instance): seq<Result<Row>>
  {
    seq(|es|, k requires 0 <= k < |es| => ModelRow(es[k], 2 * k, LastModelName(es), inst))
  }

  function ModelsReport(ms: seq<Model>, inst: Instance): Result<seq<Row>>
  {
    match Collect(ModelSteps(ms))
    case Err(e) => Err(e)
    case Ok(es) => Collect(ModelRows(es, inst))
  }

  function ModelEntries(ms: seq<Model>): seq<ModelEntry>
    requires Collect(ModelSteps(ms)).Ok?
  {
    Collect(ModelSteps(ms)).value
  }

  lemma {:induction false} ModelsBatchLayout(es: seq<ModelEntry>)
    ensures |ModelsBatch(es)| == 2 * |es|
    ensures forall k :: 0 <= k < |es| ==>
      ModelsBatch(es)[2 * k] == UnusedExplores(es[k].name) && ModelsBatch(es)[2 * k + 1] == UsedModels
    decreases |es|
  {
    if |es| > 0 {
      var init := es[..|es| - 1];
      ModelsBatchLayout(init);
      forall k | 0 <= k < |es|
        ensures ModelsBatch(es)[2 * k] == UnusedExplores(es[k].name) && ModelsBatch(es)[2 * k + 1] == UsedModels
      {
        if k < |init| {
          assert init[k] == es[k];
        }
      }
    }
  }

  /** Appending a model's partial row keeps the batch and every row's handles in step. */
  lemma ModelsRowsExtend(rows: seq<Row>, es: seq<ModelEntry>, e: ModelEntry, row: Row)
    requires |rows| == |es|
    requires forall k :: 0 <= k < |es| ==> rows[k] == PartialModelRow(es[k], 2 * k)
    requires row == PartialModelRow(e, 2 * |es|)
    ensures ModelsBatch(es + [e]) == ModelsBatch(es) + [UnusedExplores(e.name), UsedModels]
    ensures LastModelName(es + [e]) == e.name
    ensures forall k :: 0 <= k < |es| + 1 ==> (rows + [row])[k] == PartialModelRow((es + [e])[k], 2 * k)
  {
    assert (es + [e])[..|es|] == es;
    forall k | 0 <= k < |es| + 1 ensures (rows + [row])[k] == PartialModelRow((es + [e])[k], 2 * k) {
      if k < |es| {
        assert (rows + [row])[k] == rows[k] && (es + [e])[k] == es[k];
      }
    }
  }

  /** One iteration of the fan-out loop of `Analyze.models`. */
  method SubmitModel(m: Model, batch: seq<Task>) returns (r: Result<Row>, batch': seq<Task>)
    ensures ModelStep(m).Err? ==> r == Err(ModelStep(m).error)
    ensures ModelStep(m).Ok? ==>
      r == Ok(PartialModelRow(ModelStep(m).value, |batch|)) &&
      batch' == batch + [UnusedExplores(ModelStep(m).value.name), UsedModels]
  {
    batch' := batch;
    if m.name.None? || m.projectName.None? || m.explores.None? {
      return Err(AssertionError), batch';
    }
    var unusedEx := |batch'|;
    var queryCount := unusedEx + 1;
    batch' := batch' + [UnusedExplores(m.name.value), UsedModels];
    r := Ok(map["Project" := Concrete(Str(m.projectName.value)),
                "Model" := Concrete(Str(m.name.value)),
                "# Explores" := Concrete(Int(|m.explores.value|)),
                "# Unused Explores" := Pending(unusedEx),
                "Query Count" := Pending(queryCount)]);
  }

  /** The fan-out loop of `Analyze.models`; also returns the name left in `m`. */
  method FanOutModels(ms: seq<Model>)
    returns (r: Result<seq<Row>>, batch: seq<Task>, last: string, ghost es: seq<ModelEntry>)
    ensures Collect(ModelSteps(ms)).Err? <==> r.Err?
    ensures r.Err? ==> r.error == Collect(ModelSteps(ms)).error
    ensures r.Ok? ==> Collect(ModelSteps(ms)) == Ok(es) && batch == ModelsBatch(es) && last == LastModelName(es)
    ensures r.Ok? ==> |r.value| == |es|
    ensures r.Ok? ==> forall k :: 0 <= k < |es| ==> r.value[k] == PartialModelRow(es[k], 2 * k)
  {
    var rows: seq<Row> := [];
    batch := [];
    es := [];
    last := "";
    var i := 0;
    while i < |ms|
      invariant 0 <= i <= |ms|
      invariant |es| == i && |rows| == i
      invariant forall k :: 0 <= k < i ==> ModelStep(ms[k]) == Ok(es[k])
      invariant batch == ModelsBatch(es) && |batch| == 2 * i
      invariant last == LastModelName(es)
      invariant forall k :: 0 <= k < i ==> rows[k] == PartialModelRow(es[k], 2 * k)
    {
      var row;
      row, batch := SubmitModel(ms[i], batch);
      if row.Err? {
        CollectFirstErr(ModelSteps(ms), i);
        return Err(row.error), batch, last, es;
      }
      ghost var e := ModelStep(ms[i]).value;
      ModelsRowsExtend(rows, es, e, row.value);
      last := ms[i].name.value;
      rows := rows + [row.value];
      es := es + [e];
      i := i + 1;
    }
    CollectAllOk(ModelSteps(ms), es);
    r := Ok(rows);
  }

  /** One iteration of the resolution loop of `Analyze.models`. */
  method ResolveModelRow(row: Row, ghost e: ModelEntry, ghost h: nat, last: string, inst: Instance)
    returns (r: Result<Row>)
    requires row == PartialModelRow(e, h)
    ensures r == ModelRow(e, h, last, inst)
  {
    var row := row;
    var unused := inst.unusedExplores(row["# Unused Explores"].handle);
    if unused.Err? {
      return Err(unused.error);
    }
    row := row["# Unused Explores" := Concrete(Int(|unused.value|))];
    var usage := inst.usedModels(row["Query Count"].handle);
    if usage.Err? {
      return Err(usage.error);
    }
    row := row["Query Count" := Concrete(Int(GetOrZero(usage.value, last)))];
    ghost var expected := ModelRow(e, h, last, inst).value;
    assert row.Keys == expected.Keys;
    assert row == expected;
    return Ok(row);
  }

  /** The resolution loop of `Analyze.models`. */
  method ResolveModels(rows: seq<Row>, ghost es: seq<ModelEntry>, last: string, inst: Instance)
    returns (r: Result<seq<Row>>)
    requires |rows| == |es| && last == LastModelName(es)
    requires forall k :: 0 <= k < |es| ==> rows[k] == PartialModelRow(es[k], 2 * k)
    ensures r == Collect(ModelRows(es, inst))
  {
    var rows := rows;
    var j := 0;
    while j < |rows|
      invariant 0 <= j <= |rows| == |es|
      invariant forall k :: 0 <= k < j ==> ModelRow(es[k], 2 * k, last, inst) == Ok(rows[k])
      invariant forall k :: j <= k < |rows| ==> rows[k] == PartialModelRow(es[k], 2 * k)
    {
      var resolved := ResolveModelRow(rows[j], es[j], 2 * j, last, inst);
      if resolved.Err? {
        CollectFirstErr(ModelRows(es, inst), j);
        return Err(resolved.error);
      }
      rows := rows[j := resolved.value];
      j := j + 1;
    }
    CollectAllOk(ModelRows(es, inst), rows);
    r := Ok(rows);
  }

  /** `Analyze.models`. */
  method Models(ms: seq<Model>, inst: Instance) returns (r: Result<seq<Row>>, batch: seq<Task>)
    ensures r == ModelsReport(ms, inst)
    ensures Collect(ModelSteps(ms)).Ok? ==> batch == ModelsBatch(ModelEntries(ms))
  {
    var partial;
    var last;
    ghost var es;
    partial, batch, last, es := FanOutModels(ms);
    if partial.Err? {
      return Err(partial.error), batch;
    }
    r := ResolveModels(partial.value, es, last, inst);
  }

  /** Row `k` of a finished models table is the reference row of model `k`. */
  lemma ModelsRowIs(ms: seq<Model>, inst: Instance, k: nat)
    requires ModelsReport(ms, inst).Ok? && k < |ms|
    ensures Collect(ModelSteps(ms)).Ok? && |ModelEntries(ms)| == |ms|
    ensures |ModelsReport(ms, inst).value| == |ms|
    ensures ModelStep(ms[k]) == Ok(ModelEntries(ms)[k])
    ensures ModelRow(ModelEntries(ms)[k], 2 * k, LastModelName(ModelEntries(ms)), inst)
            == Ok(ModelsReport(ms, inst).value[k])
  {
    CollectOkValues(ModelSteps(ms));
    CollectOkValues(ModelRows(ModelEntries(ms), inst));
  }

  /**
   * A finished models table has one row per model, in order. Project and
   * Model are copied, `# Explores` is the number of the model's explores and
   * `# Unused Explores` the length of the list its own unused-explores future
   * returned. Query Count, however, is looked up under the LAST model's
   * name in every row (`d.get(name) or 0` on that row's usage future).
   */
  lemma ModelsCells(ms: seq<Model>, inst: Instance, k: nat)
    requires ModelsReport(ms, inst).Ok? && k < |ms|
    ensures ms[k].name.Some? && ms[k].projectName.Some? && ms[k].explores.Some?
    ensures ms[|ms| - 1].name.Some?
    ensures |ModelsReport(ms, inst).value| == |ms|
    ensures inst.unusedExplores(2 * k).Ok? && inst.usedModels(2 * k + 1).Ok?
    ensures ModelsReport(ms, inst).value[k].Keys == ModelColumns
    ensures
      var row := ModelsReport(ms, inst).value[k];
      && Resolved(row)
      && row["Project"] == Concrete(Str(ms[k].projectName.value))
      && row["Model"] == Concrete(Str(ms[k].name.value))
      && row["# Explores"] == Concrete(Int(|ms[k].explores.value|))
      && row["# Unused Explores"] == Concrete(Int(|inst.unusedExplores(2 * k).value|))
      && row["Query Count"] == Concrete(Int(GetOrZero(inst.usedModels(2 * k + 1).value, ms[|ms| - 1].name.value)))
  {
    ModelsRowIs(ms, inst, k);
    var es := ModelEntries(ms);
    CollectOkValues(ModelSteps(ms));
    assert ModelSteps(ms)[|ms| - 1] == Ok(es[|ms| - 1]);
    var last := LastModelName(es);
    assert last == ms[|ms| - 1].name.value;
    assert ModelRow(es[k], 2 * k, last, inst) == Ok(ModelsReport(ms, inst).value[k]);
    ModelRowShape(es[k], 2 * k, last, inst);
  }

  /** The shape of one finished model row, in terms of its entry and futures. */
  lemma ModelRowShape(e: ModelEntry, h: nat, name: string, inst: Instance)
    requires ModelRow(e, h, name, inst).Ok?
    ensures inst.unusedExplores(h).Ok? && inst.usedModels(h + 1).Ok?
    ensures
      var row := ModelRow(e, h, name, inst).value;
      && row.Keys == ModelColumns && Resolved(row)
      && row["Project"] == Concrete(Str(e.project))
      && row["Model"] == Concrete(Str(e.name))
      && row["# Explores"] == Concrete(Int(e.exploreCount))
      && row["# Unused Explores"] == Concrete(Int(|inst.unusedExplores(h).value|))
      && row["Query Count"] == Concrete(Int(GetOrZero(inst.usedModels(h + 1).value, name)))
  {
  }

  /** Model `k` submits its unused-explores future at `2k` and a usage future at `2k + 1`. */
  lemma ModelsSubmitted(ms: seq<Model>, k: nat)
    requires Collect(ModelSteps(ms)).Ok? && k < |ms|
    ensures ms[k].name.Some?
    ensures |ModelsBatch(ModelEntries(ms))| == 2 * |ms|
    ensures ModelsBatch(ModelEntries(ms))[2 * k] == UnusedExplores(ms[k].name.value)
    ensures ModelsBatch(ModelEntries(ms))[2 * k + 1] == UsedModels
  {
    CollectOkValues(ModelSteps(ms));
    assert ModelSteps(ms)[k] == Ok(ModelEntries(ms)[k]);
    ModelsBatchLayout(ModelEntries(ms));
  }

  /** A single failing future for any model leaves no models table at all. */
  lemma ModelsFailureAborts(ms: seq<Model>, inst: Instance, k: nat)
    requires Collect(ModelSteps(ms)).Ok? && k < |ms|
    requires inst.unusedExplores(2 * k).Err? || inst.usedModels(2 * k + 1).Err?
    ensures ModelsReport(ms, inst).Err?
  {
    CollectOkValues(ModelSteps(ms));
    var rs := ModelRows(ModelEntries(ms), inst);
    assert rs[k].Err?;
    CollectFailsIffSomeStepFails(rs);
  }

  /**
   * The leak made concrete: two models "a" and "b", every usage future
   * reporting {"a": 5}. The row of "a" shows a Query Count of 0, because it
   * is looked up under "b".
   */
  lemma ModelsQueryCountLeak()
    ensures
      var ms := [Model(Some("a"), Some("p"), Some([])), Model(Some("b"), Some("p"), Some([]))];
      var inst := NoData().(usedModels := _ => Ok(map["a" := 5]));
      && ModelsReport(ms, inst).Ok?
      && |ModelsReport(ms, inst).value| == 2
      && ModelsReport(ms, inst).value[0]["Model"] == Concrete(Str("a"))
      && ModelsReport(ms, inst).value[0]["Query Count"] == Concrete(Int(0))
      && Get(map["a" := 5], "a", 0) == 5
  {
    var ms := [Model(Some("a"), Some("p"), Some([])), Model(Some("b"), Some("p"), Some([]))];
    var inst := NoData().(usedModels := _ => Ok(map["a" := 5]));
    ModelsCells(ms, inst, 0);
    assert ModelStep(ms[0]).Ok? && ModelStep(ms[1]).Ok?;
    CollectAllOk(ModelSteps(ms), [ModelStep(ms[0]).value, ModelStep(ms[1]).value]);
    var es := ModelEntries(ms);
    var rs := ModelRows(es, inst);
    assert rs[0].Ok? && rs[1].Ok?;
    CollectAllOk(rs, [rs[0].value, rs[1].value]);
    ModelsCells(ms, inst, 0);
  }

  // =====================================================================
  // explores

  /** What the fan-out loop knows about an explore once its assertions pass. */
  datatype ExploreEntry = ExploreEntry(
    name: string, model: string, hidden: bool, hasDescription: bool, fieldStats: seq<string>)

  /** `True if e.description else False`: only a non-empty string is truthy. */
  function HasDescription(d: Option<string>): (b: bool)
    ensures b <==> exists s :: d == Some(s) && |s| > 0
  {
    if d.Some? then assert d == Some(d.value); |d.value| > 0 else false
  }

  /** The assertions, then the synchronous field-stats call. */
  function ExploreStep(e: Explore, inst: Instance): Result<ExploreEntry>
  {
    if e.name.None? || e.modelName.None? || e.hidden.None? then Err(AssertionError)
    else
      var fs := inst.fieldStats(e);
      if fs.Err? then Err(fs.error)
      else Ok(ExploreEntry(e.name.value, e.modelName.value, e.hidden.value, HasDescription(e.description), fs.value))
  }

  function ExploreSteps(xs: seq<Explore>, inst: Instance): seq<Result<ExploreEntry>>
  {
    seq(|xs|, k requires 0 <= k < |xs| => ExploreStep(xs[k], inst))
  }

  /** Two futures per explore: its join stats, then its query stats. */
  function ExploresBatch(es: seq<ExploreEntry>): seq<Task>
    decreases |es|
  {
    if |es| == 0 then []
    else
      var e := es[|es| - 1];
      ExploresBatch(es[..|es| - 1]) + [JoinStats(e.model, e.name, e.fieldStats), UsedExplores(e.model, e.name)]
  }

  /** The dict the fan-out loop appends for an explore whose futures have handles `h` and `h + 1`. */
  function PartialExploreRow(e: ExploreEntry, h: nat, inst: Instance): Row
  {
    map["Model" := Concrete(Str(e.model)),
        "Explore" := Concrete(Str(e.name)),
        "Is Hidden" := Concrete(Bool(e.hidden)),
        "Has Description" := Concrete(Bool(e.hasDescription)),
        "# Fields" := Concrete(Int(|e.fieldStats|)),
        "# Unused Fields" := Concrete(Int(|inst.filterFields(e.fieldStats)|)),
        "join_stats" := Pending(h),
        "query_stats" := Pending(h + 1)]
  }

  const ExploreColumns: set<string> :=
    {"Model", "Explore", "Is Hidden", "Has Description", "# Fields", "# Unused Fields",
     "# Joins", "# Unused Joins", "Query Count"}

  /**
   * The finished row of an explore: join stats are awaited before query
   * stats, and the query count is looked up under `name`, the explore left in
   * the loop variable of the fan-out loop.
   */
  function ExploreRow(e: ExploreEntry, h: nat, name: string, inst: Instance): Result<Row>
  {
    var join := inst.joinStats(h);
    if join.Err? then Err(join.error)
    else
      var query := inst.usedExplores(h + 1);
      if query.Err? then Err(query.error)
      else Ok(map["Model" := Concrete(Str(e.model)),
                  "Explore" := Concrete(Str(e.name)),
                  "Is Hidden" := Concrete(Bool(e.hidden)),
                  "Has Description" := Concrete(Bool(e.hasDescription)),
                  "# Fields" := Concrete(Int(|e.fieldStats|)),
                  "# Unused Fields" := Concrete(Int(|inst.filterFields(e.fieldStats)|)),
                  "# Joins" := Concrete(Int(|join.value|)),
                  "# Unused Joins" := Concrete(Int(|inst.filterJoins(join.value)|)),
                  "Query Count" := Concrete(Int(Get(query.value, name, 0)))])
  }

  /** The name left in the loop variable `e` after the fan-out loop. */
  function LastExploreName(es: seq<ExploreEntry>): string
  {
    if |es| == 0 then "" else es[|es| - 1].name
  }

  function ExploreRows(es: seq<ExploreEntry>, inst: Instance): seq<Result<Row>>
  {
    seq(|es|, k requires 0 <= k < |es| => ExploreRow(es[k], 2 * k, LastExploreName(es), inst))
  }

  function ExploresReport(xs: seq<Explore>, inst: Instance): Result<seq<Row>>
  {
    match Collect(ExploreSteps(xs, inst))
    case Err(e) => Err(e)
    case Ok(es) => Collect(ExploreRows(es, inst))
  }

  function ExploreEntries(xs: seq<Explore>, inst: Instance): seq<ExploreEntry>
    requires Collect(ExploreSteps(xs, inst)).Ok?
  {
    Collect(ExploreSteps(xs, inst)).value
  }

  lemma {:induction false} ExploresBatchLayout(es: seq<ExploreEntry>)
    ensures |ExploresBatch(es)| == 2 * |es|
    ensures forall k :: 0 <= k < |es| ==>
      ExploresBatch(es)[2 * k] == JoinStats(es[k].model, es[k].name, es[k].fieldStats) &&
      ExploresBatch(es)[2 * k + 1] == UsedExplores(es[k].model, es[k].name)
    decreases |es|
  {
    if |es| > 0 {
      var init := es[..|es| - 1];
      ExploresBatchLayout(init);
      forall k | 0 <= k < |es|
        ensures ExploresBatch(es)[2 * k] == JoinStats(es[k].model, es[k].name, es[k].fieldStats) &&
                ExploresBatch(es)[2 * k + 1] == UsedExplores(es[k].model, es[k].name)
      {
        if k < |init| {
          assert init[k] == es[k];
        }
      }
    }
  }

  /** Appending an explore's partial row keeps the batch and every row's handles in step. */
  lemma ExploresRowsExtend(rows: seq<Row>, es: seq<ExploreEntry>, e: ExploreEntry, row: Row, inst: Instance)
    requires |rows| == |es|
    requires forall k :: 0 <= k < |es| ==> rows[k] == PartialExploreRow(es[k], 2 * k, inst)
    requires row == PartialExploreRow(e, 2 * |es|, inst)
    ensures ExploresBatch(es + [e]) == ExploresBatch(es) + [JoinStats(e.model, e.name, e.fieldStats), UsedExplores(e.model, e.name)]
    ensures LastExploreName(es + [e]) == e.name
    ensures forall k :: 0 <= k < |es| + 1 ==>
      (rows + [row])[k] == PartialExploreRow((es + [e])[k], 2 * k, inst)
  {
    assert (es + [e])[..|es|] == es;
    forall k | 0 <= k < |es| + 1 ensures (rows + [row])[k] == PartialExploreRow((es + [e])[k], 2 * k, inst) {
      if k < |es| {
        assert (rows + [row])[k] == rows[k] && (es + [e])[k] == es[k];
      }
    }
  }

  /** One iteration of the fan-out loop of `Analyze.explores`. */
  method SubmitExplore(x: Explore, batch: seq<Task>, inst: Instance) returns (r: Result<Row>, batch': seq<Task>)
    ensures ExploreStep(x, inst).Err? ==> r == Err(ExploreStep(x, inst).error)
    ensures ExploreStep(x, inst).Ok? ==>
      var e := ExploreStep(x, inst).value;
      r == Ok(PartialExploreRow(e, |batch|, inst)) &&
      batch' == batch + [JoinStats(e.model, e.name, e.fieldStats), UsedExplores(e.model, e.name)]
  {
    batch' := batch;
    if x.name.None? || x.modelName.None? || x.hidden.None? {
      return Err(AssertionError), batch';
    }
    var fieldStats := inst.fieldStats(x);
    if fieldStats.Err? {
      return Err(fieldStats.error), batch';
    }
    var joinStats := |batch'|;
    var queryStats := joinStats + 1;
    batch' := batch' + [JoinStats(x.modelName.value, x.name.value, fieldStats.value),
                        UsedExplores(x.modelName.value, x.name.value)];
    var hasDescription := if x.description.Some? && x.description.value != "" then true else false;
    r := Ok(map["Model" := Concrete(Str(x.modelName.value)),
                "Explore" := Concrete(Str(x.name.value)),
                "Is Hidden" := Concrete(Bool(x.hidden.value)),
                "Has Description" := Concrete(Bool(hasDescription)),
                "# Fields" := Concrete(Int(|fieldStats.value|)),
                "# Unused Fields" := Concrete(Int(|inst.filterFields(fieldStats.value)|)),
                "join_stats" := Pending(joinStats),
                "query_stats" := Pending(queryStats)]);
  }

  /** The fan-out loop of `Analyze.explores`; also returns the name left in `e`. */
  method FanOutExplores(xs: seq<Explore>, inst: Instance)
    returns (r: Result<seq<Row>>, batch: seq<Task>, last: string, ghost es: seq<ExploreEntry>)
    ensures Collect(ExploreSteps(xs, inst)).Err? <==> r.Err?
    ensures r.Err? ==> r.error == Collect(ExploreSteps(xs, inst)).error
    ensures r.Ok? ==> Collect(ExploreSteps(xs, inst)) == Ok(es) && batch == ExploresBatch(es) && last == LastExploreName(es)
    ensures r.Ok? ==> |r.value| == |es|
    ensures r.Ok? ==> forall k :: 0 <= k < |es| ==> r.value[k] == PartialExploreRow(es[k], 2 * k, inst)
  {
    var rows: seq<Row> := [];
    batch := [];
    es := [];
    last := "";
    var i := 0;
    while i < |xs|
      invariant 0 <= i <= |xs|
      invariant |es| == i && |rows| == i
      invariant forall k :: 0 <= k < i ==> ExploreStep(xs[k], inst) == Ok(es[k])
      invariant batch == ExploresBatch(es) && |batch| == 2 * i
      invariant last == LastExploreName(es)
      invariant forall k :: 0 <= k < i ==> rows[k] == PartialExploreRow(es[k], 2 * k, inst)
    {
      var row;
      row, batch := SubmitExplore(xs[i], batch, inst);
      if row.Err? {
        CollectFirstErr(ExploreSteps(xs, inst), i);
        return Err(row.error), batch, last, es;
      }
      ghost var e := ExploreStep(xs[i], inst).value;
      ExploresRowsExtend(rows, es, e, row.value, inst);
      last := xs[i].name.value;
      rows := rows + [row.value];
      es := es + [e];
      i := i + 1;
    }
    CollectAllOk(ExploreSteps(xs, inst), es);
    r := Ok(rows);
  }

  /** One iteration of the resolution loop of `Analyze.explores`. */
  method ResolveExploreRow(row: Row, ghost e: ExploreEntry, ghost h: nat, last: string, inst: Instance)
    returns (r: Result<Row>)
    requires row == PartialExploreRow(e, h, inst)
    ensures r == ExploreRow(e, h, last, inst)
  {
    var row := row;
    var joinResult := inst.joinStats(row["join_stats"].handle);
    if joinResult.Err? {
      return Err(joinResult.error);
    }
    var queryResult := inst.usedExplores(row["query_stats"].handle);
    if queryResult.Err? {
      return Err(queryResult.error);
    }
    row := row["# Joins" := Concrete(Int(|joinResult.value|))];
    row := row["# Unused Joins" := Concrete(Int(|inst.filterJoins(joinResult.value)|))];
    row := row["Query Count" := Concrete(Int(Get(queryResult.value, last, 0)))];
    row := row - {"join_stats"};
    row := row - {"query_stats"};
    ghost var expected := ExploreRow(e, h, last, inst).value;
    assert row.Keys == expected.Keys;
    assert forall c :: c in row ==> row[c] == expected[c];
    assert row == expected;
    return Ok(row);
  }

  /** The resolution loop of `Analyze.explores`. */
  method ResolveExplores(rows: seq<Row>, ghost es: seq<ExploreEntry>, last: string, inst: Instance)
    returns (r: Result<seq<Row>>)
    requires |rows| == |es| && last == LastExploreName(es)
    requires forall k :: 0 <= k < |es| ==> rows[k] == PartialExploreRow(es[k], 2 * k, inst)
    ensures r == Collect(ExploreRows(es, inst))
  {
    var rows := rows;
    var j := 0;
    while j < |rows|
      invariant 0 <= j <= |rows| == |es|
      invariant forall k :: 0 <= k < j ==> ExploreRow(es[k], 2 * k, last, inst) == Ok(rows[k])
      invariant forall k :: j <= k < |rows| ==> rows[k] == PartialExploreRow(es[k], 2 * k, inst)
    {
      var resolved := ResolveExploreRow(rows[j], es[j], 2 * j, last, inst);
      if resolved.Err? {
        CollectFirstErr(ExploreRows(es, inst), j);
        return Err(resolved.error);
      }
      rows := rows[j := resolved.value];
      j := j + 1;
    }
    CollectAllOk(ExploreRows(es, inst), rows);
    r := Ok(rows);
  }

  /** `Analyze.explores`. */
  method Explores(xs: seq<Explore>, inst: Instance) returns (r: Result<seq<Row>>, batch: seq<Task>)
    ensures r == ExploresReport(xs, inst)
    ensures Collect(ExploreSteps(xs, inst)).Ok? ==> batch == ExploresBatch(ExploreEntries(xs, inst))
  {
    var partial;
    var last;
    ghost var es;
    partial, batch, last, es := FanOutExplores(xs, inst);
    if partial.Err? {
      return Err(partial.error), batch;
    }
    r := ResolveExplores(partial.value, es, last, inst);
  }

  /** Row `k` of a finished explores table is the reference row of explore `k`. */
  lemma ExploresRowIs(xs: seq<Explore>, inst: Instance, k: nat)
    requires ExploresReport(xs, inst).Ok? && k < |xs|
    ensures Collect(ExploreSteps(xs, inst)).Ok? && |ExploreEntries(xs, inst)| == |xs|
    ensures |ExploresReport(xs, inst).value| == |xs|
    ensures ExploreStep(xs[k], inst) == Ok(ExploreEntries(xs, inst)[k])
    ensures ExploreRow(ExploreEntries(xs, inst)[k], 2 * k, LastExploreName(ExploreEntries(xs, inst)), inst)
            == Ok(ExploresReport(xs, inst).value[k])
  {
    CollectOkValues(ExploreSteps(xs, inst));
    CollectOkValues(ExploreRows(ExploreEntries(xs, inst), inst));
  }

  /** The shape of one finished explore row, in terms of its entry and futures. */
  lemma ExploreRowShape(e: ExploreEntry, h: nat, name: string, inst: Instance)
    requires ExploreRow(e, h, name, inst).Ok?
    ensures inst.joinStats(h).Ok? && inst.usedExplores(h + 1).Ok?
    ensures
      var row := ExploreRow(e, h, name, inst).value;
      && row.Keys == ExploreColumns && Resolved(row)
      && row["Model"] == Concrete(Str(e.model))
      && row["Explore"] == Concrete(Str(e.name))
      && row["Is Hidden"] == Concrete(Bool(e.hidden))
      && row["Has Description"] == Concrete(Bool(e.hasDescription))
      && row["# Fields"] == Concrete(Int(|e.fieldStats|))
      && row["# Unused Fields"] == Concrete(Int(|inst.filterFields(e.fieldStats)|))
      && row["# Joins"] == Concrete(Int(|inst.joinStats(h).value|))
      && row["# Unused Joins"] == Concrete(Int(|inst.filterJoins(inst.joinStats(h).value)|))
      && row["Query Count"] == Concrete(Int(Get(inst.usedExplores(h + 1).value, name, 0)))
  {
  }

  /** An explore whose assertions and field-stats call pass yields this entry. */
  lemma ExploreStepShape(x: Explore, inst: Instance)
    requires ExploreStep(x, inst).Ok?
    ensures x.name.Some? && x.modelName.Some? && x.hidden.Some? && inst.fieldStats(x).Ok?
    ensures ExploreStep(x, inst).value ==
      ExploreEntry(x.name.value, x.modelName.value, x.hidden.value,
                   x.description.Some? && |x.description.value| > 0, inst.fieldStats(x).value)
  {
  }

  /**
   * The cells an explore's row starts with: the explore's own attributes and
   * the counts of its field stats, before any future is awaited.
   */
  lemma ExploresFieldCells(xs: seq<Explore>, inst: Instance, k: nat)
    requires ExploresReport(xs, inst).Ok? && k < |xs|
    ensures xs[k].name.Some? && xs[k].modelName.Some? && xs[k].hidden.Some? && inst.fieldStats(xs[k]).Ok?
    ensures |ExploresReport(xs, inst).value| == |xs|
    ensures
      var row := ExploresReport(xs, inst).value[k];
      var fs := inst.fieldStats(xs[k]).value;
      && row.Keys == ExploreColumns && Resolved(row)
      && row["Model"] == Concrete(Str(xs[k].modelName.value))
      && row["Explore"] == Concrete(Str(xs[k].name.value))
      && row["Is Hidden"] == Concrete(Bool(xs[k].hidden.value))
      && row["Has Description"] == Concrete(Bool(xs[k].description.Some? && |xs[k].description.value| > 0))
      && row["# Fields"] == Concrete(Int(|fs|))
      && row["# Unused Fields"] == Concrete(Int(|inst.filterFields(fs)|))
  {
    ExploresRowIs(xs, inst, k);
    var es := ExploreEntries(xs, inst);
    ExploreStepShape(xs[k], inst);
    ExploreRowShape(es[k], 2 * k, LastExploreName(es), inst);
  }

  /**
   * The cells filled from futures: joins counted from the explore's own
   * join-stats future, but Query Count looked up under the LAST explore's
   * name in every row, with a default of 0.
   */
  lemma ExploresFutureCells(xs: seq<Explore>, inst: Instance, k: nat)
    requires ExploresReport(xs, inst).Ok? && k < |xs|
    ensures xs[|xs| - 1].name.Some?
    ensures |ExploresReport(xs, inst).value| == |xs|
    ensures inst.joinStats(2 * k).Ok? && inst.usedExplores(2 * k + 1).Ok?
    ensures ExploresReport(xs, inst).value[k].Keys == ExploreColumns
    ensures
      var row := ExploresReport(xs, inst).value[k];
      && row["# Joins"] == Concrete(Int(|inst.joinStats(2 * k).value|))
      && row["# Unused Joins"] == Concrete(Int(|inst.filterJoins(inst.joinStats(2 * k).value)|))
      && row["Query Count"] == Concrete(Int(Get(inst.usedExplores(2 * k + 1).value, xs[|xs| - 1].name.value, 0)))
  {
    ExploresRowIs(xs, inst, k);
    var es := ExploreEntries(xs, inst);
    CollectOkValues(ExploreSteps(xs, inst));
    assert ExploreSteps(xs, inst)[|xs| - 1] == Ok(es[|xs| - 1]);
    var last := LastExploreName(es);
    ExploreStepShape(xs[|xs| - 1], inst);
    assert last == xs[|xs| - 1].name.value;
    var row := ExploresReport(xs, inst).value[k];
    assert ExploreRow(es[k], 2 * k, last, inst) == Ok(row);
    ExploreRowShape(es[k], 2 * k, last, inst);
  }

  /** Explore `k` submits its join-stats future at `2k` and its query-stats future at `2k + 1`. */
  lemma ExploresSubmitted(xs: seq<Explore>, inst: Instance, k: nat)
    requires Collect(ExploreSteps(xs, inst)).Ok? && k < |xs|
    ensures xs[k].name.Some? && xs[k].modelName.Some? && inst.fieldStats(xs[k]).Ok?
    ensures |ExploresBatch(ExploreEntries(xs, inst))| == 2 * |xs|
    ensures ExploresBatch(ExploreEntries(xs, inst))[2 * k] ==
      JoinStats(xs[k].modelName.value, xs[k].name.value, inst.fieldStats(xs[k]).value)
    ensures ExploresBatch(ExploreEntries(xs, inst))[2 * k + 1] ==
      UsedExplores(xs[k].modelName.value, xs[k].name.value)
  {
    CollectOkValues(ExploreSteps(xs, inst));
    ExploresBatchLayout(ExploreEntries(xs, inst));
    assert ExploreSteps(xs, inst)[k] == Ok(ExploreEntries(xs, inst)[k]);
    ExploreStepShape(xs[k], inst);
  }

  /** A single failing future for any explore leaves no explores table at all. */
  lemma ExploresFailureAborts(xs: seq<Explore>, inst: Instance, k: nat)
    requires Collect(ExploreSteps(xs, inst)).Ok? && k < |xs|
    requires inst.joinStats(2 * k).Err? || inst.usedExplores(2 * k + 1).Err?
    ensures ExploresReport(xs, inst).Err?
  {
    CollectOkValues(ExploreSteps(xs, inst));
    var rs := ExploreRows(ExploreEntries(xs, inst), inst);
    assert rs[k].Err?;
    CollectFailsIffSomeStepFails(rs);
  }

  /** A failing field-stats call stops the fan-out: nothing is reported. */
  lemma ExploresFieldStatsFailureAborts(xs: seq<Explore>, inst: Instance, k: nat)
    requires k < |xs| && xs[k].name.Some? && xs[k].modelName.Some? && xs[k].hidden.Some?
    requires inst.fieldStats(xs[k]).Err?
    ensures ExploresReport(xs, inst).Err?
  {
    var rs := ExploreSteps(xs, inst);
    assert rs[k].Err?;
    CollectFailsIffSomeStepFails(rs);
  }

  // =====================================================================
  // run

  /** The table of `Analyze.run` before it is printed. */
  function AnalyzeReport(input: Input, inst: Instance): Result<seq<Row>>
  {
    if input.subcommand == "projects" then
      (match inst.getProjects(input.project)
       case Err(e) => Err(e)
       case Ok(ps) => ProjectsReport(ps, inst))
    else if input.subcommand == "models" then
      (match inst.getModels(input.project, input.model)
       case Err(e) => Err(e)
       case Ok(ms) => ModelsReport(ms, inst))
    else if input.subcommand == "explores" then
      (match inst.getExplores(input.model, input.explore)
       case Err(e) => Err(e)
       case Ok(xs) => ExploresReport(xs, inst))
    else Err(ValueError(UsageMessage))
  }

  /** `Analyze.run`: dispatches on the subcommand. */
  method Run(input: Input, inst: Instance) returns (r: Result<seq<Row>>)
    ensures r == AnalyzeReport(input, inst)
  {
    if input.subcommand == "projects" {
      var ps := inst.getProjects(input.project);
      if ps.Err? {
        return Err(ps.error);
      }
      var batch;
      r, batch := Projects(ps.value, inst);
    } else if input.subcommand == "models" {
      var ms := inst.getModels(input.project, input.model);
      if ms.Err? {
        return Err(ms.error);
      }
      var batch;
      r, batch := Models(ms.value, inst);
    } else if input.subcommand == "explores" {
      var xs := inst.getExplores(input.model, input.explore);
      if xs.Err? {
        return Err(xs.error);
      }
      var batch;
      r, batch := Explores(xs.value, inst);
    } else {
      r := Err(ValueError(UsageMessage));
    }
  }

  /** Only the three subcommands produce a table; anything else is a usage error. */
  lemma AnalyzeUnknownSubcommand(input: Input, inst: Instance)
    ensures AnalyzeReport(input, inst).Ok? ==>
      input.subcommand in {"projects", "models", "explores"}
    ensures input.subcommand !in {"projects", "models", "explores"} ==>
      AnalyzeReport(input, inst) == Err(ValueError(UsageMessage))
  {
  }
}
