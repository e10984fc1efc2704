/**
 * The data the reports work on: the Looker entities they enumerate (read-only
 * snapshots of SDK objects), the rows they assemble, and the tasks they submit
 * to the thread pool.
 *
 * SDK attributes that the source checks with `assert` or `isinstance` are
 * `Option`s here, so that the failing assertion can be modelled.
 */
module Looker {
  import opened Outcomes

  // ---------------------------------------------------------------------
  // Entities

  /** A LookML project (`models.Project`). */
  datatype Project = Project(
    name: Option<string>,
    id: Option<string>,
    pullRequestMode: Option<string>,      // the value of `pull_request_mode`
    validationRequired: Option<bool>,
    gitRemoteUrl: Option<string>)

  /** A file of a project (`models.ProjectFile`); only its `type` is used. */
  datatype ProjectFile = ProjectFile(fileType: Option<string>)

  /** A LookML model (`models.LookmlModel`). */
  datatype Model = Model(
    name: Option<string>,
    projectName: Option<string>,
    explores: Option<seq<string>>)

  /** An explore (`models.LookmlModelExplore`). */
  datatype Explore = Explore(
    name: Option<string>,
    modelName: Option<string>,
    hidden: Option<bool>,
    description: Option<string>)

  /** A database connection together with the tests its dialect supports. */
  datatype Connection = Connection(name: Option<string>, dialect: Option<Dialect>)

  datatype Dialect = Dialect(connectionTests: seq<string>)

  /** One result of `test_connection`. */
  datatype ConnectionTestResult = ConnectionTestResult(status: string, message: string)

  /** A legacy feature of the instance. */
  datatype LegacyFeature = LegacyFeature(name: string, enabled: bool)

  // ---------------------------------------------------------------------
  // Rows

  /** A printable value of a finished row. */
  datatype Scalar = Str(s: string) | Int(i: int) | Bool(b: bool)

  /** A row cell: a known value or the handle of a future not yet resolved. */
  datatype Cell = Concrete(value: Scalar) | Pending(handle: nat)

  /** A row: a dict from column name to cell. */
  type Row = map<string, Cell>

  /** No cell of the row still holds a future. */
  predicate Resolved(r: Row)
  {
    forall c :: c in r ==> r[c].Concrete?
  }

  /** `d.get(key, default)` on a dict of counts. */
  function Get(d: map<string, int>, key: string, default: int): int
  {
    if key in d then d[key] else default
  }

  // ---------------------------------------------------------------------
  // Work submitted to the thread pool, one entry per `pool.submit`

  datatype Task =
    | TestConnection(connection: string, tests: seq<string>)
    | QueryRunCount(connection: string)
    | AllProjectFiles(project: string)
    | GitConnectionTests(projectId: Option<string>)
    | UnusedExplores(model: string)
    | UsedModels
    | JoinStats(model: string, explore: string, fieldStats: seq<string>)
    | UsedExplores(model: string, explore: string)
    | GetModels(projectFilter: Option<string>, modelFilter: Option<string>)
    | RunCheck(check: string)

  // ---------------------------------------------------------------------
  // What a `fetcher.Fetcher` reaches on the Looker instance

  /**
   * Synchronous calls are functions of their arguments. The outcome of each
   * future is supplied by a function of its handle (its position in the
   * report's submission order), one function per kind of future. A call that
   * one command makes synchronously and another submits as a future
   * (`get_models`) has one outcome function of its arguments for both.
   */
  datatype Instance = Instance(
    getProjects: Option<string> -> Result<seq<Project>>,
    getModels: (Option<string>, Option<string>) -> Result<seq<Model>>,
    getExplores: (Option<string>, Option<string>) -> Result<seq<Explore>>,
    fieldStats: Explore -> Result<seq<string>>,
    filterFields: seq<string> -> seq<string>,
    filterJoins: map<string, int> -> map<string, int>,
    projectFiles: nat -> Result<seq<ProjectFile>>,
    gitTests: nat -> Result<string>,
    unusedExplores: nat -> Result<seq<string>>,
    usedModels: nat -> Result<map<string, int>>,
    joinStats: nat -> Result<map<string, int>>,
    usedExplores: nat -> Result<map<string, int>>)

  /** The command line as the commands see it (`fetcher.Input`). */
  datatype Input = Input(
    subcommand: string,
    project: Option<string>,
    model: Option<string>,
    explore: Option<string>)

  /** An instance on which every call succeeds with nothing to report. */
  function NoData(): Instance
  {
    Instance(
      _ => Ok([]), (_, _) => Ok([]), (_, _) => Ok([]), _ => Ok([]),
      fields => fields, joins => joins,
      _ => Ok([]), _ => Ok(""), _ => Ok([]), _ => Ok(map[]), _ => Ok(map[]), _ => Ok(map[]))
  }
}
