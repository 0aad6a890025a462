/** The rows of the tables that hold toggle configuration, one snapshot of all of them,
    and the constraints the schema enforces between them. */
module Tables {

  datatype Option<+T> = None | Some(value: T)

  /** The errors the services and the database raise. */
  datatype Error =
    | NotFound
    | NameExists
    | InvalidOperation
    | NoAccess
    | IncompatibleProject
    | BadData
    | MinimumOneEnvironment
    | ProjectWithoutOwner
    | UniqueViolation
    | ForeignKeyViolation
    | TypeError

  datatype Outcome = Done | Failed(error: Error)

  /** A constraint of a strategy or of a segment. */
  datatype Constraint = Constraint(
    contextName: string,
    operator: string,
    values: seq<string>,
    value: Option<string>,
    inverted: bool,
    caseInsensitive: bool)

  datatype Environment = Environment(kind: string, sortOrder: int, enabled: bool, isProtected: bool)

  /** The descriptive columns of a toggle. A toggle's variants have distinct names and every read
      sorts them by name, so they are a map. */
  datatype FeatureData = FeatureData(
    description: string,
    kind: string,
    epic: string,
    stale: bool,
    impressionData: bool,
    variants: map<string, string>)

  datatype Feature = Feature(project: string, archived: bool, data: FeatureData)

  /** What a user configures about a strategy. */
  datatype StrategyConfig = StrategyConfig(
    name: string,
    constraints: seq<Constraint>,
    parameters: map<string, string>,
    sortOrder: int)

  datatype Strategy = Strategy(feature: string, project: string, environment: string, config: StrategyConfig)

  datatype Segment = Segment(name: string, description: string, constraints: seq<Constraint>)

  datatype ProjectEnv = ProjectEnv(project: string, environment: string)
  datatype FeatureEnv = FeatureEnv(feature: string, environment: string)
  datatype StrategySegment = StrategySegment(strategy: string, segment: int)
  datatype Tag = Tag(kind: string, value: string)
  datatype FeatureTag = FeatureTag(feature: string, tag: Tag)

  /** All tables at one moment; every map is keyed by the table's primary key. */
  datatype Db = Db(
    environments: map<string, Environment>,
    projects: map<string, string>,
    projectEnvs: set<ProjectEnv>,
    features: map<string, Feature>,
    featureEnvs: map<FeatureEnv, bool>,
    strategies: map<string, Strategy>,
    segments: map<int, Segment>,
    strategySegments: set<StrategySegment>,
    tagTypes: map<string, string>,
    tags: set<Tag>,
    featureTags: set<FeatureTag>)

  datatype Step = Step(db: Db, outcome: Outcome)

  const DEFAULT_ENV := "default"
  const DEFAULT_PROJECT := "default"

  /** The foreign keys of the schema. A toggle's project is not one of them. */
  ghost predicate Integrity(db: Db) {
    && (forall l <- db.projectEnvs :: l.project in db.projects && l.environment in db.environments)
    && (forall l <- db.featureEnvs :: l.feature in db.features && l.environment in db.environments)
    && (forall id <- db.strategies ::
          && db.strategies[id].feature in db.features
          && db.strategies[id].environment in db.environments)
    && (forall l <- db.strategySegments :: l.strategy in db.strategies && l.segment in db.segments)
    && (forall t <- db.tags :: t.kind in db.tagTypes)
    && (forall t <- db.featureTags :: t.feature in db.features && t.tag in db.tags)
  }

  function ProjectEnvironments(db: Db, project: string): (r: set<string>)
    ensures forall e :: e in r <==> ProjectEnv(project, e) in db.projectEnvs
  {
    set l | l in db.projectEnvs && l.project == project :: l.environment
  }

  function FeatureEnvironments(db: Db, feature: string): (r: set<string>)
    ensures forall e :: e in r <==> FeatureEnv(feature, e) in db.featureEnvs
  {
    set l | l in db.featureEnvs && l.feature == feature :: l.environment
  }

  /** The ids of the strategies a toggle has in an environment. */
  function StrategiesIn(db: Db, feature: string, environment: string): (r: set<string>)
    ensures forall id :: id in r <==>
                         && id in db.strategies
                         && db.strategies[id].feature == feature
                         && db.strategies[id].environment == environment
  {
    set id | id in db.strategies && db.strategies[id].feature == feature && db.strategies[id].environment == environment
  }
}
