/** What each service call does to the tables: one function per call, with every error path.
    The classes in Stores.dfy and Services.dfy carry the calls out statement by statement and are
    proved against these functions. */
module Steps {
  import opened Tables

  // ---------- Feature-environment store ----------

  /** INSERT INTO project_environments. */
  function ConnectProject(db: Db, environment: string, project: string): Step {
    var link := ProjectEnv(project, environment);
    if link in db.projectEnvs then
      Step(db, Failed(UniqueViolation))
    else if project !in db.projects || environment !in db.environments then
      Step(db, Failed(ForeignKeyViolation))
    else
      Step(db.(projectEnvs := db.projectEnvs + {link}), Done)
  }

  /** Adds disabled rows and keeps the rows that are already there. */
  function WithFeatureEnvs(rows: map<FeatureEnv, bool>, added: set<FeatureEnv>): map<FeatureEnv, bool> {
    map l | l in rows.Keys + added :: if l in rows then rows[l] else false
  }

  function ProjectFeatures(db: Db, project: string): set<string> {
    set f | f in db.features && db.features[f].project == project
  }

  function ConnectFeatures(db: Db, environment: string, project: string): Db {
    db.(featureEnvs := WithFeatureEnvs(db.featureEnvs,
          set f | f in ProjectFeatures(db, project) :: FeatureEnv(f, environment)))
  }

  function ConnectFeatureToEnvironmentsForProject(db: Db, feature: string, project: string): Db {
    db.(featureEnvs := WithFeatureEnvs(db.featureEnvs,
          set e | e in ProjectEnvironments(db, project) :: FeatureEnv(feature, e)))
  }

  /** Removes the environment from the project's toggles. Their strategies stay: the second query of
      the store selects them and never deletes. */
  function DisconnectFeatures(db: Db, environment: string, project: string): Db {
    db.(featureEnvs := db.featureEnvs -
          set f | f in ProjectFeatures(db, project) :: FeatureEnv(f, environment))
  }

  function DisconnectProject(db: Db, environment: string, project: string): Db {
    db.(projectEnvs := db.projectEnvs - {ProjectEnv(project, environment)})
  }

  function DisableIfNoStrategies(db: Db, feature: string, environment: string): Db {
    var l := FeatureEnv(feature, environment);
    if StrategiesIn(db, feature, environment) == {} && l in db.featureEnvs then
      db.(featureEnvs := db.featureEnvs[l := false])
    else
      db
  }

  /** DELETE FROM feature_strategies, with the cascade to the segment links. */
  function RemoveStrategies(db: Db, ids: set<string>): Db {
    db.(strategies := db.strategies - ids,
        strategySegments := set l | l in db.strategySegments && l.strategy !in ids)
  }

  /** DELETE FROM features, with the cascades. */
  function RemoveFeatures(db: Db, names: set<string>): Db {
    RemoveStrategies(db, set id | id in db.strategies && db.strategies[id].feature in names).(
      features := db.features - names,
      featureEnvs := db.featureEnvs - (set l | l in db.featureEnvs && l.feature in names),
      featureTags := set t | t in db.featureTags && t.feature !in names)
  }

  // ---------- Projects and environments ----------

  function CreateProject(db: Db, id: string, name: string): Step {
    if id in db.projects then
      Step(db, Failed(NameExists))
    else
      Step(db.(projects := db.projects[id := name],
               projectEnvs := db.projectEnvs +
               set e | e in db.environments && db.environments[e].enabled :: ProjectEnv(id, e)), Done)
  }

  function AddEnvironmentToProject(db: Db, environment: string, project: string): Step {
    var connected := ConnectProject(db, environment, project);
    match connected.outcome
    case Done => Step(ConnectFeatures(connected.db, environment, project), Done)
    case Failed(UniqueViolation) => Step(db, Failed(NameExists))
    case Failed(e) => Step(db, Failed(e))
  }

  function ForceRemoveEnvironmentFromProject(db: Db, environment: string, project: string): Db {
    DisconnectProject(DisconnectFeatures(db, environment, project), environment, project)
  }

  /** The links whose environment row exists: the query joins the two tables. */
  function ListedEnvironments(db: Db, project: string): set<string> {
    set e | e in ProjectEnvironments(db, project) && e in db.environments
  }

  function RemoveEnvironmentFromProject(db: Db, environment: string, project: string): Step {
    if |ListedEnvironments(db, project)| > 1 then
      Step(ForceRemoveEnvironmentFromProject(db, environment, project), Done)
    else
      Step(db, Failed(MinimumOneEnvironment))
  }

  function ToggleEnvironment(db: Db, name: string, value: bool): Step {
    if name !in db.environments then
      Step(db, Failed(NotFound))
    else if db.environments[name].isProtected then
      Step(db, Done)
    else
      Step(db.(environments := db.environments[name := db.environments[name].(enabled := value)]), Done)
  }

  // ---------- Toggles ----------

  function CreateToggle(db: Db, project: string, name: string, archived: bool, data: FeatureData): Step {
    if name in db.features then
      Step(db, Failed(NameExists))
    else if project !in db.projects then
      Step(db, Failed(NotFound))
    else
      var created := db.(features := db.features[name := Feature(project, archived, data)]);
      Step(ConnectFeatureToEnvironmentsForProject(created, name, project), Done)
  }

  function UpdateToggle(db: Db, project: string, name: string, archived: bool, data: FeatureData): Step {
    if name !in db.features || db.features[name].project != project then
      Step(db, Failed(InvalidOperation))
    else
      Step(db.(features := db.features[name := Feature(project, archived, data)]), Done)
  }

  function SetArchived(db: Db, name: string, archived: bool): Step {
    if name !in db.features then
      Step(db, Failed(NotFound))
    else
      Step(db.(features := db.features[name := db.features[name].(archived := archived)]), Done)
  }

  /** Only archived toggles are deleted; deleting an active one does nothing and reports success. */
  function DeleteFeature(db: Db, name: string): Step {
    if name !in db.features then
      Step(db, Failed(NotFound))
    else if !db.features[name].archived then
      Step(db, Done)
    else
      Step(RemoveFeatures(db, {name}), Done)
  }

  function UpdateEnabled(db: Db, project: string, feature: string, environment: string, enabled: bool): Step {
    var l := FeatureEnv(feature, environment);
    if l !in db.featureEnvs then
      Step(db, Failed(NotFound))
    else if enabled && (forall id <- StrategiesIn(db, feature, environment) :: db.strategies[id].project != project) then
      Step(db, Failed(InvalidOperation))
    else
      Step(db.(featureEnvs := db.featureEnvs[l := enabled]), Done)
  }

  function SetStrategyProject(db: Db, feature: string, project: string): Db {
    db.(strategies := map id | id in db.strategies ::
          if db.strategies[id].feature == feature then db.strategies[id].(project := project)
          else db.strategies[id])
  }

  function ChangeProject(db: Db, newProject: string, feature: string, authorized: bool, currentProject: string): Step {
    if feature !in db.features then
      Step(db, Failed(NotFound))
    else if db.features[feature].project != currentProject then
      Step(db, Failed(NoAccess))
    else if newProject !in db.projects then
      Step(db, Failed(NotFound))
    else if !authorized then
      Step(db, Failed(NoAccess))
    else if FeatureEnvironments(db, feature) != ListedEnvironments(db, newProject) then
      Step(db, Failed(IncompatibleProject))
    else
      Step(SetStrategyProject(
             db.(features := db.features[feature := db.features[feature].(project := newProject)]),
             feature, newProject), Done)
  }

  // ---------- Strategies ----------

  /** Where the caller says a strategy lives. */
  datatype Context = Context(feature: string, project: string, environment: string)

  datatype StrategyUpdate = StrategyUpdate(
    name: Option<string>,
    constraints: Option<seq<Constraint>>,
    parameters: Option<map<string, string>>)

  function CreateStrategy(db: Db, id: string, config: StrategyConfig, ctx: Context): Step {
    if ctx.feature !in db.features || db.features[ctx.feature].project != ctx.project then
      Step(db, Failed(InvalidOperation))
    else if id in db.strategies then
      Step(db, Failed(UniqueViolation))
    else if ctx.environment !in db.environments then
      Step(db, Failed(BadData))
    else
      Step(db.(strategies := db.strategies[id := Strategy(ctx.feature, ctx.project, ctx.environment, config)]), Done)
  }

  /** An absent name or parameter map is kept; absent constraints become the empty list. */
  function Updated(config: StrategyConfig, u: StrategyUpdate): StrategyConfig {
    config.(name := if u.name.Some? then u.name.value else config.name,
            constraints := if u.constraints.Some? then u.constraints.value else [],
            parameters := if u.parameters.Some? then u.parameters.value else config.parameters)
  }

  /** The environment of the context is not compared with the strategy's own. */
  predicate ContextMatches(s: Strategy, ctx: Context) {
    s.project == ctx.project && s.feature == ctx.feature
  }

  function UpdateStrategy(db: Db, id: string, u: StrategyUpdate, ctx: Context): Step {
    if id !in db.strategies then
      Step(db, Failed(NotFound))
    else if !ContextMatches(db.strategies[id], ctx) then
      Step(db, Failed(InvalidOperation))
    else
      var s := db.strategies[id];
      Step(db.(strategies := db.strategies[id := s.(config := Updated(s.config, u))]), Done)
  }

  function DeleteStrategy(db: Db, id: string, ctx: Context): Step {
    if id !in db.strategies then
      Step(db, Failed(NotFound))
    else if !ContextMatches(db.strategies[id], ctx) then
      Step(db, Failed(InvalidOperation))
    else
      Step(DisableIfNoStrategies(RemoveStrategies(db, {id}), ctx.feature, ctx.environment), Done)
  }

  // ---------- Environment override ----------

  function RequestedEnvironments(db: Db, names: seq<string>): set<string> {
    set e | e in db.environments && e in names
  }

  function NewlyEnabled(db: Db, names: seq<string>): set<string> {
    set e | e in RequestedEnvironments(db, names) && !db.environments[e].enabled
  }

  function NewlyDisabled(db: Db, names: seq<string>): set<string> {
    set e | e in db.environments && e !in names && db.environments[e].enabled
  }

  function SetEnabled(db: Db, names: set<string>, value: bool): Db {
    db.(environments := map e | e in db.environments ::
          if e in names then db.environments[e].(enabled := value) else db.environments[e])
  }

  function LinksTo(db: Db, environments: set<string>): set<ProjectEnv> {
    set l | l in db.projectEnvs && l.environment in environments
  }

  /** The toggle rows that belong to a set of project links. */
  function FeatureEnvsOf(db: Db, links: set<ProjectEnv>): set<FeatureEnv> {
    set f, l | f in db.features && l in links && l.project == db.features[f].project :: FeatureEnv(f, l.environment)
  }

  function Unlink(db: Db, links: set<ProjectEnv>): Db {
    db.(featureEnvs := db.featureEnvs - FeatureEnvsOf(db, links),
        projectEnvs := db.projectEnvs - links)
  }

  function Link(db: Db, links: set<ProjectEnv>): Db {
    db.(featureEnvs := WithFeatureEnvs(db.featureEnvs, FeatureEnvsOf(db, links - db.projectEnvs)),
        projectEnvs := db.projectEnvs + links)
  }

  function LinkTasks(unlinked: set<ProjectEnv>, environments: set<string>): set<ProjectEnv> {
    set l, e | l in unlinked && e in environments :: ProjectEnv(l.project, e)
  }

  function RemapProjectLinks(db: Db, toDisable: set<string>, toEnable: set<string>): Step {
    var unlinked := LinksTo(db, toDisable);
    var db1 := Unlink(db, unlinked);
    var tasks := LinkTasks(unlinked, toEnable);
    Step(Link(db1, tasks), if tasks !! db1.projectEnvs then Done else Failed(NameExists))
  }

  function OverrideEnabledProjects(db: Db, names: seq<string>): Step {
    if names == [] || |RequestedEnvironments(db, names)| != |names| then
      Step(db, Done)
    else
      var disable, enable := NewlyDisabled(db, names), NewlyEnabled(db, names);
      RemapProjectLinks(SetEnabled(SetEnabled(db, disable, false), enable, true), disable, enable)
  }

  // ---------- Cloning ----------

  /** The strategies the toggle's join returns: those in an environment the toggle still has. */
  function ListedStrategies(db: Db, feature: string): set<string> {
    set id | id in db.strategies && db.strategies[id].feature == feature &&
             FeatureEnv(feature, db.strategies[id].environment) in db.featureEnvs
  }

  function ClonedConfig(config: StrategyConfig, replaceGroupId: bool, clone: string): StrategyConfig {
    if replaceGroupId && "groupId" in config.parameters then
      config.(parameters := config.parameters["groupId" := clone])
    else
      config
  }

  function SegmentsOf(db: Db, strategy: string): (r: set<int>)
    ensures forall g :: g in r <==> StrategySegment(strategy, g) in db.strategySegments
  {
    set l | l in db.strategySegments && l.strategy == strategy :: l.segment
  }

  /** The segments of a strategy that exist: the query joins the two tables. */
  function ListedSegments(db: Db, strategy: string): set<int> {
    set g | g in SegmentsOf(db, strategy) && g in db.segments
  }

  function AddSegmentToStrategy(db: Db, limit: nat, segment: int, strategy: string): Step {
    var l := StrategySegment(strategy, segment);
    if |ListedSegments(db, strategy)| >= limit then
      Step(db, Failed(BadData))
    else if l in db.strategySegments then
      Step(db, Failed(UniqueViolation))
    else if strategy !in db.strategies || segment !in db.segments then
      Step(db, Failed(ForeignKeyViolation))
    else
      Step(db.(strategySegments := db.strategySegments + {l}), Done)
  }

  function WithSegments(db: Db, strategy: string, segments: set<int>): Db {
    db.(strategySegments := db.strategySegments + set g | g in segments :: StrategySegment(strategy, g))
  }

  /** The ids drawn for the copies of `sources`: unused and pairwise distinct. */
  predicate FreshIds(db: Db, sources: set<string>, ids: map<string, string>) {
    && sources <= ids.Keys
    && (forall s <- sources :: ids[s] !in db.strategies)
    && (forall s <- sources, t <- sources :: s != t ==> ids[s] != ids[t])
  }

  function Copies(db: Db, sources: set<string>, project: string, clone: string, replaceGroupId: bool,
                  ids: map<string, string>): map<string, Strategy>
    requires sources <= db.strategies.Keys && FreshIds(db, sources, ids)
  {
    map s | s in sources ::
      ids[s] := Strategy(clone, project, db.strategies[s].environment,
                         ClonedConfig(db.strategies[s].config, replaceGroupId, clone))
  }

  /** What the tasks of a clone got done: the strategies they copied, each with the segments it was given. A
      task may fail before its copy is stored, or while the segments are added. */
  type CopyResults = map<string, set<int>>

  predicate PossibleCopies(db: Db, sources: set<string>, copied: CopyResults) {
    copied.Keys <= sources && forall s <- copied :: copied[s] <= SegmentsOf(db, s)
  }

  /** Every task succeeded. */
  function FullCopies(db: Db, sources: set<string>): CopyResults {
    map s | s in sources :: SegmentsOf(db, s)
  }

  function CopiedLinks(copied: CopyResults, ids: map<string, string>): set<StrategySegment>
    requires copied.Keys <= ids.Keys
  {
    set s, g | s in copied && g in copied[s] :: StrategySegment(ids[s], g)
  }

  /** Copies strategies, each with the given segments, to the toggle `clone`. */
  function CopyStrategies(db: Db, copied: CopyResults, project: string, clone: string, replaceGroupId: bool,
                          ids: map<string, string>): Db
    requires copied.Keys <= db.strategies.Keys && FreshIds(db, copied.Keys, ids)
  {
    db.(strategies := db.strategies + Copies(db, copied.Keys, project, clone, replaceGroupId, ids),
        strategySegments := db.strategySegments + CopiedLinks(copied, ids))
  }

  /** The call succeeds once the toggle is created, whatever becomes of the copy tasks. */
  function CloneToggle(db: Db, source: string, project: string, clone: string, replaceGroupId: bool,
                       ids: map<string, string>, copied: CopyResults): Step
    requires FreshIds(db, ListedStrategies(db, source), ids) && copied.Keys <= ListedStrategies(db, source)
  {
    if clone in db.features then
      Step(db, Failed(NameExists))
    else if source !in db.features || db.features[source].archived then
      Step(db, Failed(NotFound))
    else
      var created := CreateToggle(db, project, clone, false, db.features[source].data);
      if created.outcome.Failed? then
        created
      else
        Step(CopyStrategies(created.db, copied, project, clone, replaceGroupId, ids), Done)
  }

  /** A strategy without constraints is not validated. */
  predicate PassesValidation(accepts: seq<Constraint> -> bool, constraints: seq<Constraint>) {
    constraints == [] || accepts(constraints)
  }

  function Min(a: nat, b: nat): nat {
    if a <= b then a else b
  }

  /** What the tasks get done one after another: the strategies whose constraints pass are copied, each with
      its segments up to the limit. */
  predicate TaskResults(db: Db, sources: set<string>, accepts: seq<Constraint> -> bool, limit: nat, copied: CopyResults)
    requires sources <= db.strategies.Keys
  {
    && copied.Keys == (set s | s in sources && PassesValidation(accepts, db.strategies[s].config.constraints))
    && forall s <- copied :: copied[s] <= SegmentsOf(db, s) && |copied[s]| == Min(|SegmentsOf(db, s)|, limit)
  }
}
