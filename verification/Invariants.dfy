/** The invariants that several services keep together, proved for every step and every run. */
module Invariants {
  import opened Tables
  import opened Steps

  /** Every toggle belongs to a project that exists. */
  ghost predicate TogglesHaveProjects(db: Db) {
    forall f <- db.features :: db.features[f].project in db.projects
  }

  /** A toggle has exactly the environments its project has. */
  ghost predicate EnvironmentAgreement(db: Db) {
    forall f, e ::
      f in db.features ==>
        (FeatureEnv(f, e) in db.featureEnvs <==> ProjectEnv(db.features[f].project, e) in db.projectEnvs)
  }

  /** A strategy is filed under the current project of its toggle. */
  ghost predicate StrategyOwnership(db: Db) {
    forall id <- db.strategies ::
      db.strategies[id].feature in db.features &&
      db.strategies[id].project == db.features[db.strategies[id].feature].project
  }

  /** A toggle enabled in an environment has a strategy there. */
  ghost predicate EnabledHasStrategy(db: Db) {
    forall l <- db.featureEnvs :: db.featureEnvs[l] ==> StrategiesIn(db, l.feature, l.environment) != {}
  }

  /** What every step keeps. */
  ghost predicate Inv(db: Db) {
    Integrity(db) && TogglesHaveProjects(db) && EnvironmentAgreement(db) && StrategyOwnership(db)
  }

  datatype Command =
    | CmdCreateProject(id: string, title: string)
    | CmdAddEnvironment(environment: string, project: string)
    | CmdRemoveEnvironment(environment: string, project: string)
    | CmdToggleEnvironment(environment: string, value: bool)
    | CmdOverride(names: seq<string>)
    | CmdCreateToggle(project: string, name: string, archived: bool, data: FeatureData)
    | CmdUpdateToggle(project: string, name: string, archived: bool, data: FeatureData)
    | CmdArchive(name: string)
    | CmdRevive(name: string)
    | CmdDeleteToggle(name: string)
    | CmdUpdateEnabled(project: string, name: string, environment: string, value: bool)
    | CmdChangeProject(project: string, name: string, authorized: bool, current: string)
    | CmdCreateStrategy(strategy: string, config: StrategyConfig, ctx: Context)
    | CmdUpdateStrategy(strategy: string, update: StrategyUpdate, ctx: Context)
    | CmdDeleteStrategy(strategy: string, ctx: Context)
    | CmdClone(source: string, project: string, name: string, replaceGroupId: bool, ids: map<string, string>,
               copied: CopyResults)

  /** The ids drawn for a clone are new, and its tasks copy, as far as they get, what the source has; nothing is
      asked of any other command. */
  predicate Possible(db: Db, c: Command) {
    c.CmdClone? ==>
      && FreshIds(db, ListedStrategies(db, c.source), c.ids)
      && PossibleCopies(db, ListedStrategies(db, c.source), c.copied)
  }

  function Apply(db: Db, c: Command): Step
    requires Possible(db, c)
  {
    match c
    case CmdCreateProject(id, title) => CreateProject(db, id, title)
    case CmdAddEnvironment(e, p) => AddEnvironmentToProject(db, e, p)
    case CmdRemoveEnvironment(e, p) => RemoveEnvironmentFromProject(db, e, p)
    case CmdToggleEnvironment(e, v) => ToggleEnvironment(db, e, v)
    case CmdOverride(names) => OverrideEnabledProjects(db, names)
    case CmdCreateToggle(p, f, a, d) => CreateToggle(db, p, f, a, d)
    case CmdUpdateToggle(p, f, a, d) => UpdateToggle(db, p, f, a, d)
    case CmdArchive(f) => SetArchived(db, f, true)
    case CmdRevive(f) => SetArchived(db, f, false)
    case CmdDeleteToggle(f) => DeleteFeature(db, f)
    case CmdUpdateEnabled(p, f, e, v) => UpdateEnabled(db, p, f, e, v)
    case CmdChangeProject(p, f, ok, cur) => ChangeProject(db, p, f, ok, cur)
    case CmdCreateStrategy(id, config, ctx) => CreateStrategy(db, id, config, ctx)
    case CmdUpdateStrategy(id, u, ctx) => UpdateStrategy(db, id, u, ctx)
    case CmdDeleteStrategy(id, ctx) => DeleteStrategy(db, id, ctx)
    case CmdClone(s, p, f, r, ids, copied) => CloneToggle(db, s, p, f, r, ids, copied)
  }

  ghost predicate RunPossible(db: Db, run: seq<Command>)
    decreases |run|
  {
    run == [] || (Possible(db, run[0]) && RunPossible(Apply(db, run[0]).db, run[1..]))
  }

  /** The tables after a run; a call that fails leaves what it had written. */
  ghost function Run(db: Db, run: seq<Command>): Db
    requires RunPossible(db, run)
    decreases |run|
  {
    if run == [] then db else Run(Apply(db, run[0]).db, run[1..])
  }

  // ---------- One step ----------

  lemma LinkKeepsInv(db: Db, links: set<ProjectEnv>)
    requires Inv(db)
    requires forall l <- links :: l.project in db.projects && l.environment in db.environments
    ensures Inv(Link(db, links))
  {
  }

  lemma OverrideKeepsInv(db: Db, names: seq<string>)
    requires Inv(db)
    ensures Inv(OverrideEnabledProjects(db, names).db)
  {
    if names != [] && |RequestedEnvironments(db, names)| == |names| {
      var disable, enable := NewlyDisabled(db, names), NewlyEnabled(db, names);
      var db0 := SetEnabled(SetEnabled(db, disable, false), enable, true);
      var unlinked := LinksTo(db0, disable);
      LinkKeepsInv(Unlink(db0, unlinked), LinkTasks(unlinked, enable));
    }
  }

  /** The rows after copying: the old ones, and one copy for each source. */
  lemma CopiedRows(db: Db, sources: set<string>, project: string, clone: string, replaceGroupId: bool,
                   ids: map<string, string>)
    requires sources <= db.strategies.Keys && FreshIds(db, sources, ids)
    ensures var r := db.strategies + Copies(db, sources, project, clone, replaceGroupId, ids);
            && (forall id :: id in r <==> id in db.strategies || exists s :: s in sources && id == ids[s])
            && (forall id <- db.strategies :: r[id] == db.strategies[id])
            && (forall s <- sources ::
                  r[ids[s]] == Strategy(clone, project, db.strategies[s].environment,
                                        ClonedConfig(db.strategies[s].config, replaceGroupId, clone)))
  {
  }

  lemma CopiedRowsKeepForeignKeys(db: Db, copied: CopyResults, ids: map<string, string>)
    requires Integrity(db) && copied.Keys <= ids.Keys && PossibleCopies(db, db.strategies.Keys, copied)
    ensures forall l <- CopiedLinks(copied, ids) :: l.segment in db.segments && exists s :: s in copied && l.strategy == ids[s]
  {
    forall s, g | s in copied && g in copied[s]
      ensures g in db.segments
    {
      assert StrategySegment(s, g) in db.strategySegments;
    }
  }

  lemma CopyKeepsInv(db: Db, copied: CopyResults, project: string, clone: string, replaceGroupId: bool,
                     ids: map<string, string>)
    requires Inv(db) && FreshIds(db, copied.Keys, ids) && PossibleCopies(db, db.strategies.Keys, copied)
    requires clone in db.features && db.features[clone].project == project
    ensures Inv(CopyStrategies(db, copied, project, clone, replaceGroupId, ids))
  {
    CopiedRows(db, copied.Keys, project, clone, replaceGroupId, ids);
    CopiedRowsKeepForeignKeys(db, copied, ids);
    var r := db.strategies + Copies(db, copied.Keys, project, clone, replaceGroupId, ids);
    MoreStrategiesKeepInv(db, r);
    MoreLinksKeepInv(db.(strategies := r), CopiedLinks(copied, ids));
  }

  lemma MoreStrategiesKeepInv(db: Db, strategies: map<string, Strategy>)
    requires Inv(db) && db.strategies.Keys <= strategies.Keys
    requires forall id <- strategies ::
               && strategies[id].feature in db.features && strategies[id].environment in db.environments
               && strategies[id].project == db.features[strategies[id].feature].project
    ensures Inv(db.(strategies := strategies))
  {
  }

  lemma MoreLinksKeepInv(db: Db, links: set<StrategySegment>)
    requires Inv(db) && forall l <- links :: l.strategy in db.strategies && l.segment in db.segments
    ensures Inv(db.(strategySegments := db.strategySegments + links))
  {
  }

  lemma DeleteKeepsInv(db: Db, name: string)
    requires Inv(db)
    ensures Inv(DeleteFeature(db, name).db)
  {
  }

  lemma ChangeProjectKeepsInv(db: Db, newProject: string, feature: string, authorized: bool, current: string)
    requires Inv(db)
    ensures Inv(ChangeProject(db, newProject, feature, authorized, current).db)
  {
    var r := ChangeProject(db, newProject, feature, authorized, current);
    if r.outcome == Done {
      forall e
        ensures FeatureEnv(feature, e) in r.db.featureEnvs <==> ProjectEnv(newProject, e) in r.db.projectEnvs
      {
      }
    }
  }

  lemma CreateProjectKeepsInv(db: Db, id: string, title: string)
    requires Inv(db)
    ensures Inv(CreateProject(db, id, title).db)
  {
  }

  lemma AddEnvironmentKeepsInv(db: Db, environment: string, project: string)
    requires Inv(db)
    ensures Inv(AddEnvironmentToProject(db, environment, project).db)
  {
  }

  lemma RemoveEnvironmentKeepsInv(db: Db, environment: string, project: string)
    requires Inv(db)
    ensures Inv(RemoveEnvironmentFromProject(db, environment, project).db)
  {
  }

  lemma CreateToggleKeepsInv(db: Db, project: string, name: string, archived: bool, data: FeatureData)
    requires Inv(db)
    ensures Inv(CreateToggle(db, project, name, archived, data).db)
  {
    var r := CreateToggle(db, project, name, archived, data).db;
    if r != db {
      forall e
        ensures FeatureEnv(name, e) in r.featureEnvs <==> ProjectEnv(project, e) in r.projectEnvs
      {
        assert FeatureEnv(name, e) !in db.featureEnvs;
      }
    }
  }

  /** A clone keeps the invariants whichever of its copy tasks fail. */
  lemma CloneKeepsInv(db: Db, source: string, project: string, clone: string, replaceGroupId: bool,
                      ids: map<string, string>, copied: CopyResults)
    requires Inv(db) && FreshIds(db, ListedStrategies(db, source), ids)
    requires PossibleCopies(db, ListedStrategies(db, source), copied)
    ensures Inv(CloneToggle(db, source, project, clone, replaceGroupId, ids, copied).db)
  {
    var step := CloneToggle(db, source, project, clone, replaceGroupId, ids, copied);
    if step.outcome == Done {
      var created := CreateToggle(db, project, clone, false, db.features[source].data).db;
      CreateToggleKeepsInv(db, project, clone, false, db.features[source].data);
      SameLinksSameSegments(db, created);
      CopyKeepsInv(created, copied, project, clone, replaceGroupId, ids);
    }
  }

  lemma SameLinksSameSegments(a: Db, b: Db)
    requires a.strategySegments == b.strategySegments
    ensures forall id :: SegmentsOf(a, id) == SegmentsOf(b, id)
  {
  }

  lemma ToggleEnvironmentKeepsInv(db: Db, name: string, value: bool)
    requires Inv(db)
    ensures Inv(ToggleEnvironment(db, name, value).db)
  {
  }

  lemma ToggleDataKeepsInv(db: Db, project: string, name: string, archived: bool, data: FeatureData)
    requires Inv(db)
    ensures Inv(UpdateToggle(db, project, name, archived, data).db)
  {
  }

  lemma ArchiveKeepsInv(db: Db, name: string, archived: bool)
    requires Inv(db)
    ensures Inv(SetArchived(db, name, archived).db)
  {
  }

  lemma UpdateEnabledKeepsInv(db: Db, project: string, name: string, environment: string, value: bool)
    requires Inv(db)
    ensures Inv(UpdateEnabled(db, project, name, environment, value).db)
  {
  }

  lemma CreateStrategyKeepsInv(db: Db, id: string, config: StrategyConfig, ctx: Context)
    requires Inv(db)
    ensures Inv(CreateStrategy(db, id, config, ctx).db)
  {
  }

  lemma UpdateStrategyKeepsInv(db: Db, id: string, u: StrategyUpdate, ctx: Context)
    requires Inv(db)
    ensures Inv(UpdateStrategy(db, id, u, ctx).db)
  {
  }

  lemma DisablingKeepsInv(db: Db, feature: string, environment: string)
    requires Inv(db)
    ensures Inv(DisableIfNoStrategies(db, feature, environment))
  {
  }

  lemma DeleteStrategyKeepsInv(db: Db, id: string, ctx: Context)
    requires Inv(db)
    ensures Inv(DeleteStrategy(db, id, ctx).db)
  {
    DisablingKeepsInv(RemoveStrategies(db, {id}), ctx.feature, ctx.environment);
  }

  predicate IsEnvironmentStep(c: Command) {
    c.CmdCreateProject? || c.CmdAddEnvironment? || c.CmdRemoveEnvironment? || c.CmdToggleEnvironment? || c.CmdOverride?
  }

  predicate IsStrategyStep(c: Command) {
    c.CmdCreateStrategy? || c.CmdUpdateStrategy? || c.CmdDeleteStrategy? || c.CmdUpdateEnabled?
  }

  lemma EnvironmentStepKeepsInv(db: Db, c: Command)
    requires Inv(db) && IsEnvironmentStep(c)
    ensures Inv(Apply(db, c).db)
  {
    match c
    case CmdCreateProject(id, title) => CreateProjectKeepsInv(db, id, title);
    case CmdAddEnvironment(e, p) => AddEnvironmentKeepsInv(db, e, p);
    case CmdRemoveEnvironment(e, p) => RemoveEnvironmentKeepsInv(db, e, p);
    case CmdToggleEnvironment(e, v) => ToggleEnvironmentKeepsInv(db, e, v);
    case CmdOverride(names) => OverrideKeepsInv(db, names);
  }

  lemma StrategyStepKeepsInv(db: Db, c: Command)
    requires Inv(db) && IsStrategyStep(c)
    ensures Inv(Apply(db, c).db)
  {
    match c
    case CmdCreateStrategy(id, config, ctx) => CreateStrategyKeepsInv(db, id, config, ctx);
    case CmdUpdateStrategy(id, u, ctx) => UpdateStrategyKeepsInv(db, id, u, ctx);
    case CmdDeleteStrategy(id, ctx) => DeleteStrategyKeepsInv(db, id, ctx);
    case CmdUpdateEnabled(p, f, e, v) => UpdateEnabledKeepsInv(db, p, f, e, v);
  }

  lemma ToggleStepKeepsInv(db: Db, c: Command)
    requires Inv(db) && Possible(db, c) && !IsEnvironmentStep(c) && !IsStrategyStep(c)
    ensures Inv(Apply(db, c).db)
  {
    match c
    case CmdCreateToggle(p, f, a, d) => CreateToggleKeepsInv(db, p, f, a, d);
    case CmdUpdateToggle(p, f, a, d) => ToggleDataKeepsInv(db, p, f, a, d);
    case CmdArchive(f) => ArchiveKeepsInv(db, f, true);
    case CmdRevive(f) => ArchiveKeepsInv(db, f, false);
    case CmdDeleteToggle(f) => DeleteKeepsInv(db, f);
    case CmdChangeProject(p, f, ok, cur) => ChangeProjectKeepsInv(db, p, f, ok, cur);
    case CmdClone(s, p, f, r, ids, copied) => CloneKeepsInv(db, s, p, f, r, ids, copied);
  }

  lemma StepKeepsInv(db: Db, c: Command)
    requires Inv(db) && Possible(db, c)
    ensures Inv(Apply(db, c).db)
  {
    if IsEnvironmentStep(c) {
      EnvironmentStepKeepsInv(db, c);
    } else if IsStrategyStep(c) {
      StrategyStepKeepsInv(db, c);
    } else {
      ToggleStepKeepsInv(db, c);
    }
  }

  // ---------- Every run ----------

  /** Environment agreement and strategy ownership hold after every run, whatever its calls are. */
  lemma {:induction false} RunKeepsInv(db: Db, run: seq<Command>)
    requires Inv(db) && RunPossible(db, run)
    ensures EnvironmentAgreement(Run(db, run)) && StrategyOwnership(Run(db, run))
    ensures Inv(Run(db, run))
    decreases |run|
  {
    if run != [] {
      StepKeepsInv(db, run[0]);
      RunKeepsInv(Apply(db, run[0]).db, run[1..]);
    }
  }

  // ---------- Enabled implies strategies ----------

  /** When deleting a strategy leaves its toggle's own environment consistent: the context names that
      environment, or the toggle is off there, or another strategy stays. */
  predicate SafeDelete(db: Db, id: string, ctx: Context)
    requires id in db.strategies
  {
    var s := db.strategies[id];
    var l := FeatureEnv(s.feature, s.environment);
    || ctx.environment == s.environment
    || l !in db.featureEnvs
    || !db.featureEnvs[l]
    || StrategiesIn(db, s.feature, s.environment) != {id}
  }

  predicate Safe(db: Db, c: Command) {
    c.CmdDeleteStrategy? && c.strategy in db.strategies && ContextMatches(db.strategies[c.strategy], c.ctx) ==>
      SafeDelete(db, c.strategy, c.ctx)
  }

  /** The step keeps every strategy in place and enables nothing. */
  ghost predicate Quiet(db: Db, db': Db) {
    && (forall l <- db'.featureEnvs :: db'.featureEnvs[l] ==> l in db.featureEnvs && db.featureEnvs[l])
    && (forall id <- db.strategies ::
          && id in db'.strategies
          && db'.strategies[id].feature == db.strategies[id].feature
          && db'.strategies[id].environment == db.strategies[id].environment)
  }

  lemma QuietStepKeepsEnabled(db: Db, db': Db)
    requires EnabledHasStrategy(db) && Quiet(db, db')
    ensures EnabledHasStrategy(db')
  {
  }

  lemma UpdateEnabledKeepsEnabled(db: Db, project: string, name: string, environment: string, value: bool)
    requires EnabledHasStrategy(db)
    ensures EnabledHasStrategy(UpdateEnabled(db, project, name, environment, value).db)
  {
  }

  lemma DeleteToggleKeepsEnabled(db: Db, name: string)
    requires EnabledHasStrategy(db)
    ensures EnabledHasStrategy(DeleteFeature(db, name).db)
  {
  }

  /** Deleting a strategy keeps the invariant exactly when the deletion is safe. */
  lemma DeleteStrategyKeepsEnabledIff(db: Db, id: string, ctx: Context)
    requires EnabledHasStrategy(db)
    requires id in db.strategies && ContextMatches(db.strategies[id], ctx)
    ensures EnabledHasStrategy(DeleteStrategy(db, id, ctx).db) <==> SafeDelete(db, id, ctx)
  {
    var s := db.strategies[id];
    var own := FeatureEnv(s.feature, s.environment);
    var r := DeleteStrategy(db, id, ctx).db;
    if SafeDelete(db, id, ctx) {
      forall l <- r.featureEnvs | r.featureEnvs[l]
        ensures StrategiesIn(r, l.feature, l.environment) != {}
      {
        assert l in db.featureEnvs && db.featureEnvs[l];
      }
    } else {
      assert own in r.featureEnvs && r.featureEnvs[own];
    }
  }

  lemma EnvironmentStepIsQuiet(db: Db, c: Command)
    requires c.CmdCreateProject? || c.CmdAddEnvironment? || c.CmdRemoveEnvironment? || c.CmdToggleEnvironment?
    ensures Quiet(db, Apply(db, c).db)
  {
  }

  lemma OverrideIsQuiet(db: Db, names: seq<string>)
    ensures Quiet(db, OverrideEnabledProjects(db, names).db)
  {
  }

  lemma ToggleStepIsQuiet(db: Db, c: Command)
    requires c.CmdCreateToggle? || c.CmdUpdateToggle? || c.CmdArchive? || c.CmdRevive? || c.CmdChangeProject?
    ensures Quiet(db, Apply(db, c).db)
  {
  }

  lemma CreateStrategyIsQuiet(db: Db, id: string, config: StrategyConfig, ctx: Context)
    ensures Quiet(db, CreateStrategy(db, id, config, ctx).db)
  {
  }

  lemma UpdateStrategyIsQuiet(db: Db, id: string, u: StrategyUpdate, ctx: Context)
    ensures Quiet(db, UpdateStrategy(db, id, u, ctx).db)
  {
  }

  lemma CloneIsQuiet(db: Db, source: string, project: string, clone: string, replaceGroupId: bool,
                     ids: map<string, string>, copied: CopyResults)
    requires FreshIds(db, ListedStrategies(db, source), ids) && copied.Keys <= ListedStrategies(db, source)
    ensures Quiet(db, CloneToggle(db, source, project, clone, replaceGroupId, ids, copied).db)
  {
    var step := CloneToggle(db, source, project, clone, replaceGroupId, ids, copied);
    if step.outcome == Done {
      assert forall id <- db.strategies :: id in step.db.strategies && step.db.strategies[id] == db.strategies[id];
    }
  }

  lemma OtherStepIsQuiet(db: Db, c: Command)
    requires Possible(db, c) && !c.CmdUpdateEnabled? && !c.CmdDeleteToggle? && !c.CmdDeleteStrategy?
    ensures Quiet(db, Apply(db, c).db)
  {
    match c
    case CmdOverride(names) => OverrideIsQuiet(db, names);
    case CmdClone(s, p, f, r, ids, copied) => CloneIsQuiet(db, s, p, f, r, ids, copied);
    case CmdCreateStrategy(id, config, ctx) => CreateStrategyIsQuiet(db, id, config, ctx);
    case CmdUpdateStrategy(id, u, ctx) => UpdateStrategyIsQuiet(db, id, u, ctx);
    case CmdCreateToggle(_, _, _, _) => ToggleStepIsQuiet(db, c);
    case CmdUpdateToggle(_, _, _, _) => ToggleStepIsQuiet(db, c);
    case CmdArchive(_) => ToggleStepIsQuiet(db, c);
    case CmdRevive(_) => ToggleStepIsQuiet(db, c);
    case CmdChangeProject(_, _, _, _) => ToggleStepIsQuiet(db, c);
    case _ => EnvironmentStepIsQuiet(db, c);
  }

  lemma StepKeepsEnabled(db: Db, c: Command)
    requires Inv(db) && EnabledHasStrategy(db) && Possible(db, c) && Safe(db, c)
    ensures EnabledHasStrategy(Apply(db, c).db)
  {
    match c
    case CmdUpdateEnabled(p, f, e, v) => UpdateEnabledKeepsEnabled(db, p, f, e, v);
    case CmdDeleteToggle(f) => DeleteToggleKeepsEnabled(db, f);
    case CmdDeleteStrategy(id, ctx) =>
      if id in db.strategies && ContextMatches(db.strategies[id], ctx) {
        DeleteStrategyKeepsEnabledIff(db, id, ctx);
      }
    case _ =>
      OtherStepIsQuiet(db, c);
      QuietStepKeepsEnabled(db, Apply(db, c).db);
  }

  ghost predicate RunSafe(db: Db, run: seq<Command>)
    requires RunPossible(db, run)
    decreases |run|
  {
    run == [] || (Safe(db, run[0]) && RunSafe(Apply(db, run[0]).db, run[1..]))
  }

  /** Over every run whose strategy deletions are safe, an enabled toggle has a strategy. */
  lemma {:induction false} RunKeepsEnabled(db: Db, run: seq<Command>)
    requires Inv(db) && EnabledHasStrategy(db) && RunPossible(db, run) && RunSafe(db, run)
    ensures EnabledHasStrategy(Run(db, run))
    decreases |run|
  {
    if run != [] {
      StepKeepsInv(db, run[0]);
      StepKeepsEnabled(db, run[0]);
      RunKeepsEnabled(Apply(db, run[0]).db, run[1..]);
    }
  }
}
