/** What one call does, exactly: when it succeeds, which error it reports otherwise, which rows it changes and
    which it leaves alone. */
module Effects {
  import opened Collections
  import opened Tables
  import opened Steps
  import Exceptions

  /** A call that fails leaves the tables as they were. */
  ghost predicate Refused(db: Db, r: Step, error: Error) {
    r == Step(db, Failed(error))
  }

  // ---------- Projects and environments ----------

  /** A new project is linked to exactly the enabled environments; an id in use is refused. */
  lemma CreateProjectIsExact(db: Db, id: string, name: string)
    ensures var r := CreateProject(db, id, name);
            if id in db.projects then Refused(db, r, NameExists)
            else
              && r.outcome == Done
              && r.db == db.(projects := r.db.projects, projectEnvs := r.db.projectEnvs)
              && r.db.projects.Keys == db.projects.Keys + {id} && r.db.projects[id] == name
              && (forall p <- db.projects :: r.db.projects[p] == db.projects[p])
              && (forall l :: l in r.db.projectEnvs <==>
                              || l in db.projectEnvs
                              || (l.project == id && l.environment in db.environments && db.environments[l.environment].enabled))
  {
  }

  /** A linked environment is a name conflict, a missing project or environment a foreign key failure; otherwise
      the project and each of its toggles get the environment, off where it is new. */
  lemma AddEnvironmentIsExact(db: Db, environment: string, project: string)
    ensures var r, link := AddEnvironmentToProject(db, environment, project), ProjectEnv(project, environment);
            if link in db.projectEnvs then Refused(db, r, NameExists)
            else if project !in db.projects || environment !in db.environments then Refused(db, r, ForeignKeyViolation)
            else
              && r.outcome == Done
              && r.db == db.(projectEnvs := db.projectEnvs + {link}, featureEnvs := r.db.featureEnvs)
              && (forall l :: l in r.db.featureEnvs <==>
                              || l in db.featureEnvs
                              || (l.environment == environment && l.feature in db.features && db.features[l.feature].project == project))
              && (forall l <- r.db.featureEnvs :: r.db.featureEnvs[l] == (l in db.featureEnvs && db.featureEnvs[l]))
  {
  }

  /** Refused unless the project has two environments; otherwise the link and the toggles' rows go, and nothing
      else. */
  lemma RemoveEnvironmentIsExact(db: Db, environment: string, project: string)
    requires Integrity(db)
    ensures var r := RemoveEnvironmentFromProject(db, environment, project);
            if forall a, b :: ProjectEnv(project, a) in db.projectEnvs && ProjectEnv(project, b) in db.projectEnvs ==> a == b
            then Refused(db, r, MinimumOneEnvironment)
            else
              && r.outcome == Done
              && r.db == db.(projectEnvs := db.projectEnvs - {ProjectEnv(project, environment)}, featureEnvs := r.db.featureEnvs)
              && (forall l :: l in r.db.featureEnvs <==>
                              && l in db.featureEnvs
                              && !(l.environment == environment && l.feature in db.features && db.features[l.feature].project == project))
              && (forall l <- r.db.featureEnvs :: r.db.featureEnvs[l] == db.featureEnvs[l])
  {
    var listed := ListedEnvironments(db, project);
    forall e
      ensures e in listed <==> ProjectEnv(project, e) in db.projectEnvs
    {
    }
    MoreThanOneIff(listed);
  }

  /** Only the flag of an unprotected environment changes. */
  lemma ToggleEnvironmentIsExact(db: Db, name: string, value: bool)
    ensures var r := ToggleEnvironment(db, name, value);
            if name !in db.environments then Refused(db, r, NotFound)
            else if db.environments[name].isProtected then r == Step(db, Done)
            else
              && r.outcome == Done && r.db == db.(environments := r.db.environments)
              && r.db.environments.Keys == db.environments.Keys
              && (forall e <- db.environments ::
                    && r.db.environments[e].(enabled := db.environments[e].enabled) == db.environments[e]
                    && r.db.environments[e].enabled == if e == name then value else db.environments[e].enabled)
  {
  }

  /** The default project and projects with active toggles stay; otherwise the project goes with its links. */
  lemma DeleteProjectIsExact(db: Db, id: string)
    ensures var r := Exceptions.DeleteProject(db, id);
            if id == "default" || exists f :: f in db.features && db.features[f].project == id && !db.features[f].archived
            then Refused(db, r, InvalidOperation)
            else
              && r.outcome == Done
              && r.db == db.(projects := db.projects - {id}, projectEnvs := r.db.projectEnvs)
              && (forall l :: l in r.db.projectEnvs <==> l in db.projectEnvs && l.project != id)
  {
  }

  /** Exactly the strategies of the toggle in the environment go, with their segment links; the flag stays. */
  lemma RemoveAllStrategiesIsExact(db: Db, feature: string, environment: string)
    ensures var r := Exceptions.RemoveAllStrategiesForEnv(db, feature, environment);
            && r == db.(strategies := r.strategies, strategySegments := r.strategySegments)
            && (forall id :: id in r.strategies <==>
                             && id in db.strategies
                             && !(db.strategies[id].feature == feature && db.strategies[id].environment == environment))
            && (forall id <- r.strategies :: r.strategies[id] == db.strategies[id])
            && (forall l :: l in r.strategySegments <==>
                            && l in db.strategySegments
                            && !(l.strategy in db.strategies && db.strategies[l.strategy].feature == feature
                                 && db.strategies[l.strategy].environment == environment))
  {
  }

  /** Exactly the strategies of the project in the environment go, with their segment links, and the project's link;
      the toggles keep their rows. */
  lemma DeleteEnvironmentIsExact(db: Db, project: string, environment: string)
    ensures var r := Exceptions.DeleteEnvironment(db, project, environment);
            && r == db.(strategies := r.strategies, strategySegments := r.strategySegments,
                        projectEnvs := db.projectEnvs - {ProjectEnv(project, environment)})
            && (forall id :: id in r.strategies <==>
                             && id in db.strategies
                             && !(db.strategies[id].project == project && db.strategies[id].environment == environment))
            && (forall id <- r.strategies :: r.strategies[id] == db.strategies[id])
            && (forall l :: l in r.strategySegments <==>
                            && l in db.strategySegments
                            && !(l.strategy in db.strategies && db.strategies[l.strategy].project == project
                                 && db.strategies[l.strategy].environment == environment))
  {
  }

  // ---------- Toggles ----------

  /** The rows of toggle environments once `name` has those of `project`. */
  ghost predicate Connected(db: Db, rows: map<FeatureEnv, bool>, name: string, project: string) {
    && (forall l :: l in rows <==>
                    l in db.featureEnvs || (l.feature == name && ProjectEnv(project, l.environment) in db.projectEnvs))
    && (forall l <- rows :: rows[l] == (l in db.featureEnvs && db.featureEnvs[l]))
  }

  /** A name in use is refused, then a missing project; otherwise exactly the given toggle is stored, with its
      project's environments, off. */
  lemma CreateToggleIsExact(db: Db, project: string, name: string, archived: bool, data: FeatureData)
    ensures var r := CreateToggle(db, project, name, archived, data);
            if name in db.features then Refused(db, r, NameExists)
            else if project !in db.projects then Refused(db, r, NotFound)
            else
              && r.outcome == Done
              && r.db == db.(features := r.db.features, featureEnvs := r.db.featureEnvs)
              && r.db.features.Keys == db.features.Keys + {name}
              && r.db.features[name] == Feature(project, archived, data)
              && (forall f <- db.features :: r.db.features[f] == db.features[f])
              && Connected(db, r.db.featureEnvs, name, project)
  {
  }

  /** Everything but one toggle is the same. */
  ghost predicate OnlyToggle(db: Db, after: Db, name: string) {
    && after == db.(features := after.features)
    && after.features.Keys == db.features.Keys
    && forall f <- db.features | f != name :: after.features[f] == db.features[f]
  }

  /** A toggle of another project is refused; otherwise the toggle has the given data and archived flag, and nothing
      else changes. */
  lemma UpdateToggleIsExact(db: Db, project: string, name: string, archived: bool, data: FeatureData)
    ensures var r := UpdateToggle(db, project, name, archived, data);
            if name in db.features && db.features[name].project == project then
              && r.outcome == Done && OnlyToggle(db, r.db, name)
              && r.db.features[name].project == project
              && r.db.features[name].archived == archived && r.db.features[name].data == data
            else Refused(db, r, InvalidOperation)
  {
  }

  /** Archiving and reviving change the flag of one toggle and nothing else. */
  lemma SetArchivedIsExact(db: Db, name: string, archived: bool)
    ensures var r := SetArchived(db, name, archived);
            if name in db.features then
              && r.outcome == Done && OnlyToggle(db, r.db, name)
              && r.db.features[name].archived == archived
              && r.db.features[name].project == db.features[name].project
              && r.db.features[name].data == db.features[name].data
            else Refused(db, r, NotFound)
  {
  }

  /** An active toggle stays although the call succeeds; an archived one goes with its environments, strategies,
      segment links and tags, and nothing else goes. */
  lemma DeleteFeatureIsExact(db: Db, name: string)
    ensures var r := DeleteFeature(db, name);
            if name !in db.features then Refused(db, r, NotFound)
            else if !db.features[name].archived then r == Step(db, Done)
            else
              && r.outcome == Done
              && r.db.features == db.features - {name}
              && (forall l :: l in r.db.featureEnvs <==> l in db.featureEnvs && l.feature != name)
              && (forall l <- r.db.featureEnvs :: r.db.featureEnvs[l] == db.featureEnvs[l])
              && (forall id :: id in r.db.strategies <==> id in db.strategies && db.strategies[id].feature != name)
              && (forall id <- r.db.strategies :: r.db.strategies[id] == db.strategies[id])
              && (forall l :: l in r.db.strategySegments <==>
                              && l in db.strategySegments
                              && !(l.strategy in db.strategies && db.strategies[l.strategy].feature == name))
              && (forall t :: t in r.db.featureTags <==> t in db.featureTags && t.feature != name)
              && r.db == db.(features := r.db.features, featureEnvs := r.db.featureEnvs, strategies := r.db.strategies,
                             strategySegments := r.db.strategySegments, featureTags := r.db.featureTags)
  {
  }

  /** The toggle must have the environment and, to be switched on, a strategy of the named project there; only its
      flag changes. */
  lemma UpdateEnabledIsExact(db: Db, project: string, feature: string, environment: string, enabled: bool)
    ensures var r, l := UpdateEnabled(db, project, feature, environment, enabled), FeatureEnv(feature, environment);
            if l !in db.featureEnvs then Refused(db, r, NotFound)
            else if enabled && !exists id :: id in db.strategies && db.strategies[id].feature == feature
                                             && db.strategies[id].environment == environment && db.strategies[id].project == project
            then Refused(db, r, InvalidOperation)
            else
              && r.outcome == Done && r.db == db.(featureEnvs := r.db.featureEnvs)
              && r.db.featureEnvs.Keys == db.featureEnvs.Keys
              && (forall k <- db.featureEnvs :: r.db.featureEnvs[k] == if k == l then enabled else db.featureEnvs[k])
  {
  }

  /** When a move is carried out: the toggle is in the named project, the new project exists, the caller may move
      toggles there, and it has exactly the toggle's environments. */
  predicate MayMove(db: Db, newProject: string, feature: string, authorized: bool, current: string) {
    && feature in db.features && db.features[feature].project == current
    && newProject in db.projects && authorized
    && forall e <- FeatureEnvironments(db, feature) + ProjectEnvironments(db, newProject) ::
         FeatureEnv(feature, e) in db.featureEnvs && ProjectEnv(newProject, e) in db.projectEnvs
  }

  /** A move succeeds exactly then; it changes the project of the toggle and of its strategies and nothing else. A
      refused move changes nothing, and its error is that of the first condition that fails. */
  lemma ChangeProjectIsExact(db: Db, newProject: string, feature: string, authorized: bool, current: string)
    requires Integrity(db)
    ensures var r := ChangeProject(db, newProject, feature, authorized, current);
            if MayMove(db, newProject, feature, authorized, current) then
              && r.outcome == Done
              && r.db == db.(features := r.db.features, strategies := r.db.strategies)
              && r.db.features.Keys == db.features.Keys && r.db.strategies.Keys == db.strategies.Keys
              && (forall f <- db.features ::
                    r.db.features[f] == if f == feature then Feature(newProject, db.features[f].archived, db.features[f].data)
                                        else db.features[f])
              && (forall id <- db.strategies ::
                    var s := db.strategies[id];
                    r.db.strategies[id] == if s.feature == feature then Strategy(s.feature, newProject, s.environment, s.config) else s)
            else
              Refused(db, r, if feature !in db.features then NotFound
                             else if db.features[feature].project != current then NoAccess
                             else if newProject !in db.projects then NotFound
                             else if !authorized then NoAccess
                             else IncompatibleProject)
  {
    forall e
      ensures e in ListedEnvironments(db, newProject) <==> ProjectEnv(newProject, e) in db.projectEnvs
    {
    }
  }

  // ---------- Strategies ----------

  /** The toggle must be in the named project, the id unused, the environment known; exactly the given strategy is
      added. */
  lemma CreateStrategyIsExact(db: Db, id: string, config: StrategyConfig, ctx: Context)
    ensures var r := CreateStrategy(db, id, config, ctx);
            if !(ctx.feature in db.features && db.features[ctx.feature].project == ctx.project) then
              Refused(db, r, InvalidOperation)
            else if id in db.strategies then Refused(db, r, UniqueViolation)
            else if ctx.environment !in db.environments then Refused(db, r, BadData)
            else
              && r.outcome == Done && r.db == db.(strategies := r.db.strategies)
              && r.db.strategies.Keys == db.strategies.Keys + {id}
              && r.db.strategies[id] == Strategy(ctx.feature, ctx.project, ctx.environment, config)
              && (forall other <- db.strategies :: r.db.strategies[other] == db.strategies[other])
  {
  }

  /** The strategy must be that of the named toggle and project; it stays where it is. */
  lemma UpdateStrategyIsExact(db: Db, id: string, u: StrategyUpdate, ctx: Context)
    ensures var r := UpdateStrategy(db, id, u, ctx);
            if id !in db.strategies then Refused(db, r, NotFound)
            else if db.strategies[id].project != ctx.project || db.strategies[id].feature != ctx.feature then
              Refused(db, r, InvalidOperation)
            else
              && r.outcome == Done && r.db == db.(strategies := r.db.strategies)
              && r.db.strategies.Keys == db.strategies.Keys
              && r.db.strategies[id].(config := db.strategies[id].config) == db.strategies[id]
              && r.db.strategies[id].config.sortOrder == db.strategies[id].config.sortOrder
              && (forall other <- db.strategies | other != id :: r.db.strategies[other] == db.strategies[other])
  {
  }

  /** The toggle has a strategy other than this one in the environment. */
  predicate HasAnother(db: Db, id: string, ctx: Context) {
    exists other :: other in db.strategies && other != id
                    && db.strategies[other].feature == ctx.feature && db.strategies[other].environment == ctx.environment
  }

  lemma NoneLeftIff(db: Db, id: string, ctx: Context)
    ensures StrategiesIn(RemoveStrategies(db, {id}), ctx.feature, ctx.environment) == {} <==> !HasAnother(db, id, ctx)
  {
    var removed := RemoveStrategies(db, {id});
    if other :| other in db.strategies && other != id && db.strategies[other].feature == ctx.feature
                && db.strategies[other].environment == ctx.environment {
      assert other in StrategiesIn(removed, ctx.feature, ctx.environment);
    }
  }

  /** The strategy must be that of the named toggle and project; it goes with its segment links, and the toggle is
      switched off in the environment of the context if it has no strategy left there. */
  lemma DeleteStrategyIsExact(db: Db, id: string, ctx: Context)
    ensures var r, l := DeleteStrategy(db, id, ctx), FeatureEnv(ctx.feature, ctx.environment);
            if id !in db.strategies then Refused(db, r, NotFound)
            else if db.strategies[id].project != ctx.project || db.strategies[id].feature != ctx.feature then
              Refused(db, r, InvalidOperation)
            else
              && r.outcome == Done
              && r.db == db.(strategies := db.strategies - {id}, strategySegments := r.db.strategySegments,
                             featureEnvs := r.db.featureEnvs)
              && (forall x :: x in r.db.strategySegments <==> x in db.strategySegments && x.strategy != id)
              && r.db.featureEnvs.Keys == db.featureEnvs.Keys
              && (forall k <- db.featureEnvs ::
                    r.db.featureEnvs[k] == (db.featureEnvs[k] && (k == l ==> HasAnother(db, id, ctx))))
  {
    NoneLeftIff(db, id, ctx);
  }

  /** A segment is added to an existing strategy below the limit, once; only its link is new. */
  lemma AddSegmentIsExact(db: Db, limit: nat, segment: int, strategy: string)
    requires Integrity(db)
    ensures var r, l := AddSegmentToStrategy(db, limit, segment, strategy), StrategySegment(strategy, segment);
            if |SegmentsOf(db, strategy)| >= limit then Refused(db, r, BadData)
            else if l in db.strategySegments then Refused(db, r, UniqueViolation)
            else if strategy !in db.strategies || segment !in db.segments then Refused(db, r, ForeignKeyViolation)
            else r == Step(db.(strategySegments := db.strategySegments + {l}), Done)
  {
    assert ListedSegments(db, strategy) == SegmentsOf(db, strategy) by {
      forall g <- SegmentsOf(db, strategy)
        ensures g in db.segments
      {
        assert StrategySegment(strategy, g) in db.strategySegments;
      }
    }
  }

  /** When a clone is refused: the name is taken, the source is missing or archived, or the project is missing. */
  lemma CloneSucceedsIff(db: Db, source: string, project: string, clone: string, replaceGroupId: bool,
                         ids: map<string, string>, copied: CopyResults)
    requires FreshIds(db, ListedStrategies(db, source), ids) && copied.Keys <= ListedStrategies(db, source)
    ensures var r := CloneToggle(db, source, project, clone, replaceGroupId, ids, copied);
            if clone in db.features then Refused(db, r, NameExists)
            else if !(source in db.features && !db.features[source].archived && project in db.projects) then
              Refused(db, r, NotFound)
            else r.outcome == Done
  {
  }
}
