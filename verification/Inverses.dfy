/** Pairs of calls: what the second undoes of the first. */
module Inverses {
  import opened Tables
  import opened Steps
  import opened Invariants

  /** Deleting a strategy right after creating it leaves the tables as they were before both. */
  lemma CreateDeleteStrategy(db: Db, id: string, config: StrategyConfig, ctx: Context)
    requires Inv(db) && EnabledHasStrategy(db)
    requires CreateStrategy(db, id, config, ctx).outcome == Done
    ensures DeleteStrategy(CreateStrategy(db, id, config, ctx).db, id, ctx) == Step(db, Done)
  {
    var created := CreateStrategy(db, id, config, ctx).db;
    var removed := RemoveStrategies(created, {id});
    assert removed.strategies == db.strategies;
  }

  lemma NewLinkHasNoFeatureEnvs(db: Db, environment: string, project: string)
    requires Inv(db) && ProjectEnv(project, environment) !in db.projectEnvs
    ensures forall f <- ProjectFeatures(db, project) :: FeatureEnv(f, environment) !in db.featureEnvs
  {
  }

  /** Removing an environment right after adding it: refused if it is the project's only one, otherwise the
      tables are as before. */
  lemma AddRemoveEnvironment(db: Db, environment: string, project: string)
    requires Inv(db) && AddEnvironmentToProject(db, environment, project).outcome == Done
    ensures var added := AddEnvironmentToProject(db, environment, project).db;
            RemoveEnvironmentFromProject(added, environment, project) ==
            if ProjectEnvironments(db, project) == {} then Step(added, Failed(MinimumOneEnvironment)) else Step(db, Done)
  {
    var added := AddEnvironmentToProject(db, environment, project).db;
    NewLinkHasNoFeatureEnvs(db, environment, project);
    assert ListedEnvironments(added, project) == ProjectEnvironments(db, project) + {environment};
    RowsUndone(db.featureEnvs, set f | f in ProjectFeatures(db, project) :: FeatureEnv(f, environment));
  }

  lemma RowsUndone(rows: map<FeatureEnv, bool>, added: set<FeatureEnv>)
    requires rows.Keys !! added
    ensures WithFeatureEnvs(rows, added) - added == rows
  {
  }

  function FlagsOff(rows: map<FeatureEnv, bool>, off: set<FeatureEnv>): map<FeatureEnv, bool> {
    map l | l in rows :: if l in off then false else rows[l]
  }

  lemma RowsReturn(rows: map<FeatureEnv, bool>, gone: set<FeatureEnv>)
    requires gone <= rows.Keys
    ensures WithFeatureEnvs(rows - gone, gone) == FlagsOff(rows, gone)
  {
  }

  /** Adding an environment back after removing it restores everything but the flags of the project's
      toggles there, which are off. */
  lemma RemoveAddEnvironment(db: Db, environment: string, project: string)
    requires Inv(db) && ProjectEnv(project, environment) in db.projectEnvs
    requires RemoveEnvironmentFromProject(db, environment, project).outcome == Done
    ensures var off := set f | f in ProjectFeatures(db, project) :: FeatureEnv(f, environment);
            AddEnvironmentToProject(RemoveEnvironmentFromProject(db, environment, project).db, environment, project) ==
            Step(db.(featureEnvs := FlagsOff(db.featureEnvs, off)), Done)
  {
    var removed := ForceRemoveEnvironmentFromProject(db, environment, project);
    var rows := set f | f in ProjectFeatures(db, project) :: FeatureEnv(f, environment);
    RowsReturn(db.featureEnvs, rows);
    var connected := ConnectProject(removed, environment, project);
    assert connected == Step(removed.(projectEnvs := db.projectEnvs), Done) by {
      assert removed.projectEnvs + {ProjectEnv(project, environment)} == db.projectEnvs;
    }
  }

  /** A toggle moved to another project and back is where it was, with all its strategies. */
  lemma ChangeProjectBack(db: Db, newProject: string, feature: string, current: string)
    requires Inv(db) && ChangeProject(db, newProject, feature, true, current).outcome == Done
    ensures ChangeProject(ChangeProject(db, newProject, feature, true, current).db, current, feature, true, newProject) ==
            Step(db, Done)
  {
  }

  /** Archiving and deleting a new toggle leaves the tables as they were before it was created. */
  lemma CreateArchiveDelete(db: Db, project: string, name: string, archived: bool, data: FeatureData)
    requires Inv(db) && CreateToggle(db, project, name, archived, data).outcome == Done
    ensures DeleteFeature(SetArchived(CreateToggle(db, project, name, archived, data).db, name, true).db, name) ==
            Step(db, Done)
  {
    var created := CreateToggle(db, project, name, archived, data).db;
    var gone := RemoveFeatures(SetArchived(created, name, true).db, {name});
    assert gone.strategies == db.strategies && gone.strategySegments == db.strategySegments by {
    }
    assert gone.featureTags == db.featureTags;
  }

  /** Switching a toggle on and off again leaves the tables as they were, if it was off. */
  lemma EnableDisable(db: Db, project: string, feature: string, environment: string)
    requires UpdateEnabled(db, project, feature, environment, true).outcome == Done
    ensures FeatureEnv(feature, environment) in db.featureEnvs
    ensures var r := UpdateEnabled(UpdateEnabled(db, project, feature, environment, true).db, project, feature, environment, false);
            r.outcome == Done && (r.db == db <==> !db.featureEnvs[FeatureEnv(feature, environment)])
  {
  }

  /** When a toggle can be switched on: it has the environment, and a strategy there. */
  lemma EnabledIff(db: Db, feature: string, environment: string)
    requires Inv(db) && feature in db.features
    ensures var r := UpdateEnabled(db, db.features[feature].project, feature, environment, true);
            && (r.outcome == Done <==>
                  && ProjectEnv(db.features[feature].project, environment) in db.projectEnvs
                  && StrategiesIn(db, feature, environment) != {})
            && (r.outcome == Done ==>
                  forall l :: l in r.db.featureEnvs <==> l in db.featureEnvs)
  {
  }

  /** A toggle of a new project starts in exactly the environments that were enabled when the project was
      created, off in each. */
  lemma NewProjectsToggle(db: Db, id: string, title: string, name: string, data: FeatureData)
    requires Inv(db) && id !in db.projects && name !in db.features
    ensures var s := CreateToggle(CreateProject(db, id, title).db, id, name, false, data);
            && s.outcome == Done
            && FeatureEnvironments(s.db, name) == (set e | e in db.environments && db.environments[e].enabled)
            && (forall l <- s.db.featureEnvs :: l.feature == name ==> !s.db.featureEnvs[l])
  {
  }

  /** An update with the values a strategy already has changes nothing; whatever it changes, it changes the
      first time. */
  lemma UpdateStrategyTwice(db: Db, id: string, u: StrategyUpdate, ctx: Context)
    requires UpdateStrategy(db, id, u, ctx).outcome == Done
    ensures id in db.strategies
    ensures UpdateStrategy(UpdateStrategy(db, id, u, ctx).db, id, u, ctx) == UpdateStrategy(db, id, u, ctx)
    ensures var c := db.strategies[id].config;
            UpdateStrategy(db, id, StrategyUpdate(Some(c.name), Some(c.constraints), Some(c.parameters)), ctx) == Step(db, Done)
  {
    var once := UpdateStrategy(db, id, u, ctx).db;
    assert once.strategies[id := once.strategies[id]] == once.strategies;
  }

  /** Switching an environment and switching it back restores the tables exactly when the environment is protected,
      and so never changes, or the first switch changed it. */
  lemma SwitchEnvironmentBack(db: Db, name: string, value: bool)
    requires name in db.environments
    ensures ToggleEnvironment(ToggleEnvironment(db, name, value).db, name, !value).db == db <==>
            db.environments[name].isProtected || db.environments[name].enabled == !value
  {
    var e := db.environments[name];
    var r := ToggleEnvironment(ToggleEnvironment(db, name, value).db, name, !value).db;
    if !e.isProtected {
      assert r.environments[name] == e.(enabled := !value);
      assert r.environments == db.environments[name := e.(enabled := !value)];
    }
  }

  /** Updating a toggle and updating it with what it was before restores the tables. */
  lemma UpdateToggleBack(db: Db, project: string, name: string, archived: bool, data: FeatureData)
    requires UpdateToggle(db, project, name, archived, data).outcome == Done
    ensures name in db.features
    ensures var was := db.features[name];
            UpdateToggle(UpdateToggle(db, project, name, archived, data).db, project, name, was.archived, was.data) ==
            Step(db, Done)
  {
    var was := db.features[name];
    assert Feature(project, was.archived, was.data) == was;
    assert db.features[name := Feature(project, archived, data)][name := was] == db.features;
  }
}
