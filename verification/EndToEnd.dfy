/** From a service call to what the APIs answer afterwards. */
module EndToEnd {
  import opened Tables
  import opened Steps
  import opened Invariants
  import AdminFold
  import AdminQuery
  import ClientFold
  import ClientQuery
  import Effects
  import Access
  import Permissions

  ghost predicate Holds(strategies: seq<AdminFold.AdminStrategy>, db: Db, ids: set<string>)
    requires ids <= db.strategies.Keys
  {
    forall s :: multiset(strategies)[s] == if s.id in ids && s == AdminQuery.Stored(db, s.id) then 1 else 0
  }

  /** The toggle view of an environment shows exactly these strategies, each once. */
  ghost predicate Shows(f: AdminFold.AdminFeature, environment: string, db: Db, ids: set<string>)
    requires ids <= db.strategies.Keys
  {
    exists e :: e in f.environments && e.name == Some(environment) && Holds(e.strategies, db, ids)
  }

  lemma ReadEnvironmentHolds(db: Db, name: string, environment: string, e: AdminFold.AdminEnvironment)
    requires AdminQuery.ReadsEnvironment(db, name, e) && e.name == Some(environment)
    ensures Holds(e.strategies, db, StrategiesIn(db, name, environment))
  {
  }

  lemma ViewShows(db: Db, name: string, environment: string, rows: seq<AdminFold.Row>, f: AdminFold.AdminFeature)
    requires Inv(db) && "" !in db.strategies
    requires name in db.features && !db.features[name].archived
    requires ProjectEnv(db.features[name].project, environment) in db.projectEnvs
    requires AdminQuery.IsJoin(db, name, rows) && AdminFold.IsView(rows, f)
    ensures Shows(f, environment, db, StrategiesIn(db, name, environment))
  {
    HasEnvironment(db, name, environment);
    AdminQuery.AdminReadsTables(db, name, rows, f);
    var e :| e in f.environments && e.name == Some(environment);
    ReadEnvironmentHolds(db, name, environment, e);
  }

  lemma HasEnvironment(db: Db, name: string, environment: string)
    requires Inv(db) && name in db.features
    requires ProjectEnv(db.features[name].project, environment) in db.projectEnvs
    ensures environment in FeatureEnvironments(db, name)
  {
  }

  lemma CreatedIsStored(db: Db, id: string, config: StrategyConfig, ctx: Context)
    requires CreateStrategy(db, id, config, ctx).outcome == Done
    ensures var r := CreateStrategy(db, id, config, ctx).db;
            && r == db.(strategies := r.strategies) && id in r.strategies
            && StrategiesIn(r, ctx.feature, ctx.environment) == StrategiesIn(db, ctx.feature, ctx.environment) + {id}
            && AdminQuery.Stored(r, id) ==
               AdminFold.AdminStrategy(id, config.name, config.constraints, config.parameters, config.sortOrder)
            && forall other <- db.strategies :: other in r.strategies && AdminQuery.Stored(r, other) == AdminQuery.Stored(db, other)
  {
  }

  /** A strategy created in an environment of the project is shown there with its configuration, beside those
      shown before. */
  lemma CreatedStrategyIsShown(db: Db, id: string, config: StrategyConfig, ctx: Context,
                               rows: seq<AdminFold.Row>, f: AdminFold.AdminFeature)
    requires Inv(db) && "" !in db.strategies && id != ""
    requires CreateStrategy(db, id, config, ctx).outcome == Done && !db.features[ctx.feature].archived
    requires ProjectEnv(ctx.project, ctx.environment) in db.projectEnvs
    requires AdminQuery.IsJoin(CreateStrategy(db, id, config, ctx).db, ctx.feature, rows) && AdminFold.IsView(rows, f)
    ensures var r := CreateStrategy(db, id, config, ctx).db;
            && Shows(f, ctx.environment, r, StrategiesIn(db, ctx.feature, ctx.environment) + {id})
            && AdminQuery.Stored(r, id) ==
               AdminFold.AdminStrategy(id, config.name, config.constraints, config.parameters, config.sortOrder)
            && forall other <- db.strategies :: AdminQuery.Stored(r, other) == AdminQuery.Stored(db, other)
  {
    CreateStrategyKeepsInv(db, id, config, ctx);
    CreatedIsStored(db, id, config, ctx);
    ViewShows(CreateStrategy(db, id, config, ctx).db, ctx.feature, ctx.environment, rows, f);
  }

  lemma UpdatedIsStored(db: Db, id: string, u: StrategyUpdate, ctx: Context)
    requires UpdateStrategy(db, id, u, ctx).outcome == Done
    ensures id in db.strategies
    ensures var r, environment := UpdateStrategy(db, id, u, ctx).db, db.strategies[id].environment;
            && r == db.(strategies := r.strategies) && r.strategies.Keys == db.strategies.Keys
            && StrategiesIn(r, ctx.feature, environment) == StrategiesIn(db, ctx.feature, environment)
            && AdminQuery.Stored(r, id).name == (if u.name.Some? then u.name.value else AdminQuery.Stored(db, id).name)
            && AdminQuery.Stored(r, id).parameters ==
               (if u.parameters.Some? then u.parameters.value else AdminQuery.Stored(db, id).parameters)
            && AdminQuery.Stored(r, id).constraints == (if u.constraints.Some? then u.constraints.value else [])
            && AdminQuery.Stored(r, id).sortOrder == AdminQuery.Stored(db, id).sortOrder
            && forall other <- db.strategies | other != id :: AdminQuery.Stored(r, other) == AdminQuery.Stored(db, other)
  {
  }

  /** After an update every strategy is shown where it was; the updated one with the given name and parameters,
      or the old ones where none were given, and with the given constraints or none. */
  lemma UpdatedStrategyIsShown(db: Db, id: string, u: StrategyUpdate, ctx: Context,
                               rows: seq<AdminFold.Row>, f: AdminFold.AdminFeature)
    requires Inv(db) && "" !in db.strategies
    requires UpdateStrategy(db, id, u, ctx).outcome == Done && !db.features[ctx.feature].archived
    requires ProjectEnv(ctx.project, db.strategies[id].environment) in db.projectEnvs
    requires AdminQuery.IsJoin(UpdateStrategy(db, id, u, ctx).db, ctx.feature, rows) && AdminFold.IsView(rows, f)
    ensures var r, environment := UpdateStrategy(db, id, u, ctx).db, db.strategies[id].environment;
            && Shows(f, environment, r, StrategiesIn(db, ctx.feature, environment))
            && AdminQuery.Stored(r, id).name == (if u.name.Some? then u.name.value else AdminQuery.Stored(db, id).name)
            && AdminQuery.Stored(r, id).parameters ==
               (if u.parameters.Some? then u.parameters.value else AdminQuery.Stored(db, id).parameters)
            && AdminQuery.Stored(r, id).constraints == (if u.constraints.Some? then u.constraints.value else [])
            && AdminQuery.Stored(r, id).sortOrder == AdminQuery.Stored(db, id).sortOrder
            && forall other <- db.strategies | other != id :: AdminQuery.Stored(r, other) == AdminQuery.Stored(db, other)
  {
    UpdateStrategyKeepsInv(db, id, u, ctx);
    UpdatedIsStored(db, id, u, ctx);
    ViewShows(UpdateStrategy(db, id, u, ctx).db, ctx.feature, db.strategies[id].environment, rows, f);
  }

  /** Over every run, whatever a query returns is selected by it and in a project that exists; what it returns as
      enabled has at least one strategy to evaluate, in an environment of that project. */
  lemma ServedTogglesAreUsable(db: Db, run: seq<Command>, q: ClientQuery.Query, rows: seq<ClientFold.Row>, name: string)
    requires Inv(db) && EnabledHasStrategy(db) && RunPossible(db, run) && RunSafe(db, run)
    requires ClientQuery.RealIds(Run(db, run)) && ClientQuery.IsJoin(Run(db, run), q, rows)
    ensures var out := ClientFold.Fold(rows, false);
            name in out ==>
              && ClientQuery.Selected(Run(db, run), q, name)
              && out[name].columns.project in Run(db, run).projects
              && (out[name].enabled ==>
                    && out[name].strategies != []
                    && ProjectEnv(out[name].columns.project, q.Environment()) in Run(db, run).projectEnvs)
  {
    var r, out := Run(db, run), ClientFold.Fold(rows, false);
    RunKeepsInv(db, run);
    RunKeepsEnabled(db, run);
    ClientQuery.ClientReadsTables(r, q, rows, name);
    if name in out && out[name].enabled {
      var l := FeatureEnv(name, q.Environment());
      assert r.featureEnvs[l];
      var id :| id in StrategiesIn(r, l.feature, l.environment);
    }
  }

  /** Switching a toggle on makes every query that selects it return it as enabled, with exactly its strategies;
      switching it off returns it as disabled. */
  lemma SwitchedToggleIsServed(db: Db, name: string, q: ClientQuery.Query, value: bool, rows: seq<ClientFold.Row>)
    requires Inv(db) && ClientQuery.RealIds(db) && ClientQuery.Selected(db, q, name)
    requires var r := UpdateEnabled(db, db.features[name].project, name, q.Environment(), value);
             r.outcome == Done && ClientQuery.IsJoin(r.db, q, rows)
    ensures var out := ClientFold.Fold(rows, false);
            && name in out && out[name].enabled == value
            && (forall s <- out[name].strategies :: s.id in StrategiesIn(db, name, q.Environment()))
            && (forall id <- StrategiesIn(db, name, q.Environment()) ::
                  exists s :: s in out[name].strategies && s.id == id)
            && (value ==> out[name].strategies != [])
  {
    var environment := q.Environment();
    var r := UpdateEnabled(db, db.features[name].project, name, environment, value).db;
    var out := ClientFold.Fold(rows, false);
    UpdateEnabledKeepsInv(db, db.features[name].project, name, environment, value);
    ClientQuery.ClientReadsTables(r, q, rows, name);
    assert StrategiesIn(r, name, environment) == StrategiesIn(db, name, environment);
    if value {
      var id :| id in StrategiesIn(db, name, environment);
      var s :| s in out[name].strategies && s.id == id;
    }
  }

  /** After archiving or reviving a toggle, exactly the queries for that state whose filters it matches return it. */
  lemma ArchivedToggleIsNotServed(db: Db, name: string, archived: bool, q: ClientQuery.Query, rows: seq<ClientFold.Row>)
    requires Inv(db) && ClientQuery.RealIds(db)
    requires var r := SetArchived(db, name, archived); r.outcome == Done && ClientQuery.IsJoin(r.db, q, rows)
    ensures name in db.features
    ensures name in ClientFold.Fold(rows, false) <==> archived == q.archived && ClientQuery.Matches(db, q, name)
  {
    ArchiveKeepsInv(db, name, archived);
    ClientQuery.ClientReadsTables(SetArchived(db, name, archived).db, q, rows, name);
  }

  /** After an update, exactly the queries for the given archived flag whose filters the toggle matches return it, and
      they return the given data; flag and strategies are read as before. */
  lemma UpdatedToggleIsServed(db: Db, project: string, name: string, archived: bool, data: FeatureData,
                              q: ClientQuery.Query, rows: seq<ClientFold.Row>)
    requires Inv(db) && ClientQuery.RealIds(db)
    requires var r := UpdateToggle(db, project, name, archived, data); r.outcome == Done && ClientQuery.IsJoin(r.db, q, rows)
    ensures name in db.features
    ensures var out := ClientFold.Fold(rows, false);
            && (name in out <==> archived == q.archived && ClientQuery.Matches(db, q, name))
            && (name in out ==>
                  && ClientQuery.HasColumns(out[name].columns, Feature(project, archived, data))
                  && out[name].enabled == (FeatureEnv(name, q.Environment()) in db.featureEnvs &&
                                           db.featureEnvs[FeatureEnv(name, q.Environment())])
                  && ClientQuery.ReadsStrategies(db, q.Environment(), name, out[name].strategies))
  {
    Effects.UpdateToggleIsExact(db, project, name, archived, data);
    var r := UpdateToggle(db, project, name, archived, data).db;
    ClientQuery.ClientReadsTables(r, q, rows, name);
    assert StrategiesIn(r, name, q.Environment()) == StrategiesIn(db, name, q.Environment());
    assert forall s :: ClientQuery.Reads(r, s) <==> ClientQuery.Reads(db, s);
  }

  const MOVE_FEATURE_TOGGLE := "MOVE_FEATURE_TOGGLE"

  /** With the answer of the permission check, a toggle moves exactly when the user holds the permission in the new
      project, through a role or a group, and the rest is in order. */
  lemma MovesIffPermitted(db: Db, newProject: string, feature: string, current: string,
                          g: Access.Grants, user: int, rows: seq<Permissions.PermissionRow>)
    requires Integrity(db) && Permissions.IsQuery(g, user, rows)
    ensures var authorized := Permissions.HasPermission(Some(Permissions.MapRows(rows)), MOVE_FEATURE_TOGGLE, Some(newProject), None);
            ChangeProject(db, newProject, feature, authorized, current).outcome == Done <==>
            && Effects.MayMove(db, newProject, feature, true, current)
            && Permissions.Allowed(g, user, MOVE_FEATURE_TOGGLE, Some(newProject), None)
  {
    var authorized := Permissions.HasPermission(Some(Permissions.MapRows(rows)), MOVE_FEATURE_TOGGLE, Some(newProject), None);
    Permissions.HasPermissionIffAllowed(g, user, rows, MOVE_FEATURE_TOGGLE, Some(newProject), None);
    Effects.ChangeProjectIsExact(db, newProject, feature, authorized, current);
  }
}
