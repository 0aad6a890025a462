/** The admin query over the tables: what the toggle view and the legacy view read back. */
module AdminQuery {
  import opened Tables
  import opened AdminFold

  /** The keys of one row: an environment of the toggle, a strategy of it there. */
  datatype Key = Key(environment: Option<string>, strategy: Option<string>)

  predicate KeyExists(db: Db, name: string, k: Key) {
    && name in db.features
    && (k.environment.Some? ==>
          FeatureEnv(name, k.environment.value) in db.featureEnvs && k.environment.value in db.environments)
    && (k.strategy.Some? ==> k.strategy.value in db.strategies)
  }

  /** The left joins: a toggle without environments gives one row, and so does an environment without
      strategies. */
  ghost predicate InJoin(db: Db, name: string, k: Key) {
    && KeyExists(db, name, k)
    && (match k.environment
        case None => FeatureEnvironments(db, name) == {} && k.strategy == None
        case Some(e) =>
          match k.strategy
          case None => StrategiesIn(db, name, e) == {}
          case Some(id) => id in StrategiesIn(db, name, e))
  }

  function Stored(db: Db, id: string): AdminStrategy
    requires id in db.strategies
  {
    var c := db.strategies[id].config;
    AdminStrategy(id, c.name, c.constraints, c.parameters, c.sortOrder)
  }

  function RowOf(db: Db, name: string, k: Key): Row
    requires KeyExists(db, name, k)
  {
    var s := if k.strategy.Some? then Stored(db, k.strategy.value) else AdminStrategy("", "", [], map[], 0);
    Row(Columns(db.features[name].project, db.features[name].data),
        k.environment,
        if k.environment.Some? then Some(db.featureEnvs[FeatureEnv(name, k.environment.value)]) else None,
        if k.environment.Some? then db.environments[k.environment.value].kind else "",
        if k.environment.Some? then db.environments[k.environment.value].sortOrder else 0,
        k.strategy, s.name, s.parameters, if k.strategy.Some? then Some(s.constraints) else None, s.sortOrder)
  }

  ghost predicate KeyOf(db: Db, name: string, r: Row, k: Key) {
    InJoin(db, name, k) && r == RowOf(db, name, k)
  }

  /** The rows of the query for an active toggle, each once, in any order. */
  ghost predicate IsJoin(db: Db, name: string, rows: seq<Row>) {
    if name in db.features && !db.features[name].archived then
      && (forall r <- rows :: multiset(rows)[r] == 1 && exists k :: KeyOf(db, name, r, k))
      && (forall k | InJoin(db, name, k) :: RowOf(db, name, k) in rows)
    else
      rows == []
  }

  lemma JoinIsConsistent(db: Db, name: string, rows: seq<Row>)
    requires IsJoin(db, name, rows)
    ensures Consistent(rows)
  {
  }

  /** A strategy is joined as often as the only row that yields it occurs. */
  lemma {:induction false} JoinedCount(rows: seq<Row>, environment: Option<string>, s: AdminStrategy, row: Row)
    requires row.HasStrategy() && row.environment == environment && GetAdminStrategy(row) == s
    requires forall r <- rows :: r.environment == environment && r.HasStrategy() && GetAdminStrategy(r) == s ==> r == row
    ensures multiset(JoinedStrategies(rows, environment))[s] == multiset(rows)[row]
  {
    if rows != [] {
      assert rows == rows[..|rows| - 1] + [rows[|rows| - 1]];
      JoinedCount(rows[..|rows| - 1], environment, s, row);
    }
  }

  lemma {:induction false} NotJoined(rows: seq<Row>, environment: Option<string>, s: AdminStrategy)
    requires forall r <- rows :: r.environment == environment && r.HasStrategy() ==> GetAdminStrategy(r) != s
    ensures s !in JoinedStrategies(rows, environment)
  {
    if rows != [] {
      NotJoined(rows[..|rows| - 1], environment, s);
    }
  }

  /** The query joins to an environment each of its stored strategies once. */
  lemma JoinedAreStored(db: Db, name: string, rows: seq<Row>, e: string, s: AdminStrategy)
    requires Integrity(db) && "" !in db.strategies
    requires name in db.features && !db.features[name].archived && IsJoin(db, name, rows)
    requires e in FeatureEnvironments(db, name)
    ensures multiset(JoinedStrategies(rows, Some(e)))[s] ==
            if s.id in StrategiesIn(db, name, e) && s == Stored(db, s.id) then 1 else 0
  {
    if s.id in StrategiesIn(db, name, e) && s == Stored(db, s.id) {
      var k := Key(Some(e), Some(s.id));
      var row := RowOf(db, name, k);
      JoinedCount(rows, Some(e), s, row);
    } else {
      NotJoined(rows, Some(e), s);
    }
  }

  lemma JoinCovers(db: Db, name: string, rows: seq<Row>, e: string)
    requires Integrity(db) && name in db.features && !db.features[name].archived && IsJoin(db, name, rows)
    ensures e in FeatureEnvironments(db, name) <==> exists r :: r in rows && r.environment == Some(e)
  {
    if e in FeatureEnvironments(db, name) {
      var k := Key(Some(e), None);
      if StrategiesIn(db, name, e) != {} {
        var id :| id in StrategiesIn(db, name, e);
        k := Key(Some(e), Some(id));
      }
      assert InJoin(db, name, k);
    }
  }

  /** An environment of the view holds the stored flag and exactly the stored strategies, each once. */
  ghost predicate ReadsEnvironment(db: Db, name: string, e: AdminEnvironment) {
    && e.name.Some?
    && FeatureEnv(name, e.name.value) in db.featureEnvs
    && e.enabled == Some(db.featureEnvs[FeatureEnv(name, e.name.value)])
    && (forall s :: multiset(e.strategies)[s] ==
                    if s.id in StrategiesIn(db, name, e.name.value) && s == Stored(db, s.id) then 1 else 0)
  }

  lemma EnvironmentReads(db: Db, name: string, rows: seq<Row>, e: AdminEnvironment)
    requires Integrity(db) && "" !in db.strategies
    requires name in db.features && !db.features[name].archived && FeatureEnvironments(db, name) != {}
    requires IsJoin(db, name, rows) && EnvironmentMeans(rows, e)
    ensures ReadsEnvironment(db, name, e)
  {
    forall s
      ensures multiset(e.strategies)[s] ==
              if s.id in StrategiesIn(db, name, e.name.value) && s == Stored(db, s.id) then 1 else 0
    {
      JoinedAreStored(db, name, rows, e.name.value, s);
    }
  }

  /** The admin API returns an active toggle with exactly its environments, their flags and their
      strategies. */
  lemma AdminReadsTables(db: Db, name: string, rows: seq<Row>, f: AdminFeature)
    requires Integrity(db) && "" !in db.strategies
    requires name in db.features && !db.features[name].archived && FeatureEnvironments(db, name) != {}
    requires IsJoin(db, name, rows) && IsView(rows, f)
    ensures f.columns.project == db.features[name].project && f.columns.data == db.features[name].data
    ensures forall e <- f.environments :: ReadsEnvironment(db, name, e)
    ensures forall e <- FeatureEnvironments(db, name) :: exists v :: v in f.environments && v.name == Some(e)
  {
    ViewMeans(rows, f);
    assert rows[0] in rows;
    forall e <- f.environments
      ensures ReadsEnvironment(db, name, e)
    {
      EnvironmentReads(db, name, rows, e);
    }
    forall e <- FeatureEnvironments(db, name)
      ensures exists v :: v in f.environments && v.name == Some(e)
    {
      JoinCovers(db, name, rows, e);
    }
  }

  // ---------- The legacy view ----------

  datatype LegacyView = LegacyView(enabled: bool, strategies: seq<AdminStrategy>)

  function FindEnvironment(es: seq<AdminEnvironment>, name: string): (r: Option<AdminEnvironment>)
    ensures r.Some? ==> r.value in es && r.value.name == Some(name)
    ensures r == None ==> forall e <- es :: e.name != Some(name)
  {
    if es == [] then None
    else if es[0].name == Some(name) then Some(es[0])
    else FindEnvironment(es[1..], name)
  }

  /** The flag and strategies of the default environment; off and empty without one. */
  function GetFeatureToggleLegacy(f: AdminFeature): LegacyView {
    match FindEnvironment(f.environments, DEFAULT_ENV)
    case None => LegacyView(false, [])
    case Some(e) => LegacyView(e.enabled == Some(true), e.strategies)
  }

  /** The legacy view of a toggle in the default environment reads that environment's row. */
  lemma LegacyReadsDefault(db: Db, name: string, rows: seq<Row>, f: AdminFeature)
    requires Integrity(db) && "" !in db.strategies
    requires name in db.features && !db.features[name].archived
    requires FeatureEnv(name, DEFAULT_ENV) in db.featureEnvs
    requires IsJoin(db, name, rows) && IsView(rows, f)
    ensures var v := GetFeatureToggleLegacy(f);
            && v.enabled == db.featureEnvs[FeatureEnv(name, DEFAULT_ENV)]
            && forall s :: multiset(v.strategies)[s] ==
                           if s.id in StrategiesIn(db, name, DEFAULT_ENV) && s == Stored(db, s.id) then 1 else 0
  {
    AdminReadsTables(db, name, rows, f);
  }

  /** A toggle without the default environment shows as off and without strategies. */
  lemma LegacyWithoutDefault(db: Db, name: string, rows: seq<Row>, f: AdminFeature)
    requires name in db.features && !db.features[name].archived
    requires FeatureEnv(name, DEFAULT_ENV) !in db.featureEnvs
    requires IsJoin(db, name, rows) && IsView(rows, f)
    ensures GetFeatureToggleLegacy(f) == LegacyView(false, [])
  {
    JoinIsConsistent(db, name, rows);
    ViewMeans(rows, f);
    forall e <- f.environments
      ensures e.name != Some(DEFAULT_ENV)
    {
      var r :| r in rows && r.environment == e.name;
      var k :| KeyOf(db, name, r, k);
    }
  }
}
