/** Import and export on the tables, statement by statement, proved against StateImport and against the
    meaning of an export document. */
module StateService {
  import opened Tables
  import opened Stores
  import opened StateImport
  import RoundTrip = StateRoundTrip

  // ---------- Lists ----------

  function Where<T>(s: seq<T>, p: T -> bool): seq<T> {
    if s == [] then []
    else Where(s[..|s| - 1], p) + if p(s[|s| - 1]) then [s[|s| - 1]] else []
  }

  lemma {:induction false} WhereKeepsOrder<K(!new), V(!new)>(s: seq<Row<K, V>>, p: Row<K, V> -> bool)
    requires RoundTrip.KeysDistinct(s)
    ensures RoundTrip.KeysDistinct(Where(s, p))
    ensures forall x :: x in Where(s, p) <==> x in s && p(x)
  {
    if s != [] {
      var front, last := s[..|s| - 1], s[|s| - 1];
      WhereKeepsOrder(front, p);
      var kept := Where(front, p);
      forall i | 0 <= i < |kept|
        ensures kept[i].key != last.key
      {
        assert kept[i] in front;
      }
    }
  }

  /** The rows of a table that satisfy a condition list the part of the table that satisfies it. */
  lemma WhereLists<K(!new), V(!new)>(rows: seq<Row<K, V>>, m: map<K, V>, p: Row<K, V> -> bool)
    requires RoundTrip.ListsMap(rows, m)
    ensures RoundTrip.ListsMap(Where(rows, p), map k | k in m && p(Row(k, m[k])) :: m[k])
  {
    WhereKeepsOrder(rows, p);
    var kept := Where(rows, p);
    forall i | 0 <= i < |kept|
      ensures kept[i].key in m && kept[i].value == m[kept[i].key] && p(kept[i])
    {
      assert kept[i] in rows;
    }
  }

  lemma ListsOneMore<K(!new), V(!new)>(rows: seq<Row<K, V>>, m: map<K, V>, k: K, v: V)
    requires RoundTrip.ListsMap(rows, m) && k !in m
    ensures RoundTrip.ListsMap(rows + [Row(k, v)], m[k := v])
  {
    var more := rows + [Row(k, v)];
    forall x <- m[k := v]
      ensures RoundTrip.HasKey(more, x)
    {
      if x == k {
        assert more[|rows|].key == k;
      } else {
        var i :| 0 <= i < |rows| && rows[i].key == x;
        assert more[i].key == x;
      }
    }
  }

  /** SELECT * of a keyed table, in any order. */
  method SelectMap<K(==, !new), V(!new)>(m: map<K, V>) returns (rows: seq<Row<K, V>>)
    ensures RoundTrip.ListsMap(rows, m)
  {
    rows := [];
    var pending, seen := m.Keys, map[];
    while pending != {}
      invariant pending <= m.Keys && seen == m - pending
      invariant RoundTrip.ListsMap(rows, seen)
      decreases pending
    {
      var k :| k in pending;
      ListsOneMore(rows, seen, k, m[k]);
      rows, seen, pending := rows + [Row(k, m[k])], seen[k := m[k]], pending - {k};
    }
  }

  /** SELECT * of a table without further columns, in any order. */
  method SelectSet<T(==, !new)>(xs: set<T>) returns (s: seq<T>)
    ensures RoundTrip.ListsSet(s, xs)
  {
    s := [];
    var pending := xs;
    while pending != {}
      invariant pending <= xs
      invariant RoundTrip.ListsSet(s, xs - pending)
      decreases pending
    {
      var x :| x in pending;
      s, pending := s + [x], pending - {x};
    }
  }

  lemma PrefixGrows<T>(s: seq<T>, i: nat)
    requires i < |s|
    ensures s[..i + 1][..i] == s[..i] && s[..i + 1][i] == s[i]
  {
  }

  method InsertRows<K(==), V>(m: map<K, V>, rows: seq<Row<K, V>>) returns (r: map<K, V>)
    ensures r == InsertIgnore(m, rows)
  {
    r := m;
    for i := 0 to |rows|
      invariant r == InsertIgnore(m, rows[..i])
    {
      PrefixGrows(rows, i);
      if rows[i].key !in r {
        r := r[rows[i].key := rows[i].value];
      }
    }
    assert rows[..|rows|] == rows;
  }

  /** Changes every entry of a list in place. */
  method ForEach<T>(s: seq<T>, f: T -> T) returns (r: seq<T>)
    ensures |r| == |s| && forall i | 0 <= i < |s| :: r[i] == f(s[i])
  {
    r := s;
    for i := 0 to |s|
      invariant |r| == |s|
      invariant forall j | 0 <= j < i :: r[j] == f(s[j])
      invariant forall j | i <= j < |s| :: r[j] == s[j]
    {
      r := r[i := f(r[i])];
    }
  }

  predicate Names<V(==)>(features: seq<Row<string, V>>, name: string) {
    exists f <- features :: f.key == name
  }

  lemma NamesAreKeys<V(!new)>(features: seq<Row<string, V>>, m: map<string, V>, name: string)
    requires RoundTrip.ListsMap(features, m)
    ensures Names(features, name) <==> name in m
  {
  }

  function ToDoc(r: Row<string, Strategy>): StrategyDoc {
    var s := r.value;
    StrategyDoc(Some(r.key), s.feature, s.project, s.environment, s.config.name, s.config.constraints, s.config.parameters)
  }

  function ToDocs(rows: seq<Row<string, Strategy>>): seq<StrategyDoc> {
    seq(|rows|, i requires 0 <= i < |rows| => ToDoc(rows[i]))
  }

  /** A strategy written to a document comes back without its sort order. */
  lemma DocsListStrategies(db: Db, rows: seq<Row<string, Strategy>>, active: map<string, Strategy>)
    requires RoundTrip.ListsMap(rows, active)
    requires active.Keys == RoundTrip.ExportedStrategies(db).Keys
    requires forall id <- active :: id in db.strategies && active[id] == db.strategies[id]
    ensures RoundTrip.ListsStrategies(ToDocs(rows), RoundTrip.ExportedStrategies(db))
  {
    var written := RoundTrip.StrategyRows(ToDocs(rows), _ => "");
    forall i | 0 <= i < |rows|
      ensures written[i].key == rows[i].key && written[i].value == RoundTrip.WithoutSortOrder(rows[i].value)
    {
    }
    forall id <- RoundTrip.ExportedStrategies(db)
      ensures RoundTrip.HasKey(written, id)
    {
    }
  }

  /** The rows whose toggle is listed. */
  function OfNamed(features: seq<Row<string, FeatureDoc>>, rows: seq<Row<string, Strategy>>): seq<Row<string, Strategy>> {
    Where(rows, (r: Row<string, Strategy>) => Names(features, r.value.feature))
  }

  function OnNamed(features: seq<Row<string, FeatureDoc>>, rows: seq<Row<FeatureEnv, bool>>): seq<Row<FeatureEnv, bool>> {
    Where(rows, (r: Row<FeatureEnv, bool>) => Names(features, r.key.feature))
  }

  lemma StrategiesOfNamed(db: Db, features: seq<Row<string, FeatureDoc>>, rows: seq<Row<string, Strategy>>)
    requires RoundTrip.ListsMap(features, RoundTrip.ExportedFeatures(db)) && RoundTrip.ListsMap(rows, db.strategies)
    ensures RoundTrip.ListsStrategies(ToDocs(OfNamed(features, rows)), RoundTrip.ExportedStrategies(db))
  {
    var named := (r: Row<string, Strategy>) => Names(features, r.value.feature);
    WhereLists(rows, db.strategies, named);
    forall name
      ensures Names(features, name) <==> name in ActiveFeatures(db)
    {
      NamesAreKeys(features, RoundTrip.ExportedFeatures(db), name);
    }
    DocsListStrategies(db, OfNamed(features, rows),
                       map k | k in db.strategies && named(Row(k, db.strategies[k])) :: db.strategies[k]);
  }

  lemma FeatureEnvsOfNamed(db: Db, features: seq<Row<string, FeatureDoc>>, rows: seq<Row<FeatureEnv, bool>>)
    requires RoundTrip.ListsMap(features, RoundTrip.ExportedFeatures(db)) && RoundTrip.ListsMap(rows, db.featureEnvs)
    ensures RoundTrip.ListsMap(OnNamed(features, rows), RoundTrip.ExportedFeatureEnvs(db))
  {
    var named := (r: Row<FeatureEnv, bool>) => Names(features, r.key.feature);
    WhereLists(rows, db.featureEnvs, named);
    forall name
      ensures Names(features, name) <==> name in ActiveFeatures(db)
    {
      NamesAreKeys(features, RoundTrip.ExportedFeatures(db), name);
    }
    assert RoundTrip.ExportedFeatureEnvs(db) ==
           map k | k in db.featureEnvs && named(Row(k, db.featureEnvs[k])) :: db.featureEnvs[k];
  }

  class StateService {
    const db: Database

    constructor (db: Database)
      ensures this.db == db
    {
      this.db := db;
    }

    method ReplaceGlobalEnvWithDefaultEnv(doc: Document) returns (data: Document)
      ensures data == StateImport.ReplaceGlobalEnvWithDefaultEnv(doc)
    {
      data := doc;
      if data.environments.Some? {
        var es := ForEach(data.environments.value, (e: Row<string, Environment>) => e.(key := Renamed(e.key)));
        data := data.(environments := Some(es));
      }
      if data.featureEnvironments.Some? {
        var fes := ForEach(data.featureEnvironments.value,
                           (e: Row<FeatureEnv, bool>) => e.(key := e.key.(environment := Renamed(e.key.environment))));
        data := data.(featureEnvironments := Some(fes));
      }
      if data.featureStrategies.Some? {
        var ss := ForEach(data.featureStrategies.value, (s: StrategyDoc) => s.(environment := Renamed(s.environment)));
        data := data.(featureStrategies := Some(ss));
      }
      var renamed := StateImport.ReplaceGlobalEnvWithDefaultEnv(doc);
      assert data.environments.Some? ==> data.environments.value == renamed.environments.value;
      assert data.featureEnvironments.Some? ==> data.featureEnvironments.value == renamed.featureEnvironments.value;
      assert data.featureStrategies.Some? ==> data.featureStrategies.value == renamed.featureStrategies.value;
    }

    method ImportEnvironments(rows: seq<Row<string, Environment>>, drop: bool, keep: bool)
      modifies db
      ensures db.State() == StateImport.ImportEnvironments(old(db.State()), rows, drop, keep)
    {
      var existing := if drop then {} else db.environments.Keys;
      if drop {
        db.environments, db.projectEnvs, db.featureEnvs := map[], {}, map[];
        db.strategies, db.strategySegments := map[], {};
      }
      db.environments := InsertRows(db.environments, if keep then Unseen(rows, existing) else rows);
    }

    /** Creates the toggle if the name is free, then stores the variants. */
    method ImportFeature(name: string, f: Feature) returns (o: Outcome)
      modifies db`features
      ensures Step(db.State(), o) == StateImport.ImportFeature(old(db.State()), Row(name, FeatureDoc(f, false, None)))
    {
      if name !in db.features {
        db.features := db.features[name := f];
      }
      var stored := db.features[name];
      if stored.project != f.project {
        return Failed(NotFound);
      }
      db.features := db.features[name := stored.(data := stored.data.(variants := f.data.variants))];
      return Done;
    }

    method ImportFeatures(rows: seq<Row<string, FeatureDoc>>, drop: bool, keep: bool) returns (o: Outcome)
      modifies db
      ensures Step(db.State(), o) == StateImport.ImportFeatures(old(db.State()), rows, drop, keep)
    {
      var existing := if drop then {} else ActiveFeatures(db.State());
      if drop {
        db.DeleteFeatures(db.features.Keys);
      }
      o := ImportFeatureRows(if keep then Unseen(rows, existing) else rows);
    }

    /** The tasks of the import, one per toggle; the first failure is reported. */
    method ImportFeatureRows(rows: seq<Row<string, FeatureDoc>>) returns (o: Outcome)
      modifies db`features
      ensures Step(db.State(), o) == StateImport.ImportFeatureRows(old(db.State()), rows)
    {
      ghost var start := db.State();
      o := Done;
      for i := 0 to |rows|
        invariant Step(db.State(), o) == StateImport.ImportFeatureRows(start, rows[..i])
      {
        PrefixGrows(rows, i);
        var task := ImportFeature(rows[i].key, rows[i].value.feature);
        o := First(o, task);
      }
      assert rows[..|rows|] == rows;
    }

    /** INSERT ... ON CONFLICT DO UPDATE of one flag. */
    method AddEnvironmentToFeature(l: FeatureEnv, enabled: bool) returns (o: Outcome)
      modifies db`featureEnvs
      ensures Step(db.State(), o) == UpsertFeatureEnv(old(db.State()), Row(l, enabled))
    {
      if l.feature !in db.features || l.environment !in db.environments {
        return Failed(ForeignKeyViolation);
      }
      db.featureEnvs := db.featureEnvs[l := enabled];
      return Done;
    }

    method ImportFeatureEnvironments(rows: seq<Row<FeatureEnv, bool>>) returns (o: Outcome)
      modifies db
      ensures Step(db.State(), o) == StateImport.ImportFeatureEnvironments(old(db.State()), rows)
    {
      ghost var start := db.State();
      o := Done;
      for i := 0 to |rows|
        invariant Step(db.State(), o) == StateImport.ImportFeatureEnvironments(start, rows[..i])
      {
        PrefixGrows(rows, i);
        var task := AddEnvironmentToFeature(rows[i].key, rows[i].value);
        o := First(o, task);
      }
      assert rows[..|rows|] == rows;
    }

    method ImportFeatureStrategies(rows: Option<seq<StrategyDoc>>, drop: bool, keep: bool, uuid: nat -> string)
      returns (o: Outcome)
      modifies db
      ensures Step(db.State(), o) == StateImport.ImportFeatureStrategies(old(db.State()), rows, drop, keep, uuid)
    {
      var existing := if drop then {} else db.strategies.Keys;
      if drop {
        db.DeleteStrategies(db.strategies.Keys);
      }
      if rows == None {
        return Failed(TypeError);
      }
      ghost var start := db.State();
      var ss, skip := rows.value, if keep then existing else {};
      o := Done;
      for i := 0 to |ss|
        invariant Step(db.State(), o) == InsertStrategies(start, ss[..i], uuid, skip)
      {
        PrefixGrows(ss, i);
        if !Skipped(ss[i], skip) {
          var task := db.InsertStrategy(IdOf(ss[i], i, uuid), StrategyRow(ss[i]));
          o := First(o, task);
        }
      }
      assert ss[..|ss|] == ss;
    }

    method ImportProjects(rows: seq<Row<string, string>>, drop: bool, keep: bool) returns (o: Outcome)
      modifies db
      ensures Step(db.State(), o) == StateImport.ImportProjects(old(db.State()), rows, drop, keep)
    {
      var existing := if drop then {} else db.projects.Keys;
      if drop {
        db.projects, db.projectEnvs := map[], {};
      }
      var projects := InsertRows(db.projects, if keep then Unseen(rows, existing) else rows);
      var inserted := projects.Keys - db.projects.Keys;
      db.projects := projects;
      if inserted == {} {
        return Done;
      }
      if DEFAULT_ENV !in db.environments {
        return Failed(ForeignKeyViolation);
      }
      db.projectEnvs := db.projectEnvs + DefaultLinks(inserted);
      return Done;
    }

    method ImportTagData(tagTypes: seq<Row<string, string>>, tags: seq<Tag>, featureTags: set<FeatureTag>,
                         drop: bool, keep: bool) returns (o: Outcome)
      modifies db
      ensures Step(db.State(), o) == StateImport.ImportTagData(old(db.State()), tagTypes, tags, featureTags, drop, keep)
    {
      var oldTypes := if drop then {} else db.tagTypes.Keys;
      var oldTags, oldFeatureTags := if drop then {} else db.tags, if drop then {} else db.featureTags;
      if drop {
        db.featureTags, db.tags, db.tagTypes := {}, {}, map[];
      }
      db.tagTypes := InsertRows(db.tagTypes, if keep then Unseen(tagTypes, oldTypes) else tagTypes);
      var newTags := NewTags(tags, oldTags, keep);
      if exists t <- newTags :: t.kind !in db.tagTypes {
        return Failed(ForeignKeyViolation);
      }
      db.tags := db.tags + newTags;
      var newFeatureTags := NewFeatureTags(featureTags, oldFeatureTags, keep);
      if exists t <- newFeatureTags :: t.feature !in db.features || t.tag !in db.tags {
        return Failed(ForeignKeyViolation);
      }
      db.featureTags := db.featureTags + newFeatureTags;
      return Done;
    }

    method ImportSegments(rows: seq<Row<int, Segment>>, drop: bool) returns (o: Outcome)
      modifies db
      ensures Step(db.State(), o) == StateImport.ImportSegments(old(db.State()), rows, drop)
    {
      if drop {
        db.segments, db.strategySegments := map[], {};
      }
      ghost var start := db.State();
      o := Done;
      for i := 0 to |rows|
        invariant Step(db.State(), o) == InsertSegments(start, rows[..i])
      {
        PrefixGrows(rows, i);
        if rows[i].key in db.segments {
          o := First(o, Failed(UniqueViolation));
        } else {
          db.segments := db.segments[rows[i].key := rows[i].value];
        }
      }
      assert rows[..|rows|] == rows;
    }

    method ImportFeatureStrategySegments(links: seq<StrategySegment>) returns (o: Outcome)
      modifies db
      ensures Step(db.State(), o) == ImportLinks(old(db.State()), links)
    {
      ghost var start := db.State();
      o := Done;
      for i := 0 to |links|
        invariant Step(db.State(), o) == ImportLinks(start, links[..i])
      {
        PrefixGrows(links, i);
        assert StrategySegment(links[i].strategy, links[i].segment) == links[i];
        var task := db.AddSegmentToStrategy(links[i].segment, links[i].strategy);
        o := First(o, task);
      }
      assert links[..|links|] == links;
    }

    method ImportToggles(data: ToggleData, drop: bool, keep: bool, uuid: nat -> string) returns (o: Outcome)
      modifies db
      ensures Step(db.State(), o) == StateImport.ImportToggles(old(db.State()), data, drop, keep, uuid)
    {
      if data == Broken {
        return Failed(TypeError);
      }
      o := ImportFeatures(data.features, drop, keep);
      if o.Failed? {
        return;
      }
      if data.environments == None {
        return Failed(TypeError);
      }
      o := ImportFeatureEnvironments(data.environments.value);
      if o.Failed? {
        return;
      }
      o := ImportFeatureStrategies(data.strategies, drop, keep, uuid);
    }

    method ImportConfiguration(data: Document, drop: bool, keep: bool, uuid: nat -> string) returns (o: Outcome)
      modifies db
      ensures Step(db.State(), o) == AfterToggles(old(db.State()), data, drop, keep, uuid)
    {
      if data.environments.Some? {
        ImportEnvironments(data.environments.value, drop, keep);
      }
      o := Done;
      if data.features.Some? {
        o := ImportToggles(TogglesOf(data), drop, keep, uuid);
      }
    }

    method ImportProjectsAndTags(data: Document, drop: bool, keep: bool) returns (o: Outcome)
      modifies db
      ensures Step(db.State(), o) == AfterTags(AfterProjects(Step(old(db.State()), Done), data, drop, keep), data, drop, keep)
    {
      o := Done;
      if data.projects.Some? {
        o := ImportProjects(data.projects.value, drop, keep);
      }
      if o == Done && data.tagTypes.Some? && data.tags.Some? {
        o := ImportTagData(data.tagTypes.value, data.tags.value, DocumentTags(data), drop, keep);
      }
    }

    method ImportSegmentData(data: Document, drop: bool) returns (o: Outcome)
      modifies db
      ensures Step(db.State(), o) == AfterLinks(AfterSegments(Step(old(db.State()), Done), data, drop), data)
    {
      o := Done;
      if data.segments.Some? {
        o := ImportSegments(data.segments.value, drop);
      }
      if o == Done && data.featureStrategySegments.Some? {
        o := ImportFeatureStrategySegments(data.featureStrategySegments.value);
      }
    }

    /** The stages in the order of the service; a failing stage ends the call. */
    method Import(document: Document, drop: bool, keep: bool, uuid: nat -> string) returns (o: Outcome)
      modifies db
      ensures Step(db.State(), o) == StateImport.Import(old(db.State()), document, drop, keep, uuid)
    {
      var data := document;
      if document.version == Some(2) {
        data := ReplaceGlobalEnvWithDefaultEnv(document);
      }
      o := ImportConfiguration(data, drop, keep, uuid);
      if o == Done {
        o := ImportProjectsAndTags(data, drop, keep);
      }
      if o == Done {
        o := ImportSegmentData(data, drop);
      }
    }

    /** The rows of the tables as a document. */
    method Export() returns (doc: Document)
      ensures RoundTrip.IsExport(db.State(), doc)
    {
      ghost var state := db.State();
      var features := SelectMap(RoundTrip.ExportedFeatures(db.State()));
      var projects := SelectMap(db.projects);
      var tagTypes := SelectMap(db.tagTypes);
      var tags := SelectSet(db.tags);
      var featureTags := SelectSet(db.featureTags);
      var strategies := SelectMap(db.strategies);
      var environments := SelectMap(db.environments);
      var featureEnvs := SelectMap(db.featureEnvs);
      var segments := SelectMap(db.segments);
      var links := SelectSet(db.strategySegments);

      StrategiesOfNamed(state, features, strategies);
      FeatureEnvsOfNamed(state, features, featureEnvs);
      doc := Document(Some(3), Some(environments), Some(features), Some(OnNamed(features, featureEnvs)),
                      Some(ToDocs(OfNamed(features, strategies))), Some(projects), Some(tagTypes), Some(tags),
                      featureTags, Some(segments), Some(links));
    }

    /** An export imported with dropBeforeImport: the tables are restored exactly when no segment hangs on an
        archived toggle and the projects have their default environment. */
    method ExportAndImport(target: StateService, keep: bool, uuid: nat -> string) returns (o: Outcome)
      requires target.db != db && Integrity(db.State()) && Integrity(target.db.State())
      modifies target.db
      ensures o == Done <==> RoundTrip.NoArchivedLinks(db.State()) && RoundTrip.DefaultEnvAvailable(db.State())
      ensures o == Done ==> target.db.State() == RoundTrip.Restored(db.State())
    {
      var doc := Export();
      RoundTrip.ExportImportRoundTrip(db.State(), target.db.State(), doc, keep, uuid);
      o := target.Import(doc, true, keep, uuid);
    }
  }
}
