/** Importing without dropBeforeImport and with keepExisting: what is there stays, and a second import
    of the same document adds nothing. */
module AdditiveImport {
  import opened Tables
  import opened Steps
  import opened StateImport
  import opened StateRoundTrip
  import opened ImportIntegrity

  lemma {:induction false} UnseenMeans<K(!new), V(!new)>(rows: seq<Row<K, V>>, existing: set<K>, r: Row<K, V>)
    ensures r in Unseen(rows, existing) <==> r in rows && r.key !in existing
  {
    if rows != [] {
      UnseenMeans(rows[..|rows| - 1], existing, r);
    }
  }

  lemma {:induction false} UnseenDistinct<K(!new), V(!new)>(rows: seq<Row<K, V>>, existing: set<K>)
    requires KeysDistinct(rows)
    ensures KeysDistinct(Unseen(rows, existing))
  {
    if rows != [] {
      var front, last := rows[..|rows| - 1], rows[|rows| - 1];
      UnseenDistinct(front, existing);
      var kept := Unseen(front, existing);
      forall i | 0 <= i < |kept|
        ensures kept[i].key != last.key
      {
        UnseenMeans(front, existing, kept[i]);
      }
    }
  }

  // ---------- Nothing that exists is lost ----------

  /** Whatever the smaller table holds, the larger one holds unchanged. */
  ghost predicate Keeps<K(!new), V(!new)>(before: map<K, V>, after: map<K, V>) {
    forall k <- before :: k in after && after[k] == before[k]
  }

  /** A toggle is the same, up to the variants if it is archived. */
  predicate SameToggle(before: Feature, after: Feature) {
    && after.project == before.project && after.archived == before.archived
    && (if before.archived then after.data.(variants := before.data.variants) == before.data
        else after.data == before.data)
  }

  ghost predicate KeepsToggles(before: map<string, Feature>, after: map<string, Feature>) {
    forall f <- before :: f in after && SameToggle(before[f], after[f])
  }

  /** What an additive import leaves as it was: every row, except the flags of toggle environments and the
      variants of archived toggles. */
  ghost predicate Extends(before: Db, after: Db) {
    && Keeps(before.environments, after.environments)
    && KeepsToggles(before.features, after.features)
    && before.featureEnvs.Keys <= after.featureEnvs.Keys
    && Keeps(before.strategies, after.strategies)
    && Keeps(before.projects, after.projects)
    && before.projectEnvs <= after.projectEnvs
    && Keeps(before.tagTypes, after.tagTypes)
    && before.tags <= after.tags
    && before.featureTags <= after.featureTags
    && Keeps(before.segments, after.segments)
    && before.strategySegments <= after.strategySegments
  }

  lemma ExtendsTransitive(a: Db, b: Db, c: Db)
    requires Extends(a, b) && Extends(b, c)
    ensures Extends(a, c)
  {
  }

  lemma FeatureFrame(db: Db, r: Row<string, FeatureDoc>)
    ensures ImportFeature(db, r).db == db.(features := ImportFeature(db, r).db.features)
  {
  }

  lemma {:induction false} FeatureRowsFrame(db: Db, rows: seq<Row<string, FeatureDoc>>)
    ensures ImportFeatureRows(db, rows).db == db.(features := ImportFeatureRows(db, rows).db.features)
  {
    if rows != [] {
      FeatureRowsFrame(db, rows[..|rows| - 1]);
      FeatureFrame(ImportFeatureRows(db, rows[..|rows| - 1]).db, rows[|rows| - 1]);
    }
  }

  lemma {:induction false} FeatureRowsExtend(db: Db, rows: seq<Row<string, FeatureDoc>>)
    requires forall i | 0 <= i < |rows| :: rows[i].key in db.features ==> db.features[rows[i].key].archived
    ensures KeepsToggles(db.features, ImportFeatureRows(db, rows).db.features)
  {
    if rows != [] {
      var front := rows[..|rows| - 1];
      FeatureRowsExtend(db, front);
    }
  }

  lemma FeaturesExtend(db: Db, rows: seq<Row<string, FeatureDoc>>)
    ensures Extends(db, ImportFeatures(db, rows, false, true).db)
  {
    var added := Unseen(rows, ActiveFeatures(db));
    forall i | 0 <= i < |added|
      ensures added[i].key in db.features ==> db.features[added[i].key].archived
    {
      UnseenMeans(rows, ActiveFeatures(db), added[i]);
    }
    FeatureRowsExtend(db, added);
    FeatureRowsFrame(db, added);
  }

  lemma {:induction false} FeatureEnvsExtend(db: Db, rows: seq<Row<FeatureEnv, bool>>)
    ensures Extends(db, ImportFeatureEnvironments(db, rows).db)
  {
    if rows != [] {
      FeatureEnvsExtend(db, rows[..|rows| - 1]);
    }
  }

  lemma {:induction false} StrategiesExtend(db: Db, rows: seq<StrategyDoc>, uuid: nat -> string, skip: set<string>)
    ensures Extends(db, InsertStrategies(db, rows, uuid, skip).db)
  {
    if rows != [] {
      StrategiesExtend(db, rows[..|rows| - 1], uuid, skip);
    }
  }

  lemma TogglesExtend(db: Db, data: ToggleData, uuid: nat -> string)
    ensures Extends(db, ImportToggles(db, data, false, true, uuid).db)
  {
    match data
    case Broken =>
    case ToggleData(features, environments, strategies) =>
      FeaturesExtend(db, features);
      var s1 := ImportFeatures(db, features, false, true);
      if s1.outcome == Done && environments.Some? {
        FeatureEnvsExtend(s1.db, environments.value);
        var s2 := ImportFeatureEnvironments(s1.db, environments.value);
        ExtendsTransitive(db, s1.db, s2.db);
        if s2.outcome == Done && strategies.Some? {
          StrategiesExtend(s2.db, strategies.value, uuid, s2.db.strategies.Keys);
          ExtendsTransitive(db, s2.db, ImportFeatureStrategies(s2.db, strategies, false, true, uuid).db);
        }
      }
  }

  lemma EnvironmentsExtend(db: Db, doc: Document)
    ensures Extends(db, AfterEnvironments(db, doc, false, true))
  {
    if doc.environments.Some? {
      InsertIgnoreGrows(db.environments, Unseen(doc.environments.value, db.environments.Keys));
    }
  }

  lemma AddProjectsExtend(db: Db, projects: map<string, string>)
    requires Keeps(db.projects, projects)
    ensures Extends(db, AddProjects(db, projects).db)
  {
    var r := AddProjects(db, projects).db;
    assert r == db.(projects := projects, projectEnvs := r.projectEnvs) && db.projectEnvs <= r.projectEnvs;
  }

  lemma ProjectsExtend(s: Step, doc: Document)
    ensures Extends(s.db, AfterProjects(s, doc, false, true).db)
  {
    if s.outcome == Done && doc.projects.Some? {
      var added := Unseen(doc.projects.value, s.db.projects.Keys);
      InsertIgnoreGrows(s.db.projects, added);
      AddProjectsExtend(s.db, InsertIgnore(s.db.projects, added));
    }
  }

  lemma TagRowsExtend(db: Db, tags: set<Tag>)
    ensures Extends(db, InsertTags(db, tags).db)
  {
    assert Extends(db, db) && Extends(db, db.(tags := db.tags + tags));
  }

  lemma FeatureTagRowsExtend(db: Db, tags: set<FeatureTag>)
    ensures Extends(db, InsertFeatureTags(db, tags).db)
  {
    assert Extends(db, db) && Extends(db, db.(featureTags := db.featureTags + tags));
  }

  lemma TagDataExtend(db: Db, tagTypes: map<string, string>, tags: set<Tag>, featureTags: set<FeatureTag>)
    requires Keeps(db.tagTypes, tagTypes)
    ensures Extends(db, AddTagData(db, tagTypes, tags, featureTags).db)
  {
    var typed := db.(tagTypes := tagTypes);
    TagRowsExtend(typed, tags);
    var tagged := InsertTags(typed, tags).db;
    FeatureTagRowsExtend(tagged, featureTags);
    ExtendsTransitive(db, tagged, InsertFeatureTags(tagged, featureTags).db);
  }

  lemma TagsExtend(s: Step, doc: Document)
    ensures Extends(s.db, AfterTags(s, doc, false, true).db)
  {
    if s.outcome == Done && doc.tagTypes.Some? && doc.tags.Some? {
      var added := Unseen(doc.tagTypes.value, s.db.tagTypes.Keys);
      InsertIgnoreGrows(s.db.tagTypes, added);
      TagDataExtend(s.db, InsertIgnore(s.db.tagTypes, added), NewTags(doc.tags.value, s.db.tags, true),
                    NewFeatureTags(DocumentTags(doc), s.db.featureTags, true));
    }
  }

  lemma {:induction false} SegmentRowsExtend(db: Db, rows: seq<Row<int, Segment>>)
    ensures Extends(db, InsertSegments(db, rows).db)
  {
    if rows != [] {
      SegmentRowsExtend(db, rows[..|rows| - 1]);
    }
  }

  lemma {:induction false} LinksExtend(db: Db, links: seq<StrategySegment>)
    ensures Extends(db, ImportLinks(db, links).db)
  {
    if links != [] {
      LinksExtend(db, links[..|links| - 1]);
    }
  }

  /** An additive import, successful or not, changes no existing row but flags of toggle environments and
      variants of archived toggles. */
  lemma AdditiveImportExtends(db: Db, document: Document, uuid: nat -> string)
    ensures Extends(db, Import(db, document, false, true, uuid).db)
  {
    var doc := Normalized(document);
    var s0 := AfterEnvironments(db, doc, false, true);
    EnvironmentsExtend(db, doc);
    var s1 := AfterToggles(db, doc, false, true, uuid);
    if doc.features.Some? {
      TogglesExtend(s0, TogglesOf(doc), uuid);
    }
    var s2 := AfterProjects(s1, doc, false, true);
    ProjectsExtend(s1, doc);
    ExtendsTransitive(db, s1.db, s2.db);
    var s3 := AfterTags(s2, doc, false, true);
    TagsExtend(s2, doc);
    ExtendsTransitive(db, s2.db, s3.db);
    var s4 := AfterSegments(s3, doc, false);
    if s3.outcome == Done && doc.segments.Some? {
      SegmentRowsExtend(s3.db, doc.segments.value);
    }
    ExtendsTransitive(db, s3.db, s4.db);
    if s4.outcome == Done && doc.featureStrategySegments.Some? {
      LinksExtend(s4.db, doc.featureStrategySegments.value);
    }
    ExtendsTransitive(db, s4.db, AfterLinks(s4, doc).db);
  }

  // ---------- A second import ----------

  lemma {:induction false} AllSeen<K(!new), V(!new)>(rows: seq<Row<K, V>>, existing: set<K>)
    requires forall i | 0 <= i < |rows| :: rows[i].key in existing
    ensures Unseen(rows, existing) == []
  {
    if rows != [] {
      var front := rows[..|rows| - 1];
      AllSeen(front, existing);
    }
  }

  /** A row whose toggle is stored as the row would leave it. */
  predicate Settled(features: map<string, Feature>, r: Row<string, FeatureDoc>) {
    && r.key in features
    && (features[r.key].project == r.value.feature.project ==>
          features[r.key].data.variants == r.value.feature.data.variants)
  }

  /** A row that fails: its name belongs to a toggle of another project. */
  predicate Clashes(features: map<string, Feature>, r: Row<string, FeatureDoc>) {
    r.key in features && features[r.key].project != r.value.feature.project
  }

  /** What the rows make of one toggle, exactly. */
  ghost predicate FeatureImported(before: map<string, Feature>, after: map<string, Feature>, r: Row<string, FeatureDoc>) {
    var f := r.value.feature;
    && r.key in after
    && after[r.key] == if r.key !in before then f
                       else if before[r.key].project != f.project then before[r.key]
                       else before[r.key].(data := before[r.key].data.(variants := f.data.variants))
  }

  ghost predicate FeatureRowsMeaning(db: Db, rows: seq<Row<string, FeatureDoc>>, r: Step) {
    && r.db == db.(features := r.db.features)
    && r.outcome in {Done, Failed(NotFound)}
    && (r.outcome == Done <==> forall x <- rows :: !Clashes(db.features, x))
    && (forall x <- rows :: FeatureImported(db.features, r.db.features, x))
    && (forall f :: f in r.db.features <==> f in db.features || HasKey(rows, f))
    && (forall f <- db.features | !HasKey(rows, f) :: r.db.features[f] == db.features[f])
  }

  lemma FeatureOneMore(db: Db, front: seq<Row<string, FeatureDoc>>, last: Row<string, FeatureDoc>, before: Step)
    requires FeatureRowsMeaning(db, front, before) && !HasKey(front, last.key)
    ensures var r := ImportFeature(before.db, last);
            FeatureRowsMeaning(db, front + [last], Step(r.db, First(before.outcome, r.outcome)))
  {
    var r := ImportFeature(before.db, last);
    var rows := front + [last];
    assert r.outcome == Done <==> !Clashes(db.features, last);
    forall f
      ensures HasKey(rows, f) <==> HasKey(front, f) || f == last.key
    {
      HasKeyOneMore(front, last, f);
    }
    forall x <- rows
      ensures FeatureImported(db.features, r.db.features, x)
    {
    }
  }

  lemma {:induction false} FeatureRowsMean(db: Db, rows: seq<Row<string, FeatureDoc>>)
    requires KeysDistinct(rows)
    ensures FeatureRowsMeaning(db, rows, ImportFeatureRows(db, rows))
  {
    if rows != [] {
      var front, last := rows[..|rows| - 1], rows[|rows| - 1];
      FeatureRowsMean(db, front);
      FeatureOneMore(db, front, last, ImportFeatureRows(db, front));
      assert rows == front + [last];
    }
  }

  lemma HasKeyOneMore<K(!new), V(!new)>(front: seq<Row<K, V>>, last: Row<K, V>, k: K)
    ensures HasKey(front + [last], k) <==> HasKey(front, k) || k == last.key
  {
    var rows := front + [last];
    if HasKey(front, k) {
      var i :| 0 <= i < |front| && front[i].key == k;
      assert rows[i].key == k;
    }
    assert rows[|front|] == last;
  }

  lemma {:induction false} SettledRowsChangeNothing(db: Db, rows: seq<Row<string, FeatureDoc>>)
    requires forall r <- rows :: Settled(db.features, r)
    ensures ImportFeatureRows(db, rows).db == db
    ensures ImportFeatureRows(db, rows).outcome in {Done, Failed(NotFound)}
    ensures ImportFeatureRows(db, rows).outcome == Done <==> forall r <- rows :: !Clashes(db.features, r)
  {
    if rows != [] {
      var front, last := rows[..|rows| - 1], rows[|rows| - 1];
      SettledRowsChangeNothing(db, front);
      assert last in rows;
      var stored := db.features[last.key];
      if !Clashes(db.features, last) {
        assert db.features[last.key := stored] == db.features;
      }
    }
  }

  /** The toggles of a document are imported once: the second time changes nothing and ends the same way. */
  lemma FeaturesTwice(db: Db, rows: seq<Row<string, FeatureDoc>>, again: Db)
    requires KeysDistinct(rows)
    requires again.features == ImportFeatures(db, rows, false, true).db.features
    ensures ImportFeatures(again, rows, false, true) == Step(again, ImportFeatures(db, rows, false, true).outcome)
  {
    var first, second := Unseen(rows, ActiveFeatures(db)), Unseen(rows, ActiveFeatures(again));
    UnseenDistinct(rows, ActiveFeatures(db));
    FeatureRowsMean(db, first);
    forall r <- rows
      ensures r in second ==> r in first && Settled(again.features, r)
      ensures r in first && Clashes(db.features, r) ==> r in second
      ensures r in first ==> (Clashes(db.features, r) <==> Clashes(again.features, r))
    {
      UnseenMeans(rows, ActiveFeatures(db), r);
      UnseenMeans(rows, ActiveFeatures(again), r);
      if r !in first {
        ActiveStays(db, first, r.key);
      }
    }
    forall r <- second
      ensures r in rows
    {
      UnseenMeans(rows, ActiveFeatures(again), r);
    }
    forall r <- first
      ensures r in rows
    {
      UnseenMeans(rows, ActiveFeatures(db), r);
    }
    SettledRowsChangeNothing(again, second);
  }

  lemma ActiveStays(db: Db, rows: seq<Row<string, FeatureDoc>>, f: string)
    requires KeysDistinct(rows) && f in ActiveFeatures(db)
    ensures f in ActiveFeatures(ImportFeatureRows(db, rows).db)
  {
  }

  predicate EnvFits(features: set<string>, environments: set<string>, l: FeatureEnv) {
    l.feature in features && l.environment in environments
  }

  /** The flags a list of rows stores: the last row of a key wins. */
  function Upserts(features: set<string>, environments: set<string>, rows: seq<Row<FeatureEnv, bool>>): map<FeatureEnv, bool> {
    if rows == [] then map[]
    else
      var before, last := Upserts(features, environments, rows[..|rows| - 1]), rows[|rows| - 1];
      if EnvFits(features, environments, last.key) then before[last.key := last.value] else before
  }

  lemma UpsertOneMore(db: Db, added: map<FeatureEnv, bool>, r: Row<FeatureEnv, bool>)
    ensures UpsertFeatureEnv(db.(featureEnvs := db.featureEnvs + added), r) ==
            if EnvFits(db.features.Keys, db.environments.Keys, r.key)
            then Step(db.(featureEnvs := db.featureEnvs + added[r.key := r.value]), Done)
            else Step(db.(featureEnvs := db.featureEnvs + added), Failed(ForeignKeyViolation))
  {
    assert (db.featureEnvs + added)[r.key := r.value] == db.featureEnvs + added[r.key := r.value];
  }

  predicate AllFit(features: set<string>, environments: set<string>, rows: seq<Row<FeatureEnv, bool>>) {
    forall r <- rows :: EnvFits(features, environments, r.key)
  }

  lemma {:induction false} FeatureEnvsMean(db: Db, rows: seq<Row<FeatureEnv, bool>>)
    ensures ImportFeatureEnvironments(db, rows) ==
            Step(db.(featureEnvs := db.featureEnvs + Upserts(db.features.Keys, db.environments.Keys, rows)),
                 if AllFit(db.features.Keys, db.environments.Keys, rows) then Done else Failed(ForeignKeyViolation))
  {
    if rows != [] {
      var front, last := rows[..|rows| - 1], rows[|rows| - 1];
      FeatureEnvsMean(db, front);
      UpsertOneMore(db, Upserts(db.features.Keys, db.environments.Keys, front), last);
    }
  }

  /** Flags are stored once; the second time changes nothing and ends the same way. */
  lemma FeatureEnvsTwice(db: Db, rows: seq<Row<FeatureEnv, bool>>, again: Db)
    requires again.features.Keys == db.features.Keys && again.environments.Keys == db.environments.Keys
    requires again.featureEnvs == ImportFeatureEnvironments(db, rows).db.featureEnvs
    ensures ImportFeatureEnvironments(again, rows) == Step(again, ImportFeatureEnvironments(db, rows).outcome)
  {
    FeatureEnvsMean(db, rows);
    FeatureEnvsMean(again, rows);
  }

  predicate StrategyFits(db: Db, s: StrategyDoc) {
    s.feature in db.features && s.environment in db.environments
  }

  /** After the import a strategy of the document is stored unless its toggle or environment is missing. */
  lemma {:induction false} StrategiesArrive(db: Db, rows: seq<StrategyDoc>, uuid: nat -> string, skip: set<string>, p: nat)
    requires skip <= db.strategies.Keys && p < |rows|
    ensures IdOf(rows[p], p, uuid) in InsertStrategies(db, rows, uuid, skip).db.strategies || !StrategyFits(db, rows[p])
  {
    var front := rows[..|rows| - 1];
    if p < |front| {
      assert front[p] == rows[p];
      StrategiesArrive(db, front, uuid, skip, p);
    } else {
      StrategiesExtend(db, front, uuid, skip);
    }
  }

  lemma {:induction false} OnlyStrategiesChange(db: Db, rows: seq<StrategyDoc>, uuid: nat -> string, skip: set<string>)
    ensures var r := InsertStrategies(db, rows, uuid, skip).db; r == db.(strategies := r.strategies)
  {
    if rows != [] {
      OnlyStrategiesChange(db, rows[..|rows| - 1], uuid, skip);
    }
  }

  lemma {:induction false} NothingLeftToInsert(db: Db, rows: seq<StrategyDoc>, uuid: nat -> string)
    requires forall s <- rows :: Skipped(s, db.strategies.Keys) || !StrategyFits(db, s)
    ensures InsertStrategies(db, rows, uuid, db.strategies.Keys).db == db
  {
    if rows != [] {
      var front := rows[..|rows| - 1];
      NothingLeftToInsert(db, front, uuid);
    }
  }

  /** A second import inserts no strategy exactly when every strategy without an id has lost its toggle or
      environment; the ids generated for the second import are new. */
  lemma StrategiesTwiceIff(db: Db, rows: seq<StrategyDoc>, uuid: nat -> string, again: Db, uuid': nat -> string)
    requires again.features.Keys == db.features.Keys && again.environments.Keys == db.environments.Keys
    requires again.strategies == InsertStrategies(db, rows, uuid, db.strategies.Keys).db.strategies
    requires forall i: nat :: uuid'(i) !in again.strategies
    ensures InsertStrategies(again, rows, uuid', again.strategies.Keys).db == again <==>
            forall s <- rows :: s.id == None ==> !StrategyFits(db, s)
  {
    forall i | 0 <= i < |rows|
      ensures rows[i].id.Some? ==> Skipped(rows[i], again.strategies.Keys) || !StrategyFits(again, rows[i])
    {
      StrategiesArrive(db, rows, uuid, db.strategies.Keys, i);
    }
    if forall s <- rows :: s.id == None ==> !StrategyFits(db, s) {
      NothingLeftToInsert(again, rows, uuid');
    } else {
      var i :| 0 <= i < |rows| && rows[i].id == None && StrategyFits(db, rows[i]);
      StrategiesArrive(again, rows, uuid', again.strategies.Keys, i);
    }
  }

  lemma {:induction false} DoneMeansFitting(db: Db, rows: seq<StrategyDoc>, uuid: nat -> string, skip: set<string>)
    requires InsertStrategies(db, rows, uuid, skip).outcome == Done
    ensures forall s <- rows :: Skipped(s, skip) || StrategyFits(db, s)
  {
    if rows != [] {
      var front := rows[..|rows| - 1];
      DoneMeansFitting(db, front, uuid, skip);
      OnlyStrategiesChange(db, front, uuid, skip);
    }
  }

  // ---------- The whole import twice ----------

  /** The documents of the theorem: no two toggles of the same name. */
  ghost predicate NamesDistinct(doc: Document) {
    doc.features.Some? ==> KeysDistinct(doc.features.value)
  }

  /** The strategies an import of the document inserts. */
  function StrategiesOf(doc: Document): seq<StrategyDoc> {
    if doc.features == None then []
    else
      match TogglesOf(doc)
      case Broken => []
      case ToggleData(_, _, strategies) => if strategies.Some? then strategies.value else []
  }

  predicate AllHaveIds(doc: Document) {
    forall s <- StrategiesOf(doc) :: s.id.Some?
  }

  ghost predicate NewIds(uuid: nat -> string, db: Db) {
    forall i: nat :: uuid(i) !in db.strategies
  }

  lemma FeatureEnvsFrame(db: Db, rows: seq<Row<FeatureEnv, bool>>)
    ensures var r := ImportFeatureEnvironments(db, rows).db; r == db.(featureEnvs := r.featureEnvs)
  {
  }

  lemma FeaturesFrame(db: Db, rows: seq<Row<string, FeatureDoc>>)
    ensures var r := ImportFeatures(db, rows, false, true).db; r == db.(features := r.features)
  {
    FeatureRowsFrame(db, Unseen(rows, ActiveFeatures(db)));
  }

  /** The toggles and their environments, before the strategies. */
  function BeforeStrategies(db: Db, data: ToggleData, keep: bool): Step
    requires data.ToggleData?
  {
    var s := ImportFeatures(db, data.features, false, keep);
    if s.outcome.Failed? then s
    else if data.environments == None then Step(s.db, Failed(TypeError))
    else ImportFeatureEnvironments(s.db, data.environments.value)
  }

  lemma BeforeStrategiesFrame(db: Db, data: ToggleData)
    requires data.ToggleData?
    ensures var r := BeforeStrategies(db, data, true).db; r == db.(features := r.features, featureEnvs := r.featureEnvs)
  {
    FeaturesFrame(db, data.features);
    if data.environments.Some? {
      FeatureEnvsFrame(ImportFeatures(db, data.features, false, true).db, data.environments.value);
    }
  }

  lemma BeforeStrategiesTwice(db: Db, data: ToggleData, again: Db)
    requires data.ToggleData? && KeysDistinct(data.features)
    requires again.features == BeforeStrategies(db, data, true).db.features
    requires again.featureEnvs == BeforeStrategies(db, data, true).db.featureEnvs
    requires again.environments == db.environments
    ensures BeforeStrategies(again, data, true) == Step(again, BeforeStrategies(db, data, true).outcome)
  {
    var s := ImportFeatures(db, data.features, false, true);
    FeaturesFrame(db, data.features);
    if s.outcome == Done && data.environments.Some? {
      FeatureEnvsFrame(s.db, data.environments.value);
      FeaturesTwice(db, data.features, again);
      FeatureEnvsTwice(s.db, data.environments.value, again);
    } else {
      FeaturesTwice(db, data.features, again);
    }
  }

  lemma StrategyStageFrame(db: Db, rows: Option<seq<StrategyDoc>>, uuid: nat -> string)
    ensures var r := ImportFeatureStrategies(db, rows, false, true, uuid).db; r == db.(strategies := r.strategies)
  {
    if rows.Some? {
      OnlyStrategiesChange(db, rows.value, uuid, db.strategies.Keys);
    }
  }

  predicate IdsGiven(rows: Option<seq<StrategyDoc>>) {
    rows.Some? ==> forall s <- rows.value :: s.id.Some?
  }

  /** The strategy stage twice: nothing new if all strategies have ids, and after a successful one only then. */
  lemma StrategyStageTwice(db: Db, rows: Option<seq<StrategyDoc>>, uuid: nat -> string, again: Db, uuid': nat -> string)
    requires again.features.Keys == db.features.Keys && again.environments.Keys == db.environments.Keys
    requires again.strategies == ImportFeatureStrategies(db, rows, false, true, uuid).db.strategies
    requires NewIds(uuid', again)
    ensures var twice := ImportFeatureStrategies(again, rows, false, true, uuid').db;
            && (IdsGiven(rows) ==> twice == again)
            && (ImportFeatureStrategies(db, rows, false, true, uuid).outcome == Done && twice == again ==> IdsGiven(rows))
  {
    if rows.Some? {
      StrategiesTwiceIff(db, rows.value, uuid, again, uuid');
      if ImportFeatureStrategies(db, rows, false, true, uuid).outcome == Done {
        DoneMeansFitting(db, rows.value, uuid, db.strategies.Keys);
      }
    }
  }

  /** The toggles of a document twice. */
  lemma TogglesTwice(db: Db, data: ToggleData, uuid: nat -> string, again: Db, uuid': nat -> string)
    requires data.ToggleData? && KeysDistinct(data.features)
    requires SameToggles(again, ImportToggles(db, data, false, true, uuid).db) && NewIds(uuid', again)
    ensures var twice := ImportToggles(again, data, false, true, uuid').db;
            && (IdsGiven(data.strategies) ==> twice == again)
            && (ImportToggles(db, data, false, true, uuid).outcome == Done && twice == again ==> IdsGiven(data.strategies))
  {
    var s := BeforeStrategies(db, data, true);
    BeforeStrategiesFrame(db, data);
    StrategyStageFrame(s.db, data.strategies, uuid);
    BeforeStrategiesTwice(db, data, again);
    if s.outcome == Done {
      StrategyStageTwice(s.db, data.strategies, uuid, again, uuid');
    }
  }

  lemma TogglesFrame(db: Db, data: ToggleData, uuid: nat -> string)
    ensures var r := ImportToggles(db, data, false, true, uuid).db;
            r == db.(features := r.features, featureEnvs := r.featureEnvs, strategies := r.strategies)
  {
    if data.ToggleData? {
      BeforeStrategiesFrame(db, data);
      StrategyStageFrame(BeforeStrategies(db, data, true).db, data.strategies, uuid);
    }
  }

  /** The environments of a document are imported once. */
  lemma EnvironmentsTwice(db: Db, doc: Document, again: Db)
    requires again.environments == AfterEnvironments(db, doc, false, true).environments
    ensures AfterEnvironments(again, doc, false, true) == again
  {
    if doc.environments.Some? {
      var rows := doc.environments.value;
      forall i | 0 <= i < |rows|
        ensures rows[i].key in again.environments
      {
        var added := Unseen(rows, db.environments.Keys);
        InsertIgnoreKeys(db.environments, added, rows[i].key);
        UnseenMeans(rows, db.environments.Keys, rows[i]);
      }
      AllSeen(rows, again.environments.Keys);
    }
  }

  /** Importing a document of distinct toggle names a second time leaves toggles, their environments and
      their strategies as the first import left them, if every strategy of the document has an id. After a
      successful first import it does so only then: a strategy without an id is inserted once more. */
  lemma ImportTwiceIff(db: Db, document: Document, uuid: nat -> string, uuid': nat -> string)
    requires Integrity(db) && NamesDistinct(Normalized(document))
    requires NewIds(uuid', Import(db, document, false, true, uuid).db)
    ensures var once := Import(db, document, false, true, uuid);
            var twice := Import(once.db, document, false, true, uuid').db;
            && (AllHaveIds(Normalized(document)) ==> SameToggles(once.db, twice))
            && (once.outcome == Done ==> (SameToggles(once.db, twice) <==> AllHaveIds(Normalized(document))))
  {
    var doc := Normalized(document);
    var again := Import(db, document, false, true, uuid).db;
    ImportKeepsIntegrity(db, document, false, true, uuid);
    ImportKeepsIntegrity(again, document, false, true, uuid');
    if doc.features.Some? {
      TogglesFrame(AfterEnvironments(db, doc, false, true), TogglesOf(doc), uuid);
      TogglesFrame(again, TogglesOf(doc), uuid');
      EnvironmentsTwice(db, doc, again);
      if TogglesOf(doc).ToggleData? {
        TogglesTwice(AfterEnvironments(db, doc, false, true), TogglesOf(doc), uuid, again, uuid');
      }
    } else {
      EnvironmentsTwice(db, doc, again);
    }
  }
}
