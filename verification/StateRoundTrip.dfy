/** Exporting the tables and importing the document with dropBeforeImport restores them. */
module StateRoundTrip {
  import opened Tables
  import opened Steps
  import opened StateImport

  // ---------- Lists of rows ----------

  ghost predicate KeysDistinct<K(!new), V(!new)>(rows: seq<Row<K, V>>) {
    forall i, j | 0 <= i < j < |rows| :: rows[i].key != rows[j].key
  }

  ghost predicate HasKey<K(!new), V(!new)>(rows: seq<Row<K, V>>, k: K) {
    exists i :: 0 <= i < |rows| && rows[i].key == k
  }

  /** The rows of a table, each once, in any order. */
  ghost predicate ListsMap<K(!new), V(!new)>(rows: seq<Row<K, V>>, m: map<K, V>) {
    && KeysDistinct(rows)
    && (forall i | 0 <= i < |rows| :: rows[i].key in m && rows[i].value == m[rows[i].key])
    && (forall k <- m :: HasKey(rows, k))
  }

  ghost predicate ListsSet<T(!new)>(s: seq<T>, xs: set<T>) {
    && (forall i, j | 0 <= i < j < |s| :: s[i] != s[j])
    && (forall x :: x in s <==> x in xs)
  }

  /** No key is repeated or already used. */
  ghost predicate Fresh<K(!new), V(!new), W>(rows: seq<Row<K, V>>, m: map<K, W>) {
    KeysDistinct(rows) && forall i | 0 <= i < |rows| :: rows[i].key !in m
  }

  lemma {:induction false} UnseenOfNothing<K(!new), V(!new)>(rows: seq<Row<K, V>>)
    ensures Unseen(rows, {}) == rows
  {
    if rows != [] {
      UnseenOfNothing(rows[..|rows| - 1]);
    }
  }

  lemma {:induction false} InsertIgnoreKeys<K(!new), V(!new)>(m: map<K, V>, rows: seq<Row<K, V>>, k: K)
    ensures k in InsertIgnore(m, rows) <==> k in m || HasKey(rows, k)
    ensures k in m ==> InsertIgnore(m, rows)[k] == m[k]
  {
    if rows != [] {
      var front := rows[..|rows| - 1];
      InsertIgnoreKeys(m, front, k);
    }
  }

  lemma {:induction false} InsertIgnoreValue<K(!new), V(!new)>(m: map<K, V>, rows: seq<Row<K, V>>, i: nat)
    requires Fresh(rows, m) && i < |rows|
    ensures rows[i].key in InsertIgnore(m, rows) && InsertIgnore(m, rows)[rows[i].key] == rows[i].value
  {
    var front := rows[..|rows| - 1];
    InsertIgnoreKeys(m, front, rows[i].key);
    if i < |front| {
      InsertIgnoreValue(m, front, i);
    }
  }

  /** Inserting the rows of a table into an empty one gives the table. */
  lemma InsertIgnoreLists<K(!new), V(!new)>(rows: seq<Row<K, V>>, m: map<K, V>)
    requires ListsMap(rows, m)
    ensures InsertIgnore(map[], rows) == m
  {
    var r := InsertIgnore(map[], rows);
    forall k
      ensures k in r <==> k in m
      ensures k in m ==> r[k] == m[k]
    {
      InsertIgnoreKeys(map[], rows, k);
      if HasKey(rows, k) {
        var i :| 0 <= i < |rows| && rows[i].key == k;
        InsertIgnoreValue(map[], rows, i);
      }
    }
  }

  lemma FreshFront<K(!new), V(!new), W(!new)>(rows: seq<Row<K, V>>, m: map<K, W>)
    requires Fresh(rows, m) && rows != []
    ensures Fresh(rows[..|rows| - 1], m)
    ensures !HasKey(rows[..|rows| - 1], rows[|rows| - 1].key)
  {
  }

  // ---------- The stages on empty tables ----------

  function FeatureRows(rows: seq<Row<string, FeatureDoc>>): seq<Row<string, Feature>> {
    seq(|rows|, i requires 0 <= i < |rows| => Row(rows[i].key, rows[i].value.feature))
  }

  lemma {:induction false} ImportFreshFeatures(db: Db, rows: seq<Row<string, FeatureDoc>>)
    requires Fresh(rows, db.features)
    ensures ImportFeatureRows(db, rows) == Step(db.(features := InsertIgnore(db.features, FeatureRows(rows))), Done)
  {
    if rows != [] {
      var front, last := rows[..|rows| - 1], rows[|rows| - 1];
      FreshFront(rows, db.features);
      ImportFreshFeatures(db, front);
      assert FeatureRows(rows)[..|rows| - 1] == FeatureRows(front);
      InsertIgnoreKeys(db.features, FeatureRows(front), last.key);
      var f := last.value.feature;
      assert f.(data := f.data.(variants := f.data.variants)) == f;
    }
  }

  lemma {:induction false} ImportFreshFeatureEnvs(db: Db, rows: seq<Row<FeatureEnv, bool>>)
    requires Fresh(rows, db.featureEnvs)
    requires forall i | 0 <= i < |rows| :: rows[i].key.feature in db.features && rows[i].key.environment in db.environments
    ensures ImportFeatureEnvironments(db, rows) == Step(db.(featureEnvs := InsertIgnore(db.featureEnvs, rows)), Done)
  {
    if rows != [] {
      var front, last := rows[..|rows| - 1], rows[|rows| - 1];
      ImportFreshFeatureEnvs(db, front);
      InsertIgnoreKeys(db.featureEnvs, front, last.key);
    }
  }

  /** The strategies of a document under their ids. */
  function StrategyRows(rows: seq<StrategyDoc>, uuid: nat -> string): seq<Row<string, Strategy>> {
    seq(|rows|, i requires 0 <= i < |rows| => DocumentRow(rows[i], i, uuid))
  }

  function DocumentRow(s: StrategyDoc, position: nat, uuid: nat -> string): Row<string, Strategy> {
    Row(if s.id.Some? then s.id.value else uuid(position), DocumentStrategy(s))
  }

  /** The row of a strategy of a document, with the sort order every imported strategy gets. */
  function DocumentStrategy(s: StrategyDoc): Strategy {
    Strategy(s.feature, s.project, s.environment, StrategyConfig(s.name, s.constraints, s.parameters, 9999))
  }

  lemma {:induction false} InsertFreshStrategies(db: Db, rows: seq<StrategyDoc>, uuid: nat -> string)
    requires Fresh(StrategyRows(rows, uuid), db.strategies)
    requires forall i | 0 <= i < |rows| :: rows[i].feature in db.features && rows[i].environment in db.environments
    ensures InsertStrategies(db, rows, uuid, {}) ==
            Step(db.(strategies := InsertIgnore(db.strategies, StrategyRows(rows, uuid))), Done)
  {
    if rows != [] {
      var front, last := rows[..|rows| - 1], rows[|rows| - 1];
      assert StrategyRows(rows, uuid)[..|rows| - 1] == StrategyRows(front, uuid);
      InsertFreshStrategies(db, front, uuid);
      InsertIgnoreKeys(db.strategies, StrategyRows(front, uuid), IdOf(last, |rows| - 1, uuid));
    }
  }

  lemma {:induction false} InsertFreshSegments(db: Db, rows: seq<Row<int, Segment>>)
    requires Fresh(rows, db.segments)
    ensures InsertSegments(db, rows) == Step(db.(segments := InsertIgnore(db.segments, rows)), Done)
  {
    if rows != [] {
      var front, last := rows[..|rows| - 1], rows[|rows| - 1];
      InsertFreshSegments(db, front);
      InsertIgnoreKeys(db.segments, front, last.key);
    }
  }

  predicate LinkFits(db: Db, l: StrategySegment) {
    l.strategy in db.strategies && l.segment in db.segments
  }

  ghost function FittingLinks(db: Db, links: seq<StrategySegment>): set<StrategySegment> {
    set l | l in links && LinkFits(db, l)
  }

  lemma OneMoreLink(db: Db, links: seq<StrategySegment>, last: StrategySegment)
    requires last !in links
    ensures InsertLink(db.(strategySegments := FittingLinks(db, links)), last) ==
            Step(db.(strategySegments := FittingLinks(db, links + [last])),
                 if LinkFits(db, last) then Done else Failed(ForeignKeyViolation))
  {
  }

  /** Links are inserted for the strategies and segments that exist; the others fail. */
  lemma {:induction false} InsertFreshLinks(db: Db, links: seq<StrategySegment>)
    requires db.strategySegments == {} && forall i, j | 0 <= i < j < |links| :: links[i] != links[j]
    ensures ImportLinks(db, links).db == db.(strategySegments := FittingLinks(db, links))
    ensures ImportLinks(db, links).outcome == Done <==> forall i | 0 <= i < |links| :: LinkFits(db, links[i])
  {
    if links != [] {
      var front, last := links[..|links| - 1], links[|links| - 1];
      InsertFreshLinks(db, front);
      OneMoreLink(db, front, last);
      assert front + [last] == links;
    }
  }

  // ---------- Export ----------

  /** The toggles that are not archived. */
  function Active(db: Db): set<string> {
    set f | f in db.features && !db.features[f].archived
  }

  function ExportedFeatures(db: Db): map<string, FeatureDoc> {
    map f | f in Active(db) :: FeatureDoc(db.features[f], false, None)
  }

  function ExportedFeatureEnvs(db: Db): map<FeatureEnv, bool> {
    map l | l in db.featureEnvs && l.feature in Active(db) :: db.featureEnvs[l]
  }

  function WithoutSortOrder(s: Strategy): Strategy {
    s.(config := s.config.(sortOrder := DEFAULT_SORT_ORDER))
  }

  function ExportedStrategies(db: Db): map<string, Strategy> {
    map id | id in db.strategies && db.strategies[id].feature in Active(db) :: WithoutSortOrder(db.strategies[id])
  }

  ghost predicate ListsStrategies(rows: seq<StrategyDoc>, m: map<string, Strategy>) {
    && (forall s <- rows :: s.id.Some?)
    && ListsMap(StrategyRows(rows, _ => ""), m)
  }

  /** A document the export can produce: the active toggles with their environments and strategies, and
      all other tables in full. */
  ghost predicate IsExport(db: Db, doc: Document) {
    && doc.version == Some(3)
    && doc.environments.Some? && ListsMap(doc.environments.value, db.environments)
    && doc.features.Some? && ListsMap(doc.features.value, ExportedFeatures(db))
    && doc.featureEnvironments.Some? && ListsMap(doc.featureEnvironments.value, ExportedFeatureEnvs(db))
    && doc.featureStrategies.Some? && ListsStrategies(doc.featureStrategies.value, ExportedStrategies(db))
    && doc.projects.Some? && ListsMap(doc.projects.value, db.projects)
    && doc.tagTypes.Some? && ListsMap(doc.tagTypes.value, db.tagTypes)
    && doc.tags.Some? && ListsSet(doc.tags.value, db.tags)
    && ListsSet(doc.featureTags, db.featureTags)
    && doc.segments.Some? && ListsMap(doc.segments.value, db.segments)
    && doc.featureStrategySegments.Some? && ListsSet(doc.featureStrategySegments.value, db.strategySegments)
  }

  /** The active toggles of the tables with all that hangs on them; projects keep only their default
      link, strategies lose their sort order. */
  function Restored(db: Db): Db {
    Db(db.environments,
       db.projects,
       DefaultLinks(db.projects.Keys),
       map f | f in Active(db) :: db.features[f],
       ExportedFeatureEnvs(db),
       ExportedStrategies(db),
       db.segments,
       db.strategySegments,
       db.tagTypes,
       db.tags,
       ActiveTags(db))
  }

  function ActiveTags(db: Db): set<FeatureTag> {
    set t | t in db.featureTags && t.feature in Active(db)
  }

  /** No segment is linked to a strategy of an archived toggle. */
  predicate NoArchivedLinks(db: Db) {
    forall l <- db.strategySegments :: l.strategy in ExportedStrategies(db)
  }

  // ---------- Stage by stage ----------

  lemma EnvironmentsStage(db: Db, target: Db, doc: Document, keep: bool)
    requires IsExport(db, doc)
    ensures AfterEnvironments(target, doc, true, keep) == DropEnvironments(target).(environments := db.environments)
  {
    UnseenOfNothing(doc.environments.value);
    InsertIgnoreLists(doc.environments.value, db.environments);
  }

  lemma FeatureRowsList(db: Db, rows: seq<Row<string, FeatureDoc>>)
    requires ListsMap(rows, ExportedFeatures(db))
    ensures ListsMap(FeatureRows(rows), map f | f in Active(db) :: db.features[f])
  {
    forall f <- Active(db)
      ensures HasKey(FeatureRows(rows), f)
    {
      assert HasKey(rows, f);
      var i :| 0 <= i < |rows| && rows[i].key == f;
      assert FeatureRows(rows)[i].key == f;
    }
  }

  /** The tables after the environments and the toggles of an export. */
  function WithFeatures(db: Db, target: Db): Db {
    target.(environments := db.environments,
            projectEnvs := {},
            features := map f | f in Active(db) :: db.features[f],
            featureEnvs := map[],
            strategies := map[],
            strategySegments := {},
            featureTags := {})
  }

  lemma FeaturesStage(db: Db, target: Db, doc: Document, keep: bool)
    requires Integrity(target) && IsExport(db, doc)
    ensures ImportFeatures(DropEnvironments(target).(environments := db.environments), doc.features.value, true, keep) ==
            Step(WithFeatures(db, target), Done)
  {
    var rows := doc.features.value;
    var start := DropEnvironments(target).(environments := db.environments);
    var dropped := RemoveFeatures(start, start.features.Keys);
    assert dropped == start.(features := map[], featureTags := {});
    UnseenOfNothing(rows);
    ImportFreshFeatures(dropped, rows);
    FeatureRowsList(db, rows);
    InsertIgnoreLists(FeatureRows(rows), map f | f in Active(db) :: db.features[f]);
  }

  lemma FeatureEnvsStage(db: Db, target: Db, doc: Document)
    requires Integrity(db) && IsExport(db, doc)
    ensures ImportFeatureEnvironments(WithFeatures(db, target), doc.featureEnvironments.value) ==
            Step(WithFeatures(db, target).(featureEnvs := ExportedFeatureEnvs(db)), Done)
  {
    var rows := doc.featureEnvironments.value;
    var start := WithFeatures(db, target);
    ImportFreshFeatureEnvs(start, rows);
    InsertIgnoreLists(rows, ExportedFeatureEnvs(db));
  }

  lemma IdsNeedNoUuid(rows: seq<StrategyDoc>, uuid: nat -> string)
    requires forall s <- rows :: s.id.Some?
    ensures StrategyRows(rows, uuid) == StrategyRows(rows, _ => "")
  {
  }

  lemma StrategiesStage(db: Db, target: Db, doc: Document, keep: bool, uuid: nat -> string)
    requires Integrity(db) && IsExport(db, doc)
    ensures var start := WithFeatures(db, target).(featureEnvs := ExportedFeatureEnvs(db));
            ImportFeatureStrategies(start, doc.featureStrategies, true, keep, uuid) ==
            Step(start.(strategies := ExportedStrategies(db)), Done)
  {
    var rows := doc.featureStrategies.value;
    var start := WithFeatures(db, target).(featureEnvs := ExportedFeatureEnvs(db));
    assert RemoveStrategies(start, start.strategies.Keys) == start;
    IdsNeedNoUuid(rows, uuid);
    var listed := StrategyRows(rows, uuid);
    forall i | 0 <= i < |rows|
      ensures rows[i].feature in start.features && rows[i].environment in start.environments
    {
      assert listed[i].key in ExportedStrategies(db) && listed[i].value == ExportedStrategies(db)[listed[i].key];
    }
    InsertFreshStrategies(start, rows, uuid);
    InsertIgnoreLists(listed, ExportedStrategies(db));
  }

  function WithToggles(db: Db, target: Db): Db {
    WithFeatures(db, target).(featureEnvs := ExportedFeatureEnvs(db), strategies := ExportedStrategies(db))
  }

  lemma TogglesStage(db: Db, target: Db, doc: Document, keep: bool, uuid: nat -> string)
    requires Integrity(db) && Integrity(target) && IsExport(db, doc)
    ensures AfterToggles(target, doc, true, keep, uuid) == Step(WithToggles(db, target), Done)
  {
    EnvironmentsStage(db, target, doc, keep);
    FeaturesStage(db, target, doc, keep);
    FeatureEnvsStage(db, target, doc);
    StrategiesStage(db, target, doc, keep, uuid);
  }

  predicate DefaultEnvAvailable(db: Db) {
    db.projects == map[] || DEFAULT_ENV in db.environments
  }

  function WithProjects(db: Db, target: Db): Db {
    WithToggles(db, target).(projects := db.projects, projectEnvs := DefaultLinks(db.projects.Keys))
  }

  function WithTags(db: Db, target: Db): Db {
    WithProjects(db, target).(tagTypes := db.tagTypes, tags := db.tags, featureTags := ActiveTags(db))
  }

  function WithSegmentTable(db: Db, target: Db): Db {
    WithTags(db, target).(segments := db.segments, strategySegments := {})
  }

  lemma AddToNone(start: Db, projects: map<string, string>)
    requires start.projects == map[] && start.projectEnvs == {}
    ensures var r := AddProjects(start, projects);
            && (r.outcome == Done <==> projects == map[] || DEFAULT_ENV in start.environments)
            && (r.outcome == Done ==>
                  r.db == start.(projects := projects, projectEnvs := DefaultLinks(projects.Keys)))
  {
    assert projects.Keys == {} ==> projects == map[];
  }

  lemma ProjectsStage(db: Db, target: Db, doc: Document, keep: bool)
    requires IsExport(db, doc)
    ensures var r := ImportProjects(WithToggles(db, target), doc.projects.value, true, keep);
            && (r.outcome == Done <==> DefaultEnvAvailable(db))
            && (r.outcome == Done ==> r.db == WithProjects(db, target))
  {
    UnseenOfNothing(doc.projects.value);
    InsertIgnoreLists(doc.projects.value, db.projects);
    AddToNone(DropProjects(WithToggles(db, target)), db.projects);
  }

  lemma DocumentTagsAreActive(db: Db, doc: Document)
    requires IsExport(db, doc)
    ensures DocumentTags(doc) == ActiveTags(db)
  {
    var rows := doc.features.value;
    forall t
      ensures t in DocumentTags(doc) <==> t in db.featureTags && t.feature in Active(db)
    {
      if t in db.featureTags && t.feature in Active(db) {
        assert HasKey(rows, t.feature);
      }
    }
  }

  lemma InsertExportedTags(db: Db, start: Db, doc: Document, keep: bool)
    requires Integrity(db) && IsExport(db, doc)
    requires start.tags == {} && start.tagTypes == db.tagTypes
    ensures InsertTags(start, NewTags(doc.tags.value, {}, keep)) == Step(start.(tags := db.tags), Done)
  {
  }

  lemma InsertExportedFeatureTags(db: Db, start: Db, doc: Document, keep: bool)
    requires Integrity(db) && IsExport(db, doc)
    requires start.featureTags == {} && start.tags == db.tags && start.features.Keys == Active(db)
    ensures InsertFeatureTags(start, NewFeatureTags(DocumentTags(doc), {}, keep)) ==
            Step(start.(featureTags := ActiveTags(db)), Done)
  {
    DocumentTagsAreActive(db, doc);
  }

  lemma TagsStage(db: Db, start: Db, doc: Document, keep: bool)
    requires Integrity(db) && IsExport(db, doc)
    requires start.features.Keys == Active(db)
    ensures ImportTagData(start, doc.tagTypes.value, doc.tags.value, DocumentTags(doc), true, keep) ==
            Step(start.(tagTypes := db.tagTypes, tags := db.tags, featureTags := ActiveTags(db)), Done)
  {
    UnseenOfNothing(doc.tagTypes.value);
    InsertIgnoreLists(doc.tagTypes.value, db.tagTypes);
    var typed := start.(tagTypes := db.tagTypes, tags := {}, featureTags := {});
    InsertExportedTags(db, typed, doc, keep);
    InsertExportedFeatureTags(db, typed.(tags := db.tags), doc, keep);
  }

  lemma SegmentsStage(db: Db, start: Db, doc: Document)
    requires IsExport(db, doc)
    ensures ImportSegments(start, doc.segments.value, true) ==
            Step(start.(segments := db.segments, strategySegments := {}), Done)
  {
    var dropped := start.(segments := map[], strategySegments := {});
    InsertFreshSegments(dropped, doc.segments.value);
    InsertIgnoreLists(doc.segments.value, db.segments);
  }

  lemma LinksStage(db: Db, start: Db, doc: Document)
    requires Integrity(db) && IsExport(db, doc)
    requires start.strategySegments == {} && start.strategies == ExportedStrategies(db) && start.segments == db.segments
    ensures var r := ImportLinks(start, doc.featureStrategySegments.value);
            && (r.outcome == Done <==> NoArchivedLinks(db))
            && (r.outcome == Done ==> r.db == start.(strategySegments := db.strategySegments))
  {
    var links := doc.featureStrategySegments.value;
    InsertFreshLinks(start, links);
  }

  lemma LaterStages(db: Db, target: Db, doc: Document, keep: bool)
    requires Integrity(db) && IsExport(db, doc)
    ensures var s := Step(WithProjects(db, target), Done);
            var r := AfterLinks(AfterSegments(AfterTags(s, doc, true, keep), doc, true), doc);
            && (r.outcome == Done <==> NoArchivedLinks(db))
            && (r.outcome == Done ==> r.db == Restored(db))
  {
    TagsStage(db, WithProjects(db, target), doc, keep);
    SegmentsStage(db, WithTags(db, target), doc);
    LinksStage(db, WithSegmentTable(db, target), doc);
  }

  /** Exporting the tables and importing the document anywhere with dropBeforeImport succeeds exactly when
      no segment link hangs on an archived toggle and the default environment is there for the projects;
      then the target holds what was exported and nothing else. */
  lemma ExportImportRoundTrip(db: Db, target: Db, doc: Document, keep: bool, uuid: nat -> string)
    requires Integrity(db) && Integrity(target) && IsExport(db, doc)
    ensures var r := Import(target, doc, true, keep, uuid);
            && (r.outcome == Done <==> NoArchivedLinks(db) && DefaultEnvAvailable(db))
            && (r.outcome == Done ==> r.db == Restored(db))
  {
    TogglesStage(db, target, doc, keep, uuid);
    ProjectsStage(db, target, doc, keep);
    if DefaultEnvAvailable(db) {
      LaterStages(db, target, doc, keep);
    }
  }

  /** Restoring twice is restoring once: what one round trip keeps, the next one keeps. */
  lemma RestoredIsStable(db: Db)
    requires Integrity(db) && NoArchivedLinks(db)
    ensures Restored(Restored(db)) == Restored(db)
    ensures NoArchivedLinks(Restored(db))
  {
    assert Active(Restored(db)) == Active(db);
  }

  // ---------- Exports that cannot be imported ----------

  /** An archived toggle with one strategy and a segment linked to it. */
  function ArchivedLink(): Db {
    var env := Environment("production", 1, true, false);
    Db(map[DEFAULT_ENV := env], map["p" := "P"], {ProjectEnv("p", DEFAULT_ENV)},
       map["t" := Feature("p", true, FeatureData("", "release", "epic", false, false, map[]))],
       map[FeatureEnv("t", DEFAULT_ENV) := false],
       map["s" := Strategy("t", "p", DEFAULT_ENV, StrategyConfig("default", [], map[], 0))],
       map[1 := Segment("beta", "", [])], {StrategySegment("s", 1)}, map[], {}, {})
  }

  function ArchivedLinkExport(): Document {
    Document(Some(3), Some([Row(DEFAULT_ENV, Environment("production", 1, true, false))]), Some([]), Some([]), Some([]),
             Some([Row("p", "P")]), Some([]), Some([]), [], Some([Row(1, Segment("beta", "", []))]),
             Some([StrategySegment("s", 1)]))
  }

  lemma ListsOne<K(!new), V(!new)>(k: K, v: V)
    ensures ListsMap([Row(k, v)], map[k := v])
  {
    assert [Row(k, v)][0].key == k;
  }

  lemma ArchivedLinkIsConsistent()
    ensures Integrity(ArchivedLink())
  {
  }

  lemma ArchivedLinkIsExported()
    ensures IsExport(ArchivedLink(), ArchivedLinkExport()) && !NoArchivedLinks(ArchivedLink())
  {
    var db, doc := ArchivedLink(), ArchivedLinkExport();
    ListsOne(DEFAULT_ENV, Environment("production", 1, true, false));
    ListsOne("p", "P");
    ListsOne(1, Segment("beta", "", []));
    assert Active(db) == {};
    assert ListsSet(doc.featureStrategySegments.value, {StrategySegment("s", 1)});
    assert StrategySegment("s", 1) in db.strategySegments;
  }

  /** The link is exported, its strategy is not: no import of the document succeeds. */
  lemma ArchivedLinkFails(target: Db, keep: bool, uuid: nat -> string)
    requires Integrity(target)
    ensures Integrity(ArchivedLink()) && IsExport(ArchivedLink(), ArchivedLinkExport())
    ensures Import(target, ArchivedLinkExport(), true, keep, uuid).outcome != Done
  {
    ArchivedLinkIsConsistent();
    ArchivedLinkIsExported();
    ExportImportRoundTrip(ArchivedLink(), target, ArchivedLinkExport(), keep, uuid);
  }

  /** One project and no default environment. */
  function NoDefaultEnv(): Db {
    Db(map["production" := Environment("production", 1, true, false)], map["p" := "P"], {}, map[], map[], map[],
       map[], {}, map[], {}, {})
  }

  function NoDefaultEnvExport(): Document {
    Document(Some(3), Some([Row("production", Environment("production", 1, true, false))]), Some([]), Some([]), Some([]),
             Some([Row("p", "P")]), Some([]), Some([]), [], Some([]), Some([]))
  }

  lemma NoDefaultEnvIsExported()
    ensures IsExport(NoDefaultEnv(), NoDefaultEnvExport()) && !DefaultEnvAvailable(NoDefaultEnv())
  {
    ListsOne("production", Environment("production", 1, true, false));
    ListsOne("p", "P");
    assert Active(NoDefaultEnv()) == {};
    assert |"production"| != |DEFAULT_ENV| && "p" in NoDefaultEnv().projects;
  }

  /** The project cannot be linked to the default environment: no import of the document succeeds. */
  lemma NoDefaultEnvFails(target: Db, keep: bool, uuid: nat -> string)
    requires Integrity(target)
    ensures Integrity(NoDefaultEnv()) && IsExport(NoDefaultEnv(), NoDefaultEnvExport())
    ensures Import(target, NoDefaultEnvExport(), true, keep, uuid).outcome != Done
  {
    NoDefaultEnvIsExported();
    ExportImportRoundTrip(NoDefaultEnv(), target, NoDefaultEnvExport(), keep, uuid);
  }
}
