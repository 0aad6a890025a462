/** The export document, and what importing one does to the tables. */
module StateImport {
  import opened Tables
  import opened Steps

  /** A key with its row. */
  datatype Row<+K, +V> = Row(key: K, value: V)

  datatype LegacyStrategy = LegacyStrategy(
    name: string,
    constraints: Option<seq<Constraint>>,
    parameters: Option<map<string, string>>)

  /** A toggle; the flag and the strategies are part of version 1 documents only. */
  datatype FeatureDoc = FeatureDoc(feature: Feature, enabled: bool, strategies: Option<seq<LegacyStrategy>>)

  /** A strategy; its sort order is not part of a document. */
  datatype StrategyDoc = StrategyDoc(
    id: Option<string>,
    feature: string,
    project: string,
    environment: string,
    name: string,
    constraints: seq<Constraint>,
    parameters: map<string, string>)

  /** A document. Every part may be missing, and an empty part is not a missing one. */
  datatype Document = Document(
    version: Option<int>,
    environments: Option<seq<Row<string, Environment>>>,
    features: Option<seq<Row<string, FeatureDoc>>>,
    featureEnvironments: Option<seq<Row<FeatureEnv, bool>>>,
    featureStrategies: Option<seq<StrategyDoc>>,
    projects: Option<seq<Row<string, string>>>,
    tagTypes: Option<seq<Row<string, string>>>,
    tags: Option<seq<Tag>>,
    featureTags: seq<FeatureTag>,
    segments: Option<seq<Row<int, Segment>>>,
    featureStrategySegments: Option<seq<StrategySegment>>)

  const GLOBAL_ENV := ":global:"
  const DEFAULT_SORT_ORDER := 9999

  // ---------- Version 2: the old name of the default environment ----------

  function Renamed(environment: string): string {
    if environment == GLOBAL_ENV then DEFAULT_ENV else environment
  }

  function ReplaceGlobalEnvWithDefaultEnv(doc: Document): Document {
    doc.(environments :=
           match doc.environments
           case None => None
           case Some(es) => Some(seq(|es|, i requires 0 <= i < |es| => es[i].(key := Renamed(es[i].key)))),
         featureEnvironments :=
           match doc.featureEnvironments
           case None => None
           case Some(es) =>
             Some(seq(|es|, i requires 0 <= i < |es| =>
               es[i].(key := es[i].key.(environment := Renamed(es[i].key.environment))))),
         featureStrategies :=
           match doc.featureStrategies
           case None => None
           case Some(ss) =>
             Some(seq(|ss|, i requires 0 <= i < |ss| => ss[i].(environment := Renamed(ss[i].environment)))))
  }

  function Normalized(doc: Document): Document {
    if doc.version == Some(2) then ReplaceGlobalEnvWithDefaultEnv(doc) else doc
  }

  // ---------- Version 1: strategies inside toggles ----------

  function LegacyStrategyDoc(feature: string, project: string, s: LegacyStrategy): StrategyDoc {
    StrategyDoc(None, feature, project, DEFAULT_ENV, s.name,
                if s.constraints.Some? then s.constraints.value else [],
                if s.parameters.Some? then s.parameters.value else map[])
  }

  function LegacyStrategyDocs(r: Row<string, FeatureDoc>): seq<StrategyDoc>
    requires r.value.strategies.Some?
  {
    var ss := r.value.strategies.value;
    seq(|ss|, i requires 0 <= i < |ss| => LegacyStrategyDoc(r.key, r.value.feature.project, ss[i]))
  }

  predicate AllHaveStrategies(features: seq<Row<string, FeatureDoc>>) {
    forall r <- features :: r.value.strategies.Some?
  }

  function ConvertStrategies(features: seq<Row<string, FeatureDoc>>): seq<StrategyDoc>
    requires AllHaveStrategies(features)
  {
    if features == [] then []
    else ConvertStrategies(features[..|features| - 1]) + LegacyStrategyDocs(features[|features| - 1])
  }

  function ConvertEnvironments(features: seq<Row<string, FeatureDoc>>): seq<Row<FeatureEnv, bool>> {
    seq(|features|, i requires 0 <= i < |features| =>
      Row(FeatureEnv(features[i].key, DEFAULT_ENV), features[i].value.enabled))
  }

  // ---------- Inserting rows ----------

  /** The first failure is the one reported; the tasks after it still run. */
  function First(earlier: Outcome, later: Outcome): Outcome {
    if earlier.Failed? then earlier else later
  }

  function Unseen<K(==), V>(rows: seq<Row<K, V>>, existing: set<K>): seq<Row<K, V>> {
    if rows == [] then []
    else
      var last := rows[|rows| - 1];
      if last.key in existing then Unseen(rows[..|rows| - 1], existing) else Unseen(rows[..|rows| - 1], existing) + [last]
  }

  /** INSERT ... ON CONFLICT DO NOTHING. */
  function InsertIgnore<K, V>(m: map<K, V>, rows: seq<Row<K, V>>): map<K, V> {
    if rows == [] then m
    else
      var before, last := InsertIgnore(m, rows[..|rows| - 1]), rows[|rows| - 1];
      if last.key in before then before else before[last.key := last.value]
  }

  function DropEnvironments(db: Db): Db {
    db.(environments := map[], projectEnvs := {}, featureEnvs := map[], strategies := map[], strategySegments := {})
  }

  function ImportEnvironments(db: Db, rows: seq<Row<string, Environment>>, drop: bool, keep: bool): Db {
    var dropped := if drop then DropEnvironments(db) else db;
    var existing := if drop then {} else db.environments.Keys;
    dropped.(environments := InsertIgnore(dropped.environments, if keep then Unseen(rows, existing) else rows))
  }

  /** Creates the toggle, ignoring a failure, then stores its variants under its project and name. */
  function ImportFeature(db: Db, r: Row<string, FeatureDoc>): Step {
    var f := r.value.feature;
    var features := if r.key in db.features then db.features else db.features[r.key := f];
    if features[r.key].project == f.project then
      var stored := features[r.key];
      Step(db.(features := features[r.key := stored.(data := stored.data.(variants := f.data.variants))]), Done)
    else
      Step(db.(features := features), Failed(NotFound))
  }

  function ImportFeatureRows(db: Db, rows: seq<Row<string, FeatureDoc>>): Step {
    if rows == [] then Step(db, Done)
    else
      var before := ImportFeatureRows(db, rows[..|rows| - 1]);
      var r := ImportFeature(before.db, rows[|rows| - 1]);
      Step(r.db, First(before.outcome, r.outcome))
  }

  function ActiveFeatures(db: Db): set<string> {
    set f | f in db.features && !db.features[f].archived
  }

  /** Only active toggles count as existing. */
  function ImportFeatures(db: Db, rows: seq<Row<string, FeatureDoc>>, drop: bool, keep: bool): Step {
    var dropped := if drop then RemoveFeatures(db, db.features.Keys) else db;
    var existing := if drop then {} else ActiveFeatures(db);
    ImportFeatureRows(dropped, if keep then Unseen(rows, existing) else rows)
  }

  function UpsertFeatureEnv(db: Db, r: Row<FeatureEnv, bool>): Step {
    if r.key.feature in db.features && r.key.environment in db.environments then
      Step(db.(featureEnvs := db.featureEnvs[r.key := r.value]), Done)
    else
      Step(db, Failed(ForeignKeyViolation))
  }

  function ImportFeatureEnvironments(db: Db, rows: seq<Row<FeatureEnv, bool>>): Step {
    if rows == [] then Step(db, Done)
    else
      var before := ImportFeatureEnvironments(db, rows[..|rows| - 1]);
      var r := UpsertFeatureEnv(before.db, rows[|rows| - 1]);
      Step(r.db, First(before.outcome, r.outcome))
  }

  function StrategyRow(s: StrategyDoc): Strategy {
    Strategy(s.feature, s.project, s.environment,
             StrategyConfig(s.name, s.constraints, s.parameters, DEFAULT_SORT_ORDER))
  }

  function InsertStrategy(db: Db, id: string, s: Strategy): Step {
    if id in db.strategies then Step(db, Failed(UniqueViolation))
    else if s.feature !in db.features || s.environment !in db.environments then Step(db, Failed(ForeignKeyViolation))
    else Step(db.(strategies := db.strategies[id := s]), Done)
  }

  predicate Skipped(s: StrategyDoc, skip: set<string>) {
    s.id.Some? && s.id.value in skip
  }

  /** A strategy without an id gets the one generated for its position. */
  function IdOf(s: StrategyDoc, position: nat, uuid: nat -> string): string {
    if s.id.Some? then s.id.value else uuid(position)
  }

  function InsertStrategies(db: Db, rows: seq<StrategyDoc>, uuid: nat -> string, skip: set<string>): Step {
    if rows == [] then Step(db, Done)
    else
      var before := InsertStrategies(db, rows[..|rows| - 1], uuid, skip);
      var s := rows[|rows| - 1];
      if Skipped(s, skip) then before
      else
        var r := InsertStrategy(before.db, IdOf(s, |rows| - 1, uuid), StrategyRow(s));
        Step(r.db, First(before.outcome, r.outcome))
  }

  function ImportFeatureStrategies(db: Db, rows: Option<seq<StrategyDoc>>, drop: bool, keep: bool,
                                   uuid: nat -> string): Step {
    var dropped := if drop then RemoveStrategies(db, db.strategies.Keys) else db;
    var existing := if drop then {} else db.strategies.Keys;
    match rows
    case None => Step(dropped, Failed(TypeError))
    case Some(ss) => InsertStrategies(dropped, ss, uuid, if keep then existing else {})
  }

  /** The toggles of a document with their environments and strategies, converted if it is a version 1
      document; a version 1 toggle with null strategies breaks the conversion. */
  datatype ToggleData = Broken | ToggleData(
    features: seq<Row<string, FeatureDoc>>,
    environments: Option<seq<Row<FeatureEnv, bool>>>,
    strategies: Option<seq<StrategyDoc>>)

  predicate IsLegacy(doc: Document) {
    doc.version == None || doc.version == Some(0) || doc.version == Some(1)
  }

  function TogglesOf(doc: Document): ToggleData
    requires doc.features.Some?
  {
    var features := doc.features.value;
    if !IsLegacy(doc) then ToggleData(features, doc.featureEnvironments, doc.featureStrategies)
    else if AllHaveStrategies(features) then
      ToggleData(features, Some(ConvertEnvironments(features)), Some(ConvertStrategies(features)))
    else Broken
  }

  function ImportToggles(db: Db, data: ToggleData, drop: bool, keep: bool, uuid: nat -> string): Step {
    match data
    case Broken => Step(db, Failed(TypeError))
    case ToggleData(features, environments, strategies) =>
      var s1 := ImportFeatures(db, features, drop, keep);
      if s1.outcome.Failed? then s1
      else if environments == None then Step(s1.db, Failed(TypeError))
      else
        var s2 := ImportFeatureEnvironments(s1.db, environments.value);
        if s2.outcome.Failed? then s2
        else ImportFeatureStrategies(s2.db, strategies, drop, keep, uuid)
  }

  // ---------- Projects, tags, segments ----------

  function DropProjects(db: Db): Db {
    db.(projects := map[], projectEnvs := {})
  }

  function DefaultLinks(projects: set<string>): (r: set<ProjectEnv>)
    ensures forall l :: l in r <==> l.project in projects && l.environment == DEFAULT_ENV
  {
    set p | p in projects :: ProjectEnv(p, DEFAULT_ENV)
  }

  /** Stores the projects and links each new one to the default environment. */
  function AddProjects(db: Db, projects: map<string, string>): Step {
    var inserted := projects.Keys - db.projects.Keys;
    if inserted == {} then Step(db.(projects := projects), Done)
    else if DEFAULT_ENV !in db.environments then Step(db.(projects := projects), Failed(ForeignKeyViolation))
    else Step(db.(projects := projects, projectEnvs := db.projectEnvs + DefaultLinks(inserted)), Done)
  }

  function ImportProjects(db: Db, rows: seq<Row<string, string>>, drop: bool, keep: bool): Step {
    var dropped := if drop then DropProjects(db) else db;
    var existing := if drop then {} else db.projects.Keys;
    AddProjects(dropped, InsertIgnore(dropped.projects, if keep then Unseen(rows, existing) else rows))
  }

  function InsertTags(db: Db, tags: set<Tag>): Step {
    if forall t <- tags :: t.kind in db.tagTypes then Step(db.(tags := db.tags + tags), Done)
    else Step(db, Failed(ForeignKeyViolation))
  }

  function InsertFeatureTags(db: Db, tags: set<FeatureTag>): Step {
    if forall t <- tags :: t.feature in db.features && t.tag in db.tags then
      Step(db.(featureTags := db.featureTags + tags), Done)
    else
      Step(db, Failed(ForeignKeyViolation))
  }

  /** The links whose toggle the document contains. */
  function DocumentTags(doc: Document): set<FeatureTag> {
    set t | t in doc.featureTags && doc.features.Some? && exists r :: r in doc.features.value && r.key == t.feature
  }

  function NewTags(tags: seq<Tag>, existing: set<Tag>, keep: bool): set<Tag> {
    set t | t in tags && (keep ==> t !in existing)
  }

  function NewFeatureTags(tags: set<FeatureTag>, existing: set<FeatureTag>, keep: bool): set<FeatureTag> {
    if keep then tags - existing else tags
  }

  function DropTagData(db: Db): Db {
    db.(tagTypes := map[], tags := {}, featureTags := {})
  }

  function AddTagData(db: Db, tagTypes: map<string, string>, tags: set<Tag>, featureTags: set<FeatureTag>): Step {
    var tagged := InsertTags(db.(tagTypes := tagTypes), tags);
    if tagged.outcome.Failed? then tagged else InsertFeatureTags(tagged.db, featureTags)
  }

  /** Existing rows are left out when they are kept; the inserts ignore them otherwise. */
  function ImportTagData(db: Db, tagTypes: seq<Row<string, string>>, tags: seq<Tag>, featureTags: set<FeatureTag>,
                         drop: bool, keep: bool): Step {
    var dropped := if drop then DropTagData(db) else db;
    var oldTypes := if drop then {} else db.tagTypes.Keys;
    AddTagData(dropped,
               InsertIgnore(dropped.tagTypes, if keep then Unseen(tagTypes, oldTypes) else tagTypes),
               NewTags(tags, dropped.tags, keep),
               NewFeatureTags(featureTags, dropped.featureTags, keep))
  }

  function InsertSegment(db: Db, r: Row<int, Segment>): Step {
    if r.key in db.segments then Step(db, Failed(UniqueViolation))
    else Step(db.(segments := db.segments[r.key := r.value]), Done)
  }

  function InsertSegments(db: Db, rows: seq<Row<int, Segment>>): Step {
    if rows == [] then Step(db, Done)
    else
      var before := InsertSegments(db, rows[..|rows| - 1]);
      var r := InsertSegment(before.db, rows[|rows| - 1]);
      Step(r.db, First(before.outcome, r.outcome))
  }

  function ImportSegments(db: Db, rows: seq<Row<int, Segment>>, drop: bool): Step {
    InsertSegments(if drop then db.(segments := map[], strategySegments := {}) else db, rows)
  }

  function InsertLink(db: Db, l: StrategySegment): Step {
    if l in db.strategySegments then Step(db, Failed(UniqueViolation))
    else if l.strategy !in db.strategies || l.segment !in db.segments then Step(db, Failed(ForeignKeyViolation))
    else Step(db.(strategySegments := db.strategySegments + {l}), Done)
  }

  function ImportLinks(db: Db, links: seq<StrategySegment>): Step {
    if links == [] then Step(db, Done)
    else
      var before := ImportLinks(db, links[..|links| - 1]);
      var r := InsertLink(before.db, links[|links| - 1]);
      Step(r.db, First(before.outcome, r.outcome))
  }

  // ---------- The whole import ----------

  function AfterEnvironments(db: Db, doc: Document, drop: bool, keep: bool): Db {
    if doc.environments.Some? then ImportEnvironments(db, doc.environments.value, drop, keep) else db
  }

  function AfterToggles(db: Db, doc: Document, drop: bool, keep: bool, uuid: nat -> string): Step {
    var db1 := AfterEnvironments(db, doc, drop, keep);
    if doc.features.Some? then ImportToggles(db1, TogglesOf(doc), drop, keep, uuid) else Step(db1, Done)
  }

  function AfterProjects(s: Step, doc: Document, drop: bool, keep: bool): Step {
    if s.outcome.Failed? || doc.projects == None then s else ImportProjects(s.db, doc.projects.value, drop, keep)
  }

  function AfterTags(s: Step, doc: Document, drop: bool, keep: bool): Step {
    if s.outcome.Failed? || doc.tagTypes == None || doc.tags == None then s
    else ImportTagData(s.db, doc.tagTypes.value, doc.tags.value, DocumentTags(doc), drop, keep)
  }

  function AfterSegments(s: Step, doc: Document, drop: bool): Step {
    if s.outcome.Failed? || doc.segments == None then s else ImportSegments(s.db, doc.segments.value, drop)
  }

  function AfterLinks(s: Step, doc: Document): Step {
    if s.outcome.Failed? || doc.featureStrategySegments == None then s
    else ImportLinks(s.db, doc.featureStrategySegments.value)
  }

  /** The stages in order; the first one that fails ends the import. */
  function Import(db: Db, document: Document, drop: bool, keep: bool, uuid: nat -> string): Step {
    var doc := Normalized(document);
    AfterLinks(AfterSegments(AfterTags(AfterProjects(AfterToggles(db, doc, drop, keep, uuid),
                                                     doc, drop, keep), doc, drop, keep), doc, drop), doc)
  }

  // ---------- Documents of version 2 and 3 ----------

  function OldName(environment: string): string {
    if environment == DEFAULT_ENV then GLOBAL_ENV else environment
  }

  /** The document as version 2 wrote it: the default environment under its old name. */
  function AsVersionTwo(doc: Document): Document {
    doc.(version := Some(2),
         environments :=
           match doc.environments
           case None => None
           case Some(es) => Some(seq(|es|, i requires 0 <= i < |es| => es[i].(key := OldName(es[i].key)))),
         featureEnvironments :=
           match doc.featureEnvironments
           case None => None
           case Some(es) =>
             Some(seq(|es|, i requires 0 <= i < |es| =>
               es[i].(key := es[i].key.(environment := OldName(es[i].key.environment))))),
         featureStrategies :=
           match doc.featureStrategies
           case None => None
           case Some(ss) =>
             Some(seq(|ss|, i requires 0 <= i < |ss| => ss[i].(environment := OldName(ss[i].environment)))))
  }

  /** No environment of the document has the old name. */
  ghost predicate NoGlobalEnv(doc: Document) {
    && (doc.environments.Some? ==>
          forall i | 0 <= i < |doc.environments.value| :: doc.environments.value[i].key != GLOBAL_ENV)
    && (doc.featureEnvironments.Some? ==>
          forall i | 0 <= i < |doc.featureEnvironments.value| ::
            doc.featureEnvironments.value[i].key.environment != GLOBAL_ENV)
    && (doc.featureStrategies.Some? ==>
          forall i | 0 <= i < |doc.featureStrategies.value| ::
            doc.featureStrategies.value[i].environment != GLOBAL_ENV)
  }

  lemma RenamingUndoesOldNames(doc: Document)
    requires NoGlobalEnv(doc)
    ensures ReplaceGlobalEnvWithDefaultEnv(AsVersionTwo(doc)) == doc.(version := Some(2))
  {
    var back := ReplaceGlobalEnvWithDefaultEnv(AsVersionTwo(doc));
    if doc.environments.Some? {
      assert back.environments.value == doc.environments.value;
    }
    if doc.featureEnvironments.Some? {
      assert back.featureEnvironments.value == doc.featureEnvironments.value;
    }
    if doc.featureStrategies.Some? {
      assert back.featureStrategies.value == doc.featureStrategies.value;
    }
  }

  /** Documents of other versions keep their environment names. */
  lemma OnlyVersionTwoIsRenamed(doc: Document)
    requires doc.version != Some(2)
    ensures Normalized(doc) == doc
  {
  }

  /** A version 2 document imports exactly like the version 3 document of the same content. */
  lemma VersionTwoImportsAsThree(db: Db, doc: Document, drop: bool, keep: bool, uuid: nat -> string)
    requires doc.version == Some(3) && NoGlobalEnv(doc)
    ensures Import(db, AsVersionTwo(doc), drop, keep, uuid) == Import(db, doc, drop, keep, uuid)
  {
    RenamingUndoesOldNames(doc);
    var two := doc.(version := Some(2));
    assert AfterToggles(db, two, drop, keep, uuid) == AfterToggles(db, doc, drop, keep, uuid);
    var s := AfterProjects(AfterToggles(db, doc, drop, keep, uuid), doc, drop, keep);
  }
}
