/** A version 1 document read back through the legacy view. */
module LegacyImport {
  import opened Tables
  import opened Steps
  import opened StateImport
  import opened StateRoundTrip
  import opened ImportIntegrity
  import AdminFold
  import AdminQuery

  /** What the round trip keeps of a strategy. */
  datatype LegacyConfig = LegacyConfig(name: string, constraints: seq<Constraint>, parameters: map<string, string>)

  function DocConfig(s: StrategyDoc): LegacyConfig {
    LegacyConfig(s.name, s.constraints, s.parameters)
  }

  function ViewConfig(s: AdminFold.AdminStrategy): LegacyConfig {
    LegacyConfig(s.name, s.constraints, s.parameters)
  }

  /** The strategies of a version 1 toggle; null constraints and parameters stand for none. */
  function LegacyConfigs(ss: seq<LegacyStrategy>): seq<LegacyConfig> {
    seq(|ss|, i requires 0 <= i < |ss| =>
      LegacyConfig(ss[i].name,
                   if ss[i].constraints.Some? then ss[i].constraints.value else [],
                   if ss[i].parameters.Some? then ss[i].parameters.value else map[]))
  }

  function ViewConfigs(ss: seq<AdminFold.AdminStrategy>): seq<LegacyConfig> {
    if ss == [] then [] else ViewConfigs(ss[..|ss| - 1]) + [ViewConfig(ss[|ss| - 1])]
  }

  /** Generated ids are never repeated and never empty. */
  ghost predicate GoodUuids(uuid: nat -> string) {
    && (forall i: nat, j: nat | uuid(i) == uuid(j) :: i == j)
    && (forall i: nat :: uuid(i) != "")
  }

  /** A document without a version, or of version 0 or 1, that has a toggle with null strategies fails once its
      environments are stored, whatever else it holds; no other document breaks the conversion. */
  lemma NullStrategiesFail(db: Db, doc: Document, drop: bool, keep: bool, uuid: nat -> string)
    requires doc.features.Some?
    ensures var breaks := doc.version in {None, Some(0), Some(1)} && exists r :: r in doc.features.value && r.value.strategies == None;
            && (breaks ==> Import(db, doc, drop, keep, uuid) == Step(AfterEnvironments(db, doc, drop, keep), Failed(TypeError)))
            && (!breaks ==> TogglesOf(doc).ToggleData?)
  {
    if exists r :: r in doc.features.value && r.value.strategies == None {
      var r :| r in doc.features.value && r.value.strategies == None;
      assert !AllHaveStrategies(doc.features.value);
    }
  }

  /** Only documents without a version, or of version 0 or 1, are converted. */
  lemma NewDocumentsStay(doc: Document)
    requires doc.features.Some? && doc.version !in {None, Some(0), Some(1)}
    ensures TogglesOf(doc) == ToggleData(doc.features.value, doc.featureEnvironments, doc.featureStrategies)
  {
  }

  // ---------- The converted strategies of one toggle ----------

  function OfFeature(flat: seq<StrategyDoc>, name: string): seq<LegacyConfig> {
    if flat == [] then []
    else
      var last := flat[|flat| - 1];
      OfFeature(flat[..|flat| - 1], name) + if last.feature == name then [DocConfig(last)] else []
  }

  lemma {:induction false} OfFeatureConcat(a: seq<StrategyDoc>, b: seq<StrategyDoc>, name: string)
    ensures OfFeature(a + b, name) == OfFeature(a, name) + OfFeature(b, name)
  {
    if b == [] {
      assert a + b == a;
    } else {
      assert (a + b)[..|a + b| - 1] == a + b[..|b| - 1];
      OfFeatureConcat(a, b[..|b| - 1], name);
    }
  }

  lemma {:induction false} OfFeatureOwn(r: Row<string, FeatureDoc>, name: string, k: nat)
    requires r.value.strategies.Some? && k <= |r.value.strategies.value|
    ensures OfFeature(LegacyStrategyDocs(r)[..k], name) ==
            if r.key == name then LegacyConfigs(r.value.strategies.value)[..k] else []
  {
    if k > 0 {
      OfFeatureOwn(r, name, k - 1);
      assert LegacyStrategyDocs(r)[..k][..k - 1] == LegacyStrategyDocs(r)[..k - 1];
      assert LegacyConfigs(r.value.strategies.value)[..k] ==
             LegacyConfigs(r.value.strategies.value)[..k - 1] + [LegacyConfigs(r.value.strategies.value)[k - 1]];
    }
  }

  /** One more toggle adds its own strategies and no others. */
  lemma OfFeatureOneMore(rows: seq<Row<string, FeatureDoc>>, name: string)
    requires rows != [] && AllHaveStrategies(rows)
    ensures rows[|rows| - 1].value.strategies.Some? && AllHaveStrategies(rows[..|rows| - 1])
    ensures OfFeature(ConvertStrategies(rows), name) ==
            OfFeature(ConvertStrategies(rows[..|rows| - 1]), name) +
            if rows[|rows| - 1].key == name then LegacyConfigs(rows[|rows| - 1].value.strategies.value) else []
  {
    var front, last := rows[..|rows| - 1], rows[|rows| - 1];
    var own, configs := LegacyStrategyDocs(last), LegacyConfigs(last.value.strategies.value);
    OfFeatureConcat(ConvertStrategies(front), own, name);
    OfFeatureOwn(last, name, |own|);
    assert own[..|own|] == own && configs[..|own|] == configs;
  }

  lemma {:induction false} OfFeatureAbsent(rows: seq<Row<string, FeatureDoc>>, name: string)
    requires AllHaveStrategies(rows) && !HasKey(rows, name)
    ensures OfFeature(ConvertStrategies(rows), name) == []
  {
    if rows != [] {
      OfFeatureOneMore(rows, name);
      OfFeatureAbsent(rows[..|rows| - 1], name);
    }
  }

  /** The conversion keeps each toggle's strategies, in order. */
  lemma {:induction false} ConversionKeepsStrategies(rows: seq<Row<string, FeatureDoc>>, i: nat)
    requires AllHaveStrategies(rows) && KeysDistinct(rows) && i < |rows|
    ensures rows[i].value.strategies.Some?
    ensures OfFeature(ConvertStrategies(rows), rows[i].key) == LegacyConfigs(rows[i].value.strategies.value)
  {
    var front := rows[..|rows| - 1];
    OfFeatureOneMore(rows, rows[i].key);
    if i < |front| {
      assert front[i] == rows[i];
      ConversionKeepsStrategies(front, i);
    } else {
      OfFeatureAbsent(front, rows[i].key);
    }
  }

  // ---------- What the import stores ----------

  lemma {:induction false} ConvertedStrategies(rows: seq<Row<string, FeatureDoc>>, p: nat)
    requires AllHaveStrategies(rows) && p < |ConvertStrategies(rows)|
    ensures var s := ConvertStrategies(rows)[p];
            s.id == None && s.environment == DEFAULT_ENV && HasKey(rows, s.feature)
  {
    var front, last := rows[..|rows| - 1], rows[|rows| - 1];
    if p < |ConvertStrategies(front)| {
      ConvertedStrategies(front, p);
    }
  }

  lemma UuidRowsDistinct(flat: seq<StrategyDoc>, uuid: nat -> string)
    requires GoodUuids(uuid) && forall p | 0 <= p < |flat| :: flat[p].id == None
    ensures KeysDistinct(StrategyRows(flat, uuid))
  {
  }

  /** A document of version 1, or of version 0 or none, with distinct toggles, none with null strategies, imported where the default
      environment exists. */
  ghost predicate LegacyDocument(db: Db, doc: Document, keep: bool) {
    && doc.version in {None, Some(0), Some(1)} && doc.features.Some?
    && KeysDistinct(doc.features.value) && AllHaveStrategies(doc.features.value)
    && DEFAULT_ENV in AfterEnvironments(db, doc, true, keep).environments
  }

  /** The toggle tables after the import. */
  ghost predicate LegacyStored(r: Db, rows: seq<Row<string, FeatureDoc>>, uuid: nat -> string)
    requires AllHaveStrategies(rows)
  {
    && r.features == InsertIgnore(map[], FeatureRows(rows))
    && r.featureEnvs == InsertIgnore(map[], ConvertEnvironments(rows))
    && r.strategies == InsertIgnore(map[], StrategyRows(ConvertStrategies(rows), uuid))
  }

  lemma FeatureRowKeys(rows: seq<Row<string, FeatureDoc>>, name: string)
    requires KeysDistinct(rows)
    ensures KeysDistinct(FeatureRows(rows))
    ensures HasKey(FeatureRows(rows), name) <==> HasKey(rows, name)
  {
    if HasKey(rows, name) {
      var i :| 0 <= i < |rows| && rows[i].key == name;
      assert FeatureRows(rows)[i].key == name;
    }
  }

  lemma LegacyFeaturesStage(db: Db, rows: seq<Row<string, FeatureDoc>>, keep: bool)
    requires Integrity(db) && KeysDistinct(rows)
    ensures var s := ImportFeatures(db, rows, true, keep);
            && s.outcome == Done
            && s.db.features == InsertIgnore(map[], FeatureRows(rows))
            && s.db.environments == db.environments && s.db.featureEnvs == map[] && s.db.strategies == map[]
  {
    var dropped := RemoveFeatures(db, db.features.Keys);
    UnseenOfNothing(rows);
    ImportFreshFeatures(dropped, rows);
  }

  lemma LegacyEnvironmentsStage(s: Db, rows: seq<Row<string, FeatureDoc>>)
    requires KeysDistinct(rows) && s.featureEnvs == map[] && DEFAULT_ENV in s.environments
    requires s.features == InsertIgnore(map[], FeatureRows(rows))
    ensures ImportFeatureEnvironments(s, ConvertEnvironments(rows)) ==
            Step(s.(featureEnvs := InsertIgnore(map[], ConvertEnvironments(rows))), Done)
  {
    var es := ConvertEnvironments(rows);
    forall i | 0 <= i < |es|
      ensures es[i].key.feature in s.features
    {
      FeatureRowKeys(rows, rows[i].key);
      InsertIgnoreKeys(map[], FeatureRows(rows), rows[i].key);
    }
    ImportFreshFeatureEnvs(s, es);
  }

  lemma LegacyStrategiesStage(s: Db, rows: seq<Row<string, FeatureDoc>>, keep: bool, uuid: nat -> string)
    requires GoodUuids(uuid) && AllHaveStrategies(rows) && KeysDistinct(rows)
    requires s.strategies == map[] && DEFAULT_ENV in s.environments
    requires s.features == InsertIgnore(map[], FeatureRows(rows))
    ensures var r := ImportFeatureStrategies(s, Some(ConvertStrategies(rows)), true, keep, uuid);
            && r.outcome == Done
            && r.db.features == s.features && r.db.featureEnvs == s.featureEnvs && r.db.environments == s.environments
            && r.db.strategies == InsertIgnore(map[], StrategyRows(ConvertStrategies(rows), uuid))
  {
    var flat := ConvertStrategies(rows);
    var dropped := RemoveStrategies(s, s.strategies.Keys);
    forall p | 0 <= p < |flat|
      ensures flat[p].id == None && flat[p].environment in dropped.environments && flat[p].feature in dropped.features
    {
      ConvertedStrategies(rows, p);
      FeatureRowKeys(rows, flat[p].feature);
      InsertIgnoreKeys(map[], FeatureRows(rows), flat[p].feature);
    }
    InsertFreshStrategies(dropped, flat, uuid);
  }

  lemma LegacyImportStores(db: Db, doc: Document, keep: bool, uuid: nat -> string)
    requires Integrity(db) && GoodUuids(uuid) && LegacyDocument(db, doc, keep)
    ensures AfterToggles(db, doc, true, keep, uuid).outcome == Done
    ensures LegacyStored(AfterToggles(db, doc, true, keep, uuid).db, doc.features.value, uuid)
  {
    var rows := doc.features.value;
    var db1 := AfterEnvironments(db, doc, true, keep);
    EnvironmentsKeepIntegrity(db, doc, true, keep);
    LegacyFeaturesStage(db1, rows, keep);
    var s1 := ImportFeatures(db1, rows, true, keep);
    LegacyEnvironmentsStage(s1.db, rows);
    var s2 := ImportFeatureEnvironments(s1.db, ConvertEnvironments(rows));
    LegacyStrategiesStage(s2.db, rows, keep, uuid);
  }

  // ---------- Reading it back ----------

  /** The view's strategies that come from the document, in document order. */
  function Written(flat: seq<StrategyDoc>, uuid: nat -> string, name: string): seq<AdminFold.AdminStrategy> {
    if flat == [] then []
    else
      var last := flat[|flat| - 1];
      Written(flat[..|flat| - 1], uuid, name) +
      if last.feature == name then [WrittenAs(last, uuid(|flat| - 1))] else []
  }

  function WrittenAs(s: StrategyDoc, id: string): AdminFold.AdminStrategy {
    AdminFold.AdminStrategy(id, s.name, s.constraints, s.parameters, DEFAULT_SORT_ORDER)
  }

  ghost predicate IsWritten(flat: seq<StrategyDoc>, uuid: nat -> string, name: string, s: AdminFold.AdminStrategy) {
    exists p: nat :: p < |flat| && flat[p].feature == name && s == WrittenAs(flat[p], uuid(p))
  }

  lemma {:induction false} WrittenOnce(flat: seq<StrategyDoc>, uuid: nat -> string, name: string, s: AdminFold.AdminStrategy)
    requires GoodUuids(uuid)
    ensures multiset(Written(flat, uuid, name))[s] == if IsWritten(flat, uuid, name, s) then 1 else 0
  {
    if flat != [] {
      WrittenOnce(flat[..|flat| - 1], uuid, name, s);
    }
  }

  lemma {:induction false} WrittenConfigs(flat: seq<StrategyDoc>, uuid: nat -> string, name: string)
    ensures ViewConfigs(Written(flat, uuid, name)) == OfFeature(flat, name)
  {
    if flat != [] {
      var front, last := flat[..|flat| - 1], flat[|flat| - 1];
      WrittenConfigs(front, uuid, name);
      var before := Written(front, uuid, name);
      if last.feature != name {
        assert before + [] == before;
      }
    }
  }

  lemma {:induction false} ViewConfigsConcat(a: seq<AdminFold.AdminStrategy>, b: seq<AdminFold.AdminStrategy>)
    ensures ViewConfigs(a + b) == ViewConfigs(a) + ViewConfigs(b)
  {
    if b == [] {
      assert a + b == a;
    } else {
      assert (a + b)[..|a + b| - 1] == a + b[..|b| - 1];
      ViewConfigsConcat(a, b[..|b| - 1]);
    }
  }

  lemma ViewConfigsOfParts(a: seq<AdminFold.AdminStrategy>, s: AdminFold.AdminStrategy, b: seq<AdminFold.AdminStrategy>)
    ensures multiset(ViewConfigs(a + [s] + b)) == multiset(ViewConfigs(a + b)) + multiset{ViewConfig(s)}
  {
    ViewConfigsConcat(a + [s], b);
    ViewConfigsConcat(a, b);
  }

  lemma SplitAt<T>(s: seq<T>, k: nat)
    requires k < |s|
    ensures s == s[..k] + [s[k]] + s[k + 1..]
  {
  }

  lemma ViewConfigsWithout(a: seq<AdminFold.AdminStrategy>, k: nat)
    requires k < |a|
    ensures multiset(ViewConfigs(a)) == multiset(ViewConfigs(a[..k] + a[k + 1..])) + multiset{ViewConfig(a[k])}
  {
    SplitAt(a, k);
    ViewConfigsOfParts(a[..k], a[k], a[k + 1..]);
  }

  lemma {:induction false} ViewConfigsPermute(a: seq<AdminFold.AdminStrategy>, b: seq<AdminFold.AdminStrategy>)
    requires multiset(a) == multiset(b)
    ensures multiset(ViewConfigs(a)) == multiset(ViewConfigs(b))
    decreases |a|
  {
    if a != [] {
      var last := |a| - 1;
      AdminFold.SameMembers(a, b, a[last]);
      var k :| 0 <= k < |b| && b[k] == a[last];
      var front, rest := a[..last] + a[last + 1..], b[..k] + b[k + 1..];
      assert front == a[..last];
      assert multiset(front) == multiset(rest) by {
        AdminFold.MultisetFront(a);
        assert b == b[..k] + [b[k]] + b[k + 1..];
      }
      ViewConfigsPermute(front, rest);
      ViewConfigsWithout(b, k);
    }
  }

  /** The stored strategies of a toggle in the default environment are those the document gave it. */
  lemma StoredAreWritten(r: Db, rows: seq<Row<string, FeatureDoc>>, uuid: nat -> string, name: string,
                         s: AdminFold.AdminStrategy)
    requires AllHaveStrategies(rows) && GoodUuids(uuid) && LegacyStored(r, rows, uuid)
    ensures s.id in StrategiesIn(r, name, DEFAULT_ENV) && s == AdminQuery.Stored(r, s.id) <==>
            IsWritten(ConvertStrategies(rows), uuid, name, s)
  {
    var flat := ConvertStrategies(rows);
    var table := StrategyRows(flat, uuid);
    forall p: nat | p < |flat|
      ensures flat[p].id == None && flat[p].environment == DEFAULT_ENV
    {
      ConvertedStrategies(rows, p);
    }
    UuidRowsDistinct(flat, uuid);
    if IsWritten(flat, uuid, name, s) {
      var p: nat :| p < |flat| && flat[p].feature == name && s == WrittenAs(flat[p], uuid(p));
      InsertIgnoreValue(map[], table, p);
    }
    if s.id in StrategiesIn(r, name, DEFAULT_ENV) && s == AdminQuery.Stored(r, s.id) {
      InsertIgnoreKeys(map[], table, s.id);
      var p: nat :| p < |table| && table[p].key == s.id;
      InsertIgnoreValue(map[], table, p);
    }
  }

  lemma NoEmptyIds(r: Db, rows: seq<Row<string, FeatureDoc>>, uuid: nat -> string)
    requires AllHaveStrategies(rows) && GoodUuids(uuid) && LegacyStored(r, rows, uuid)
    ensures "" !in r.strategies
  {
    var flat := ConvertStrategies(rows);
    InsertIgnoreKeys(map[], StrategyRows(flat, uuid), "");
    forall p: nat | p < |flat|
      ensures StrategyRows(flat, uuid)[p].key != ""
    {
      ConvertedStrategies(rows, p);
    }
  }

  lemma StoredToggle(r: Db, rows: seq<Row<string, FeatureDoc>>, uuid: nat -> string, i: nat)
    requires AllHaveStrategies(rows) && KeysDistinct(rows) && LegacyStored(r, rows, uuid) && i < |rows|
    ensures rows[i].key in r.features && r.features[rows[i].key] == rows[i].value.feature
    ensures FeatureEnv(rows[i].key, DEFAULT_ENV) in r.featureEnvs
    ensures r.featureEnvs[FeatureEnv(rows[i].key, DEFAULT_ENV)] == rows[i].value.enabled
  {
    InsertIgnoreValue(map[], FeatureRows(rows), i);
    InsertIgnoreValue(map[], ConvertEnvironments(rows), i);
  }

  /** Importing a version 1 document with dropBeforeImport and reading an active toggle through the legacy view
      gives back its flag and the same strategies with their names, constraints and parameters, also
      when a later stage of the import fails. */
  lemma LegacyRoundTrip(db: Db, doc: Document, keep: bool, uuid: nat -> string, i: nat,
                        joined: seq<AdminFold.Row>, f: AdminFold.AdminFeature)
    requires Integrity(db) && GoodUuids(uuid) && LegacyDocument(db, doc, keep) && i < |doc.features.value|
    requires !doc.features.value[i].value.feature.archived
    requires AdminQuery.IsJoin(Import(db, doc, true, keep, uuid).db, doc.features.value[i].key, joined)
    requires AdminFold.IsView(joined, f)
    ensures var v := AdminQuery.GetFeatureToggleLegacy(f);
            && doc.features.value[i].value.strategies.Some?
            && v.enabled == doc.features.value[i].value.enabled
            && multiset(ViewConfigs(v.strategies)) == multiset(LegacyConfigs(doc.features.value[i].value.strategies.value))
  {
    var rows := doc.features.value;
    var name := rows[i].key;
    var r := Import(db, doc, true, keep, uuid).db;
    LegacyImportStores(db, doc, keep, uuid);
    ImportKeepsIntegrity(db, doc, true, keep, uuid);
    StoredToggle(r, rows, uuid, i);
    NoEmptyIds(r, rows, uuid);
    AdminQuery.LegacyReadsDefault(r, name, joined, f);
    ReadBack(r, rows, uuid, i, AdminQuery.GetFeatureToggleLegacy(f).strategies);
  }

  lemma ReadBack(r: Db, rows: seq<Row<string, FeatureDoc>>, uuid: nat -> string, i: nat,
                 strategies: seq<AdminFold.AdminStrategy>)
    requires AllHaveStrategies(rows) && KeysDistinct(rows) && GoodUuids(uuid) && LegacyStored(r, rows, uuid) && i < |rows|
    requires forall s :: multiset(strategies)[s] ==
                         if s.id in StrategiesIn(r, rows[i].key, DEFAULT_ENV) && s == AdminQuery.Stored(r, s.id) then 1 else 0
    ensures rows[i].value.strategies.Some?
    ensures multiset(ViewConfigs(strategies)) == multiset(LegacyConfigs(rows[i].value.strategies.value))
  {
    var flat := ConvertStrategies(rows);
    var written := Written(flat, uuid, rows[i].key);
    forall s
      ensures multiset(strategies)[s] == multiset(written)[s]
    {
      StoredAreWritten(r, rows, uuid, rows[i].key, s);
      WrittenOnce(flat, uuid, rows[i].key, s);
    }
    ViewConfigsPermute(strategies, written);
    WrittenConfigs(flat, uuid, rows[i].key);
    ConversionKeepsStrategies(rows, i);
  }
}
