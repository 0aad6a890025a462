/** Every stage of an import respects the foreign keys, and the stages after the toggles leave toggles,
    their environments and their strategies alone. */
module ImportIntegrity {
  import opened Tables
  import opened Steps
  import opened StateImport

  lemma {:induction false} InsertIgnoreGrows<K(!new), V(!new)>(m: map<K, V>, rows: seq<Row<K, V>>)
    ensures m.Keys <= InsertIgnore(m, rows).Keys
    ensures forall k <- m :: InsertIgnore(m, rows)[k] == m[k]
  {
    if rows != [] {
      InsertIgnoreGrows(m, rows[..|rows| - 1]);
    }
  }

  lemma EnvironmentsKeepIntegrity(db: Db, doc: Document, drop: bool, keep: bool)
    requires Integrity(db)
    ensures Integrity(AfterEnvironments(db, doc, drop, keep))
  {
    if doc.environments.Some? {
      var rows := doc.environments.value;
      var dropped := if drop then DropEnvironments(db) else db;
      var existing := if drop then {} else db.environments.Keys;
      InsertIgnoreGrows(dropped.environments, if keep then Unseen(rows, existing) else rows);
    }
  }

  lemma {:induction false} FeatureRowsKeepIntegrity(db: Db, rows: seq<Row<string, FeatureDoc>>)
    requires Integrity(db)
    ensures Integrity(ImportFeatureRows(db, rows).db)
  {
    if rows != [] {
      FeatureRowsKeepIntegrity(db, rows[..|rows| - 1]);
    }
  }

  lemma {:induction false} FeatureEnvsKeepIntegrity(db: Db, rows: seq<Row<FeatureEnv, bool>>)
    requires Integrity(db)
    ensures Integrity(ImportFeatureEnvironments(db, rows).db)
  {
    if rows != [] {
      FeatureEnvsKeepIntegrity(db, rows[..|rows| - 1]);
    }
  }

  lemma {:induction false} StrategiesKeepIntegrity(db: Db, rows: seq<StrategyDoc>, uuid: nat -> string, skip: set<string>)
    requires Integrity(db)
    ensures Integrity(InsertStrategies(db, rows, uuid, skip).db)
  {
    if rows != [] {
      StrategiesKeepIntegrity(db, rows[..|rows| - 1], uuid, skip);
    }
  }

  lemma RemovalKeepsIntegrity(db: Db)
    requires Integrity(db)
    ensures Integrity(RemoveFeatures(db, db.features.Keys))
    ensures Integrity(RemoveStrategies(db, db.strategies.Keys))
  {
  }

  lemma TogglesKeepIntegrity(db: Db, data: ToggleData, drop: bool, keep: bool, uuid: nat -> string)
    requires Integrity(db)
    ensures Integrity(ImportToggles(db, data, drop, keep, uuid).db)
  {
    match data
    case Broken =>
    case ToggleData(features, environments, strategies) =>
      RemovalKeepsIntegrity(db);
      var dropped := if drop then RemoveFeatures(db, db.features.Keys) else db;
      var existing := if drop then {} else ActiveFeatures(db);
      FeatureRowsKeepIntegrity(dropped, if keep then Unseen(features, existing) else features);
      var s1 := ImportFeatures(db, features, drop, keep);
      if s1.outcome == Done && environments.Some? {
        FeatureEnvsKeepIntegrity(s1.db, environments.value);
        var s2 := ImportFeatureEnvironments(s1.db, environments.value);
        if s2.outcome == Done {
          StrategyStageKeepsIntegrity(s2.db, strategies, drop, keep, uuid);
        }
      }
  }

  lemma StrategyStageKeepsIntegrity(db: Db, rows: Option<seq<StrategyDoc>>, drop: bool, keep: bool, uuid: nat -> string)
    requires Integrity(db)
    ensures Integrity(ImportFeatureStrategies(db, rows, drop, keep, uuid).db)
  {
    var dropped := if drop then RemoveStrategies(db, db.strategies.Keys) else db;
    var existing := if drop then {} else db.strategies.Keys;
    if rows.Some? {
      StrategiesKeepIntegrity(dropped, rows.value, uuid, if keep then existing else {});
    }
  }

  /** The tables of toggles are the same. */
  predicate SameToggles(a: Db, b: Db) {
    && a.environments == b.environments && a.features == b.features
    && a.featureEnvs == b.featureEnvs && a.strategies == b.strategies
  }

  lemma MoreProjectsAreSafe(db: Db, projects: map<string, string>)
    requires Integrity(db) && db.projects.Keys <= projects.Keys
    ensures var r := AddProjects(db, projects).db; Integrity(r) && SameToggles(db, r)
  {
    var r := AddProjects(db, projects).db;
    assert r == db.(projects := projects, projectEnvs := r.projectEnvs);
  }

  lemma ProjectRowsAreSafe(db: Db, rows: seq<Row<string, string>>, drop: bool, keep: bool)
    requires Integrity(db)
    ensures var r := ImportProjects(db, rows, drop, keep).db; Integrity(r) && SameToggles(db, r)
  {
    var dropped := if drop then DropProjects(db) else db;
    var added := if keep then Unseen(rows, if drop then {} else db.projects.Keys) else rows;
    InsertIgnoreGrows(dropped.projects, added);
    MoreProjectsAreSafe(dropped, InsertIgnore(dropped.projects, added));
  }

  lemma TagRowsAreSafe(db: Db, tags: set<Tag>)
    requires Integrity(db)
    ensures var r := InsertTags(db, tags).db; Integrity(r) && SameToggles(db, r)
  {
  }

  lemma FeatureTagRowsAreSafe(db: Db, tags: set<FeatureTag>)
    requires Integrity(db)
    ensures var r := InsertFeatureTags(db, tags).db; Integrity(r) && SameToggles(db, r)
  {
  }

  lemma MoreTagDataIsSafe(db: Db, tagTypes: map<string, string>, tags: set<Tag>, featureTags: set<FeatureTag>)
    requires Integrity(db) && db.tagTypes.Keys <= tagTypes.Keys
    ensures var r := AddTagData(db, tagTypes, tags, featureTags).db; Integrity(r) && SameToggles(db, r)
  {
    var typed := db.(tagTypes := tagTypes);
    TagRowsAreSafe(typed, tags);
    FeatureTagRowsAreSafe(InsertTags(typed, tags).db, featureTags);
  }

  lemma TagDataIsSafe(db: Db, tagTypes: seq<Row<string, string>>, tags: seq<Tag>, featureTags: set<FeatureTag>,
                      drop: bool, keep: bool)
    requires Integrity(db)
    ensures var r := ImportTagData(db, tagTypes, tags, featureTags, drop, keep).db; Integrity(r) && SameToggles(db, r)
  {
    var dropped := if drop then DropTagData(db) else db;
    var added := if keep then Unseen(tagTypes, if drop then {} else db.tagTypes.Keys) else tagTypes;
    InsertIgnoreGrows(dropped.tagTypes, added);
    MoreTagDataIsSafe(dropped, InsertIgnore(dropped.tagTypes, added),
                      NewTags(tags, dropped.tags, keep), NewFeatureTags(featureTags, dropped.featureTags, keep));
  }

  lemma ProjectsStageIsSafe(s: Step, doc: Document, drop: bool, keep: bool)
    requires Integrity(s.db)
    ensures var r := AfterProjects(s, doc, drop, keep).db; Integrity(r) && SameToggles(s.db, r)
  {
    if s.outcome == Done && doc.projects.Some? {
      ProjectRowsAreSafe(s.db, doc.projects.value, drop, keep);
    }
  }

  lemma TagsStageIsSafe(s: Step, doc: Document, drop: bool, keep: bool)
    requires Integrity(s.db)
    ensures var r := AfterTags(s, doc, drop, keep).db; Integrity(r) && SameToggles(s.db, r)
  {
    if s.outcome == Done && doc.tagTypes.Some? && doc.tags.Some? {
      TagDataIsSafe(s.db, doc.tagTypes.value, doc.tags.value, DocumentTags(doc), drop, keep);
    }
  }

  lemma {:induction false} SegmentRowsAreSafe(db: Db, rows: seq<Row<int, Segment>>)
    requires Integrity(db)
    ensures var r := InsertSegments(db, rows).db; Integrity(r) && SameToggles(db, r)
  {
    if rows != [] {
      SegmentRowsAreSafe(db, rows[..|rows| - 1]);
    }
  }

  lemma {:induction false} LinksAreSafe(db: Db, links: seq<StrategySegment>)
    requires Integrity(db)
    ensures var r := ImportLinks(db, links).db; Integrity(r) && SameToggles(db, r)
  {
    if links != [] {
      LinksAreSafe(db, links[..|links| - 1]);
    }
  }

  lemma LaterStagesAreSafe(s: Step, doc: Document, drop: bool, keep: bool)
    requires Integrity(s.db)
    ensures var r := AfterLinks(AfterSegments(AfterTags(AfterProjects(s, doc, drop, keep), doc, drop, keep), doc, drop), doc).db;
            Integrity(r) && SameToggles(s.db, r)
  {
    ProjectsStageIsSafe(s, doc, drop, keep);
    var s1 := AfterProjects(s, doc, drop, keep);
    TagsStageIsSafe(s1, doc, drop, keep);
    var s2 := AfterTags(s1, doc, drop, keep);
    if s2.outcome == Done && doc.segments.Some? {
      SegmentRowsAreSafe(if drop then s2.db.(segments := map[], strategySegments := {}) else s2.db, doc.segments.value);
    }
    var s3 := AfterSegments(s2, doc, drop);
    if s3.outcome == Done && doc.featureStrategySegments.Some? {
      LinksAreSafe(s3.db, doc.featureStrategySegments.value);
    }
  }

  /** An import, successful or not, leaves the foreign keys intact, and the toggle tables as its toggle
      stage left them. */
  lemma ImportKeepsIntegrity(db: Db, document: Document, drop: bool, keep: bool, uuid: nat -> string)
    requires Integrity(db)
    ensures Integrity(Import(db, document, drop, keep, uuid).db)
    ensures SameToggles(AfterToggles(db, Normalized(document), drop, keep, uuid).db,
                        Import(db, document, drop, keep, uuid).db)
  {
    var doc := Normalized(document);
    EnvironmentsKeepIntegrity(db, doc, drop, keep);
    if doc.features.Some? {
      TogglesKeepIntegrity(AfterEnvironments(db, doc, drop, keep), TogglesOf(doc), drop, keep, uuid);
    }
    LaterStagesAreSafe(AfterToggles(db, doc, drop, keep, uuid), doc, drop, keep);
  }
}
