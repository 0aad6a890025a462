/** What an import without dropBeforeImport stores, stage by stage and as a whole, and when it succeeds. */
module ImportEffects {
  import opened Tables
  import opened Steps
  import opened StateImport
  import opened StateRoundTrip
  import opened ImportIntegrity
  import opened AdditiveImport

  /** The value of the first row with this key. */
  ghost predicate FirstValue<K(!new), V(!new)>(rows: seq<Row<K, V>>, k: K, v: V) {
    exists i :: 0 <= i < |rows| && rows[i] == Row(k, v) && forall j | 0 <= j < i :: rows[j].key != k
  }

  /** The rows are added, the first one of each new key; existing rows stay. */
  ghost predicate Merged<K(!new), V(!new)>(before: map<K, V>, rows: seq<Row<K, V>>, after: map<K, V>) {
    && (forall k :: k in after <==> k in before || HasKey(rows, k))
    && (forall k <- before :: after[k] == before[k])
    && (forall k <- after | k !in before :: FirstValue(rows, k, after[k]))
  }

  lemma FirstValueGrows<K(!new), V(!new)>(front: seq<Row<K, V>>, last: Row<K, V>, k: K, v: V)
    ensures FirstValue(front, k, v) ==> FirstValue(front + [last], k, v)
    ensures last == Row(k, v) && !HasKey(front, k) ==> FirstValue(front + [last], k, v)
  {
    var rows := front + [last];
    if FirstValue(front, k, v) {
      var i :| 0 <= i < |front| && front[i] == Row(k, v) && forall j | 0 <= j < i :: front[j].key != k;
      assert rows[i] == Row(k, v) && forall j | 0 <= j < i :: rows[j] == front[j];
    }
    if last == Row(k, v) && !HasKey(front, k) {
      assert rows[|front|] == Row(k, v) && forall j | 0 <= j < |front| :: rows[j] == front[j];
    }
  }

  lemma {:induction false} InsertIgnoreMerges<K(!new), V(!new)>(m: map<K, V>, rows: seq<Row<K, V>>)
    ensures Merged(m, rows, InsertIgnore(m, rows))
  {
    if rows != [] {
      var front, last := rows[..|rows| - 1], rows[|rows| - 1];
      InsertIgnoreMerges(m, front);
      assert rows == front + [last];
      var r := InsertIgnore(m, rows);
      forall k
        ensures k in r <==> k in m || HasKey(rows, k)
        ensures k in r && k !in m ==> FirstValue(rows, k, r[k])
      {
        HasKeyOneMore(front, last, k);
        if k in r {
          FirstValueGrows(front, last, k, r[k]);
        }
      }
    }
  }

  lemma {:induction false} KnownRowsDoNotMatter<K(!new), V(!new)>(m: map<K, V>, rows: seq<Row<K, V>>, existing: set<K>)
    requires existing <= m.Keys
    ensures InsertIgnore(m, Unseen(rows, existing)) == InsertIgnore(m, rows)
  {
    if rows != [] {
      var front, last := rows[..|rows| - 1], rows[|rows| - 1];
      KnownRowsDoNotMatter(m, front, existing);
      InsertIgnoreGrows(m, front);
      if last.key !in existing {
        var kept := Unseen(front, existing);
        assert (kept + [last])[..|kept|] == kept;
      }
    }
  }

  /** Kept or not, existing rows stay and new ones arrive. */
  lemma AddedRowsMerge<K(!new), V(!new)>(m: map<K, V>, rows: seq<Row<K, V>>, keep: bool)
    ensures Merged(m, rows, InsertIgnore(m, if keep then Unseen(rows, m.Keys) else rows))
  {
    KnownRowsDoNotMatter(m, rows, m.Keys);
    InsertIgnoreMerges(m, rows);
  }

  // ---------- Environments ----------

  lemma EnvironmentsArrive(db: Db, doc: Document, keep: bool)
    ensures var r := AfterEnvironments(db, doc, false, keep);
            && r == db.(environments := r.environments)
            && (doc.environments.Some? ==> Merged(db.environments, doc.environments.value, r.environments))
            && (doc.environments == None ==> r == db)
  {
    if doc.environments.Some? {
      AddedRowsMerge(db.environments, doc.environments.value, keep);
    }
  }

  // ---------- Toggles ----------

  /** The document's toggle is left alone: it is kept, or its name belongs to another project. */
  predicate LeftAlone(before: map<string, Feature>, r: Row<string, FeatureDoc>, keep: bool) {
    r.key in before && ((keep && !before[r.key].archived) || before[r.key].project != r.value.feature.project)
  }

  /** A new toggle is stored as the document has it; an existing one is left alone or gets the document's variants
      and nothing else. */
  ghost predicate ToggleImported(before: map<string, Feature>, r: Row<string, FeatureDoc>, keep: bool,
                                 after: map<string, Feature>) {
    && r.key in after
    && (r.key !in before ==> after[r.key] == r.value.feature)
    && (r.key in before && LeftAlone(before, r, keep) ==> after[r.key] == before[r.key])
    && (r.key in before && !LeftAlone(before, r, keep) ==>
          && after[r.key].project == before[r.key].project && after[r.key].archived == before[r.key].archived
          && after[r.key].data == before[r.key].data.(variants := r.value.feature.data.variants))
  }

  ghost predicate TogglesImported(before: map<string, Feature>, rows: seq<Row<string, FeatureDoc>>, keep: bool,
                                  after: map<string, Feature>) {
    && (forall f :: f in after <==> f in before || HasKey(rows, f))
    && (forall f <- before | !HasKey(rows, f) :: after[f] == before[f])
    && (forall r <- rows :: ToggleImported(before, r, keep, after))
  }

  /** No toggle of the document that is not kept belongs to another project. */
  predicate NoClash(before: map<string, Feature>, rows: seq<Row<string, FeatureDoc>>, keep: bool) {
    forall r <- rows | r.key in before ::
      (keep && !before[r.key].archived) || before[r.key].project == r.value.feature.project
  }

  lemma HasKeyIn<K(!new), V(!new)>(rows: seq<Row<K, V>>, k: K)
    ensures HasKey(rows, k) <==> exists r :: r in rows && r.key == k
  {
    if r :| r in rows && r.key == k {
      var i :| 0 <= i < |rows| && rows[i] == r;
    }
    if HasKey(rows, k) {
      var i :| 0 <= i < |rows| && rows[i].key == k;
      assert rows[i] in rows;
    }
  }

  lemma SameKeySameRow<K(!new), V(!new)>(rows: seq<Row<K, V>>, a: Row<K, V>, b: Row<K, V>)
    requires KeysDistinct(rows) && a in rows && b in rows && a.key == b.key
    ensures a == b
  {
    var i :| 0 <= i < |rows| && rows[i] == a;
    var j :| 0 <= j < |rows| && rows[j] == b;
  }

  /** The toggle stage without dropping, for toggles of distinct names. */
  lemma FeaturesArrive(db: Db, rows: seq<Row<string, FeatureDoc>>, keep: bool)
    requires KeysDistinct(rows)
    ensures var r := ImportFeatures(db, rows, false, keep);
            && r.db == db.(features := r.db.features)
            && TogglesImported(db.features, rows, keep, r.db.features)
            && r.outcome == if NoClash(db.features, rows, keep) then Done else Failed(NotFound)
  {
    var added := if keep then Unseen(rows, ActiveFeatures(db)) else rows;
    if keep {
      UnseenDistinct(rows, ActiveFeatures(db));
    }
    FeatureRowsMean(db, added);
    forall r
      ensures r in added <==> r in rows && !(keep && r.key in db.features && !db.features[r.key].archived)
    {
      UnseenMeans(rows, ActiveFeatures(db), r);
    }
    var after := ImportFeatures(db, rows, false, keep).db.features;
    forall f
      ensures f in after <==> f in db.features || HasKey(rows, f)
      ensures f in db.features && !HasKey(rows, f) ==> after[f] == db.features[f]
    {
      HasKeyIn(rows, f);
      HasKeyIn(added, f);
    }
    forall r <- rows
      ensures ToggleImported(db.features, r, keep, after)
    {
      HasKeyIn(added, r.key);
      if x :| x in added && x.key == r.key {
        SameKeySameRow(rows, r, x);
      }
    }
  }

  // ---------- Flags ----------

  /** The value of the last row with this key. */
  ghost predicate LastValue<K(!new), V(!new)>(rows: seq<Row<K, V>>, k: K, v: V) {
    exists i :: 0 <= i < |rows| && rows[i] == Row(k, v) && forall j | i < j < |rows| :: rows[j].key != k
  }

  /** The document's flags replace those of the same keys. */
  ghost predicate FlagsImported(before: map<FeatureEnv, bool>, rows: seq<Row<FeatureEnv, bool>>, after: map<FeatureEnv, bool>) {
    && (forall l :: l in after <==> l in before || HasKey(rows, l))
    && (forall l <- before | !HasKey(rows, l) :: after[l] == before[l])
    && (forall l | HasKey(rows, l) :: l in after && LastValue(rows, l, after[l]))
  }

  predicate FlagsFit(features: set<string>, environments: set<string>, rows: seq<Row<FeatureEnv, bool>>) {
    forall r <- rows :: r.key.feature in features && r.key.environment in environments
  }

  lemma LastValueGrows<K(!new), V(!new)>(front: seq<Row<K, V>>, last: Row<K, V>, k: K, v: V)
    ensures FirstOrLast(front, last, k, v) ==> LastValue(front + [last], k, v)
  {
    var rows := front + [last];
    if last == Row(k, v) {
      assert rows[|front|] == Row(k, v);
    } else if LastValue(front, k, v) && last.key != k {
      var i :| 0 <= i < |front| && front[i] == Row(k, v) && forall j | i < j < |front| :: front[j].key != k;
      assert rows[i] == Row(k, v) && forall j | i < j < |rows| :: rows[j].key != k;
    }
  }

  ghost predicate FirstOrLast<K(!new), V(!new)>(front: seq<Row<K, V>>, last: Row<K, V>, k: K, v: V) {
    last == Row(k, v) || (last.key != k && LastValue(front, k, v))
  }

  lemma {:induction false} UpsertsArrive(features: set<string>, environments: set<string>, rows: seq<Row<FeatureEnv, bool>>)
    requires FlagsFit(features, environments, rows)
    ensures var u := Upserts(features, environments, rows);
            && (forall l :: l in u <==> HasKey(rows, l))
            && (forall l <- u :: LastValue(rows, l, u[l]))
  {
    if rows != [] {
      var front, last := rows[..|rows| - 1], rows[|rows| - 1];
      assert rows == front + [last];
      UpsertsArrive(features, environments, front);
      var u := Upserts(features, environments, rows);
      forall l
        ensures l in u <==> HasKey(rows, l)
        ensures l in u ==> LastValue(rows, l, u[l])
      {
        HasKeyOneMore(front, last, l);
        if l in u {
          LastValueGrows(front, last, l, u[l]);
        }
      }
    }
  }

  /** The flag stage succeeds exactly when every row has its toggle and environment; then the flags are those of the
      document over those there were. */
  lemma FlagsArrive(db: Db, rows: seq<Row<FeatureEnv, bool>>)
    ensures var r := ImportFeatureEnvironments(db, rows);
            && r.db == db.(featureEnvs := r.db.featureEnvs)
            && r.outcome == (if FlagsFit(db.features.Keys, db.environments.Keys, rows) then Done else Failed(ForeignKeyViolation))
            && (r.outcome == Done ==> FlagsImported(db.featureEnvs, rows, r.db.featureEnvs))
  {
    FeatureEnvsMean(db, rows);
    assert AllFit(db.features.Keys, db.environments.Keys, rows) <==> FlagsFit(db.features.Keys, db.environments.Keys, rows);
    if FlagsFit(db.features.Keys, db.environments.Keys, rows) {
      UpsertsArrive(db.features.Keys, db.environments.Keys, rows);
    }
  }

  // ---------- Strategies ----------

  function KeyAt(rows: seq<StrategyDoc>, p: nat, uuid: nat -> string): string
    requires p < |rows|
  {
    if rows[p].id.Some? then rows[p].id.value else uuid(p)
  }

  /** A strategy that is stored already is left out when existing ones are kept. */
  predicate LeftOut(before: map<string, Strategy>, s: StrategyDoc, keep: bool) {
    keep && s.id.Some? && s.id.value in before
  }

  /** What decides whether a strategy can be inserted. */
  datatype Scope = Scope(strategies: map<string, Strategy>, features: set<string>, environments: set<string>)

  function ScopeOf(db: Db): Scope {
    Scope(db.strategies, db.features.Keys, db.environments.Keys)
  }

  /** Row `p` is one the stage inserts: not left out, with its toggle and environment stored, under an id that neither
      the table nor an inserted row before it has. */
  ghost predicate Insertable(sc: Scope, rows: seq<StrategyDoc>, uuid: nat -> string, keep: bool, p: nat)
    requires p < |rows|
  {
    && !LeftOut(sc.strategies, rows[p], keep)
    && rows[p].feature in sc.features && rows[p].environment in sc.environments
    && KeyAt(rows, p, uuid) !in sc.strategies
    && forall q | 0 <= q < p && Insertable(sc, rows, uuid, keep, q) :: KeyAt(rows, q, uuid) != KeyAt(rows, p, uuid)
  }

  /** What the insertable strategies add: every one of them field by field, and nothing else. */
  ghost predicate StrategiesImported(sc: Scope, rows: seq<StrategyDoc>, uuid: nat -> string, keep: bool,
                                     after: map<string, Strategy>) {
    && (forall id <- sc.strategies :: id in after && after[id] == sc.strategies[id])
    && (forall p | 0 <= p < |rows| && Insertable(sc, rows, uuid, keep, p) :: StrategyStored(rows, uuid, p, after))
    && (forall id <- after | id !in sc.strategies :: Inserted(sc, rows, uuid, keep, id))
  }

  predicate StrategyStored(rows: seq<StrategyDoc>, uuid: nat -> string, p: nat, after: map<string, Strategy>)
    requires p < |rows|
  {
    KeyAt(rows, p, uuid) in after && after[KeyAt(rows, p, uuid)] == DocumentStrategy(rows[p])
  }

  ghost predicate Inserted(sc: Scope, rows: seq<StrategyDoc>, uuid: nat -> string, keep: bool, id: string) {
    exists p :: 0 <= p < |rows| && Insertable(sc, rows, uuid, keep, p) && KeyAt(rows, p, uuid) == id
  }

  lemma {:induction false} InsertableInPrefix(sc: Scope, rows: seq<StrategyDoc>, n: nat, uuid: nat -> string, keep: bool, p: nat)
    requires p < n <= |rows|
    ensures Insertable(sc, rows[..n], uuid, keep, p) <==> Insertable(sc, rows, uuid, keep, p)
    decreases p
  {
    forall q | 0 <= q < p
      ensures Insertable(sc, rows[..n], uuid, keep, q) <==> Insertable(sc, rows, uuid, keep, q)
    {
      InsertableInPrefix(sc, rows, n, uuid, keep, q);
    }
  }

  lemma PrefixAgrees(sc: Scope, rows: seq<StrategyDoc>, uuid: nat -> string, keep: bool)
    requires rows != []
    ensures var front := rows[..|rows| - 1];
            forall p | 0 <= p < |front| ::
              && (Insertable(sc, front, uuid, keep, p) <==> Insertable(sc, rows, uuid, keep, p))
              && KeyAt(front, p, uuid) == KeyAt(rows, p, uuid) && front[p] == rows[p]
  {
    var n := |rows| - 1;
    forall p | 0 <= p < n
      ensures Insertable(sc, rows[..n], uuid, keep, p) <==> Insertable(sc, rows, uuid, keep, p)
    {
      InsertableInPrefix(sc, rows, n, uuid, keep, p);
    }
  }

  /** An id is inserted by the rows before the last one or by the last one. */
  lemma InsertedOneMore(sc: Scope, rows: seq<StrategyDoc>, uuid: nat -> string, keep: bool, id: string)
    requires rows != []
    ensures var n := |rows| - 1;
            Inserted(sc, rows, uuid, keep, id) <==>
            Inserted(sc, rows[..n], uuid, keep, id) || (Insertable(sc, rows, uuid, keep, n) && KeyAt(rows, n, uuid) == id)
  {
    PrefixAgrees(sc, rows, uuid, keep);
    var front := rows[..|rows| - 1];
    if Inserted(sc, front, uuid, keep, id) {
      var p :| 0 <= p < |front| && Insertable(sc, front, uuid, keep, p) && KeyAt(front, p, uuid) == id;
      assert Insertable(sc, rows, uuid, keep, p);
    }
    if Inserted(sc, rows, uuid, keep, id) {
      var p :| 0 <= p < |rows| && Insertable(sc, rows, uuid, keep, p) && KeyAt(rows, p, uuid) == id;
      assert p < |front| ==> Insertable(sc, front, uuid, keep, p);
    }
  }

  /** Whether the last row is inserted, told from what the rows before it left. */
  lemma LastInsertableIff(sc: Scope, rows: seq<StrategyDoc>, uuid: nat -> string, keep: bool, before: map<string, Strategy>)
    requires rows != [] && StrategiesImported(sc, rows[..|rows| - 1], uuid, keep, before)
    ensures var n := |rows| - 1;
            Insertable(sc, rows, uuid, keep, n) <==>
            && !LeftOut(sc.strategies, rows[n], keep)
            && rows[n].feature in sc.features && rows[n].environment in sc.environments
            && KeyAt(rows, n, uuid) !in before
  {
    PrefixAgrees(sc, rows, uuid, keep);
    var n := |rows| - 1;
    var front, k := rows[..n], KeyAt(rows, n, uuid);
    if k in before && k !in sc.strategies {
      var p :| 0 <= p < |front| && Insertable(sc, front, uuid, keep, p) && KeyAt(front, p, uuid) == k;
      assert Insertable(sc, rows, uuid, keep, p);
    }
  }

  lemma LastIsStored(sc: Scope, rows: seq<StrategyDoc>, uuid: nat -> string, keep: bool, before: map<string, Strategy>)
    requires rows != [] && StrategiesImported(sc, rows[..|rows| - 1], uuid, keep, before)
    requires Insertable(sc, rows, uuid, keep, |rows| - 1)
    ensures var n := |rows| - 1;
            StrategiesImported(sc, rows, uuid, keep, before[KeyAt(rows, n, uuid) := DocumentStrategy(rows[n])])
  {
    PrefixAgrees(sc, rows, uuid, keep);
    LastInsertableIff(sc, rows, uuid, keep, before);
    var n := |rows| - 1;
    var front, after := rows[..n], before[KeyAt(rows, n, uuid) := DocumentStrategy(rows[n])];
    forall p | 0 <= p < |rows| && Insertable(sc, rows, uuid, keep, p)
      ensures StrategyStored(rows, uuid, p, after)
    {
      if p < n {
        assert StrategyStored(front, uuid, p, before);
      }
    }
    forall id <- after | id !in sc.strategies
      ensures Inserted(sc, rows, uuid, keep, id)
    {
      InsertedOneMore(sc, rows, uuid, keep, id);
    }
  }

  lemma LastIsSkipped(sc: Scope, rows: seq<StrategyDoc>, uuid: nat -> string, keep: bool, before: map<string, Strategy>)
    requires rows != [] && StrategiesImported(sc, rows[..|rows| - 1], uuid, keep, before)
    requires !Insertable(sc, rows, uuid, keep, |rows| - 1)
    ensures StrategiesImported(sc, rows, uuid, keep, before)
  {
    PrefixAgrees(sc, rows, uuid, keep);
    var front := rows[..|rows| - 1];
    forall p | 0 <= p < |rows| && Insertable(sc, rows, uuid, keep, p)
      ensures StrategyStored(rows, uuid, p, before)
    {
      assert StrategyStored(front, uuid, p, before);
    }
    forall id <- before | id !in sc.strategies
      ensures Inserted(sc, rows, uuid, keep, id)
    {
      InsertedOneMore(sc, rows, uuid, keep, id);
    }
  }

  ghost predicate AllInsertable(sc: Scope, rows: seq<StrategyDoc>, uuid: nat -> string, keep: bool) {
    forall p | 0 <= p < |rows| :: LeftOut(sc.strategies, rows[p], keep) || Insertable(sc, rows, uuid, keep, p)
  }

  lemma AllInsertableOneMore(sc: Scope, rows: seq<StrategyDoc>, uuid: nat -> string, keep: bool)
    requires rows != []
    ensures var n := |rows| - 1;
            AllInsertable(sc, rows, uuid, keep) <==>
            && AllInsertable(sc, rows[..n], uuid, keep)
            && (LeftOut(sc.strategies, rows[n], keep) || Insertable(sc, rows, uuid, keep, n))
  {
    PrefixAgrees(sc, rows, uuid, keep);
  }

  /** One row of the stage, on top of what the rows before it left. */
  lemma StrategyRowArrives(db: Db, rows: seq<StrategyDoc>, uuid: nat -> string, keep: bool, before: map<string, Strategy>)
    requires rows != [] && StrategiesImported(ScopeOf(db), rows[..|rows| - 1], uuid, keep, before)
    ensures var n, skip := |rows| - 1, if keep then db.strategies.Keys else {};
            var r := InsertStrategy(db.(strategies := before), IdOf(rows[n], n, uuid), StrategyRow(rows[n]));
            if Skipped(rows[n], skip) then LeftOut(db.strategies, rows[n], keep) && !Insertable(ScopeOf(db), rows, uuid, keep, n)
            else
              && !LeftOut(db.strategies, rows[n], keep)
              && r.db == db.(strategies := if Insertable(ScopeOf(db), rows, uuid, keep, n)
                                           then before[KeyAt(rows, n, uuid) := DocumentStrategy(rows[n])] else before)
              && (r.outcome == Done <==> Insertable(ScopeOf(db), rows, uuid, keep, n))
  {
    LastInsertableIff(ScopeOf(db), rows, uuid, keep, before);
  }

  /** The strategy stage without dropping: every insertable strategy is stored field by field, nothing else is, and the
      stage succeeds exactly when the others are left out. */
  lemma {:induction false} StrategyRowsArrive(db: Db, rows: seq<StrategyDoc>, uuid: nat -> string, keep: bool)
    ensures var r := InsertStrategies(db, rows, uuid, if keep then db.strategies.Keys else {});
            && r.db == db.(strategies := r.db.strategies)
            && StrategiesImported(ScopeOf(db), rows, uuid, keep, r.db.strategies)
            && (r.outcome == Done <==> AllInsertable(ScopeOf(db), rows, uuid, keep))
  {
    if rows != [] {
      var n, sc := |rows| - 1, ScopeOf(db);
      StrategyRowsArrive(db, rows[..n], uuid, keep);
      var before := InsertStrategies(db, rows[..n], uuid, if keep then db.strategies.Keys else {}).db.strategies;
      StrategyRowArrives(db, rows, uuid, keep, before);
      AllInsertableOneMore(sc, rows, uuid, keep);
      if Insertable(sc, rows, uuid, keep, n) {
        LastIsStored(sc, rows, uuid, keep, before);
      } else {
        LastIsSkipped(sc, rows, uuid, keep, before);
      }
    }
  }

  /** When all rows are insertable or left out, the ids stored are those there were and those of the rows. */
  lemma IdsAfterwards(sc: Scope, rows: seq<StrategyDoc>, uuid: nat -> string, keep: bool, after: map<string, Strategy>, id: string)
    requires StrategiesImported(sc, rows, uuid, keep, after) && AllInsertable(sc, rows, uuid, keep)
    ensures id in after <==> id in sc.strategies || HasId(rows, uuid, id)
  {
    if HasId(rows, uuid, id) {
      var p :| 0 <= p < |rows| && KeyAt(rows, p, uuid) == id;
      assert LeftOut(sc.strategies, rows[p], keep) || StrategyStored(rows, uuid, p, after);
    }
    if id in after && id !in sc.strategies {
      assert Inserted(sc, rows, uuid, keep, id);
    }
  }

  /** A row has this id, given or generated. */
  ghost predicate HasId(rows: seq<StrategyDoc>, uuid: nat -> string, id: string) {
    exists p :: 0 <= p < |rows| && KeyAt(rows, p, uuid) == id
  }

  // ---------- Projects ----------

  /** The projects of the document that are new. */
  ghost predicate IsNew(before: map<string, string>, rows: seq<Row<string, string>>, p: string) {
    p !in before && HasKey(rows, p)
  }

  lemma AddProjectsMeans(db: Db, projects: map<string, string>)
    requires db.projects.Keys <= projects.Keys
    ensures var r := AddProjects(db, projects);
            && r.db == db.(projects := projects, projectEnvs := r.db.projectEnvs)
            && (r.outcome == Done <==> DEFAULT_ENV in db.environments || forall p <- projects :: p in db.projects)
            && (r.outcome == Done ==>
                  forall l :: l in r.db.projectEnvs <==>
                              l in db.projectEnvs || (l.environment == DEFAULT_ENV && l.project in projects && l.project !in db.projects))
  {
    var inserted := projects.Keys - db.projects.Keys;
    if inserted != {} {
      var p :| p in inserted;
      assert p in projects && p !in db.projects;
    } else {
      assert forall p <- projects :: p !in inserted;
    }
  }

  /** The project stage fails exactly when a project is new and the default environment is missing; otherwise each new
      project arrives with its default link. */
  lemma ProjectsArrive(db: Db, rows: seq<Row<string, string>>, keep: bool)
    ensures var r := ImportProjects(db, rows, false, keep);
            && r.db == db.(projects := r.db.projects, projectEnvs := r.db.projectEnvs)
            && Merged(db.projects, rows, r.db.projects)
            && (r.outcome == Done <==> DEFAULT_ENV in db.environments || forall p :: !IsNew(db.projects, rows, p))
            && (r.outcome == Done ==>
                  forall l :: l in r.db.projectEnvs <==>
                              l in db.projectEnvs || (l.environment == DEFAULT_ENV && IsNew(db.projects, rows, l.project)))
  {
    AddedRowsMerge(db.projects, rows, keep);
    var projects := InsertIgnore(db.projects, if keep then Unseen(rows, db.projects.Keys) else rows);
    AddProjectsMeans(db, projects);
    assert forall p :: IsNew(db.projects, rows, p) <==> p in projects && p !in db.projects;
  }

  // ---------- Tags ----------

  /** Every tag has its type, and every link its toggle and its tag, in the tables or in the document. */
  ghost predicate TagsFit(db: Db, types: seq<Row<string, string>>, tags: seq<Tag>, links: set<FeatureTag>) {
    && (forall t <- tags :: t.kind in db.tagTypes || HasKey(types, t.kind))
    && (forall t <- links :: t.feature in db.features && (t.tag in db.tags || t.tag in tags))
  }

  /** The tag stage succeeds exactly then, and adds the types, tags and links of the document. */
  lemma TagsArrive(db: Db, types: seq<Row<string, string>>, tags: seq<Tag>, links: set<FeatureTag>, keep: bool)
    requires Integrity(db)
    ensures var r := ImportTagData(db, types, tags, links, false, keep);
            && (r.outcome == Done <==> TagsFit(db, types, tags, links))
            && (r.outcome == Done ==>
                  && r.db == db.(tagTypes := r.db.tagTypes, tags := r.db.tags, featureTags := db.featureTags + links)
                  && Merged(db.tagTypes, types, r.db.tagTypes)
                  && (forall t :: t in r.db.tags <==> t in db.tags || t in tags))
  {
    AddedRowsMerge(db.tagTypes, types, keep);
    var merged := InsertIgnore(db.tagTypes, if keep then Unseen(types, db.tagTypes.Keys) else types);
    TagRowsArrive(db, merged, tags, links, keep);
  }

  lemma TagsInserted(db: Db, tags: seq<Tag>, keep: bool)
    requires forall t <- db.tags :: t.kind in db.tagTypes
    ensures var r := InsertTags(db, NewTags(tags, db.tags, keep));
            && (r.outcome == Done <==> forall t <- tags :: t.kind in db.tagTypes)
            && (r.outcome == Done ==> r.db == db.(tags := r.db.tags) && forall t :: t in r.db.tags <==> t in db.tags || t in tags)
  {
    assert forall t <- tags :: t in NewTags(tags, db.tags, keep) || t in db.tags;
  }

  lemma FeatureTagsInserted(db: Db, existing: set<FeatureTag>, links: set<FeatureTag>, keep: bool)
    requires existing == db.featureTags
    requires forall t <- existing :: t.feature in db.features && t.tag in db.tags
    ensures var r := InsertFeatureTags(db, NewFeatureTags(links, existing, keep));
            && (r.outcome == Done <==> forall t <- links :: t.feature in db.features && t.tag in db.tags)
            && (r.outcome == Done ==> r.db == db.(featureTags := db.featureTags + links))
  {
    var added := NewFeatureTags(links, existing, keep);
    assert forall t <- links :: t in added || t in existing;
    assert db.featureTags + added == db.featureTags + links;
  }

  lemma TagRowsArrive(db: Db, types: map<string, string>, tags: seq<Tag>, links: set<FeatureTag>, keep: bool)
    requires Integrity(db) && db.tagTypes.Keys <= types.Keys
    ensures var r := AddTagData(db, types, NewTags(tags, db.tags, keep), NewFeatureTags(links, db.featureTags, keep));
            && (r.outcome == Done <==>
                  && (forall t <- tags :: t.kind in types)
                  && (forall t <- links :: t.feature in db.features && (t.tag in db.tags || t.tag in tags)))
            && (r.outcome == Done ==>
                  && r.db == db.(tagTypes := types, tags := r.db.tags, featureTags := db.featureTags + links)
                  && (forall t :: t in r.db.tags <==> t in db.tags || t in tags))
  {
    var typed := db.(tagTypes := types);
    TagsInserted(typed, tags, keep);
    var tagged := InsertTags(typed, NewTags(tags, typed.tags, keep));
    if tagged.outcome == Done {
      FeatureTagsInserted(tagged.db, db.featureTags, links, keep);
    }
  }

  // ---------- Segments ----------

  /** Every segment arrives unless its id is taken; the stage succeeds exactly when none is. */
  lemma {:induction false} SegmentsArrive(db: Db, rows: seq<Row<int, Segment>>)
    ensures var r := InsertSegments(db, rows);
            && r.db == db.(segments := InsertIgnore(db.segments, rows))
            && (r.outcome == Done <==> Fresh(rows, db.segments))
  {
    if rows != [] {
      var front, last := rows[..|rows| - 1], rows[|rows| - 1];
      SegmentsArrive(db, front);
      InsertIgnoreKeys(db.segments, front, last.key);
      assert rows == front + [last];
      FreshOneMore(front, last, db.segments);
    }
  }

  lemma FreshOneMore<K(!new), V(!new)>(front: seq<Row<K, V>>, last: Row<K, V>, m: map<K, V>)
    ensures Fresh(front + [last], m) <==> Fresh(front, m) && !HasKey(front, last.key) && last.key !in m
  {
    var rows := front + [last];
    assert rows[|front|] == last && forall i | 0 <= i < |front| :: rows[i] == front[i];
  }

  // ---------- Segment links ----------

  /** The links can all be added. */
  ghost predicate LinksFit(db: Db, links: seq<StrategySegment>) {
    && (forall i, j | 0 <= i < j < |links| :: links[i] != links[j])
    && (forall l <- links :: l !in db.strategySegments && l.strategy in db.strategies && l.segment in db.segments)
  }

  lemma LinksFitOneMore(db: Db, front: seq<StrategySegment>, last: StrategySegment)
    ensures LinksFit(db, front + [last]) <==>
            LinksFit(db, front) && last !in front && last !in db.strategySegments
            && last.strategy in db.strategies && last.segment in db.segments
  {
    var links := front + [last];
    assert links[|front|] == last && forall i | 0 <= i < |front| :: links[i] == front[i];
    assert forall l :: l in links <==> l in front || l == last;
  }

  function WithLinks(db: Db, links: seq<StrategySegment>): set<StrategySegment> {
    db.strategySegments + set l | l in links && l.strategy in db.strategies && l.segment in db.segments
  }

  lemma LinkArrives(db: Db, front: seq<StrategySegment>, last: StrategySegment)
    ensures var r := InsertLink(db.(strategySegments := WithLinks(db, front)), last);
            && r.db == db.(strategySegments := WithLinks(db, front + [last]))
            && (r.outcome == Done <==> last !in WithLinks(db, front) && last.strategy in db.strategies && last.segment in db.segments)
  {
    assert forall l :: l in front + [last] <==> l in front || l == last;
    assert WithLinks(db, front + [last]) ==
           WithLinks(db, front) + if last.strategy in db.strategies && last.segment in db.segments then {last} else {};
  }

  /** Every link arrives that has its strategy and segment; the stage succeeds exactly when all do, once. */
  lemma {:induction false} LinksArrive(db: Db, links: seq<StrategySegment>)
    requires Integrity(db)
    ensures ImportLinks(db, links).db == db.(strategySegments := WithLinks(db, links))
    ensures ImportLinks(db, links).outcome == Done <==> LinksFit(db, links)
  {
    if links == [] {
      assert WithLinks(db, []) == db.strategySegments;
    } else {
      var front, last := links[..|links| - 1], links[|links| - 1];
      LinksArrive(db, front);
      LinksFitOneMore(db, front, last);
      LinkArrives(db, front, last);
      assert links == front + [last];
    }
  }

  // ---------- The toggle stages together ----------

  ghost function KeysOf<K(!new), V(!new)>(rows: seq<Row<K, V>>): (r: set<K>)
    ensures forall k :: k in r <==> HasKey(rows, k)
  {
    set i | 0 <= i < |rows| :: rows[i].key
  }

  ghost function KeySet<K(!new), V(!new)>(rows: Option<seq<Row<K, V>>>): (r: set<K>)
    ensures forall k :: k in r <==> rows.Some? && HasKey(rows.value, k)
  {
    if rows == None then {} else KeysOf(rows.value)
  }

  /** The toggles, environments and strategies of the document can be stored. */
  ghost predicate TogglesFit(sc: Scope, before: map<string, Feature>, data: ToggleData, keep: bool, uuid: nat -> string) {
    && data.ToggleData? && data.environments.Some? && data.strategies.Some?
    && NoClash(before, data.features, keep)
    && FlagsFit(sc.features + KeysOf(data.features), sc.environments, data.environments.value)
    && AllInsertable(sc.(features := sc.features + KeysOf(data.features)), data.strategies.value, uuid, keep)
  }

  /** What the toggle stages store when they succeed. */
  ghost predicate TogglesStored(db: Db, data: ToggleData, keep: bool, uuid: nat -> string, r: Db)
    requires data.ToggleData? && data.environments.Some? && data.strategies.Some?
  {
    && r == db.(features := r.features, featureEnvs := r.featureEnvs, strategies := r.strategies)
    && TogglesImported(db.features, data.features, keep, r.features)
    && FlagsImported(db.featureEnvs, data.environments.value, r.featureEnvs)
    && StrategiesImported(ScopeOf(r).(strategies := db.strategies), data.strategies.value, uuid, keep, r.strategies)
  }

  lemma BeforeStrategiesArrive(db: Db, data: ToggleData, keep: bool)
    requires data.ToggleData? && KeysDistinct(data.features)
    ensures var r := BeforeStrategies(db, data, keep);
            && (r.outcome == Done <==>
                  && data.environments.Some? && NoClash(db.features, data.features, keep)
                  && FlagsFit(db.features.Keys + KeysOf(data.features), db.environments.Keys, data.environments.value))
            && (r.outcome == Done ==>
                  && r.db == db.(features := r.db.features, featureEnvs := r.db.featureEnvs)
                  && r.db.features.Keys == db.features.Keys + KeysOf(data.features)
                  && TogglesImported(db.features, data.features, keep, r.db.features)
                  && FlagsImported(db.featureEnvs, data.environments.value, r.db.featureEnvs))
  {
    FeaturesArrive(db, data.features, keep);
    var s := ImportFeatures(db, data.features, false, keep);
    assert s.db.features.Keys == db.features.Keys + KeysOf(data.features);
    if s.outcome == Done && data.environments.Some? {
      FlagsArrive(s.db, data.environments.value);
    }
  }

  lemma StrategyStageArrives(db: Db, rows: Option<seq<StrategyDoc>>, keep: bool, uuid: nat -> string)
    ensures var r := ImportFeatureStrategies(db, rows, false, keep, uuid);
            && (r.outcome == Done <==> rows.Some? && AllInsertable(ScopeOf(db), rows.value, uuid, keep))
            && (r.outcome == Done ==>
                  && r.db == db.(strategies := r.db.strategies)
                  && StrategiesImported(ScopeOf(db), rows.value, uuid, keep, r.db.strategies))
  {
    if rows.Some? {
      StrategyRowsArrive(db, rows.value, uuid, keep);
    }
  }

  lemma InTwo(db: Db, data: ToggleData, keep: bool, uuid: nat -> string)
    requires data.ToggleData?
    ensures var s := BeforeStrategies(db, data, keep);
            ImportToggles(db, data, false, keep, uuid) ==
            if s.outcome.Failed? then s else ImportFeatureStrategies(s.db, data.strategies, false, keep, uuid)
  {
  }

  /** The strategies on top of what the stages before them stored. */
  lemma StrategiesJoin(db: Db, s: Db, data: ToggleData, keep: bool, uuid: nat -> string, r: Db)
    requires data.ToggleData? && data.environments.Some? && data.strategies.Some?
    requires s == db.(features := s.features, featureEnvs := s.featureEnvs) && r == s.(strategies := r.strategies)
    requires TogglesImported(db.features, data.features, keep, s.features)
    requires FlagsImported(db.featureEnvs, data.environments.value, s.featureEnvs)
    requires StrategiesImported(ScopeOf(s), data.strategies.value, uuid, keep, r.strategies)
    ensures TogglesStored(db, data, keep, uuid, r)
  {
    assert ScopeOf(s) == ScopeOf(r).(strategies := db.strategies);
  }

  lemma TogglesArrive(db: Db, data: ToggleData, keep: bool, uuid: nat -> string)
    requires data.ToggleData? ==> KeysDistinct(data.features)
    ensures var r := ImportToggles(db, data, false, keep, uuid);
            && (r.outcome == Done <==> TogglesFit(ScopeOf(db), db.features, data, keep, uuid))
            && (r.outcome == Done ==> TogglesStored(db, data, keep, uuid, r.db))
  {
    if data.ToggleData? {
      InTwo(db, data, keep, uuid);
      BeforeStrategiesArrive(db, data, keep);
      var s := BeforeStrategies(db, data, keep);
      if s.outcome == Done {
        StrategyStageArrives(s.db, data.strategies, keep, uuid);
        assert ScopeOf(s.db) == ScopeOf(db).(features := db.features.Keys + KeysOf(data.features));
        var r := ImportFeatureStrategies(s.db, data.strategies, false, keep, uuid);
        if r.outcome == Done {
          StrategiesJoin(db, s.db, data, keep, uuid, r.db);
        }
      }
    }
  }

  // ---------- The whole import ----------

  /** What the strategies of the document may refer to: the rows stored and those of the document. */
  ghost function DocumentScope(db: Db, doc: Document): Scope {
    Scope(db.strategies, db.features.Keys, db.environments.Keys + KeySet(doc.environments))
  }

  ghost predicate TogglesAcceptable(db: Db, doc: Document, keep: bool, uuid: nat -> string) {
    doc.features.Some? ==> TogglesFit(DocumentScope(db, doc), db.features, TogglesOf(doc), keep, uuid)
  }

  ghost predicate TogglesArrived(db: Db, doc: Document, keep: bool, uuid: nat -> string, r: Db) {
    if doc.features == None then
      r.features == db.features && r.featureEnvs == db.featureEnvs && r.strategies == db.strategies
    else
      var data := TogglesOf(doc);
      && data.ToggleData? && data.environments.Some? && data.strategies.Some?
      && TogglesImported(db.features, data.features, keep, r.features)
      && FlagsImported(db.featureEnvs, data.environments.value, r.featureEnvs)
      && StrategiesImported(ScopeOf(r).(strategies := db.strategies), data.strategies.value, uuid, keep, r.strategies)
  }

  ghost predicate MergedPart<K(!new), V(!new)>(before: map<K, V>, rows: Option<seq<Row<K, V>>>, after: map<K, V>) {
    if rows == None then after == before else Merged(before, rows.value, after)
  }

  /** The first two parts of an import: environments and toggles. */
  lemma ConfigurationArrives(db: Db, doc: Document, keep: bool, uuid: nat -> string)
    requires NamesDistinct(doc)
    ensures var r := AfterToggles(db, doc, false, keep, uuid);
            && (r.outcome == Done <==> TogglesAcceptable(db, doc, keep, uuid))
            && (r.outcome == Done ==>
                  && r.db == db.(environments := r.db.environments, features := r.db.features,
                                 featureEnvs := r.db.featureEnvs, strategies := r.db.strategies)
                  && MergedPart(db.environments, doc.environments, r.db.environments)
                  && TogglesArrived(db, doc, keep, uuid, r.db))
  {
    EnvironmentsArrive(db, doc, keep);
    var s := AfterEnvironments(db, doc, false, keep);
    assert s.environments.Keys == db.environments.Keys + KeySet(doc.environments);
    if doc.features.Some? {
      TogglesArrive(s, TogglesOf(doc), keep, uuid);
      assert ScopeOf(s) == DocumentScope(db, doc);
    }
  }

  ghost predicate ProjectsAcceptable(db: Db, doc: Document) {
    doc.projects.Some? ==>
      || DEFAULT_ENV in db.environments || DEFAULT_ENV in KeySet(doc.environments)
      || forall p :: !IsNew(db.projects, doc.projects.value, p)
  }

  ghost predicate ProjectsArrived(db: Db, doc: Document, projects: map<string, string>, links: set<ProjectEnv>) {
    && MergedPart(db.projects, doc.projects, projects)
    && forall l :: l in links <==>
                   || l in db.projectEnvs
                   || (doc.projects.Some? && l.environment == DEFAULT_ENV && IsNew(db.projects, doc.projects.value, l.project))
  }

  lemma ProjectPartArrives(db: Db, s: Step, doc: Document, keep: bool)
    requires s.outcome == Done && s.db.projects == db.projects && s.db.projectEnvs == db.projectEnvs
    requires s.db.environments.Keys == db.environments.Keys + KeySet(doc.environments)
    ensures var r := AfterProjects(s, doc, false, keep);
            && (r.outcome == Done <==> ProjectsAcceptable(db, doc))
            && (r.outcome == Done ==>
                  && r.db == s.db.(projects := r.db.projects, projectEnvs := r.db.projectEnvs)
                  && ProjectsArrived(db, doc, r.db.projects, r.db.projectEnvs))
  {
    if doc.projects.Some? {
      ProjectsArrive(s.db, doc.projects.value, keep);
    }
  }

  /** Tags are imported only together with their types; a link counts if the document has its toggle. */
  predicate HasTagData(doc: Document) {
    doc.tagTypes.Some? && doc.tags.Some?
  }

  ghost predicate LinkOfDocument(doc: Document, t: FeatureTag) {
    t in doc.featureTags && t.feature in KeySet(doc.features)
  }

  ghost predicate TagsAcceptable(db: Db, doc: Document) {
    HasTagData(doc) ==>
      && (forall t <- doc.tags.value :: t.kind in db.tagTypes || t.kind in KeySet(doc.tagTypes))
      && (forall t <- doc.featureTags | LinkOfDocument(doc, t) :: t.tag in db.tags || t.tag in doc.tags.value)
  }

  ghost predicate TagsArrived(db: Db, doc: Document, types: map<string, string>, tags: set<Tag>, links: set<FeatureTag>) {
    if !HasTagData(doc) then types == db.tagTypes && tags == db.tags && links == db.featureTags
    else
      && Merged(db.tagTypes, doc.tagTypes.value, types)
      && (forall t :: t in tags <==> t in db.tags || t in doc.tags.value)
      && (forall t :: t in links <==> t in db.featureTags || LinkOfDocument(doc, t))
  }

  lemma DocumentTagsMean(doc: Document)
    ensures forall t :: t in DocumentTags(doc) <==> LinkOfDocument(doc, t)
  {
    if doc.features.Some? {
      forall t: FeatureTag
        ensures t.feature in KeySet(doc.features) <==> exists r :: r in doc.features.value && r.key == t.feature
      {
        HasKeyIn(doc.features.value, t.feature);
      }
    }
  }

  lemma TagPartArrives(db: Db, s: Step, doc: Document, keep: bool)
    requires s.outcome == Done && Integrity(s.db) && KeySet(doc.features) <= s.db.features.Keys
    requires s.db.tagTypes == db.tagTypes && s.db.tags == db.tags && s.db.featureTags == db.featureTags
    ensures var r := AfterTags(s, doc, false, keep);
            && (r.outcome == Done <==> TagsAcceptable(db, doc))
            && (r.outcome == Done ==>
                  && r.db == s.db.(tagTypes := r.db.tagTypes, tags := r.db.tags, featureTags := r.db.featureTags)
                  && TagsArrived(db, doc, r.db.tagTypes, r.db.tags, r.db.featureTags))
  {
    if HasTagData(doc) {
      DocumentTagsMean(doc);
      TagsArrive(s.db, doc.tagTypes.value, doc.tags.value, DocumentTags(doc), keep);
    }
  }

  ghost predicate SegmentsAcceptable(db: Db, doc: Document) {
    doc.segments.Some? ==> Fresh(doc.segments.value, db.segments)
  }

  lemma SegmentPartArrives(db: Db, s: Step, doc: Document)
    requires s.outcome == Done && s.db.segments == db.segments && Integrity(s.db)
    ensures var r := AfterSegments(s, doc, false);
            && Integrity(r.db)
            && (r.outcome == Done <==> SegmentsAcceptable(db, doc))
            && (r.outcome == Done ==>
                  && r.db == s.db.(segments := r.db.segments)
                  && MergedPart(db.segments, doc.segments, r.db.segments))
  {
    if doc.segments.Some? {
      SegmentRowsAreSafe(s.db, doc.segments.value);
      SegmentsArrive(s.db, doc.segments.value);
      InsertIgnoreMerges(s.db.segments, doc.segments.value);
    }
  }

  ghost predicate LinksArrived(db: Db, doc: Document, links: set<StrategySegment>) {
    forall l :: l in links <==>
                l in db.strategySegments || (doc.featureStrategySegments.Some? && l in doc.featureStrategySegments.value)
  }

  lemma LinkPartArrives(s: Step, doc: Document)
    requires s.outcome == Done && Integrity(s.db)
    ensures var r := AfterLinks(s, doc);
            && (r.outcome == Done <==>
                  (doc.featureStrategySegments.Some? ==> LinksFit(s.db, doc.featureStrategySegments.value)))
            && (r.outcome == Done ==>
                  r.db == s.db.(strategySegments := r.db.strategySegments) && LinksArrived(s.db, doc, r.db.strategySegments))
  {
    if doc.featureStrategySegments.Some? {
      LinksArrive(s.db, doc.featureStrategySegments.value);
    }
  }

  // ---------- The stages put together ----------

  /** Everything the document holds is in the tables, beside what was there. */
  ghost predicate DocumentArrived(db: Db, doc: Document, keep: bool, uuid: nat -> string, r: Db) {
    && MergedPart(db.environments, doc.environments, r.environments)
    && TogglesArrived(db, doc, keep, uuid, r)
    && ProjectsArrived(db, doc, r.projects, r.projectEnvs)
    && TagsArrived(db, doc, r.tagTypes, r.tags, r.featureTags)
    && MergedPart(db.segments, doc.segments, r.segments)
    && LinksArrived(db, doc, r.strategySegments)
  }

  /** Every link is new, and its strategy and its segment are in the tables or in the document. */
  ghost predicate LinksAcceptable(db: Db, doc: Document, uuid: nat -> string) {
    doc.featureStrategySegments.Some? ==>
      var links := doc.featureStrategySegments.value;
      && (forall i, j | 0 <= i < j < |links| :: links[i] != links[j])
      && (forall l <- links ::
            && l !in db.strategySegments
            && (l.strategy in db.strategies || HasId(StrategiesOf(doc), uuid, l.strategy))
            && (l.segment in db.segments || l.segment in KeySet(doc.segments)))
  }

  /** What an import demands of the document and the tables. */
  ghost predicate Acceptable(db: Db, doc: Document, keep: bool, uuid: nat -> string) {
    && TogglesAcceptable(db, doc, keep, uuid)
    && ProjectsAcceptable(db, doc)
    && TagsAcceptable(db, doc)
    && SegmentsAcceptable(db, doc)
    && LinksAcceptable(db, doc, uuid)
  }

  lemma TogglesStageIsSafe(db: Db, doc: Document, keep: bool, uuid: nat -> string)
    requires Integrity(db)
    ensures Integrity(AfterToggles(db, doc, false, keep, uuid).db)
  {
    EnvironmentsKeepIntegrity(db, doc, false, keep);
    if doc.features.Some? {
      TogglesKeepIntegrity(AfterEnvironments(db, doc, false, keep), TogglesOf(doc), false, keep, uuid);
    }
  }

  /** What the strategies may refer to is what the document and the tables held. */
  lemma ScopeAfterwards(db: Db, doc: Document, keep: bool, uuid: nat -> string, r: Db)
    requires doc.features.Some? && TogglesArrived(db, doc, keep, uuid, r)
    requires MergedPart(db.environments, doc.environments, r.environments)
    ensures var sc := DocumentScope(db, doc);
            ScopeOf(r).(strategies := db.strategies) == sc.(features := sc.features + KeysOf(TogglesOf(doc).features))
  {
    assert r.features.Keys == db.features.Keys + KeysOf(TogglesOf(doc).features);
    assert r.environments.Keys == db.environments.Keys + KeySet(doc.environments);
  }

  /** The ids of the strategies after the toggle stages. */
  lemma StrategyIds(db: Db, doc: Document, keep: bool, uuid: nat -> string, r: Db, id: string)
    requires TogglesAcceptable(db, doc, keep, uuid) && TogglesArrived(db, doc, keep, uuid, r)
    requires MergedPart(db.environments, doc.environments, r.environments)
    ensures id in r.strategies <==> id in db.strategies || HasId(StrategiesOf(doc), uuid, id)
  {
    if doc.features.Some? {
      ScopeAfterwards(db, doc, keep, uuid, r);
      IdsAfterwards(ScopeOf(r).(strategies := db.strategies), TogglesOf(doc).strategies.value, uuid, keep, r.strategies, id);
    }
  }

  /** What the toggle stages stored is still there when the tables of toggles are the same. */
  lemma TogglesStay(db: Db, doc: Document, keep: bool, uuid: nat -> string, a: Db, b: Db)
    requires TogglesArrived(db, doc, keep, uuid, a) && SameToggles(a, b)
    ensures TogglesArrived(db, doc, keep, uuid, b)
  {
    assert ScopeOf(a).(strategies := db.strategies) == ScopeOf(b).(strategies := db.strategies);
  }

  lemma DocumentTogglesStored(db: Db, doc: Document, keep: bool, uuid: nat -> string, r: Db)
    requires TogglesArrived(db, doc, keep, uuid, r)
    ensures KeySet(doc.features) <= r.features.Keys
  {
  }

  /** The parts before the segments: environments, toggles, projects, tags. */
  lemma FirstPartsSucceedIff(db: Db, doc: Document, keep: bool, uuid: nat -> string)
    requires Integrity(db) && NamesDistinct(doc)
    ensures var s := AfterToggles(db, doc, false, keep, uuid);
            var r := AfterTags(AfterProjects(s, doc, false, keep), doc, false, keep);
            && (r.outcome == Done <==>
                  TogglesAcceptable(db, doc, keep, uuid) && ProjectsAcceptable(db, doc) && TagsAcceptable(db, doc))
            && (r.outcome == Done ==>
                  && r.db == s.db.(projects := r.db.projects, projectEnvs := r.db.projectEnvs,
                                   tagTypes := r.db.tagTypes, tags := r.db.tags, featureTags := r.db.featureTags)
                  && ProjectsArrived(db, doc, r.db.projects, r.db.projectEnvs)
                  && TagsArrived(db, doc, r.db.tagTypes, r.db.tags, r.db.featureTags))
  {
    ConfigurationArrives(db, doc, keep, uuid);
    TogglesStageIsSafe(db, doc, keep, uuid);
    var s1 := AfterToggles(db, doc, false, keep, uuid);
    if s1.outcome == Done {
      assert s1.db.environments.Keys == db.environments.Keys + KeySet(doc.environments);
      DocumentTogglesStored(db, doc, keep, uuid, s1.db);
      ProjectPartArrives(db, s1, doc, keep);
      ProjectsStageIsSafe(s1, doc, false, keep);
      var s2 := AfterProjects(s1, doc, false, keep);
      if s2.outcome == Done {
        TagPartArrives(db, s2, doc, keep);
      }
    }
  }

  /** The links fit the tables after the segments exactly when they are acceptable. */
  lemma LinksFitIff(db: Db, doc: Document, uuid: nat -> string, s: Db)
    requires s.strategySegments == db.strategySegments
    requires forall id :: id in s.strategies <==> id in db.strategies || HasId(StrategiesOf(doc), uuid, id)
    requires MergedPart(db.segments, doc.segments, s.segments)
    ensures LinksAcceptable(db, doc, uuid) <==>
            (doc.featureStrategySegments.Some? ==> LinksFit(s, doc.featureStrategySegments.value))
  {
    assert forall id :: id in s.segments <==> id in db.segments || id in KeySet(doc.segments);
  }

  /** The parts after the tags: segments and links. */
  lemma LastPartsArrive(db: Db, doc: Document, uuid: nat -> string, s: Step)
    requires s.outcome == Done && Integrity(s.db)
    requires s.db.segments == db.segments && s.db.strategySegments == db.strategySegments
    requires forall id :: id in s.db.strategies <==> id in db.strategies || HasId(StrategiesOf(doc), uuid, id)
    ensures var r := AfterLinks(AfterSegments(s, doc, false), doc);
            && (r.outcome == Done <==> SegmentsAcceptable(db, doc) && LinksAcceptable(db, doc, uuid))
            && (r.outcome == Done ==>
                  && r.db == s.db.(segments := r.db.segments, strategySegments := r.db.strategySegments)
                  && MergedPart(db.segments, doc.segments, r.db.segments) && LinksArrived(db, doc, r.db.strategySegments))
  {
    SegmentPartArrives(db, s, doc);
    var t := AfterSegments(s, doc, false);
    if t.outcome == Done {
      LinksFitIff(db, doc, uuid, t.db);
      LinkPartArrives(t, doc);
    }
  }

  /** The tables the last parts start from. */
  lemma FirstPartsArrive(db: Db, doc: Document, keep: bool, uuid: nat -> string)
    requires Integrity(db) && NamesDistinct(doc)
    ensures var s := AfterTags(AfterProjects(AfterToggles(db, doc, false, keep, uuid), doc, false, keep), doc, false, keep);
            s.outcome == Done ==>
              && Integrity(s.db) && s.db.segments == db.segments && s.db.strategySegments == db.strategySegments
              && (forall id :: id in s.db.strategies <==> id in db.strategies || HasId(StrategiesOf(doc), uuid, id))
              && MergedPart(db.environments, doc.environments, s.db.environments)
              && TogglesArrived(db, doc, keep, uuid, s.db)
  {
    FirstPartsSucceedIff(db, doc, keep, uuid);
    ConfigurationArrives(db, doc, keep, uuid);
    TogglesStageIsSafe(db, doc, keep, uuid);
    var s1 := AfterToggles(db, doc, false, keep, uuid);
    ProjectsStageIsSafe(s1, doc, false, keep);
    TagsStageIsSafe(AfterProjects(s1, doc, false, keep), doc, false, keep);
    var s := AfterTags(AfterProjects(s1, doc, false, keep), doc, false, keep);
    if s.outcome == Done {
      TogglesStay(db, doc, keep, uuid, s1.db, s.db);
      forall id
        ensures id in s.db.strategies <==> id in db.strategies || HasId(StrategiesOf(doc), uuid, id)
      {
        StrategyIds(db, doc, keep, uuid, s.db, id);
      }
    }
  }

  /** Without dropBeforeImport, and whether existing rows are kept or not, an import succeeds exactly when the document
      is acceptable; then all of it has arrived. */
  lemma ImportArrives(db: Db, document: Document, keep: bool, uuid: nat -> string)
    requires Integrity(db) && NamesDistinct(Normalized(document))
    ensures var r := Import(db, document, false, keep, uuid);
            && (r.outcome == Done <==> Acceptable(db, Normalized(document), keep, uuid))
            && (r.outcome == Done ==> DocumentArrived(db, Normalized(document), keep, uuid, r.db))
  {
    var doc := Normalized(document);
    FirstPartsSucceedIff(db, doc, keep, uuid);
    FirstPartsArrive(db, doc, keep, uuid);
    var s := AfterTags(AfterProjects(AfterToggles(db, doc, false, keep, uuid), doc, false, keep), doc, false, keep);
    if s.outcome == Done {
      LastPartsArrive(db, doc, uuid, s);
      var r := AfterLinks(AfterSegments(s, doc, false), doc);
      if r.outcome == Done {
        TogglesStay(db, doc, keep, uuid, s.db, r.db);
      }
    }
  }
}
