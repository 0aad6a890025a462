/** The client query over the tables: its rows are consistent, so the fold over them reads back exactly
    what the tables hold for the environment. */
module ClientQuery {
  import opened Tables
  import opened Steps
  import opened ClientFold

  /** The keys of one row of the left joins. */
  datatype Key = Key(name: string, strategy: Option<string>, segment: Option<int>)

  /** Ids that come from uuidv4 and from a serial column. */
  ghost predicate RealIds(db: Db) {
    "" !in db.strategies && 0 !in db.segments
  }

  /** What a caller of the client or the admin API may ask for; `archived` is fixed by the API. */
  datatype Query = Query(
    environment: Option<string>,
    tags: Option<seq<Tag>>,
    projects: Option<seq<string>>,
    namePrefix: Option<string>,
    archived: bool)
  {
    /** A missing or empty environment is the default one. */
    function Environment(): string {
      if environment.Some? && environment.value != "" then environment.value else DEFAULT_ENV
    }
  }

  /** SQL's LIKE with its default escape character. */
  predicate Like(name: string, pattern: string)
    decreases |name| + |pattern|
  {
    if pattern == "" then name == ""
    else if pattern[0] == '%' then Like(name, pattern[1..]) || (name != "" && Like(name[1..], pattern))
    else if pattern[0] == '\\' && |pattern| > 1 then
      name != "" && name[0] == pattern[1] && Like(name[1..], pattern[2..])
    else name != "" && (pattern[0] == '_' || name[0] == pattern[0]) && Like(name[1..], pattern[1..])
  }

  predicate Plain(prefix: string) {
    forall c <- prefix :: c != '%' && c != '_' && c != '\\'
  }

  lemma {:induction false} LikeAnything(name: string)
    ensures Like(name, "%")
  {
    if name != "" {
      LikeAnything(name[1..]);
    }
  }

  /** A prefix without special characters selects exactly the names that start with it. */
  lemma {:induction false} LikeIsPrefix(name: string, prefix: string)
    requires Plain(prefix)
    ensures Like(name, prefix + "%") <==> prefix <= name
  {
    if prefix == "" {
      assert prefix + "%" == "%";
      LikeAnything(name);
    } else {
      assert prefix[0] in prefix && (prefix + "%")[0] == prefix[0];
      if name != "" {
        assert forall c <- prefix[1..] :: c in prefix;
        assert (prefix + "%")[1..] == prefix[1..] + "%";
        LikeIsPrefix(name[1..], prefix[1..]);
        assert prefix <= name <==> prefix[0] == name[0] && prefix[1..] <= name[1..];
      }
    }
  }

  /** The filters of the query, without the archived flag; an empty list of tags or projects selects nothing, an
      empty prefix is no filter. */
  predicate Matches(db: Db, q: Query, name: string)
    requires name in db.features
  {
    && (q.tags.Some? ==> exists t <- q.tags.value :: FeatureTag(name, t) in db.featureTags)
    && (q.projects.Some? ==> db.features[name].project in q.projects.value)
    && (q.namePrefix.Some? && q.namePrefix.value != "" ==> Like(name, q.namePrefix.value + "%"))
  }

  predicate Selected(db: Db, q: Query, name: string) {
    name in db.features && db.features[name].archived == q.archived && Matches(db, q, name)
  }

  /** A query without special characters in its prefix selects exactly the toggles that have one of the given tags, are
      in one of the given projects and start with the given prefix, of each filter that is given; a missing or empty
      environment is the default one. */
  lemma SelectedIff(db: Db, q: Query, name: string)
    requires q.namePrefix.Some? ==> Plain(q.namePrefix.value)
    ensures Selected(db, q, name) <==>
            && name in db.features && db.features[name].archived == q.archived
            && (q.tags == None || exists t :: t in db.featureTags && t.feature == name && t.tag in q.tags.value)
            && (q.projects == None || db.features[name].project in q.projects.value)
            && (q.namePrefix == None || q.namePrefix.value <= name)
    ensures q.Environment() == if q.environment in {None, Some("")} then "default" else q.environment.value
  {
    if q.namePrefix.Some? {
      LikeIsPrefix(name, q.namePrefix.value);
    }
    if q.tags.Some? {
      forall t | t in db.featureTags && t.feature == name && t.tag in q.tags.value
        ensures FeatureTag(name, t.tag) in db.featureTags
      {
        assert t == FeatureTag(name, t.tag);
      }
    }
  }

  /** A selected toggle, one of its strategies in the environment if it has any, one of that strategy's
      segments if it has any. */
  ghost predicate InJoin(db: Db, q: Query, k: Key) {
    && Selected(db, q, k.name)
    && (match k.strategy
        case None => StrategiesIn(db, k.name, q.Environment()) == {} && k.segment == None
        case Some(id) =>
          && id in StrategiesIn(db, k.name, q.Environment())
          && (match k.segment
              case None => SegmentsOf(db, id) == {}
              case Some(g) => g in SegmentsOf(db, id)))
  }

  function ColumnsOf(f: Feature): Columns {
    Columns(f.data.description, f.data.kind, f.project, f.data.stale, f.data.impressionData, f.data.variants)
  }

  /** The columns are those of the stored toggle. */
  predicate HasColumns(c: Columns, f: Feature) {
    && c.description == f.data.description && c.kind == f.data.kind && c.project == f.project
    && c.stale == f.data.stale && c.impressionData == f.data.impressionData && c.variants == f.data.variants
  }

  function RowOf(db: Db, q: Query, k: Key): Row
    requires k.name in db.features
    requires k.strategy.Some? ==> k.strategy.value in db.strategies
    requires k.segment.Some? ==> k.segment.value in db.segments
  {
    var f := db.features[k.name];
    var l := FeatureEnv(k.name, q.Environment());
    Row(k.name,
        ColumnsOf(f),
        if l in db.featureEnvs then Some(db.featureEnvs[l]) else None,
        k.strategy,
        if k.strategy.Some? then db.strategies[k.strategy.value].config.name else "",
        if k.strategy.Some? then Some(db.strategies[k.strategy.value].config.parameters) else None,
        if k.strategy.Some? then Some(db.strategies[k.strategy.value].config.constraints) else None,
        k.segment,
        if k.segment.Some? then db.segments[k.segment.value].constraints else [])
  }

  ghost predicate KeyOf(db: Db, q: Query, r: Row, k: Key) {
    InJoin(db, q, k) && KeyExists(db, k) && r == RowOf(db, q, k)
  }

  predicate KeyExists(db: Db, k: Key) {
    && k.name in db.features
    && (k.strategy.Some? ==> k.strategy.value in db.strategies)
    && (k.segment.Some? ==> k.segment.value in db.segments)
  }

  /** The rows of the query, each once, in any order. */
  ghost predicate IsJoin(db: Db, q: Query, rows: seq<Row>) {
    && (forall r | r in rows :: multiset(rows)[r] == 1 && exists k :: KeyOf(db, q, r, k))
    && (forall k | InJoin(db, q, k) :: KeyExists(db, k) && RowOf(db, q, k) in rows)
  }

  lemma JoinIsConsistent(db: Db, q: Query, rows: seq<Row>)
    requires Integrity(db) && IsJoin(db, q, rows)
    ensures Consistent(rows)
  {
    forall a, b | a in rows && b in rows && a.HasStrategy() && b.HasStrategy() && a.strategyId == b.strategyId
      ensures a.name == b.name && RowToStrategy(a) == RowToStrategy(b)
      ensures a.segmentId == b.segmentId ==> a == b
    {
      var ka :| KeyOf(db, q, a, ka);
      var kb :| KeyOf(db, q, b, kb);
    }
    forall a, b | a in rows && b in rows && a.name == b.name
      ensures a.columns == b.columns && a.enabled == b.enabled
    {
      var ka :| KeyOf(db, q, a, ka);
    }
  }

  /** A toggle has a row, and so does each of its strategies in the environment, with each segment. */
  lemma JoinCovers(db: Db, q: Query, rows: seq<Row>, name: string)
    requires Integrity(db) && RealIds(db) && IsJoin(db, q, rows)
    requires Selected(db, q, name)
    ensures exists r :: r in rows && r.name == name
    ensures forall id :: Joined(rows, name, id) <==> id in StrategiesIn(db, name, q.Environment())
  {
    forall id <- StrategiesIn(db, name, q.Environment())
      ensures Joined(rows, name, id)
    {
      var g: Option<int> := None;
      if SegmentsOf(db, id) != {} {
        var x :| x in SegmentsOf(db, id);
        g := Some(x);
      }
      var k := Key(name, Some(id), g);
      var r := RowOf(db, q, k);
    }
    if StrategiesIn(db, name, q.Environment()) == {} {
      var k := Key(name, None, None);
      assert InJoin(db, q, k);
    }
  }

  lemma JoinLinks(db: Db, q: Query, rows: seq<Row>, name: string, id: string)
    requires Integrity(db) && RealIds(db) && IsJoin(db, q, rows)
    requires Selected(db, q, name) && id in StrategiesIn(db, name, q.Environment())
    ensures forall g :: Linked(rows, id, g) <==> g in SegmentsOf(db, id)
  {
    forall g | g in SegmentsOf(db, id)
      ensures Linked(rows, id, g)
    {
      var k := Key(name, Some(id), Some(g));
      var r := RowOf(db, q, k);
    }
  }

  /** The folded strategy is the stored one. */
  ghost predicate Reads(db: Db, s: ClientStrategy)
  {
    && s.id in db.strategies
    && s.name == db.strategies[s.id].config.name
    && s.constraints == db.strategies[s.id].config.constraints
    && s.parameters == db.strategies[s.id].config.parameters
    && SegmentsDistinct(s)
    && (forall g :: g in s.segments <==> g in SegmentsOf(db, s.id))
  }

  lemma StrategyReads(db: Db, q: Query, rows: seq<Row>, name: string, s: ClientStrategy)
    requires Integrity(db) && RealIds(db) && IsJoin(db, q, rows)
    requires Selected(db, q, name)
    requires Joined(rows, name, s.id) && StrategyMeans(rows, s)
    ensures s.id in StrategiesIn(db, name, q.Environment()) && Reads(db, s)
  {
    JoinLinks(db, q, rows, name, s.id);
  }

  /** The strategies under a toggle are exactly the stored ones of the environment. */
  ghost predicate ReadsStrategies(db: Db, environment: string, name: string, strategies: seq<ClientStrategy>) {
    && IdsDistinct(strategies)
    && (forall s <- strategies :: s.id in StrategiesIn(db, name, environment) && Reads(db, s))
    && (forall id <- StrategiesIn(db, name, environment) :: exists s :: s in strategies && s.id == id)
  }

  lemma FeatureReads(db: Db, q: Query, rows: seq<Row>, name: string, f: ClientFeature)
    requires Integrity(db) && RealIds(db) && IsJoin(db, q, rows) && FeatureMeans(rows, name, f)
    ensures Selected(db, q, name)
    ensures HasColumns(f.columns, db.features[name])
    ensures f.enabled == (FeatureEnv(name, q.Environment()) in db.featureEnvs && db.featureEnvs[FeatureEnv(name, q.Environment())])
    ensures ReadsStrategies(db, q.Environment(), name, f.strategies)
  {
    JoinCovers(db, q, rows, name);
    forall s <- f.strategies
      ensures s.id in StrategiesIn(db, name, q.Environment()) && Reads(db, s)
    {
      StrategyReads(db, q, rows, name, s);
    }
  }

  /** The query returns the selected toggles, each with its flag for the environment and exactly its
      strategies there, each with its stored configuration and segments. */
  lemma ClientReadsTables(db: Db, q: Query, rows: seq<Row>, name: string)
    requires Integrity(db) && RealIds(db) && IsJoin(db, q, rows)
    ensures var out := Fold(rows, false);
            && (name in out <==> Selected(db, q, name))
            && (name in out ==>
                  && out[name].enabled == (FeatureEnv(name, q.Environment()) in db.featureEnvs &&
                                           db.featureEnvs[FeatureEnv(name, q.Environment())])
                  && HasColumns(out[name].columns, db.features[name])
                  && ReadsStrategies(db, q.Environment(), name, out[name].strategies))
  {
    JoinIsConsistent(db, q, rows);
    FoldMeans(rows);
    var out := Fold(rows, false);
    if name in out {
      FeatureReads(db, q, rows, name, out[name]);
    } else if Selected(db, q, name) {
      JoinCovers(db, q, rows, name);
    }
  }

  // ---------- Inlined segments ----------

  function SegmentTable(db: Db): map<int, seq<Constraint>> {
    map g | g in db.segments :: db.segments[g].constraints
  }

  /** The rows of the query carry the constraints of the stored segments. */
  lemma RowsCarrySegments(db: Db, q: Query, rows: seq<Row>)
    requires IsJoin(db, q, rows)
    ensures FromTable(rows, SegmentTable(db))
  {
    forall r | r in rows && r.HasSegment()
      ensures r.segmentId.value in SegmentTable(db) && r.segmentConstraints == SegmentTable(db)[r.segmentId.value]
    {
      var k :| KeyOf(db, q, r, k);
    }
  }

  /** Its constraints all hold exactly when those of the stored strategy and of its segments do. */
  ghost predicate EvaluatesAs(db: Db, holds: Constraint -> bool, s: ClientStrategy) {
    && s.id in db.strategies
    && s.name == db.strategies[s.id].config.name && s.parameters == db.strategies[s.id].config.parameters
    && s.segments == []
    && (AllHold(holds, s.constraints) <==>
        && AllHold(holds, db.strategies[s.id].config.constraints)
        && forall g <- SegmentsOf(db, s.id) :: g in db.segments ==> AllHold(holds, db.segments[g].constraints))
  }

  lemma InlinedStrategyEvaluates(db: Db, s: ClientStrategy, holds: Constraint -> bool)
    requires Integrity(db) && Reads(db, s)
    ensures EvaluatesAs(db, holds, Inline(s, SegmentTable(db)))
  {
    forall g <- s.segments
      ensures g in db.segments
    {
      assert StrategySegment(s.id, g) in db.strategySegments;
    }
    SegmentConstraintsHold(s.segments, SegmentTable(db), holds);
    var inlined := SegmentConstraints(s.segments, SegmentTable(db));
    assert forall c :: c in s.constraints + inlined <==> c in s.constraints || c in inlined;
  }

  /** The query with inlined segments returns the same toggles; whatever a constraint means, each strategy is
      satisfied exactly when the stored strategy and all its stored segments are. */
  lemma ClientInlinesTables(db: Db, q: Query, rows: seq<Row>, name: string, holds: Constraint -> bool)
    requires Integrity(db) && RealIds(db) && IsJoin(db, q, rows)
    ensures var out := Fold(rows, true);
            && (name in out <==> Selected(db, q, name))
            && (name in out ==>
                  && out[name].enabled == (FeatureEnv(name, q.Environment()) in db.featureEnvs &&
                                           db.featureEnvs[FeatureEnv(name, q.Environment())])
                  && HasColumns(out[name].columns, db.features[name])
                  && IdsDistinct(out[name].strategies)
                  && (forall s <- out[name].strategies ::
                        s.id in StrategiesIn(db, name, q.Environment()) && EvaluatesAs(db, holds, s))
                  && (forall id <- StrategiesIn(db, name, q.Environment()) ::
                        exists s :: s in out[name].strategies && s.id == id))
  {
    RowsCarrySegments(db, q, rows);
    InliningIsExact(rows, SegmentTable(db));
    ClientReadsTables(db, q, rows, name);
    var ids := Fold(rows, false);
    if name in ids {
      InlinedListEvaluates(db, ids[name].strategies, holds);
    }
  }

  lemma InlinedListEvaluates(db: Db, strategies: seq<ClientStrategy>, holds: Constraint -> bool)
    requires Integrity(db) && IdsDistinct(strategies) && forall s <- strategies :: Reads(db, s)
    ensures var inlined := InlineList(strategies, SegmentTable(db));
            && IdsDistinct(inlined)
            && (forall s <- inlined :: EvaluatesAs(db, holds, s) && exists t :: t in strategies && t.id == s.id)
            && (forall t <- strategies :: exists s :: s in inlined && s.id == t.id)
  {
    var inlined := InlineList(strategies, SegmentTable(db));
    forall i | 0 <= i < |strategies|
      ensures EvaluatesAs(db, holds, inlined[i]) && inlined[i].id == strategies[i].id && strategies[i] in strategies
    {
      InlinedStrategyEvaluates(db, strategies[i], holds);
    }
    forall t <- strategies
      ensures exists s :: s in inlined && s.id == t.id
    {
      var i :| 0 <= i < |strategies| && strategies[i] == t;
      assert inlined[i] in inlined;
    }
  }
}
