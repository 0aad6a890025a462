/** The client API's toggles, rebuilt from the flat rows of one SQL join. */
module ClientFold {
  import opened Tables

  /** The columns of a toggle that every row of it repeats. */
  datatype Columns = Columns(
    description: string,
    kind: string,
    project: string,
    stale: bool,
    impressionData: bool,
    variants: map<string, string>)

  /** One row of features left-joined with its strategies in one environment, their segment links and
      the segments. */
  datatype Row = Row(
    name: string,
    columns: Columns,
    enabled: Option<bool>,
    strategyId: Option<string>,
    strategyName: string,
    parameters: Option<map<string, string>>,
    constraints: Option<seq<Constraint>>,
    segmentId: Option<int>,
    segmentConstraints: seq<Constraint>)
  {
    /** JavaScript's truth of strategy_id. */
    predicate HasStrategy() {
      strategyId.Some? && strategyId.value != ""
    }

    predicate HasSegment() {
      segmentId.Some? && segmentId.value != 0
    }
  }

  /** An absent segment list is the empty one. */
  datatype ClientStrategy = ClientStrategy(
    id: string,
    name: string,
    constraints: seq<Constraint>,
    parameters: map<string, string>,
    segments: seq<int>)

  datatype ClientFeature = ClientFeature(columns: Columns, enabled: bool, strategies: seq<ClientStrategy>)

  function RowToStrategy(r: Row): ClientStrategy
    requires r.HasStrategy()
  {
    ClientStrategy(r.strategyId.value, r.strategyName,
                   if r.constraints.Some? then r.constraints.value else [],
                   if r.parameters.Some? then r.parameters.value else map[],
                   [])
  }

  /** The position of the first strategy with this id, or the length. */
  function Find(strategies: seq<ClientStrategy>, id: Option<string>): (k: nat)
    ensures k <= |strategies|
    ensures forall i | 0 <= i < k :: id != Some(strategies[i].id)
    ensures k < |strategies| ==> id == Some(strategies[k].id)
  {
    if strategies == [] || id == Some(strategies[0].id) then 0 else 1 + Find(strategies[1..], id)
  }

  function AddSegment(s: ClientStrategy, r: Row, inlined: bool): ClientStrategy
    requires r.HasSegment()
  {
    if inlined then s.(constraints := s.constraints + r.segmentConstraints)
    else s.(segments := s.segments + [r.segmentId.value])
  }

  function WithStrategy(strategies: seq<ClientStrategy>, r: Row): seq<ClientStrategy> {
    if r.HasStrategy() && Find(strategies, r.strategyId) == |strategies|
    then strategies + [RowToStrategy(r)] else strategies
  }

  function WithSegment(strategies: seq<ClientStrategy>, r: Row, inlined: bool): seq<ClientStrategy> {
    var k := Find(strategies, r.strategyId);
    if r.HasSegment() && k < |strategies| then strategies[k := AddSegment(strategies[k], r, inlined)] else strategies
  }

  function AddToStrategies(strategies: seq<ClientStrategy>, r: Row, inlined: bool): seq<ClientStrategy> {
    WithSegment(WithStrategy(strategies, r), r, inlined)
  }

  function AddRow(acc: map<string, ClientFeature>, r: Row, inlined: bool): map<string, ClientFeature> {
    var strategies := if r.name in acc then acc[r.name].strategies else [];
    acc[r.name := ClientFeature(r.columns, r.enabled == Some(true), AddToStrategies(strategies, r, inlined))]
  }

  function Fold(rows: seq<Row>, inlined: bool): map<string, ClientFeature> {
    if rows == [] then map[] else AddRow(Fold(rows[..|rows| - 1], inlined), rows[|rows| - 1], inlined)
  }

  method AddSegmentToStrategy(strategies: seq<ClientStrategy>, r: Row) returns (updated: seq<ClientStrategy>)
    requires r.HasSegment()
    ensures updated == WithSegment(strategies, r, true)
  {
    var k := Find(strategies, r.strategyId);
    updated := strategies;
    if k < |strategies| {
      updated := updated[k := updated[k].(constraints := updated[k].constraints + r.segmentConstraints)];
    }
  }

  method AddSegmentIdsToStrategy(strategies: seq<ClientStrategy>, r: Row) returns (updated: seq<ClientStrategy>)
    requires r.HasSegment()
    ensures updated == WithSegment(strategies, r, false)
  {
    var k := Find(strategies, r.strategyId);
    if k == |strategies| {
      return strategies;
    }
    updated := strategies[k := strategies[k].(segments := strategies[k].segments + [r.segmentId.value])];
  }

  /** One step of the reduction. */
  method Reduce(acc: map<string, ClientFeature>, r: Row, inlineSegmentConstraints: bool)
    returns (updated: map<string, ClientFeature>)
    ensures updated == AddRow(acc, r, inlineSegmentConstraints)
  {
    var strategies := if r.name in acc then acc[r.name].strategies else [];
    if r.HasStrategy() && Find(strategies, r.strategyId) == |strategies| {
      strategies := strategies + [RowToStrategy(r)];
    }
    if inlineSegmentConstraints && r.HasSegment() {
      strategies := AddSegmentToStrategy(strategies, r);
    } else if !inlineSegmentConstraints && r.HasSegment() {
      strategies := AddSegmentIdsToStrategy(strategies, r);
    }
    updated := acc[r.name := ClientFeature(r.columns, r.enabled == Some(true), strategies)];
  }

  method GetAll(rows: seq<Row>, inlineSegmentConstraints: bool) returns (features: map<string, ClientFeature>)
    ensures features == Fold(rows, inlineSegmentConstraints)
  {
    features := map[];
    for i := 0 to |rows|
      invariant features == Fold(rows[..i], inlineSegmentConstraints)
    {
      features := Reduce(features, rows[i], inlineSegmentConstraints);
      assert rows[..i + 1][..i] == rows[..i];
    }
    assert rows[..|rows|] == rows;
  }

  // ---------- The relational meaning ----------

  /** What a join of consistent tables yields: equal keys give equal columns, and every strategy-segment
      pair is one row. */
  ghost predicate Consistent(rows: seq<Row>) {
    && (forall a, b | a in rows && b in rows && a.name == b.name :: a.columns == b.columns && a.enabled == b.enabled)
    && (forall a, b | a in rows && b in rows && a.HasStrategy() && b.HasStrategy() && a.strategyId == b.strategyId ::
          a.name == b.name && RowToStrategy(a) == RowToStrategy(b))
    && (forall a, b | a in rows && b in rows && Attaches(a) && Attaches(b) &&
                      a.strategyId == b.strategyId && a.segmentId == b.segmentId :: a == b)
    && (forall a | a in rows && Attaches(a) :: multiset(rows)[a] == 1)
  }

  predicate Attaches(r: Row) {
    r.HasStrategy() && r.HasSegment()
  }

  ghost predicate IdsDistinct(strategies: seq<ClientStrategy>) {
    forall i, j | 0 <= i < j < |strategies| :: strategies[i].id != strategies[j].id
  }

  ghost predicate SegmentsDistinct(s: ClientStrategy) {
    forall i, j | 0 <= i < j < |s.segments| :: s.segments[i] != s.segments[j]
  }

  /** Some row puts strategy `id` under toggle `name`. */
  ghost predicate Joined(rows: seq<Row>, name: string, id: string) {
    exists r :: r in rows && r.name == name && r.HasStrategy() && r.strategyId == Some(id)
  }

  /** Some row links segment `g` to strategy `id`. */
  ghost predicate Linked(rows: seq<Row>, id: string, g: int) {
    exists r :: r in rows && Attaches(r) && r.strategyId == Some(id) && r.segmentId == Some(g)
  }

  /** The strategy carries exactly what the rows say about its id: the strategy columns once, and each
      linked segment once. */
  ghost predicate StrategyMeans(rows: seq<Row>, s: ClientStrategy) {
    && (forall r | r in rows && r.HasStrategy() && r.strategyId == Some(s.id) :: s.(segments := []) == RowToStrategy(r))
    && SegmentsDistinct(s)
    && (forall g :: g in s.segments <==> Linked(rows, s.id, g))
  }

  ghost predicate StrategiesMean(rows: seq<Row>, name: string, strategies: seq<ClientStrategy>) {
    && IdsDistinct(strategies)
    && (forall s <- strategies :: Joined(rows, name, s.id) && StrategyMeans(rows, s))
    && (forall id | Joined(rows, name, id) :: exists s :: s in strategies && s.id == id)
  }

  /** The part of the meaning that concerns one toggle. */
  ghost predicate FeatureMeans(rows: seq<Row>, name: string, f: ClientFeature) {
    && (exists r :: r in rows && r.name == name)
    && (forall r | r in rows && r.name == name :: f.columns == r.columns && f.enabled == (r.enabled == Some(true)))
    && StrategiesMean(rows, name, f.strategies)
  }

  /** The toggles are what the rows mean, up to order: one per name with its columns, and under it
      each of its strategies once. */
  ghost predicate Means(rows: seq<Row>, features: map<string, ClientFeature>) {
    && (forall r | r in rows :: r.name in features)
    && (forall name <- features :: FeatureMeans(rows, name, features[name]))
  }

  // ---------- The fold computes the meaning ----------

  lemma OnceInFront<T>(rows: seq<T>, r: T, a: T)
    requires multiset(rows + [r])[a] == 1 && a in rows
    ensures multiset(rows)[a] == 1 && a != r
  {
  }

  /** A consistent list of rows without its last row is consistent. */
  lemma ConsistentPrefix(rows: seq<Row>, r: Row)
    requires Consistent(rows + [r])
    ensures Consistent(rows)
    ensures Attaches(r) ==> forall a | a in rows && Attaches(a) :: a.strategyId != r.strategyId || a.segmentId != r.segmentId
  {
    var all := rows + [r];
    assert r in all && forall a | a in rows :: a in all;
    forall a | a in rows && Attaches(a)
      ensures multiset(rows)[a] == 1 && a != r
    {
      OnceInFront(rows, r, a);
    }
  }

  predicate Names(r: Row, id: string) {
    r.HasStrategy() && r.strategyId == Some(id)
  }

  lemma JoinedOneMore(rows: seq<Row>, r: Row, name: string, id: string)
    ensures Joined(rows + [r], name, id) <==> Joined(rows, name, id) || (r.name == name && Names(r, id))
  {
  }

  /** The row that names a strategy adds its segment, if it has one, and nothing else. */
  lemma NamedStrategyKeepsMeaning(rows: seq<Row>, r: Row, s: ClientStrategy)
    requires Consistent(rows + [r]) && StrategyMeans(rows, s) && Names(r, s.id)
    requires s.(segments := []) == RowToStrategy(r)
    ensures StrategyMeans(rows + [r], if r.HasSegment() then AddSegment(s, r, false) else s)
  {
    if r.HasSegment() {
      assert !Linked(rows, s.id, r.segmentId.value);
    }
  }

  lemma SeenStrategyMeans(rows: seq<Row>, r: Row, strategies: seq<ClientStrategy>, s: ClientStrategy)
    requires Consistent(rows + [r]) && StrategiesMean(rows, r.name, strategies)
    requires s in WithStrategy(strategies, r)
    ensures StrategyMeans(rows, s) && Joined(rows + [r], r.name, s.id)
    ensures Names(r, s.id) ==> s.(segments := []) == RowToStrategy(r)
  {
    JoinedOneMore(rows, r, r.name, s.id);
  }

  /** The strategies that a row's first step leaves: each in its meaning before the row, and the row's
      own strategy among them. */
  lemma WithStrategyMeans(rows: seq<Row>, r: Row, strategies: seq<ClientStrategy>)
    requires Consistent(rows + [r]) && StrategiesMean(rows, r.name, strategies)
    ensures var seen := WithStrategy(strategies, r);
            && IdsDistinct(seen)
            && (forall s <- seen :: StrategyMeans(rows, s) && Joined(rows + [r], r.name, s.id))
            && (forall s <- seen :: Names(r, s.id) ==> s.(segments := []) == RowToStrategy(r))
            && (forall id | Joined(rows + [r], r.name, id) :: exists s :: s in seen && s.id == id)
  {
    var seen := WithStrategy(strategies, r);
    forall s <- seen
      ensures StrategyMeans(rows, s) && Joined(rows + [r], r.name, s.id)
      ensures Names(r, s.id) ==> s.(segments := []) == RowToStrategy(r)
    {
      SeenStrategyMeans(rows, r, strategies, s);
    }
    forall id | Joined(rows + [r], r.name, id)
      ensures exists s :: s in seen && s.id == id
    {
      JoinedOneMore(rows, r, r.name, id);
    }
  }

  /** What the row's second step does to one strategy. */
  lemma WithSegmentMeans(rows: seq<Row>, r: Row, seen: seq<ClientStrategy>, i: nat)
    requires Consistent(rows + [r]) && i < |seen| && IdsDistinct(seen)
    requires StrategyMeans(rows, seen[i]) && Joined(rows + [r], r.name, seen[i].id)
    requires Names(r, seen[i].id) ==> seen[i].(segments := []) == RowToStrategy(r)
    ensures |WithSegment(seen, r, false)| == |seen|
    ensures WithSegment(seen, r, false)[i].id == seen[i].id
    ensures StrategyMeans(rows + [r], WithSegment(seen, r, false)[i])
  {
    if Names(r, seen[i].id) {
      NamedStrategyKeepsMeaning(rows, r, seen[i]);
    }
  }

  /** One more row keeps the meaning of the strategies of its toggle. */
  lemma RowKeepsMeaning(rows: seq<Row>, r: Row, strategies: seq<ClientStrategy>)
    requires Consistent(rows + [r]) && StrategiesMean(rows, r.name, strategies)
    ensures StrategiesMean(rows + [r], r.name, AddToStrategies(strategies, r, false))
  {
    var seen := WithStrategy(strategies, r);
    var after := WithSegment(seen, r, false);
    WithStrategyMeans(rows, r, strategies);
    assert |after| == |seen|;
    forall i | 0 <= i < |seen|
      ensures after[i].id == seen[i].id && StrategyMeans(rows + [r], after[i])
    {
      assert seen[i] in seen;
      WithSegmentMeans(rows, r, seen, i);
    }
  }

  /** A row of another toggle leaves the meaning of these strategies alone. */
  lemma OtherRowKeepsMeaning(rows: seq<Row>, r: Row, name: string, strategies: seq<ClientStrategy>)
    requires Consistent(rows + [r]) && StrategiesMean(rows, name, strategies) && name != r.name
    ensures StrategiesMean(rows + [r], name, strategies)
  {
    forall s <- strategies
      ensures Joined(rows + [r], name, s.id) && StrategyMeans(rows + [r], s)
    {
    }
    forall id | Joined(rows + [r], name, id)
      ensures exists s :: s in strategies && s.id == id
    {
      JoinedOneMore(rows, r, name, id);
    }
  }

  lemma OwnFeatureMeans(rows: seq<Row>, r: Row, strategies: seq<ClientStrategy>)
    requires Consistent(rows + [r]) && StrategiesMean(rows, r.name, strategies)
    ensures FeatureMeans(rows + [r], r.name,
                         ClientFeature(r.columns, r.enabled == Some(true), AddToStrategies(strategies, r, false)))
  {
    RowKeepsMeaning(rows, r, strategies);
  }

  lemma OtherFeatureMeans(rows: seq<Row>, r: Row, name: string, f: ClientFeature)
    requires Consistent(rows + [r]) && FeatureMeans(rows, name, f) && name != r.name
    ensures FeatureMeans(rows + [r], name, f)
  {
    OtherRowKeepsMeaning(rows, r, name, f.strategies);
  }

  lemma AddRowMeans(rows: seq<Row>, r: Row, acc: map<string, ClientFeature>)
    requires Consistent(rows + [r]) && Means(rows, acc)
    ensures Means(rows + [r], AddRow(acc, r, false))
  {
    var after := AddRow(acc, r, false);
    var strategies := if r.name in acc then acc[r.name].strategies else [];
    forall name <- after
      ensures FeatureMeans(rows + [r], name, after[name])
    {
      if name == r.name {
        OwnFeatureMeans(rows, r, strategies);
      } else {
        OtherFeatureMeans(rows, r, name, acc[name]);
      }
    }
  }

  /** For consistent rows the fold yields one toggle per name with its columns, each strategy once
      under its own toggle, and each linked segment once on its strategy. */
  lemma {:induction false} FoldMeans(rows: seq<Row>)
    requires Consistent(rows)
    ensures Means(rows, Fold(rows, false))
  {
    if rows != [] {
      var front, r := rows[..|rows| - 1], rows[|rows| - 1];
      assert rows == front + [r];
      ConsistentPrefix(front, r);
      FoldMeans(front);
      AddRowMeans(front, r, Fold(front, false));
    }
  }

  // ---------- Row order ----------

  /** Equal up to the order of strategies and of segments. */
  ghost predicate SameUpToOrder(a: map<string, ClientFeature>, b: map<string, ClientFeature>) {
    && a.Keys == b.Keys
    && forall name <- a ::
         && a[name].(strategies := []) == b[name].(strategies := [])
         && SameStrategies(a[name].strategies, b[name].strategies)
         && SameStrategies(b[name].strategies, a[name].strategies)
  }

  ghost predicate SameStrategies(a: seq<ClientStrategy>, b: seq<ClientStrategy>) {
    && IdsDistinct(a)
    && forall s <- a :: exists t :: t in b && SameStrategy(s, t)
  }

  ghost predicate SameStrategy(s: ClientStrategy, t: ClientStrategy) {
    s.(segments := []) == t.(segments := []) && multiset(s.segments) == multiset(t.segments)
  }

  lemma DistinctMultiset(s: seq<int>, t: seq<int>)
    requires forall i, j | 0 <= i < j < |s| :: s[i] != s[j]
    requires forall i, j | 0 <= i < j < |t| :: t[i] != t[j]
    requires forall g :: g in s <==> g in t
    ensures multiset(s) == multiset(t)
  {
    forall g
      ensures multiset(s)[g] == multiset(t)[g]
    {
      DistinctCount(s, g);
      DistinctCount(t, g);
    }
  }

  lemma {:induction false} DistinctCount(s: seq<int>, g: int)
    requires forall i, j | 0 <= i < j < |s| :: s[i] != s[j]
    ensures multiset(s)[g] == if g in s then 1 else 0
  {
    if s != [] {
      assert s == s[..|s| - 1] + [s[|s| - 1]];
      DistinctCount(s[..|s| - 1], g);
    }
  }

  lemma MeaningsAgree(rows: seq<Row>, name: string, a: seq<ClientStrategy>, b: seq<ClientStrategy>)
    requires StrategiesMean(rows, name, a) && StrategiesMean(rows, name, b)
    ensures SameStrategies(a, b)
  {
    forall s <- a
      ensures exists t :: t in b && SameStrategy(s, t)
    {
      var t :| t in b && t.id == s.id;
      DistinctMultiset(s.segments, t.segments);
    }
  }

  lemma MeaningIgnoresOrder(rows: seq<Row>, rows': seq<Row>, features: map<string, ClientFeature>)
    requires forall r :: r in rows <==> r in rows'
    requires Means(rows, features)
    ensures Means(rows', features)
  {
    forall name <- features
      ensures FeatureMeans(rows', name, features[name])
    {
      FeatureIgnoresOrder(rows, rows', name, features[name]);
    }
  }

  lemma FeatureIgnoresOrder(rows: seq<Row>, rows': seq<Row>, name: string, f: ClientFeature)
    requires forall r :: r in rows <==> r in rows'
    requires FeatureMeans(rows, name, f)
    ensures FeatureMeans(rows', name, f)
  {
    forall id
      ensures Joined(rows, name, id) <==> Joined(rows', name, id)
    {
    }
  }

  lemma FeatureMeaningsAgree(rows: seq<Row>, name: string, a: ClientFeature, b: ClientFeature)
    requires FeatureMeans(rows, name, a) && FeatureMeans(rows, name, b)
    ensures a.(strategies := []) == b.(strategies := [])
    ensures SameStrategies(a.strategies, b.strategies) && SameStrategies(b.strategies, a.strategies)
  {
    MeaningsAgree(rows, name, a.strategies, b.strategies);
    MeaningsAgree(rows, name, b.strategies, a.strategies);
  }

  /** The meaning of the rows determines the toggles up to order. */
  lemma MeaningDetermines(rows: seq<Row>, a: map<string, ClientFeature>, b: map<string, ClientFeature>)
    requires Means(rows, a) && Means(rows, b)
    ensures SameUpToOrder(a, b)
  {
    forall name <- a
      ensures a[name].(strategies := []) == b[name].(strategies := [])
      ensures SameStrategies(a[name].strategies, b[name].strategies)
      ensures SameStrategies(b[name].strategies, a[name].strategies)
    {
      FeatureMeaningsAgree(rows, name, a[name], b[name]);
    }
  }

  lemma PermutationKeepsMembers(rows: seq<Row>, rows': seq<Row>)
    requires multiset(rows) == multiset(rows')
    ensures forall r :: r in rows <==> r in rows'
  {
    forall r
      ensures r in rows <==> r in rows'
    {
      assert r in rows <==> r in multiset(rows);
    }
  }

  lemma PermutationKeepsConsistency(rows: seq<Row>, rows': seq<Row>)
    requires multiset(rows) == multiset(rows') && forall r :: r in rows <==> r in rows'
    requires Consistent(rows)
    ensures Consistent(rows')
  {
  }

  /** Permuting the rows changes nothing but the order of strategies and of segments. */
  lemma FoldIgnoresRowOrder(rows: seq<Row>, rows': seq<Row>)
    requires Consistent(rows) && multiset(rows) == multiset(rows')
    ensures SameUpToOrder(Fold(rows, false), Fold(rows', false))
  {
    PermutationKeepsMembers(rows, rows');
    PermutationKeepsConsistency(rows, rows');
    FoldMeans(rows);
    FoldMeans(rows');
    MeaningIgnoresOrder(rows', rows, Fold(rows', false));
    MeaningDetermines(rows, Fold(rows, false), Fold(rows', false));
  }

  // ---------- Inlining ----------

  /** The constraints of a list of segments, in order. */
  function SegmentConstraints(segments: seq<int>, table: map<int, seq<Constraint>>): seq<Constraint> {
    if segments == [] then []
    else
      var last := segments[|segments| - 1];
      SegmentConstraints(segments[..|segments| - 1], table) + if last in table then table[last] else []
  }

  function Inline(s: ClientStrategy, table: map<int, seq<Constraint>>): ClientStrategy {
    s.(constraints := s.constraints + SegmentConstraints(s.segments, table), segments := [])
  }

  function InlineList(strategies: seq<ClientStrategy>, table: map<int, seq<Constraint>>): seq<ClientStrategy> {
    seq(|strategies|, i requires 0 <= i < |strategies| => Inline(strategies[i], table))
  }

  function InlineFeature(f: ClientFeature, table: map<int, seq<Constraint>>): ClientFeature {
    f.(strategies := InlineList(f.strategies, table))
  }

  /** The rows carry the constraints the segment table has. */
  ghost predicate FromTable(rows: seq<Row>, table: map<int, seq<Constraint>>) {
    forall r | r in rows && r.HasSegment() ::
      r.segmentId.value in table && r.segmentConstraints == table[r.segmentId.value]
  }

  lemma FindInlined(s: seq<ClientStrategy>, t: seq<ClientStrategy>, id: Option<string>)
    requires |s| == |t| && forall i | 0 <= i < |s| :: s[i].id == t[i].id
    ensures Find(s, id) == Find(t, id)
  {
  }

  lemma InlineOneMore(s: ClientStrategy, r: Row, table: map<int, seq<Constraint>>)
    requires r.HasSegment() && r.segmentId.value in table && r.segmentConstraints == table[r.segmentId.value]
    ensures Inline(AddSegment(s, r, false), table) == AddSegment(Inline(s, table), r, true)
  {
  }

  lemma StrategyInlines(s: seq<ClientStrategy>, r: Row, table: map<int, seq<Constraint>>)
    ensures WithStrategy(InlineList(s, table), r) == InlineList(WithStrategy(s, r), table)
  {
    FindInlined(s, InlineList(s, table), r.strategyId);
    if r.HasStrategy() {
      assert Inline(RowToStrategy(r), table) == RowToStrategy(r);
    }
  }

  lemma SegmentInlines(s: seq<ClientStrategy>, r: Row, table: map<int, seq<Constraint>>)
    requires r.HasSegment() ==> r.segmentId.value in table && r.segmentConstraints == table[r.segmentId.value]
    ensures WithSegment(InlineList(s, table), r, true) == InlineList(WithSegment(s, r, false), table)
  {
    FindInlined(s, InlineList(s, table), r.strategyId);
    var k := Find(s, r.strategyId);
    if r.HasSegment() && k < |s| {
      InlineOneMore(s[k], r, table);
    }
  }

  /** A row does to inlined strategies what it does to those with ids, inlined. */
  lemma RowInlines(s: seq<ClientStrategy>, r: Row, table: map<int, seq<Constraint>>)
    requires r.HasSegment() ==> r.segmentId.value in table && r.segmentConstraints == table[r.segmentId.value]
    ensures AddToStrategies(InlineList(s, table), r, true) == InlineList(AddToStrategies(s, r, false), table)
  {
    StrategyInlines(s, r, table);
    SegmentInlines(WithStrategy(s, r), r, table);
  }

  function InlineAll(features: map<string, ClientFeature>, table: map<int, seq<Constraint>>): map<string, ClientFeature> {
    map name | name in features :: InlineFeature(features[name], table)
  }

  lemma InlineAllOneMore(ids: map<string, ClientFeature>, name: string, f: ClientFeature, table: map<int, seq<Constraint>>)
    ensures InlineAll(ids[name := f], table) == InlineAll(ids, table)[name := InlineFeature(f, table)]
  {
  }

  lemma RowInlinesAll(ids: map<string, ClientFeature>, r: Row, table: map<int, seq<Constraint>>)
    requires r.HasSegment() ==> r.segmentId.value in table && r.segmentConstraints == table[r.segmentId.value]
    ensures AddRow(InlineAll(ids, table), r, true) == InlineAll(AddRow(ids, r, false), table)
  {
    var strategies := if r.name in ids then ids[r.name].strategies else [];
    RowInlines(strategies, r, table);
    InlineAllOneMore(ids, r.name, ClientFeature(r.columns, r.enabled == Some(true), AddToStrategies(strategies, r, false)), table);
  }

  /** Folding with inlining gives the toggles of the fold with segment ids, every strategy with its own
      constraints followed by those of its segments. */
  lemma {:induction false} InliningIsExact(rows: seq<Row>, table: map<int, seq<Constraint>>)
    requires FromTable(rows, table)
    ensures Fold(rows, true) == InlineAll(Fold(rows, false), table)
  {
    if rows != [] {
      var front, r := rows[..|rows| - 1], rows[|rows| - 1];
      InliningIsExact(front, table);
      RowInlinesAll(Fold(front, false), r, table);
    }
  }

  ghost predicate AllHold(holds: Constraint -> bool, constraints: seq<Constraint>) {
    forall c <- constraints :: holds(c)
  }

  lemma {:induction false} SegmentConstraintsHold(segments: seq<int>, table: map<int, seq<Constraint>>, holds: Constraint -> bool)
    requires forall g <- segments :: g in table
    ensures AllHold(holds, SegmentConstraints(segments, table)) <==> forall g <- segments :: AllHold(holds, table[g])
  {
    if segments != [] {
      var front, last := segments[..|segments| - 1], segments[|segments| - 1];
      SegmentConstraintsHold(front, table, holds);
    }
  }

  /** Every segment a folded strategy refers to is in the table the rows came from. */
  lemma {:induction false} FoldedSegmentsAreInTable(rows: seq<Row>, table: map<int, seq<Constraint>>)
    requires FromTable(rows, table)
    ensures forall name <- Fold(rows, false) :: forall s <- Fold(rows, false)[name].strategies :: forall g <- s.segments :: g in table
  {
    if rows != [] {
      FoldedSegmentsAreInTable(rows[..|rows| - 1], table);
    }
  }

  /** Whatever a constraint means, a strategy with inlined segments is satisfied exactly when its own
      constraints and all constraints of each of its segments are. */
  lemma InliningPreservesMeaning(rows: seq<Row>, table: map<int, seq<Constraint>>, name: string, i: nat,
                                 holds: Constraint -> bool)
    requires FromTable(rows, table)
    requires name in Fold(rows, false) && i < |Fold(rows, false)[name].strategies|
    ensures name in Fold(rows, true) && i < |Fold(rows, true)[name].strategies|
    ensures var s, t := Fold(rows, false)[name].strategies[i], Fold(rows, true)[name].strategies[i];
            && t.id == s.id
            && (forall g <- s.segments :: g in table)
            && (AllHold(holds, t.constraints) <==>
                AllHold(holds, s.constraints) && forall g <- s.segments :: AllHold(holds, table[g]))
  {
    InliningIsExact(rows, table);
    FoldedSegmentsAreInTable(rows, table);
    var s := Fold(rows, false)[name].strategies[i];
    SegmentConstraintsHold(s.segments, table, holds);
  }

  // ---------- Row order with inlined segments ----------

  lemma {:induction false} SegmentConstraintsConcat(a: seq<int>, b: seq<int>, table: map<int, seq<Constraint>>)
    ensures SegmentConstraints(a + b, table) == SegmentConstraints(a, table) + SegmentConstraints(b, table)
  {
    if b == [] {
      assert a + b == a;
    } else {
      assert (a + b)[..|a + b| - 1] == a + b[..|b| - 1];
      SegmentConstraintsConcat(a, b[..|b| - 1], table);
    }
  }

  lemma SegmentConstraintsWithout(a: seq<int>, g: int, b: seq<int>, table: map<int, seq<Constraint>>)
    ensures multiset(SegmentConstraints(a + [g] + b, table)) ==
            multiset(SegmentConstraints(a + b, table)) + multiset(if g in table then table[g] else [])
  {
    SegmentConstraintsConcat(a + [g], b, table);
    SegmentConstraintsConcat(a, [g], table);
    SegmentConstraintsConcat(a, b, table);
    assert SegmentConstraints([g], table) == if g in table then table[g] else [];
  }

  lemma Cancel<T>(a: multiset<T>, b: multiset<T>, x: T)
    requires a + multiset{x} == b + multiset{x}
    ensures a == b
  {
    assert a == a + multiset{x} - multiset{x} && b == b + multiset{x} - multiset{x};
  }

  /** A permutation of a list is one of its front around the last element. */
  lemma TakeOut<T>(a: seq<T>, b: seq<T>) returns (k: nat)
    requires a != [] && multiset(a) == multiset(b)
    ensures k < |b| && b == b[..k] + [a[|a| - 1]] + b[k + 1..]
    ensures multiset(a[..|a| - 1]) == multiset(b[..k] + b[k + 1..])
  {
    var last := a[|a| - 1];
    assert a == a[..|a| - 1] + [last];
    assert last in multiset(b);
    k :| 0 <= k < |b| && b[k] == last;
    assert b == b[..k] + [last] + b[k + 1..];
    assert multiset(b) == multiset(b[..k] + b[k + 1..]) + multiset{last};
    assert multiset(a) == multiset(a[..|a| - 1]) + multiset{last};
    Cancel(multiset(a[..|a| - 1]), multiset(b[..k] + b[k + 1..]), last);
  }

  lemma {:induction false} SegmentConstraintsPermute(a: seq<int>, b: seq<int>, table: map<int, seq<Constraint>>)
    requires multiset(a) == multiset(b)
    ensures multiset(SegmentConstraints(a, table)) == multiset(SegmentConstraints(b, table))
    decreases |a|
  {
    if a == [] {
      assert |multiset(b)| == 0;
    } else {
      var k := TakeOut(a, b);
      SegmentConstraintsPermute(a[..|a| - 1], b[..k] + b[k + 1..], table);
      SegmentConstraintsWithout(b[..k], a[|a| - 1], b[k + 1..], table);
    }
  }

  /** Equal up to the order of the constraints. */
  ghost predicate SameInlined(s: ClientStrategy, t: ClientStrategy) {
    s.(constraints := []) == t.(constraints := []) && multiset(s.constraints) == multiset(t.constraints)
  }

  ghost predicate SameInlinedStrategies(a: seq<ClientStrategy>, b: seq<ClientStrategy>) {
    && IdsDistinct(a)
    && forall s <- a :: exists t :: t in b && SameInlined(s, t)
  }

  /** Equal up to the order of strategies and of their constraints. */
  ghost predicate SameInlinedUpToOrder(a: map<string, ClientFeature>, b: map<string, ClientFeature>) {
    && a.Keys == b.Keys
    && forall name <- a ::
         && a[name].(strategies := []) == b[name].(strategies := [])
         && SameInlinedStrategies(a[name].strategies, b[name].strategies)
         && SameInlinedStrategies(b[name].strategies, a[name].strategies)
  }

  lemma InlineSame(s: ClientStrategy, t: ClientStrategy, table: map<int, seq<Constraint>>)
    requires SameStrategy(s, t)
    ensures SameInlined(Inline(s, table), Inline(t, table))
  {
    SegmentConstraintsPermute(s.segments, t.segments, table);
  }

  lemma InlineSameStrategies(a: seq<ClientStrategy>, b: seq<ClientStrategy>, table: map<int, seq<Constraint>>)
    requires SameStrategies(a, b)
    ensures SameInlinedStrategies(InlineList(a, table), InlineList(b, table))
  {
    forall i | 0 <= i < |a|
      ensures exists t :: t in InlineList(b, table) && SameInlined(InlineList(a, table)[i], t)
    {
      assert a[i] in a;
      var t :| t in b && SameStrategy(a[i], t);
      var j :| 0 <= j < |b| && b[j] == t;
      InlineSame(a[i], t, table);
      assert InlineList(b, table)[j] in InlineList(b, table);
    }
  }

  /** With inlined segments, permuting the rows changes nothing but the order of strategies and of constraints. */
  lemma InlinedFoldIgnoresRowOrder(rows: seq<Row>, rows': seq<Row>, table: map<int, seq<Constraint>>)
    requires Consistent(rows) && FromTable(rows, table) && multiset(rows) == multiset(rows')
    ensures SameInlinedUpToOrder(Fold(rows, true), Fold(rows', true))
  {
    PermutationKeepsMembers(rows, rows');
    FoldIgnoresRowOrder(rows, rows');
    InliningIsExact(rows, table);
    InliningIsExact(rows', table);
    var a, b := Fold(rows, false), Fold(rows', false);
    forall name <- a
      ensures SameInlinedStrategies(InlineList(a[name].strategies, table), InlineList(b[name].strategies, table))
      ensures SameInlinedStrategies(InlineList(b[name].strategies, table), InlineList(a[name].strategies, table))
    {
      InlineSameStrategies(a[name].strategies, b[name].strategies, table);
      InlineSameStrategies(b[name].strategies, a[name].strategies, table);
    }
  }
}
