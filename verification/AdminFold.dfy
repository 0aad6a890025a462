/** The admin API's toggle with its environments, rebuilt from the flat rows of one SQL join. */
module AdminFold {
  import opened Tables

  datatype Columns = Columns(project: string, data: FeatureData)

  datatype AdminStrategy = AdminStrategy(
    id: string,
    name: string,
    constraints: seq<Constraint>,
    parameters: map<string, string>,
    sortOrder: int)

  /** A toggle without environments joins to one row whose environment columns are null; a null sort
      order subtracts as 0. */
  datatype Row = Row(
    columns: Columns,
    environment: Option<string>,
    enabled: Option<bool>,
    environmentKind: string,
    environmentSortOrder: int,
    strategyId: Option<string>,
    strategyName: string,
    parameters: map<string, string>,
    constraints: Option<seq<Constraint>>,
    sortOrder: int)
  {
    predicate HasStrategy() {
      strategyId.Some? && strategyId.value != ""
    }
  }

  datatype AdminEnvironment = AdminEnvironment(
    name: Option<string>,
    enabled: Option<bool>,
    kind: string,
    sortOrder: int,
    strategies: seq<AdminStrategy>)

  datatype AdminFeature = AdminFeature(columns: Columns, environments: seq<AdminEnvironment>)

  function GetAdminStrategy(r: Row): AdminStrategy
    requires r.HasStrategy()
  {
    AdminStrategy(r.strategyId.value, r.strategyName, if r.constraints.Some? then r.constraints.value else [],
                  r.parameters, r.sortOrder)
  }

  // ---------- Array.prototype.sort with a numeric comparison ----------

  /** Inserts after every element whose key is not larger. */
  function Insert<T>(s: seq<T>, x: T, key: T -> int): seq<T> {
    if s == [] || key(s[|s| - 1]) <= key(x) then s + [x]
    else Insert(s[..|s| - 1], x, key) + [s[|s| - 1]]
  }

  function SortBy<T>(s: seq<T>, key: T -> int): seq<T> {
    if s == [] then [] else Insert(SortBy(s[..|s| - 1], key), s[|s| - 1], key)
  }

  ghost predicate SortedBy<T>(s: seq<T>, key: T -> int) {
    forall i, j | 0 <= i < j < |s| :: key(s[i]) <= key(s[j])
  }

  ghost predicate DistinctBy<T>(s: seq<T>, key: T -> int) {
    forall i, j | 0 <= i < j < |s| :: key(s[i]) != key(s[j])
  }

  lemma {:induction false} InsertPermutes<T>(s: seq<T>, x: T, key: T -> int)
    ensures multiset(Insert(s, x, key)) == multiset(s) + multiset{x}
  {
    if s != [] && key(s[|s| - 1]) > key(x) {
      InsertPermutes(s[..|s| - 1], x, key);
      assert s == s[..|s| - 1] + [s[|s| - 1]];
    }
  }

  lemma {:induction false} InsertStaysBelow<T>(s: seq<T>, x: T, key: T -> int, bound: int)
    requires key(x) <= bound && forall i | 0 <= i < |s| :: key(s[i]) <= bound
    ensures forall i | 0 <= i < |Insert(s, x, key)| :: key(Insert(s, x, key)[i]) <= bound
  {
    if s != [] && key(s[|s| - 1]) > key(x) {
      InsertStaysBelow(s[..|s| - 1], x, key, bound);
    }
  }

  lemma {:induction false} InsertSorts<T>(s: seq<T>, x: T, key: T -> int)
    requires SortedBy(s, key)
    ensures SortedBy(Insert(s, x, key), key)
  {
    if s != [] && key(s[|s| - 1]) > key(x) {
      InsertSorts(s[..|s| - 1], x, key);
      InsertStaysBelow(s[..|s| - 1], x, key, key(s[|s| - 1]));
    }
  }

  /** Sorting orders the elements by key and permutes them. */
  lemma {:induction false} SortBySorts<T>(s: seq<T>, key: T -> int)
    ensures SortedBy(SortBy(s, key), key)
    ensures multiset(SortBy(s, key)) == multiset(s)
  {
    if s != [] {
      assert s == s[..|s| - 1] + [s[|s| - 1]];
      SortBySorts(s[..|s| - 1], key);
      InsertSorts(SortBy(s[..|s| - 1], key), s[|s| - 1], key);
      InsertPermutes(SortBy(s[..|s| - 1], key), s[|s| - 1], key);
    }
  }

  lemma MultisetFront<T>(s: seq<T>)
    requires s != []
    ensures multiset(s[..|s| - 1]) == multiset(s) - multiset{s[|s| - 1]}
  {
    assert s == s[..|s| - 1] + [s[|s| - 1]];
  }

  lemma SameMembers<T>(s: seq<T>, t: seq<T>, x: T)
    requires multiset(s) == multiset(t)
    ensures x in s <==> x in t
  {
    assert x in s <==> x in multiset(s);
  }

  lemma SameLast<T>(s: seq<T>, t: seq<T>, key: T -> int)
    requires s != [] && t != [] && SortedBy(s, key) && SortedBy(t, key) && DistinctBy(s, key)
    requires multiset(s) == multiset(t)
    ensures s[|s| - 1] == t[|t| - 1]
  {
    var x, y := s[|s| - 1], t[|t| - 1];
    SameMembers(s, t, x);
    SameMembers(s, t, y);
  }

  lemma SortedFront<T>(s: seq<T>, key: T -> int)
    requires s != [] && SortedBy(s, key)
    ensures s == s[..|s| - 1] + [s[|s| - 1]] && SortedBy(s[..|s| - 1], key)
    ensures DistinctBy(s, key) ==> DistinctBy(s[..|s| - 1], key)
    ensures multiset(s[..|s| - 1]) == multiset(s) - multiset{s[|s| - 1]}
  {
    MultisetFront(s);
  }

  /** With distinct keys there is only one sorted order. */
  lemma {:induction false} SortedIsUnique<T>(s: seq<T>, t: seq<T>, key: T -> int)
    requires SortedBy(s, key) && SortedBy(t, key) && DistinctBy(s, key)
    requires multiset(s) == multiset(t)
    ensures s == t
  {
    if s != [] {
      SameLast(s, t, key);
      SortedFront(s, key);
      SortedFront(t, key);
      SortedIsUnique(s[..|s| - 1], t[..|t| - 1], key);
    }
  }

  // ---------- The fold ----------

  type Environments = map<Option<string>, AdminEnvironment>

  function AddRow(acc: Environments, r: Row): Environments {
    var strategies := if r.environment in acc then acc[r.environment].strategies else [];
    acc[r.environment := AdminEnvironment(r.environment, r.enabled, r.environmentKind, r.environmentSortOrder,
                           if r.HasStrategy() then strategies + [GetAdminStrategy(r)] else strategies)]
  }

  function Fold(rows: seq<Row>): Environments {
    if rows == [] then map[] else AddRow(Fold(rows[..|rows| - 1]), rows[|rows| - 1])
  }

  const STRATEGY_ORDER := (s: AdminStrategy) => s.sortOrder
  const ENVIRONMENT_ORDER := (e: AdminEnvironment) => e.sortOrder

  function WithSortedStrategies(e: AdminEnvironment): AdminEnvironment {
    e.(strategies := SortBy(e.strategies, STRATEGY_ORDER))
  }

  ghost predicate NamesDistinct(es: seq<AdminEnvironment>) {
    forall i, j | 0 <= i < j < |es| :: es[i].name != es[j].name
  }

  /** The environments of the fold, each once and each with its strategies sorted, in sort order. Object.values
      lists them in an order of its own before the sort. */
  ghost predicate IsView(rows: seq<Row>, f: AdminFeature) {
    && rows != [] && f.columns == rows[|rows| - 1].columns
    && SortedBy(f.environments, ENVIRONMENT_ORDER)
    && NamesDistinct(f.environments)
    && (forall e <- f.environments :: e.name in Fold(rows) && e == WithSortedStrategies(Fold(rows)[e.name]))
    && (forall name <- Fold(rows) :: exists e :: e in f.environments && e.name == name)
  }

  /** One step of the reduction over the rows. */
  method Reduce(acc: Environments, r: Row) returns (updated: Environments)
    ensures updated == AddRow(acc, r)
  {
    var env := if r.environment in acc then acc[r.environment]
               else AdminEnvironment(r.environment, None, "", 0, []);
    env := env.(name := r.environment, enabled := r.enabled, kind := r.environmentKind,
                sortOrder := r.environmentSortOrder);
    if r.HasStrategy() {
      env := env.(strategies := env.strategies + [GetAdminStrategy(r)]);
    }
    updated := acc[r.environment := env];
  }

  method ObjectValues(m: Environments) returns (values: seq<AdminEnvironment>)
    requires forall k <- m :: m[k].name == k
    ensures NamesDistinct(values)
    ensures forall e <- values :: e.name in m && e == m[e.name]
    ensures forall k <- m :: m[k] in values
  {
    values := [];
    var pending := m.Keys;
    ghost var listed := {};
    while pending != {}
      invariant pending + listed == m.Keys && pending !! listed
      invariant forall e <- values :: e.name in listed && e == m[e.name]
      invariant forall k <- listed :: m[k] in values
      invariant NamesDistinct(values)
      decreases pending
    {
      var k :| k in pending;
      values := values + [m[k]];
      pending, listed := pending - {k}, listed + {k};
    }
  }

  lemma {:induction false} FoldNames(rows: seq<Row>)
    ensures forall k <- Fold(rows) :: Fold(rows)[k].name == k
  {
    if rows != [] {
      FoldNames(rows[..|rows| - 1]);
    }
  }

  lemma DistinctNamesPermute(s: seq<AdminEnvironment>, t: seq<AdminEnvironment>)
    requires multiset(s) == multiset(t) && NamesDistinct(s)
    ensures NamesDistinct(t)
  {
    forall i, j | 0 <= i < j < |t|
      ensures t[i].name != t[j].name
    {
      if t[i].name == t[j].name {
        assert t[i] in multiset(s) && t[j] in multiset(s);
        assert t == t[..i] + [t[i]] + t[i + 1..j] + [t[j]] + t[j + 1..];
        OnceInDistinct(s, t[i]);
      }
    }
  }

  lemma {:induction false} OnceInDistinct(s: seq<AdminEnvironment>, x: AdminEnvironment)
    requires NamesDistinct(s)
    ensures multiset(s)[x] <= 1
  {
    if s != [] {
      assert s == s[..|s| - 1] + [s[|s| - 1]];
      OnceInDistinct(s[..|s| - 1], x);
    }
  }

  method FoldRows(rows: seq<Row>) returns (acc: Environments)
    ensures acc == Fold(rows)
  {
    acc := map[];
    for i := 0 to |rows|
      invariant acc == Fold(rows[..i])
    {
      acc := Reduce(acc, rows[i]);
      assert rows[..i + 1][..i] == rows[..i];
    }
    assert rows[..|rows|] == rows;
  }

  method SortStrategies(environments: seq<AdminEnvironment>) returns (r: seq<AdminEnvironment>)
    ensures |r| == |environments|
    ensures forall k | 0 <= k < |r| :: r[k] == WithSortedStrategies(environments[k])
  {
    r := [];
    for i := 0 to |environments|
      invariant |r| == i
      invariant forall k | 0 <= k < i :: r[k] == WithSortedStrategies(environments[k])
    {
      r := r + [environments[i].(strategies := SortBy(environments[i].strategies, STRATEGY_ORDER))];
    }
  }

  /** The toggle with its environments; None stands for the error when no row came back. */
  method GetFeatureToggleWithEnvs(rows: seq<Row>) returns (f: Option<AdminFeature>)
    ensures rows == [] <==> f == None
    ensures f.Some? ==> IsView(rows, f.value)
  {
    if |rows| == 0 {
      return None;
    }
    var acc := FoldRows(rows);
    FoldNames(rows);
    var values := ObjectValues(acc);
    var sorted := SortBy(values, ENVIRONMENT_ORDER);
    SortedValues(rows, values);
    var environments := SortStrategies(sorted);
    SortedView(rows, sorted, environments);
    return Some(AdminFeature(rows[|rows| - 1].columns, environments));
  }

  lemma SortedValues(rows: seq<Row>, values: seq<AdminEnvironment>)
    requires NamesDistinct(values)
    requires forall e <- values :: e.name in Fold(rows) && e == Fold(rows)[e.name]
    requires forall k <- Fold(rows) :: Fold(rows)[k] in values
    ensures var sorted := SortBy(values, ENVIRONMENT_ORDER);
            && SortedBy(sorted, ENVIRONMENT_ORDER) && NamesDistinct(sorted)
            && (forall e <- sorted :: e.name in Fold(rows) && e == Fold(rows)[e.name])
            && (forall k <- Fold(rows) :: Fold(rows)[k] in sorted)
  {
    var sorted := SortBy(values, ENVIRONMENT_ORDER);
    SortBySorts(values, ENVIRONMENT_ORDER);
    DistinctNamesPermute(values, sorted);
    forall e
      ensures e in sorted <==> e in values
    {
      SameMembers(values, sorted, e);
    }
  }

  lemma SortedView(rows: seq<Row>, sorted: seq<AdminEnvironment>, environments: seq<AdminEnvironment>)
    requires rows != [] && SortedBy(sorted, ENVIRONMENT_ORDER) && NamesDistinct(sorted)
    requires forall e <- sorted :: e.name in Fold(rows) && e == Fold(rows)[e.name]
    requires forall name <- Fold(rows) :: Fold(rows)[name] in sorted && Fold(rows)[name].name == name
    requires |environments| == |sorted|
    requires forall k | 0 <= k < |sorted| :: environments[k] == WithSortedStrategies(sorted[k])
    ensures IsView(rows, AdminFeature(rows[|rows| - 1].columns, environments))
  {
  }

  // ---------- The relational meaning ----------

  /** The strategies the rows join to an environment, in row order. */
  function JoinedStrategies(rows: seq<Row>, environment: Option<string>): seq<AdminStrategy> {
    if rows == [] then []
    else
      var r := rows[|rows| - 1];
      JoinedStrategies(rows[..|rows| - 1], environment) +
      if r.environment == environment && r.HasStrategy() then [GetAdminStrategy(r)] else []
  }

  /** Rows of one toggle: equal environments have equal columns. */
  ghost predicate Consistent(rows: seq<Row>) {
    forall a, b | a in rows && b in rows ::
      && a.columns == b.columns
      && (a.environment == b.environment ==>
            a.enabled == b.enabled && a.environmentKind == b.environmentKind &&
            a.environmentSortOrder == b.environmentSortOrder)
  }

  /** The fold groups the joined strategies by environment. */
  lemma {:induction false} FoldGroups(rows: seq<Row>, environment: Option<string>)
    ensures environment in Fold(rows) <==> exists r :: r in rows && r.environment == environment
    ensures environment in Fold(rows) ==>
              && Fold(rows)[environment].strategies == JoinedStrategies(rows, environment)
              && exists r :: r in rows && r.environment == environment &&
                             Fold(rows)[environment].(strategies := []) ==
                             AdminEnvironment(environment, r.enabled, r.environmentKind, r.environmentSortOrder, [])
    ensures environment !in Fold(rows) ==> JoinedStrategies(rows, environment) == []
  {
    if rows != [] {
      var front, r := rows[..|rows| - 1], rows[|rows| - 1];
      FoldGroups(front, environment);
    }
  }

  /** The environment is one of the rows', has their columns, and holds exactly the strategies joined to
      it, in sort order. */
  ghost predicate EnvironmentMeans(rows: seq<Row>, e: AdminEnvironment) {
    && (exists r :: r in rows && r.environment == e.name)
    && (forall r <- rows :: r.environment == e.name ==>
          e.(strategies := []) == AdminEnvironment(e.name, r.enabled, r.environmentKind, r.environmentSortOrder, []))
    && SortedBy(e.strategies, STRATEGY_ORDER)
    && multiset(e.strategies) == multiset(JoinedStrategies(rows, e.name))
  }

  /** The toggle's columns, and every environment of the rows once, in sort order. */
  ghost predicate Means(rows: seq<Row>, f: AdminFeature) {
    && (forall r <- rows :: f.columns == r.columns)
    && SortedBy(f.environments, ENVIRONMENT_ORDER)
    && NamesDistinct(f.environments)
    && (forall e <- f.environments :: EnvironmentMeans(rows, e))
    && (forall r <- rows :: exists e :: e in f.environments && e.name == r.environment)
  }

  /** Every view of consistent rows has their meaning. */
  lemma ViewMeans(rows: seq<Row>, f: AdminFeature)
    requires Consistent(rows) && IsView(rows, f)
    ensures Means(rows, f)
  {
    forall e <- f.environments
      ensures EnvironmentMeans(rows, e)
    {
      FoldGroups(rows, e.name);
      SortBySorts(Fold(rows)[e.name].strategies, STRATEGY_ORDER);
    }
    forall r <- rows
      ensures exists e :: e in f.environments && e.name == r.environment
    {
      FoldGroups(rows, r.environment);
    }
  }

  lemma JoinedStrategiesWithout(rows: seq<Row>, k: nat, environment: Option<string>)
    requires k < |rows|
    ensures multiset(JoinedStrategies(rows, environment)) ==
            multiset(JoinedStrategies(rows[..k] + rows[k + 1..], environment)) +
            multiset(JoinedStrategies([rows[k]], environment))
  {
    assert rows == rows[..k] + ([rows[k]] + rows[k + 1..]);
    JoinedStrategiesConcat(rows[..k], [rows[k]] + rows[k + 1..], environment);
    JoinedStrategiesConcat([rows[k]], rows[k + 1..], environment);
    JoinedStrategiesConcat(rows[..k], rows[k + 1..], environment);
  }

  lemma {:induction false} JoinedStrategiesPermute(rows: seq<Row>, rows': seq<Row>, environment: Option<string>)
    requires multiset(rows) == multiset(rows')
    ensures multiset(JoinedStrategies(rows, environment)) == multiset(JoinedStrategies(rows', environment))
    decreases |rows|
  {
    if rows != [] {
      var last := |rows| - 1;
      SameMembers(rows, rows', rows[last]);
      var k :| 0 <= k < |rows'| && rows'[k] == rows[last];
      var front, rest := rows[..last] + rows[last + 1..], rows'[..k] + rows'[k + 1..];
      assert multiset(front) == multiset(rest) by {
        MultisetFront(rows);
        assert rows' == rows'[..k] + [rows'[k]] + rows'[k + 1..];
      }
      JoinedStrategiesPermute(front, rest, environment);
      JoinedStrategiesWithout(rows, last, environment);
      JoinedStrategiesWithout(rows', k, environment);
    }
  }

  lemma {:induction false} JoinedStrategiesConcat(a: seq<Row>, b: seq<Row>, environment: Option<string>)
    ensures JoinedStrategies(a + b, environment) == JoinedStrategies(a, environment) + JoinedStrategies(b, environment)
  {
    if b == [] {
      assert a + b == a;
    } else {
      assert (a + b)[..|a + b| - 1] == a + b[..|b| - 1];
      JoinedStrategiesConcat(a, b[..|b| - 1], environment);
    }
  }

  lemma SameEnvironment(rows: seq<Row>, rows': seq<Row>, e: AdminEnvironment, e': AdminEnvironment)
    requires multiset(rows) == multiset(rows') && e.name == e'.name
    requires EnvironmentMeans(rows, e) && EnvironmentMeans(rows', e')
    requires DistinctBy(e.strategies, STRATEGY_ORDER)
    ensures e == e'
  {
    var r :| r in rows && r.environment == e.name;
    SameMembers(rows, rows', r);
    JoinedStrategiesPermute(rows, rows', e.name);
    SortedIsUnique(e.strategies, e'.strategies, STRATEGY_ORDER);
  }

  /** An environment of one view has its like in the view of the permuted rows. */
  lemma EnvironmentInBoth(rows: seq<Row>, rows': seq<Row>, f': AdminFeature, e: AdminEnvironment)
    returns (e': AdminEnvironment)
    requires multiset(rows) == multiset(rows') && EnvironmentMeans(rows, e) && Means(rows', f')
    ensures e' in f'.environments && e'.name == e.name && EnvironmentMeans(rows', e')
  {
    var r :| r in rows && r.environment == e.name;
    SameMembers(rows, rows', r);
    e' :| e' in f'.environments && e'.name == r.environment;
  }

  lemma MeaningsAgree(rows: seq<Row>, rows': seq<Row>, f: AdminFeature, f': AdminFeature)
    requires multiset(rows) == multiset(rows') && Means(rows, f) && Means(rows', f')
    requires forall e <- f.environments :: DistinctBy(e.strategies, STRATEGY_ORDER)
    ensures forall e :: e in f.environments <==> e in f'.environments
  {
    forall e <- f.environments
      ensures e in f'.environments
    {
      var e' := EnvironmentInBoth(rows, rows', f', e);
      SameEnvironment(rows, rows', e, e');
    }
    forall e' <- f'.environments
      ensures e' in f.environments
    {
      var e := EnvironmentInBoth(rows', rows, f, e');
      SameEnvironment(rows, rows', e, e');
    }
  }

  /** When the sort orders of the environments, and those of the strategies in each environment, are
      distinct, the answer does not depend on the order of the rows. */
  lemma ViewIgnoresRowOrder(rows: seq<Row>, rows': seq<Row>, f: AdminFeature, f': AdminFeature)
    requires Consistent(rows) && multiset(rows) == multiset(rows')
    requires IsView(rows, f) && IsView(rows', f')
    requires DistinctBy(f.environments, ENVIRONMENT_ORDER)
    requires forall e <- f.environments :: DistinctBy(e.strategies, STRATEGY_ORDER)
    ensures f == f'
  {
    assert Consistent(rows') by {
      forall r
        ensures r in rows <==> r in rows'
      {
        SameMembers(rows, rows', r);
      }
    }
    ViewMeans(rows, f);
    ViewMeans(rows', f');
    SameMembers(rows, rows', rows[0]);
    MeaningsAgree(rows, rows', f, f');
    SameElements(f.environments, f'.environments);
    SortedIsUnique(f.environments, f'.environments, ENVIRONMENT_ORDER);
  }

  lemma SameElements(s: seq<AdminEnvironment>, t: seq<AdminEnvironment>)
    requires NamesDistinct(s) && NamesDistinct(t)
    requires forall e :: e in s <==> e in t
    ensures multiset(s) == multiset(t)
  {
    forall e
      ensures multiset(s)[e] == multiset(t)[e]
    {
      OnceInDistinct(s, e);
      OnceInDistinct(t, e);
      assert e in s <==> multiset(s)[e] > 0;
    }
  }
}
