/** Redistribution of variant weights. Weights are real numbers: the schema accepts any number between
    0 and 1000. */
module Variants {
  import opened Tables

  datatype VariantValue = VariantValue(name: string, fix: bool, weight: real)

  class Variant {
    const name: string
    const fix: bool
    var weight: real

    constructor (name: string, fix: bool, weight: real)
      ensures Value() == VariantValue(name, fix, weight)
    {
      this.name, this.fix, this.weight := name, fix, weight;
    }

    function Value(): VariantValue
      reads this
    {
      VariantValue(name, fix, weight)
    }
  }

  function Values(vs: seq<Variant>): seq<VariantValue>
    reads vs
  {
    seq(|vs|, i requires 0 <= i < |vs| reads vs => vs[i].Value())
  }

  function OfType(vs: seq<VariantValue>, fix: bool): seq<VariantValue> {
    if vs == [] then []
    else
      var last := vs[|vs| - 1];
      if last.fix == fix then OfType(vs[..|vs| - 1], fix) + [last] else OfType(vs[..|vs| - 1], fix)
  }

  function Sum(vs: seq<VariantValue>): real {
    if vs == [] then 0.0 else Sum(vs[..|vs| - 1]) + vs[|vs| - 1].weight
  }

  function Average(total: real, n: nat): int
    requires n > 0
  {
    (total / n as real).Floor
  }

  /** JavaScript's total % n for a total that is not negative. */
  function Remainder(total: real, n: nat): real
    requires n > 0
  {
    total - Average(total, n) as real * n as real
  }

  /** The average, and one more for the first ones while a remainder is left. */
  function Share(total: real, n: nat, i: nat): int
    requires n > 0
  {
    Average(total, n) + if i as real < Remainder(total, n) then 1 else 0
  }

  function Shared(vs: seq<VariantValue>, total: real): (r: seq<VariantValue>)
    ensures |r| == |vs|
  {
    seq(|vs|, i requires 0 <= i < |vs| => vs[i].(weight := Share(total, |vs|, i) as real))
  }

  datatype Weights = Accepted(variants: seq<VariantValue>) | Rejected

  function FixWeights(vs: seq<VariantValue>): Weights {
    var variable, fixed := OfType(vs, false), OfType(vs, true);
    if vs != [] && variable == [] then Rejected
    else if Sum(fixed) > 1000.0 then Rejected
    else Accepted(Shared(variable, 1000.0 - Sum(fixed)) + fixed)
  }

  // ---------- The loop ----------

  ghost predicate Different(vs: seq<Variant>) {
    forall i, j | 0 <= i < j < |vs| :: vs[i] != vs[j]
  }

  ghost predicate Among(r: seq<Variant>, vs: seq<Variant>, fix: bool) {
    forall i | 0 <= i < |r| :: r[i] in vs && r[i].fix == fix
  }

  lemma ValuesPrefix(vs: seq<Variant>, k: nat)
    requires k < |vs|
    ensures Values(vs[..k + 1]) == Values(vs[..k]) + [vs[k].Value()]
    ensures Values(vs[..k + 1])[..k] == Values(vs[..k])
  {
  }

  lemma OfTypeOneMore(vs: seq<Variant>, k: nat, fix: bool)
    requires k < |vs|
    ensures OfType(Values(vs[..k + 1]), fix) ==
            if vs[k].fix == fix then OfType(Values(vs[..k]), fix) + [vs[k].Value()] else OfType(Values(vs[..k]), fix)
  {
    ValuesPrefix(vs, k);
  }

  lemma OneMoreAmong(r: seq<Variant>, vs: seq<Variant>, k: nat, fix: bool)
    requires Different(vs) && k < |vs| && Among(r, vs[..k], fix) && Different(r)
    ensures Among(r, vs[..k + 1], fix)
    ensures vs[k].fix == fix ==> Among(r + [vs[k]], vs[..k + 1], fix) && Different(r + [vs[k]])
    ensures Values(r + [vs[k]]) == Values(r) + [vs[k].Value()]
  {
  }

  method Filter(vs: seq<Variant>, fix: bool) returns (r: seq<Variant>)
    requires Different(vs)
    ensures Values(r) == OfType(Values(vs), fix)
    ensures Among(r, vs, fix) && Different(r)
  {
    r := [];
    for k := 0 to |vs|
      invariant Values(r) == OfType(Values(vs[..k]), fix)
      invariant Among(r, vs[..k], fix) && Different(r)
    {
      OfTypeOneMore(vs, k, fix);
      OneMoreAmong(r, vs, k, fix);
      if vs[k].fix == fix {
        r := r + [vs[k]];
      }
    }
    assert vs[..|vs|] == vs;
  }

  method TotalWeight(vs: seq<Variant>) returns (total: real)
    ensures total == Sum(Values(vs))
  {
    total := 0.0;
    for k := 0 to |vs|
      invariant total == Sum(Values(vs[..k]))
    {
      ValuesPrefix(vs, k);
      total := total + vs[k].weight;
    }
    assert vs[..|vs|] == vs;
  }

  /** Sets the weights of the variable variants, counting the remainder down. */
  method ShareOut(vs: seq<Variant>, total: real)
    requires total >= 0.0 && Different(vs)
    modifies vs
    ensures Values(vs) == Shared(old(Values(vs)), total)
  {
    if vs == [] {
      return;
    }
    var averageWeight := Average(total, |vs|);
    var remainder := Remainder(total, |vs|);
    for k := 0 to |vs|
      invariant forall i | 0 <= i < k :: vs[i].weight == Share(total, |vs|, i) as real
      invariant remainder > 0.0 <==> k as real < Remainder(total, |vs|)
      invariant remainder > 0.0 ==> remainder == Remainder(total, |vs|) - k as real
    {
      vs[k].weight := averageWeight as real;
      if remainder > 0.0 {
        vs[k].weight := vs[k].weight + 1.0;
        remainder := remainder - 1.0;
      }
    }
  }

  lemma ValuesConcat(a: seq<Variant>, b: seq<Variant>)
    ensures Values(a + b) == Values(a) + Values(b)
  {
  }

  lemma RejectedParts(vs: seq<VariantValue>)
    requires (|vs| > 0 && |OfType(vs, false)| == 0) || Sum(OfType(vs, true)) > 1000.0
    ensures FixWeights(vs) == Rejected
  {
  }

  lemma AcceptedParts(vs: seq<VariantValue>, variable: seq<VariantValue>, fixed: seq<VariantValue>)
    requires OfType(vs, false) == variable && OfType(vs, true) == fixed
    requires Sum(fixed) <= 1000.0 && (|vs| == 0 || |variable| > 0)
    ensures FixWeights(vs) == Accepted(Shared(variable, 1000.0 - Sum(fixed)) + fixed)
  {
  }

  /** The variable variants with their new weights, then the fix ones, which keep theirs. */
  method Redistribute(variableVariants: seq<Variant>, fixedVariants: seq<Variant>, total: real, ghost answer: seq<VariantValue>)
    returns (r: seq<Variant>)
    requires answer == Shared(Values(variableVariants), total) + Values(fixedVariants)
    requires total >= 0.0 && Different(variableVariants)
    requires Among(variableVariants, variableVariants, false) && Among(fixedVariants, fixedVariants, true)
    modifies variableVariants
    ensures Values(r) == answer
  {
    ShareOut(variableVariants, total);
    assert Values(fixedVariants) == old(Values(fixedVariants));
    r := variableVariants + fixedVariants;
    ValuesConcat(variableVariants, fixedVariants);
  }

  /** The variants are checked before any weight changes; the accepted ones come back variable first. */
  method FixVariantWeights(variants: seq<Variant>) returns (o: Outcome, r: seq<Variant>)
    requires Different(variants)
    modifies variants
    ensures o == Done ==> FixWeights(old(Values(variants))) == Accepted(Values(r))
    ensures o != Done ==> o == Failed(BadData) && FixWeights(old(Values(variants))) == Rejected
    ensures forall v <- variants | v.fix || o != Done :: v.weight == old(v.weight)
  {
    ghost var was := Values(variants);
    var variableVariants := Filter(variants, false);
    if |variants| > 0 && |variableVariants| == 0 {
      RejectedParts(was);
      return Failed(BadData), [];
    }
    var fixedVariants := Filter(variants, true);
    var fixedWeights := TotalWeight(fixedVariants);
    if fixedWeights > 1000.0 {
      RejectedParts(was);
      return Failed(BadData), [];
    }
    AcceptedParts(was, Values(variableVariants), Values(fixedVariants));
    ghost var answer := FixWeights(was).variants;
    r := Redistribute(variableVariants, fixedVariants, 1000.0 - fixedWeights, answer);
    o := Done;
  }

  // ---------- The total ----------

  predicate IsInteger(x: real) {
    x == x.Floor as real
  }

  lemma IntIsInteger(i: int)
    ensures IsInteger(i as real)
  {
  }

  lemma WholeAdd(x: real, y: real)
    requires IsInteger(x) && IsInteger(y)
    ensures IsInteger(x + y)
  {
    var i, j := x.Floor, y.Floor;
    assert x == i as real && y == j as real;
    assert (i + j) as real == i as real + j as real;
    IntIsInteger(i + j);
  }

  predicate AllWhole(vs: seq<VariantValue>) {
    forall i | 0 <= i < |vs| :: IsInteger(vs[i].weight)
  }

  lemma {:induction false} WholeSum(vs: seq<VariantValue>)
    requires AllWhole(vs)
    ensures IsInteger(Sum(vs))
  {
    if vs != [] {
      WholeSum(vs[..|vs| - 1]);
      WholeAdd(Sum(vs[..|vs| - 1]), vs[|vs| - 1].weight);
    }
  }

  lemma {:induction false} SumConcat(a: seq<VariantValue>, b: seq<VariantValue>)
    ensures Sum(a + b) == Sum(a) + Sum(b)
  {
    if b == [] {
      assert a + b == a;
    } else {
      assert (a + b)[..|a + b| - 1] == a + b[..|b| - 1];
      SumConcat(a, b[..|b| - 1]);
    }
  }

  /** n times x, as a sum. */
  function Times(x: real, n: nat): real {
    if n == 0 then 0.0 else Times(x, n - 1) + x
  }

  lemma OneMoreTime(x: real, r: real)
    ensures x * (r + 1.0) == x * r + x
  {
  }

  lemma {:induction false} TimesIsProduct(x: real, n: nat)
    ensures Times(x, n) == x * n as real
  {
    if n > 0 {
      TimesIsProduct(x, n - 1);
      OneMoreTime(x, (n - 1) as real);
    }
  }

  lemma {:induction false} TimesBounds(q: real, a: real, n: nat)
    requires a <= q < a + 1.0
    ensures n > 0 ==> Times(a, n) <= Times(q, n) < Times(a, n) + n as real
  {
    if n > 0 {
      TimesBounds(q, a, n - 1);
    }
  }

  lemma {:induction false} TimesSign(q: real, n: nat)
    requires q < 0.0
    ensures n > 0 ==> Times(q, n) < 0.0
  {
    if n > 0 {
      TimesSign(q, n - 1);
    }
  }

  lemma DivideAndMultiply(total: real, n: nat)
    requires n > 0
    ensures Times(total / n as real, n) == total
  {
    TimesIsProduct(total / n as real, n);
  }

  lemma FloorBounds(total: real, q: real, n: nat)
    requires n > 0 && Times(q, n) == total
    ensures 0.0 <= total - Times(q.Floor as real, n) < n as real
    ensures total >= 0.0 ==> q.Floor >= 0
  {
    TimesBounds(q, q.Floor as real, n);
    if q < 0.0 {
      TimesSign(q, n);
    }
  }

  lemma DivisionBounds(total: real, n: nat)
    requires n > 0
    ensures Remainder(total, n) == total - Times(Average(total, n) as real, n)
    ensures 0.0 <= Remainder(total, n) < n as real
    ensures total >= 0.0 ==> Average(total, n) >= 0
  {
    DivideAndMultiply(total, n);
    FloorBounds(total, total / n as real, n);
    TimesIsProduct(Average(total, n) as real, n);
  }

  /** How many of the first k shares get one more. */
  function Extra(remainder: real, k: nat): nat {
    if k == 0 then 0 else Extra(remainder, k - 1) + if (k - 1) as real < remainder then 1 else 0
  }

  lemma {:induction false} ExtraCount(remainder: real, k: nat)
    requires remainder >= 0.0
    ensures k as real <= remainder ==> Extra(remainder, k) == k
    ensures k as real > remainder ==> remainder <= Extra(remainder, k) as real < remainder + 1.0
  {
    if k > 0 {
      ExtraCount(remainder, k - 1);
    }
  }

  lemma {:induction false} SumOfShares(vs: seq<VariantValue>, total: real, k: nat)
    requires k <= |vs| && vs != []
    ensures Sum(Shared(vs, total)[..k]) ==
            Times(Average(total, |vs|) as real, k) + Extra(Remainder(total, |vs|), k) as real
  {
    var s := Shared(vs, total);
    if k > 0 {
      SumOfShares(vs, total, k - 1);
      assert s[..k][..k - 1] == s[..k - 1];
    }
  }

  lemma SharesAreWhole(vs: seq<VariantValue>, total: real)
    requires vs != []
    ensures IsInteger(Sum(Shared(vs, total)))
  {
    var s := Shared(vs, total);
    forall i | 0 <= i < |s|
      ensures IsInteger(s[i].weight)
    {
      IntIsInteger(Share(total, |vs|, i));
    }
    WholeSum(s);
  }

  /** The shares add up to the least whole number that is not below the total. */
  lemma SharesRoundUp(vs: seq<VariantValue>, total: real)
    requires vs != []
    ensures IsInteger(Sum(Shared(vs, total)))
    ensures total <= Sum(Shared(vs, total)) < total + 1.0
  {
    var s, n := Shared(vs, total), |vs|;
    assert s[..n] == s;
    SharesAreWhole(vs, total);
    SumOfShares(vs, total, n);
    DivisionBounds(total, n);
    ExtraCount(Remainder(total, n), n);
  }

  /** Accepted weights add up to exactly 1000 if and only if the fix weights add up to a whole number. */
  lemma WeightsAddUpIff(vs: seq<VariantValue>)
    requires vs != [] && FixWeights(vs).Accepted?
    ensures Sum(FixWeights(vs).variants) == 1000.0 <==> IsInteger(Sum(OfType(vs, true)))
  {
    var variable, fixed := OfType(vs, false), OfType(vs, true);
    var total := 1000.0 - Sum(fixed);
    var s := Shared(variable, total);
    SumConcat(s, fixed);
    SharesRoundUp(variable, total);
    RoundUpIsExactIff(Sum(fixed), Sum(s));
  }

  lemma RoundUpIsExactIff(fixed: real, shares: real)
    requires IsInteger(shares) && 1000.0 - fixed <= shares < 1000.0 - fixed + 1.0
    ensures shares + fixed == 1000.0 <==> IsInteger(fixed)
  {
    var s := shares.Floor;
    assert shares == s as real;
    if IsInteger(fixed) {
      var f := fixed.Floor;
      assert (1000 - f) as real <= s as real < (1001 - f) as real;
      assert s == 1000 - f;
    }
    assert IsInteger((1000 - s) as real);
    if shares + fixed == 1000.0 {
      assert fixed == (1000 - s) as real;
    }
  }

  lemma {:induction false} WholeOfType(vs: seq<VariantValue>, fix: bool)
    requires AllWhole(vs)
    ensures AllWhole(OfType(vs, fix))
  {
    if vs != [] {
      WholeOfType(vs[..|vs| - 1], fix);
    }
  }

  /** With whole weights the total is exactly 1000. */
  lemma WholeWeightsAddUp(vs: seq<VariantValue>)
    requires vs != [] && FixWeights(vs).Accepted?
    requires AllWhole(vs)
    ensures Sum(FixWeights(vs).variants) == 1000.0
  {
    WholeOfType(vs, true);
    WholeSum(OfType(vs, true));
    WeightsAddUpIff(vs);
  }

  /** A fractional fix weight makes the total miss 1000. */
  lemma FractionalTotalMisses()
    ensures var vs := [VariantValue("a", false, 0.0), VariantValue("b", true, 0.5)];
            FixWeights(vs).Accepted? && Sum(FixWeights(vs).variants) != 1000.0
  {
    var a, b := VariantValue("a", false, 0.0), VariantValue("b", true, 0.5);
    var vs := [a, b];
    assert vs[..1] == [a];
    assert OfType([a], true) == [] && OfType([a], false) == [a];
    assert OfType(vs, true) == [b] && OfType(vs, false) == [a];
    assert Sum([b]) == 0.5;
    WeightsAddUpIff(vs);
  }

  // ---------- The variants ----------

  predicate AllOfType(vs: seq<VariantValue>, fix: bool) {
    forall i | 0 <= i < |vs| :: vs[i].fix == fix
  }

  lemma {:induction false} OfTypeIsOfType(vs: seq<VariantValue>, fix: bool)
    ensures AllOfType(OfType(vs, fix), fix)
  {
    if vs != [] {
      OfTypeIsOfType(vs[..|vs| - 1], fix);
    }
  }

  /** A variant without the weight that may be rewritten. */
  function Kept(v: VariantValue): VariantValue {
    if v.fix then v else v.(weight := 0.0)
  }

  function Kepts(vs: seq<VariantValue>): seq<VariantValue> {
    seq(|vs|, i requires 0 <= i < |vs| => Kept(vs[i]))
  }

  function KeptAll(vs: seq<VariantValue>): multiset<VariantValue> {
    multiset(Kepts(vs))
  }

  lemma SameKept(a: seq<VariantValue>, b: seq<VariantValue>)
    requires |a| == |b| && forall i | 0 <= i < |a| :: Kept(a[i]) == Kept(b[i])
    ensures KeptAll(a) == KeptAll(b)
  {
    assert Kepts(a) == Kepts(b);
  }

  lemma KeptConcat(a: seq<VariantValue>, b: seq<VariantValue>)
    ensures KeptAll(a + b) == KeptAll(a) + KeptAll(b)
  {
    assert Kepts(a + b) == Kepts(a) + Kepts(b);
  }

  lemma KeptOneMore(vs: seq<VariantValue>, v: VariantValue)
    ensures KeptAll(vs + [v]) == KeptAll(vs) + multiset{Kept(v)}
  {
    KeptConcat(vs, [v]);
    assert Kepts([v]) == [Kept(v)];
  }

  lemma {:induction false} TypesPartition(vs: seq<VariantValue>)
    ensures KeptAll(vs) == KeptAll(OfType(vs, false)) + KeptAll(OfType(vs, true))
  {
    if vs != [] {
      var front, last := vs[..|vs| - 1], vs[|vs| - 1];
      TypesPartition(front);
      assert vs == front + [last];
      KeptOneMore(front, last);
      KeptOneMore(OfType(front, last.fix), last);
    }
  }

  lemma SharedKeeps(variable: seq<VariantValue>, fixed: seq<VariantValue>, total: real)
    requires AllOfType(variable, false)
    ensures KeptAll(Shared(variable, total) + fixed) == KeptAll(variable) + KeptAll(fixed)
  {
    SameKept(Shared(variable, total), variable);
    KeptConcat(Shared(variable, total), fixed);
  }

  lemma PartsKept(vs: seq<VariantValue>, total: real)
    ensures KeptAll(Shared(OfType(vs, false), total) + OfType(vs, true)) == KeptAll(vs)
  {
    OfTypeIsOfType(vs, false);
    SharedKeeps(OfType(vs, false), OfType(vs, true), total);
    TypesPartition(vs);
  }

  lemma AnswerKept(w: Weights, answer: seq<VariantValue>, vs: seq<VariantValue>)
    requires w == Accepted(answer) && KeptAll(answer) == KeptAll(vs)
    ensures KeptAll(w.variants) == KeptAll(vs)
  {
  }

  lemma AcceptedVariants(vs: seq<VariantValue>)
    requires FixWeights(vs).Accepted?
    ensures FixWeights(vs) == Accepted(Shared(OfType(vs, false), 1000.0 - Sum(OfType(vs, true))) + OfType(vs, true))
    ensures |vs| == 0 || |OfType(vs, false)| > 0
    ensures Sum(OfType(vs, true)) <= 1000.0
  {
  }

  /** The answer has the variants of the question, the fix ones with their weights. */
  lemma AnswerIsPermutation(vs: seq<VariantValue>)
    requires FixWeights(vs).Accepted?
    ensures KeptAll(FixWeights(vs).variants) == KeptAll(vs)
  {
    var total := 1000.0 - Sum(OfType(vs, true));
    AcceptedVariants(vs);
    PartsKept(vs, total);
    AnswerKept(FixWeights(vs), Shared(OfType(vs, false), total) + OfType(vs, true), vs);
  }

  /** Variable variants come first; their weights are not negative, differ by at most one, and the
      larger ones come first. */
  lemma SharesAreFair(vs: seq<VariantValue>, i: nat, j: nat)
    requires FixWeights(vs).Accepted? && i < j < |FixWeights(vs).variants|
    ensures var r := FixWeights(vs).variants;
            && (r[i].fix ==> r[j].fix)
            && (!r[j].fix ==> r[j].weight >= 0.0 && (r[i].weight == r[j].weight || r[i].weight == r[j].weight + 1.0))
  {
    var variable, fixed := OfType(vs, false), OfType(vs, true);
    OfTypeIsOfType(vs, false);
    OfTypeIsOfType(vs, true);
    if j < |variable| {
      DivisionBounds(1000.0 - Sum(fixed), |variable|);
    }
  }

  lemma {:induction false} OfTypeConcat(a: seq<VariantValue>, b: seq<VariantValue>, fix: bool)
    ensures OfType(a + b, fix) == OfType(a, fix) + OfType(b, fix)
  {
    if b == [] {
      assert a + b == a;
    } else {
      assert (a + b)[..|a + b| - 1] == a + b[..|b| - 1];
      OfTypeConcat(a, b[..|b| - 1], fix);
    }
  }

  lemma {:induction false} OfOneType(vs: seq<VariantValue>, fix: bool)
    requires AllOfType(vs, fix)
    ensures OfType(vs, fix) == vs && OfType(vs, !fix) == []
  {
    if vs != [] {
      OfOneType(vs[..|vs| - 1], fix);
    }
  }

  lemma TypesOfParts(variable: seq<VariantValue>, fixed: seq<VariantValue>)
    requires AllOfType(variable, false) && AllOfType(fixed, true)
    ensures OfType(variable + fixed, false) == variable && OfType(variable + fixed, true) == fixed
  {
    OfOneType(variable, false);
    OfOneType(fixed, true);
    OfTypeConcat(variable, fixed, true);
    OfTypeConcat(variable, fixed, false);
    assert variable + [] == variable && [] + fixed == fixed;
  }

  lemma SharedTypes(variable: seq<VariantValue>, total: real)
    requires AllOfType(variable, false)
    ensures AllOfType(Shared(variable, total), false)
  {
  }

  lemma SharedTwice(variable: seq<VariantValue>, total: real)
    ensures Shared(Shared(variable, total), total) == Shared(variable, total)
  {
  }

  lemma AnswerStays(vs: seq<VariantValue>, shared: seq<VariantValue>, fixed: seq<VariantValue>)
    requires FixWeights(vs) == Accepted(shared + fixed) && Sum(fixed) <= 1000.0 && (|fixed| == 0 || |shared| > 0)
    requires OfType(shared + fixed, false) == shared && OfType(shared + fixed, true) == fixed
    requires Shared(shared, 1000.0 - Sum(fixed)) == shared
    ensures FixWeights(FixWeights(vs).variants) == FixWeights(vs)
  {
    AcceptedParts(shared + fixed, shared, fixed);
  }

  lemma PartsPresent(vs: seq<VariantValue>)
    requires |vs| == 0 || |OfType(vs, false)| > 0
    ensures |OfType(vs, true)| == 0 || |OfType(vs, false)| > 0
  {
  }

  /** Fixing weights a second time changes nothing. */
  lemma FixWeightsIsIdempotent(vs: seq<VariantValue>)
    requires FixWeights(vs).Accepted?
    ensures FixWeights(FixWeights(vs).variants) == FixWeights(vs)
  {
    var variable, fixed := OfType(vs, false), OfType(vs, true);
    var total := 1000.0 - Sum(fixed);
    OfTypeIsOfType(vs, false);
    OfTypeIsOfType(vs, true);
    AcceptedVariants(vs);
    SharedTypes(variable, total);
    TypesOfParts(Shared(variable, total), fixed);
    SharedTwice(variable, total);
    PartsPresent(vs);
    AnswerStays(vs, Shared(variable, total), fixed);
  }

  // ---------- Which lists are accepted ----------

  /** The weights the fix variants take, added up one by one. */
  function FixTotal(vs: seq<VariantValue>): real {
    if vs == [] then 0.0 else FixTotal(vs[..|vs| - 1]) + if vs[|vs| - 1].fix then vs[|vs| - 1].weight else 0.0
  }

  lemma {:induction false} FixTotalIsSum(vs: seq<VariantValue>)
    ensures FixTotal(vs) == Sum(OfType(vs, true))
  {
    if vs != [] {
      var front, last := vs[..|vs| - 1], vs[|vs| - 1];
      FixTotalIsSum(front);
      if last.fix {
        assert (OfType(front, true) + [last])[..|OfType(front, true)|] == OfType(front, true);
      }
    }
  }

  lemma {:induction false} NoneVariableIff(vs: seq<VariantValue>)
    ensures OfType(vs, false) == [] <==> forall i | 0 <= i < |vs| :: vs[i].fix
  {
    if vs != [] {
      var front := vs[..|vs| - 1];
      NoneVariableIff(front);
      assert forall i | 0 <= i < |front| :: front[i] == vs[i];
    }
  }

  /** A list is accepted if and only if it is empty, or it has a variable variant and its fix weights total at most
      1000. */
  lemma AcceptedIff(vs: seq<VariantValue>)
    ensures FixWeights(vs).Accepted? <==>
            || vs == []
            || ((exists i :: 0 <= i < |vs| && !vs[i].fix) && FixTotal(vs) <= 1000.0)
  {
    FixTotalIsSum(vs);
    NoneVariableIff(vs);
  }

  lemma TwoVariants(weight: real)
    ensures FixTotal([VariantValue("a", false, 0.0), VariantValue("b", true, weight)]) == weight
  {
    var vs := [VariantValue("a", false, 0.0), VariantValue("b", true, weight)];
    assert vs[..1] == [VariantValue("a", false, 0.0)];
    assert FixTotal(vs[..1]) == 0.0;
  }

  /** Fix weights of exactly 1000 are accepted, and anything above is not. */
  lemma ThousandIsTheLimit(above: real)
    requires above > 1000.0
    ensures FixWeights([VariantValue("a", false, 0.0), VariantValue("b", true, 1000.0)]).Accepted?
    ensures FixWeights([VariantValue("a", false, 0.0), VariantValue("b", true, above)]) == Rejected
  {
    var vs := [VariantValue("a", false, 0.0), VariantValue("b", true, 1000.0)];
    TwoVariants(1000.0);
    assert !vs[0].fix;
    AcceptedIff(vs);
    TwoVariants(above);
    AcceptedIff([VariantValue("a", false, 0.0), VariantValue("b", true, above)]);
  }
}
