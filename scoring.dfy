/**
 * The scoring half of `RBCApp.calcular_similaridade`: the query is stripped
 * and lower-cased, and each library row gets six local similarities, each
 * multiplied by its weight, summed and divided by the sum of all six weights.
 */
module Scoring {
  import opened Options
  import opened Text
  import opened Similarity

  /** The six attributes as typed into the form, keyed as the weights are. */
  datatype Query = Query(
    grupo: string, ordem: string, familia: string,
    especie: string, categoria: string, lista2014: string)

  /** One library row: the six columns the retrieval step reads. */
  datatype Case = Case(
    grupo: string, ordem: string, familia: string,
    especieOuSubespecie: string, categoria: string, lista2014: string)

  /** One weight per attribute. */
  datatype Weights = Weights(
    grupo: real, ordem: real, familia: real,
    especie: real, categoria: real, lista2014: real)

  /** `pesos_default`: the weights the form starts with. */
  const PesosDefault := Weights(1.0, 1.5, 2.5, 4.0, 0.5, 0.5)

  /** Text as the query form leaves it: no surrounding whitespace, no upper-case letter. */
  predicate Clean(s: string) {
    Trimmed(s) && Lower(s) == s
  }

  /** `caso_entrada`: every query field stripped and lower-cased. */
  function Normalize(q: Query): (e: Query)
    ensures Clean(e.grupo) && Clean(e.ordem) && Clean(e.familia)
    ensures Clean(e.especie) && Clean(e.categoria) && Clean(e.lista2014)
  {
    forall s: string
      ensures Clean(Lower(Strip(s)))
    {
      StripLower(s);
      LowerLower(Strip(s));
    }
    Query(
      Lower(Strip(q.grupo)), Lower(Strip(q.ordem)), Lower(Strip(q.familia)),
      Lower(Strip(q.especie)), Lower(Strip(q.categoria)), Lower(Strip(q.lista2014)))
  }

  /** Normalising twice changes nothing more. */
  lemma NormalizeIdempotent(q: Query)
    ensures Normalize(Normalize(q)) == Normalize(q)
  {
    forall s: string
      ensures Lower(Strip(Lower(Strip(s)))) == Lower(Strip(s))
    {
      StripLower(Strip(s));
      LowerLower(Strip(s));
    }
  }

  /** The three identity comparisons, in the order of the loop that pairs
      each column with its weight key (order, family, species); the weight
      key `especie` pairs with the column `especie_ou_subespecie`. */
  function IdentityQuery(e: Query, k: nat): string
    requires k < 3
  {
    if k == 0 then e.ordem else if k == 1 then e.familia else e.especie
  }

  function IdentityCase(c: Case, k: nat): string
    requires k < 3
  {
    if k == 0 then c.ordem else if k == 1 then c.familia else c.especieOuSubespecie
  }

  function IdentityWeight(w: Weights, k: nat): real
    requires k < 3
  {
    if k == 0 then w.ordem else if k == 1 then w.familia else w.especie
  }

  predicate NonNegative(w: Weights) {
    w.grupo >= 0.0 && w.ordem >= 0.0 && w.familia >= 0.0 &&
    w.especie >= 0.0 && w.categoria >= 0.0 && w.lista2014 >= 0.0
  }

  predicate Positive(w: Weights) {
    w.grupo > 0.0 && w.ordem > 0.0 && w.familia > 0.0 &&
    w.especie > 0.0 && w.categoria > 0.0 && w.lista2014 > 0.0
  }

  /** The six local similarities of one row, in the order `s_locais` is
      filled: group, order, family, species, category, flag. The weight key
      `especie` meets the column `especie_ou_subespecie`. */
  function Sims(e: Query, c: Case): (s: seq<real>)
    ensures |s| == 6
  {
    [GroupSim(e.grupo, c.grupo),
     ExactMatch(e.ordem, c.ordem),
     ExactMatch(e.familia, c.familia),
     ExactMatch(e.especie, c.especieOuSubespecie),
     OrdinalSim(e.categoria, c.categoria),
     FlagMatch(e.lista2014, c.lista2014)]
  }

  /** The six weights, in the same order. */
  function Ws(w: Weights): (s: seq<real>)
    ensures |s| == 6
  {
    [w.grupo, w.ordem, w.familia, w.especie, w.categoria, w.lista2014]
  }

  /** Each similarity times its weight. */
  function Products(s: seq<real>, ws: seq<real>): (p: seq<real>)
    requires |s| == |ws|
    ensures |p| == |s|
  {
    seq(|s|, i requires 0 <= i < |s| => s[i] * ws[i])
  }

  /** Python's `sum(...)`: a left-to-right total. */
  function Sum(s: seq<real>): real {
    if s == [] then 0.0 else Sum(s[..|s| - 1]) + s[|s| - 1]
  }

  /** `p_total`: every weight is counted, whether or not its comparison succeeded. */
  function TotalWeight(w: Weights): real {
    Sum(Ws(w))
  }

  /** `sim_global`: the weighted mean of the local similarities, or 0 when the
      weights do not add up to something positive. */
  function CaseScore(e: Query, w: Weights, c: Case): real {
    if TotalWeight(w) > 0.0 then Sum(Products(Sims(e, c), Ws(w))) / TotalWeight(w) else 0.0
  }

  lemma SumStep(s: seq<real>, n: nat)
    requires n < |s|
    ensures Sum(s[..n + 1]) == Sum(s[..n]) + s[n]
  {
    assert s[..n + 1][..n] == s[..n];
  }

  /** The denominator is the plain sum of all six weights. */
  lemma TotalWeightIsSum(w: Weights)
    ensures TotalWeight(w) == w.grupo + w.ordem + w.familia + w.especie + w.categoria + w.lista2014
  {
    var ws := Ws(w);
    assert ws[..6] == ws;
    SumStep(ws, 0);
    SumStep(ws, 1);
    SumStep(ws, 2);
    SumStep(ws, 3);
    SumStep(ws, 4);
    SumStep(ws, 5);
  }

  predicate InUnit(s: seq<real>) {
    forall i :: 0 <= i < |s| ==> 0.0 <= s[i] <= 1.0
  }

  predicate AllOnes(s: seq<real>) {
    forall i :: 0 <= i < |s| ==> s[i] == 1.0
  }

  /** A weight scaled by a similarity in [0,1] stays between 0 and the weight. */
  lemma ScaledBounds(x: real, p: real)
    requires 0.0 <= x <= 1.0 && p >= 0.0
    ensures 0.0 <= x * p <= p
  {
    assert p - x * p == (1.0 - x) * p;
  }

  /** A positive weight keeps its full value only under a full match. */
  lemma ScaledFull(x: real, p: real)
    requires 0.0 <= x < 1.0 && p > 0.0
    ensures x * p < p
  {
    assert p - x * p == (1.0 - x) * p;
    assert (1.0 - x) * p > 0.0;
  }

  /** Dropping the last pair drops the last product. */
  lemma ProductsInit(s: seq<real>, ws: seq<real>)
    requires |s| == |ws| > 0
    ensures var n := |s| - 1;
      Products(s, ws)[..n] == Products(s[..n], ws[..n]) && Products(s, ws)[n] == s[n] * ws[n]
  {
    var n := |s| - 1;
    var p, q := Products(s, ws)[..n], Products(s[..n], ws[..n]);
    assert |p| == |q|;
    forall i | 0 <= i < n
      ensures p[i] == q[i]
    {
      assert p[i] == s[i] * ws[i];
      assert q[i] == s[..n][i] * ws[..n][i];
    }
  }

  /** With similarities in [0,1] and non-negative weights, the weighted sum lies
      between 0 and the sum of the weights. */
  lemma {:induction false} ProductsBounded(s: seq<real>, ws: seq<real>)
    requires |s| == |ws| && InUnit(s) && forall i :: 0 <= i < |ws| ==> ws[i] >= 0.0
    ensures 0.0 <= Sum(Products(s, ws)) <= Sum(ws)
  {
    if |s| > 0 {
      var n := |s| - 1;
      var s', ws' := s[..n], ws[..n];
      ProductsBounded(s', ws');
      ProductsInit(s, ws);
      var x, p := s[n], ws[n];
      ScaledBounds(x, p);
      var d, t := Sum(Products(s', ws')), Sum(ws');
      assert Sum(Products(s, ws)) == d + x * p;
      assert Sum(ws) == t + p;
    }
  }

  /** Adding one weighted term keeps the sums level only when the term is a full match. */
  lemma FullStep(d: real, t: real, x: real, p: real)
    requires d <= t && 0.0 <= x <= 1.0 && p > 0.0
    ensures d + x * p == t + p <==> d == t && x == 1.0
  {
    ScaledBounds(x, p);
    if x < 1.0 {
      ScaledFull(x, p);
    }
  }

  lemma AllOnesInit(s: seq<real>)
    requires |s| > 0
    ensures AllOnes(s) <==> AllOnes(s[..|s| - 1]) && s[|s| - 1] == 1.0
  {
    var n := |s| - 1;
    assert forall i :: 0 <= i < n ==> s[..n][i] == s[i];
  }

  /** With positive weights, the weighted sum reaches the sum of the weights
      exactly when every similarity is 1. */
  lemma {:induction false} ProductsFull(s: seq<real>, ws: seq<real>)
    requires |s| == |ws| && InUnit(s) && forall i :: 0 <= i < |ws| ==> ws[i] > 0.0
    ensures Sum(Products(s, ws)) == Sum(ws) <==> AllOnes(s)
  {
    if |s| > 0 {
      var n := |s| - 1;
      var s', ws' := s[..n], ws[..n];
      ProductsBounded(s', ws');
      ProductsFull(s', ws');
      ProductsInit(s, ws);
      AllOnesInit(s);
      var x, p := s[n], ws[n];
      var d, t := Sum(Products(s', ws')), Sum(ws');
      FullStep(d, t, x, p);
      assert Sum(Products(s, ws)) == d + x * p;
      assert Sum(ws) == t + p;
    }
  }

  /** When every similarity is 1 the weighted sum is the sum of the weights,
      whatever their signs. */
  lemma {:induction false} ProductsOfOnes(s: seq<real>, ws: seq<real>)
    requires |s| == |ws| && AllOnes(s)
    ensures Sum(Products(s, ws)) == Sum(ws)
  {
    if |s| > 0 {
      var n := |s| - 1;
      var s', ws' := s[..n], ws[..n];
      ProductsOfOnes(s', ws');
      ProductsInit(s, ws);
      var d, t := Sum(Products(s', ws')), Sum(ws');
      assert Sum(Products(s, ws)) == d + s[n] * ws[n];
      assert Sum(ws) == t + ws[n];
    }
  }

  lemma SimsInUnit(e: Query, c: Case)
    ensures InUnit(Sims(e, c))
  {
  }

  lemma RatioBounds(sum: real, total: real)
    requires 0.0 <= sum <= total && total > 0.0
    ensures 0.0 <= sum / total <= 1.0
    ensures sum / total == 1.0 <==> sum == total
  {
    assert sum / total * total == sum;
  }

  /** With non-negative weights every score lies in [0,1]. */
  lemma ScoreInUnitInterval(e: Query, w: Weights, c: Case)
    requires NonNegative(w)
    ensures 0.0 <= CaseScore(e, w, c) <= 1.0
  {
    var s, ws := Sims(e, c), Ws(w);
    SimsInUnit(e, c);
    ProductsBounded(s, ws);
    if TotalWeight(w) > 0.0 {
      RatioBounds(Sum(Products(s, ws)), TotalWeight(w));
    }
  }

  /** Weights that do not add up to something positive (all zero, say) give every row 0. */
  lemma ZeroWeightsScoreZero(e: Query, w: Weights, c: Case)
    requires TotalWeight(w) <= 0.0
    ensures CaseScore(e, w, c) == 0.0
  {
  }

  /** Every one of the six comparisons is a full match, stated on the attribute values. */
  predicate FullMatch(e: Query, c: Case) {
    && e.grupo in Grupos && Lower(c.grupo) == e.grupo
    && e.ordem == Lower(c.ordem)
    && e.familia == Lower(c.familia)
    && e.especie == Lower(c.especieOuSubespecie)
    && Upper(e.categoria) in RiscoValor
    && (Upper(c.categoria) == Upper(e.categoria) || (Upper(c.categoria) !in RiscoValor && Upper(e.categoria) == "EX"))
    && ParseInt(e.lista2014).Some? && ParseInt(c.lista2014) == ParseInt(e.lista2014)
  }

  lemma FullMatchSims(e: Query, c: Case)
    ensures FullMatch(e, c) <==> AllOnes(Sims(e, c))
  {
    var s := Sims(e, c);
    assert AllOnes(s) <==> s[0] == 1.0 && s[1] == 1.0 && s[2] == 1.0 && s[3] == 1.0 && s[4] == 1.0 && s[5] == 1.0;
  }

  /** With positive weights, a row scores exactly 1 if and only if every
      comparison is a full match. */
  lemma ScoreOneIffFullMatch(e: Query, w: Weights, c: Case)
    requires Positive(w)
    ensures CaseScore(e, w, c) == 1.0 <==> FullMatch(e, c)
  {
    var s, ws := Sims(e, c), Ws(w);
    SimsInUnit(e, c);
    ProductsBounded(s, ws);
    ProductsFull(s, ws);
    FullMatchSims(e, c);
    TotalWeightIsSum(w);
    RatioBounds(Sum(Products(s, ws)), TotalWeight(w));
  }

  /** When every comparison is a full match, any weights with a positive
      total give 1. */
  lemma AllOnesScoreOne(e: Query, w: Weights, c: Case)
    requires AllOnes(Sims(e, c)) && TotalWeight(w) > 0.0
    ensures CaseScore(e, w, c) == 1.0
  {
    ProductsOfOnes(Sims(e, c), Ws(w));
  }

  /** The default weights are all positive and add up to 10, so with them a
      row scores 1 exactly on a full match. */
  lemma DefaultWeights()
    ensures Positive(PesosDefault) && TotalWeight(PesosDefault) == 10.0
  {
    TotalWeightIsSum(PesosDefault);
  }

  /** The query a user gets by typing a library row's own values into the form. */
  function QueryOf(c: Case): Query {
    Query(c.grupo, c.ordem, c.familia, c.especieOuSubespecie, c.categoria, c.lista2014)
  }

  /** A row matches itself on every attribute once typed into the form: the
      form's stripping and lower-casing change nothing that counts. */
  lemma SelfFullMatch(c: Case)
    requires Trimmed(c.ordem) && Trimmed(c.familia) && Trimmed(c.especieOuSubespecie)
    requires Lower(c.grupo) in Grupos
    requires Upper(c.categoria) in RiscoValor
    requires ParseInt(c.lista2014).Some?
    ensures FullMatch(Normalize(QueryOf(c)), c)
  {
    GroupTrimmed(Lower(c.grupo));
    LowerTrimmed(c.grupo);
    CategoryTrimmed(Upper(c.categoria));
    UpperTrimmed(c.categoria);
    UpperLower(c.categoria);
    ParseIntLower(Strip(c.lista2014));
    ParseIntStrip(c.lista2014);
  }

  /** A row scores 1 against itself, whenever its order, family and species
      carry no surrounding whitespace, its group and category are known, its flag is an
      integer and the weights add up to something positive. */
  lemma SelfMatchScoresOne(c: Case, w: Weights)
    requires Trimmed(c.ordem) && Trimmed(c.familia) && Trimmed(c.especieOuSubespecie)
    requires Lower(c.grupo) in Grupos
    requires Upper(c.categoria) in RiscoValor
    requires ParseInt(c.lista2014).Some?
    requires TotalWeight(w) > 0.0
    ensures CaseScore(Normalize(QueryOf(c)), w, c) == 1.0
  {
    var e := Normalize(QueryOf(c));
    SelfFullMatch(c);
    FullMatchSims(e, c);
    AllOnesScoreOne(e, w, c);
  }

  /** `acc` and `total` are `s_locais` and `p_total` once the first `|acc|`
      similarities `s` and weights `ws` are in. */
  predicate Accumulated(s: seq<real>, ws: seq<real>, acc: seq<real>, total: real)
    requires |s| == |ws|
  {
    |acc| <= |s| && acc == Products(s, ws)[..|acc|] && total == Sum(ws[..|acc|])
  }

  /** One step of the scoring loop: appending the next weighted similarity to
      `s_locais` and the next weight to `p_total`. */
  lemma Accumulate(s: seq<real>, ws: seq<real>, acc: seq<real>, total: real, sim: real, weight: real)
    requires |s| == |ws| && |acc| < |s| && Accumulated(s, ws, acc, total)
    requires sim == s[|acc|] && weight == ws[|acc|]
    ensures |acc + [sim * weight]| == |acc| + 1
    ensures Accumulated(s, ws, acc + [sim * weight], total + weight)
  {
    var n := |acc|;
    var p := Products(s, ws);
    assert p[n] == sim * weight;
    assert p[..n + 1] == p[..n] + [p[n]];
    SumStep(ws, n);
  }

  /** The group term goes in first. */
  lemma AccumulateGroup(e: Query, w: Weights, c: Case, acc: seq<real>, total: real, sim: real)
    requires |acc| == 0 && Accumulated(Sims(e, c), Ws(w), acc, total)
    requires sim == GroupSim(e.grupo, c.grupo)
    ensures |acc + [sim * w.grupo]| == |acc| + 1
    ensures Accumulated(Sims(e, c), Ws(w), acc + [sim * w.grupo], total + w.grupo)
  {
    Accumulate(Sims(e, c), Ws(w), acc, total, sim, w.grupo);
  }

  /** The `k`-th identity term goes in at position `1 + k`. */
  lemma AccumulateIdentity(e: Query, w: Weights, c: Case, k: nat, acc: seq<real>, total: real, sim: real)
    requires k < 3 && |acc| == 1 + k && Accumulated(Sims(e, c), Ws(w), acc, total)
    requires sim == ExactMatch(IdentityQuery(e, k), IdentityCase(c, k))
    ensures |acc + [sim * IdentityWeight(w, k)]| == |acc| + 1
    ensures Accumulated(Sims(e, c), Ws(w), acc + [sim * IdentityWeight(w, k)], total + IdentityWeight(w, k))
  {
    Accumulate(Sims(e, c), Ws(w), acc, total, sim, IdentityWeight(w, k));
  }

  /** The category term goes in fifth. */
  lemma AccumulateCategory(e: Query, w: Weights, c: Case, acc: seq<real>, total: real, sim: real)
    requires |acc| == 4 && Accumulated(Sims(e, c), Ws(w), acc, total)
    requires sim == OrdinalSim(e.categoria, c.categoria)
    ensures |acc + [sim * w.categoria]| == |acc| + 1
    ensures Accumulated(Sims(e, c), Ws(w), acc + [sim * w.categoria], total + w.categoria)
  {
    Accumulate(Sims(e, c), Ws(w), acc, total, sim, w.categoria);
  }

  /** The `lista_2014` term goes in last. */
  lemma AccumulateFlag(e: Query, w: Weights, c: Case, acc: seq<real>, total: real, sim: real)
    requires |acc| == 5 && Accumulated(Sims(e, c), Ws(w), acc, total)
    requires sim == FlagMatch(e.lista2014, c.lista2014)
    ensures |acc + [sim * w.lista2014]| == |acc| + 1
    ensures Accumulated(Sims(e, c), Ws(w), acc + [sim * w.lista2014], total + w.lista2014)
  {
    Accumulate(Sims(e, c), Ws(w), acc, total, sim, w.lista2014);
  }

  /** Once all six attributes are in, `sum(s_locais) / p_total` is the score. */
  lemma AccumulatedScore(e: Query, w: Weights, c: Case, acc: seq<real>, total: real)
    requires |acc| == 6 && Accumulated(Sims(e, c), Ws(w), acc, total)
    ensures (if total > 0.0 then Sum(acc) / total else 0.0) == CaseScore(e, w, c)
  {
    assert Ws(w)[..6] == Ws(w);
    assert Products(Sims(e, c), Ws(w))[..6] == Products(Sims(e, c), Ws(w));
  }

  /** The per-row body of the scoring loop: fills `s_locais` and `p_total`
      term by term and divides. */
  method ScoreRow(entrada: Query, pesos: Weights, row: Case) returns (simGlobal: real)
    ensures simGlobal == CaseScore(entrada, pesos, row)
  {
    var sLocais: seq<real> := [];
    var pTotal: real := 0.0;

    // Group, through the matrix
    var simGrupo := GroupSim(entrada.grupo, row.grupo);
    AccumulateGroup(entrada, pesos, row, sLocais, pTotal, simGrupo);
    sLocais := sLocais + [simGrupo * pesos.grupo];
    pTotal := pTotal + pesos.grupo;

    // Order, family, species: binary
    for k := 0 to 3
      invariant |sLocais| == 1 + k && Accumulated(Sims(entrada, row), Ws(pesos), sLocais, pTotal)
    {
      var sim := ExactMatch(IdentityQuery(entrada, k), IdentityCase(row, k));
      AccumulateIdentity(entrada, pesos, row, k, sLocais, pTotal, sim);
      sLocais := sLocais + [sim * IdentityWeight(pesos, k)];
      pTotal := pTotal + IdentityWeight(pesos, k);
    }

    // Category, ordinal
    var simRisco := OrdinalSim(entrada.categoria, row.categoria);
    AccumulateCategory(entrada, pesos, row, sLocais, pTotal, simRisco);
    sLocais := sLocais + [simRisco * pesos.categoria];
    pTotal := pTotal + pesos.categoria;

    // Lista 2014, binary
    var simLista := FlagMatch(entrada.lista2014, row.lista2014);
    AccumulateFlag(entrada, pesos, row, sLocais, pTotal, simLista);
    sLocais := sLocais + [simLista * pesos.lista2014];
    pTotal := pTotal + pesos.lista2014;

    AccumulatedScore(entrada, pesos, row, sLocais, pTotal);
    simGlobal := if pTotal > 0.0 then Sum(sLocais) / pTotal else 0.0;
  }
}
