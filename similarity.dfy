/**
 * The similarity model of the case-based-reasoning retrieval step: the risk
 * scale `risco_valor`, the group similarity matrix `similaridade_grupo`, and
 * the per-attribute comparisons that `RBCApp.calcular_similaridade` applies
 * to the query (already stripped and lower-cased) and to one library row.
 */
module Similarity {
  import opened Options
  import opened Text

  /** Severity of each conservation-category code, from least to most severe. */
  const RiscoValor: map<string, real> := map[
    "VU" := 0.0,
    "EN" := 0.2,
    "CR" := 0.4,
    "CR(PEX)" := 0.6,
    "EW" := 0.8,
    "EX" := 1.0
  ]

  /** The category codes in order of increasing severity. */
  const Categorias: seq<string> := ["VU", "EN", "CR", "CR(PEX)", "EW", "EX"]

  /** The seven taxonomic groups the matrix knows, in the order of its rows and columns. */
  const Grupos: seq<string> := [
    "anfibios", "aves", "invertebrados aquáticos", "invertebrados terrestres",
    "mamíferos", "peixes", "répteis"
  ]

  /** Pairwise similarity between taxonomic groups: the entry at row `i` and
      column `j` is the similarity of `Grupos[i]` to `Grupos[j]`. */
  const SimilaridadeGrupo: seq<seq<real>> := [
    [1.0, 0.2, 0.6, 0.4, 0.1, 0.7, 0.8],  // anfibios
    [0.2, 1.0, 0.1, 0.3, 0.6, 0.4, 0.8],  // aves
    [0.6, 0.1, 1.0, 0.8, 0.2, 0.7, 0.5],  // invertebrados aquáticos
    [0.4, 0.3, 0.8, 1.0, 0.7, 0.2, 0.6],  // invertebrados terrestres
    [0.1, 0.6, 0.2, 0.7, 1.0, 0.4, 0.5],  // mamíferos
    [0.7, 0.4, 0.7, 0.2, 0.4, 1.0, 0.8],  // peixes
    [0.8, 0.8, 0.5, 0.6, 0.5, 0.8, 1.0]   // répteis
  ]

  /** Where a group sits among the matrix's keys, if it is one of them. */
  function GroupIndex(g: string): (r: Option<nat>)
    ensures r.Some? <==> g in Grupos
    ensures r.Some? ==> r.value < |Grupos| && Grupos[r.value] == g
  {
    if g == Grupos[0] then Some(0)
    else if g == Grupos[1] then Some(1)
    else if g == Grupos[2] then Some(2)
    else if g == Grupos[3] then Some(3)
    else if g == Grupos[4] then Some(4)
    else if g == Grupos[5] then Some(5)
    else if g == Grupos[6] then Some(6)
    else None
  }

  /** No group name carries surrounding whitespace, so a field that matches
      one after lower-casing carries none either. */
  lemma GroupTrimmed(g: string)
    requires g in Grupos
    ensures Trimmed(g)
  {
    var i := GroupIndex(g).value;
    assert i == 0 || i == 1 || i == 2 || i == 3 || i == 4 || i == 5 || i == 6;
  }

  /** No category code carries surrounding whitespace. */
  lemma CategoryTrimmed(k: string)
    requires k in RiscoValor
    ensures Trimmed(k)
  {
    assert k == "VU" || k == "EN" || k == "CR" || k == "CR(PEX)" || k == "EW" || k == "EX";
  }

  /** Every group has a full row, and every entry lies in [0, 1]. */
  lemma MatrixComplete()
    ensures |SimilaridadeGrupo| == |Grupos|
    ensures forall i :: 0 <= i < |Grupos| ==> |SimilaridadeGrupo[i]| == |Grupos|
    ensures forall i, j :: 0 <= i < |Grupos| && 0 <= j < |Grupos| ==> 0.0 <= SimilaridadeGrupo[i][j] <= 1.0
  {
  }

  /** The table is symmetric, and 1 appears on its diagonal and nowhere else. */
  lemma TableSymmetric()
    ensures forall i, j :: 0 <= i < |Grupos| && 0 <= j < |Grupos| ==> SimilaridadeGrupo[i][j] == SimilaridadeGrupo[j][i]
    ensures forall i, j :: 0 <= i < |Grupos| && 0 <= j < |Grupos| ==> (SimilaridadeGrupo[i][j] == 1.0 <==> i == j)
  {
  }

  /** The two chained `.get` lookups into `similaridade_grupo`: a group
      missing on either side gives 0 instead of an error. */
  function MatrixGet(g1: string, g2: string): (r: real)
    ensures 0.0 <= r <= 1.0
    ensures g1 !in Grupos || g2 !in Grupos ==> r == 0.0
  {
    MatrixComplete();
    match (GroupIndex(g1), GroupIndex(g2))
    case (Some(i), Some(j)) => SimilaridadeGrupo[i][j]
    case _ => 0.0
  }

  /** The matrix is reflexive, and only the diagonal holds a full match. */
  lemma MatrixReflexive(a: string, b: string)
    ensures MatrixGet(a, b) == 1.0 <==> a == b && a in Grupos
  {
    TableSymmetric();
  }

  /** The matrix is symmetric, unknown groups included. */
  lemma MatrixSymmetric(a: string, b: string)
    ensures MatrixGet(a, b) == MatrixGet(b, a)
  {
    TableSymmetric();
  }

  /** Group term: the stripped, lower-cased query group against the lower-cased case group. */
  function GroupSim(entradaGrupo: string, grupoCaso: string): (r: real)
    ensures 0.0 <= r <= 1.0
    ensures entradaGrupo !in Grupos || Lower(grupoCaso) !in Grupos ==> r == 0.0
    ensures r == 1.0 <==> entradaGrupo in Grupos && Lower(grupoCaso) == entradaGrupo
  {
    MatrixReflexive(entradaGrupo, Lower(grupoCaso));
    MatrixGet(entradaGrupo, Lower(grupoCaso))
  }

  /** Binary term used for `ordem`, `familia` and `especie`: a full match exactly
      when the normalised query value equals the lower-cased case value. */
  function ExactMatch(entrada: string, valorCaso: string): (r: real)
    ensures r == 1.0 <==> entrada == Lower(valorCaso)
    ensures r == 0.0 <==> entrada != Lower(valorCaso)
  {
    if entrada == Lower(valorCaso) then 1.0 else 0.0
  }

  function Abs(x: real): real {
    if x < 0.0 then -x else x
  }

  /** Severity of a case-side code, looked up with 1.0 as the default: an unknown
      code is treated as the most severe. */
  function CaseSeverity(code: string): (r: real)
    ensures 0.0 <= r <= 1.0
    ensures code !in RiscoValor ==> r == 1.0
  {
    if code in RiscoValor then RiscoValor[code] else 1.0
  }

  /** Ordinal term for `categoria`: 0 when the upper-cased query code is not a
      known category, else one minus the distance between the two severities. */
  function OrdinalSim(entradaCategoria: string, categoriaCaso: string): (r: real)
    ensures 0.0 <= r <= 1.0
    ensures Upper(entradaCategoria) !in RiscoValor ==> r == 0.0
    ensures r == 1.0 <==>
      Upper(entradaCategoria) in RiscoValor &&
      (Upper(categoriaCaso) == Upper(entradaCategoria) ||
       (Upper(categoriaCaso) !in RiscoValor && Upper(entradaCategoria) == "EX"))
  {
    var entradaCat := Upper(entradaCategoria);
    if entradaCat in RiscoValor then
      var r1 := RiscoValor[entradaCat];
      var r2 := CaseSeverity(Upper(categoriaCaso));
      1.0 - Abs(r1 - r2)
    else
      0.0
  }

  /** Between two recognised codes the category term is symmetric. */
  lemma OrdinalSimSymmetric(a: string, b: string)
    requires Upper(a) in RiscoValor && Upper(b) in RiscoValor
    ensures OrdinalSim(a, b) == OrdinalSim(b, a)
  {
  }

  /** The scale lists exactly the known codes, with strictly increasing severity. */
  lemma ScaleIncreasing()
    ensures RiscoValor.Keys == set c | c in Categorias
    ensures forall i, j :: 0 <= i < j < |Categorias| ==> RiscoValor[Categorias[i]] < RiscoValor[Categorias[j]]
  {
  }

  /** Flag term for `lista_2014`: 0 when either side is not an integer, else 1
      exactly when the two integers are equal. */
  function FlagMatch(entradaLista: string, listaCaso: string): (r: real)
    ensures r == 0.0 || r == 1.0
    ensures r == 1.0 <==> ParseInt(entradaLista).Some? && ParseInt(listaCaso) == ParseInt(entradaLista)
  {
    match ParseInt(entradaLista)
    case None => 0.0
    case Some(l1) =>
      match ParseInt(listaCaso)
      case None => 0.0
      case Some(l2) => if l1 == l2 then 1.0 else 0.0
  }

  /** Two printed integers match exactly when they are the same integer. */
  lemma FlagMatchShowInt(m: int, n: int)
    requires |ShowNat(if m < 0 then -m else m)| <= MaxStrDigits
    requires |ShowNat(if n < 0 then -n else n)| <= MaxStrDigits
    ensures FlagMatch(ShowInt(m), ShowInt(n)) == if m == n then 1.0 else 0.0
  {
    ParseIntShowInt(m);
    ParseIntShowInt(n);
  }
}
