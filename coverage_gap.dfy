/**
 * The coverage-gap analysis: a user without private disability cover has one critical gap, income
 * in case of illness or disability, with up to three income-protection products recommended. The
 * product query is a parameter: the products of a category, in the order the query returns them.
 */
module CoverageGapAnalysis {
  datatype Severity = CRITICAL | HIGH | MEDIUM | LOW

  datatype GapRequest = GapRequest(age: int, hasChildren: bool, hasMortgage: bool, bufferMonths: int,
                                   hasPrivateHealth: bool, hasPrivateDisability: bool, hasCriticalIllness: bool,
                                   hasTravel: bool, hasChildInsurance: bool)

  datatype Provider = Provider(name: string)
  datatype Product = Product(id: int, name: string, category: string, provider: Provider)

  datatype RecommendedProduct = RecommendedProduct(id: int, name: string, provider: string)

  datatype CoverageGap = CoverageGap(area: string, severity: Severity, description: string,
                                     currentSituation: string, recommendedAction: string,
                                     recommendedProducts: seq<RecommendedProduct>)

  const IncomeCategory: string := "Inntektssikring"
  const MaxRecommended: nat := 3

  /** The recommendation for one product: its id, its name and its provider's name. */
  function Recommend(p: Product): (r: RecommendedProduct)
    ensures r.id == p.id && r.name == p.name && r.provider == p.provider.name
  {
    RecommendedProduct(p.id, p.name, p.provider.name)
  }

  /** stream().map(...).toList(): the recommendation of every product, in order. */
  function RecommendAll(products: seq<Product>): (r: seq<RecommendedProduct>)
    ensures |r| == |products|
    ensures forall i :: 0 <= i < |r| ==> r[i] == Recommend(products[i])
  {
    if products == [] then [] else [Recommend(products[0])] + RecommendAll(products[1..])
  }

  /** stream().limit(3): at most the first three elements. */
  function Limit(products: seq<Product>, n: nat): (r: seq<Product>)
    ensures |r| == if |products| < n then |products| else n
    ensures r == products[..|r|]
  {
    if |products| <= n then products else products[..n]
  }

  /** analyze: no gap with private disability cover, otherwise the one income gap. */
  function Analyze(request: GapRequest, findByCategory: string -> seq<Product>): (gaps: seq<CoverageGap>)
    ensures request.hasPrivateDisability <==> gaps == []
    ensures !request.hasPrivateDisability ==>
      |gaps| == 1 && gaps[0].severity == CRITICAL && gaps[0].area == "Inntekt ved sykdom/uførhet"
      && gaps[0].description == "Du mangler privat inntektssikring ved sykdom eller uførhet."
      && gaps[0].currentSituation == "Kun NAV-dekning." && gaps[0].recommendedAction == "Vurder privat inntektssikring."
    ensures !request.hasPrivateDisability ==>
      var rec := gaps[0].recommendedProducts;
      var found := findByCategory(IncomeCategory);
      |rec| == (if |found| < MaxRecommended then |found| else MaxRecommended)
      && forall i :: 0 <= i < |rec| ==>
           rec[i].id == found[i].id && rec[i].name == found[i].name && rec[i].provider == found[i].provider.name
  {
    if !request.hasPrivateDisability then
      var products := Limit(findByCategory(IncomeCategory), MaxRecommended);
      [CoverageGap("Inntekt ved sykdom/uførhet", CRITICAL,
                   "Du mangler privat inntektssikring ved sykdom eller uførhet.",
                   "Kun NAV-dekning.", "Vurder privat inntektssikring.", RecommendAll(products))]
    else []
  }

  /** Only hasPrivateDisability decides the analysis: requests that agree on it get the same gaps. */
  lemma OnlyDisabilityMatters(a: GapRequest, b: GapRequest, findByCategory: string -> seq<Product>)
    requires a.hasPrivateDisability == b.hasPrivateDisability
    ensures Analyze(a, findByCategory) == Analyze(b, findByCategory)
  {
  }
}
