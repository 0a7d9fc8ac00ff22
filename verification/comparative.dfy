/** `ComparativeAnalysisAgent`: scoring a batch of products against each
    other, ranking them, and the flat comparison table. */
module Comparative {
  import opened Wrappers
  import opened Seqs
  import opened Text
  import opened Prices
  import opened Rounding
  import opened Products
  import opened Normalization
  import opened Ranking

  /** `ProductScoreWeights`. `popularity` is carried but never read. */
  datatype ProductScoreWeights = ProductScoreWeights(price: real, features: real, sentiment: real, popularity: real)

  const DefaultWeights := ProductScoreWeights(0.3, 0.25, 0.25, 0.2)

  predicate NonNegative(w: ProductScoreWeights) {
    w.price >= 0.0 && w.features >= 0.0 && w.sentiment >= 0.0
  }

  /** The `ValueError` that `float()` raises on a price text it cannot read. */
  datatype ScoringError = UnparsablePrice(text: string)

  /** The scorer's reading of one price: a missing price is 0, a number is
      itself, and a text is read after removing `$` and `,`. */
  function ScoringPrice(p: Product): (r: Result<real, ScoringError>)
    ensures p.price.None? ==> r == Success(0.0)
    ensures p.price.Some? && p.price.value.PriceNumber? ==> r == Success(p.price.value.amount)
    ensures p.price.Some? && p.price.value.PriceText? ==>
      (r.Success? <==> ParsePrice(p.price.value.text).Some?)
    ensures p.price.Some? && p.price.value.PriceText? && r.Success? ==>
      r.value == ParsePrice(p.price.value.text).value
    ensures r.Failure? ==> r.error == UnparsablePrice(p.price.value.text)
  {
    match p.price
    case None => Success(0.0)
    case Some(PriceNumber(x)) => Success(x)
    case Some(PriceText(t)) =>
      match ParsePrice(t)
      case Some(x) => Success(x)
      case None => Failure(UnparsablePrice(t))
  }

  /** Every product's price can be read, so scoring does not raise. */
  predicate PricesReadable(ps: seq<Product>) {
    forall i :: 0 <= i < |ps| ==> ScoringPrice(ps[i]).Success?
  }

  /** `[price(p) for p in products]`, one result per product. */
  function PriceResults(ps: seq<Product>): (r: seq<Result<real, ScoringError>>)
    ensures |r| == |ps| && forall i :: 0 <= i < |ps| ==> r[i] == ScoringPrice(ps[i])
  {
    seq(|ps|, i requires 0 <= i < |ps| => ScoringPrice(ps[i]))
  }

  /** All prices of the batch, or the error of the first product whose price
      cannot be read (the list comprehension stops there). */
  function ScoringPrices(ps: seq<Product>): (r: Result<seq<real>, ScoringError>)
    ensures r.Success? <==> PricesReadable(ps)
    ensures r.Success? ==> |r.value| == |ps|
    ensures r.Success? ==> forall i :: 0 <= i < |ps| ==> r.value[i] == ScoringPrice(ps[i]).value
  {
    Collect(PriceResults(ps))
  }

  /** The error reported is that of the first unreadable price. */
  lemma ScoringPricesFirstFailure(ps: seq<Product>)
    requires !PricesReadable(ps)
    ensures ScoringPrices(ps).Failure?
    ensures exists k :: FirstFailureAt(PriceResults(ps), k, ScoringPrices(ps).error)
  {
    CollectFirstFailure(PriceResults(ps));
  }

  function FeatureCounts(ps: seq<Product>): (r: seq<real>)
    ensures |r| == |ps|
    ensures forall i :: 0 <= i < |ps| ==> r[i] == FeatureCount(ps[i]) as real
  {
    seq(|ps|, i requires 0 <= i < |ps| => FeatureCount(ps[i]) as real)
  }

  /** The weighted composite score; `popularity` takes no part. */
  function WeightedScore(w: ProductScoreWeights, np: real, nf: real, ns: real): real {
    w.price * np + w.features * nf + w.sentiment * ns
  }

  /** `{**product, 'score': ..., 'normalized_price': ..., ...}`. */
  function ScoreRecord(w: ProductScoreWeights, p: Product, np: real, nf: real, ns: real): Product {
    p.(score := Some(Round2(WeightedScore(w, np, nf, ns))),
       normalizedPrice := Some(Round2(np)),
       normalizedFeatures := Some(Round2(nf)),
       normalizedSentiment := Some(Round2(ns)))
  }

  /** The scored records in input order, before sorting: prices are negated
      before normalising so that the cheapest is best; feature counts and
      polarities are normalised as they are. */
  function ScoreAll(w: ProductScoreWeights, ps: seq<Product>, prices: seq<real>): (r: seq<Product>)
    requires |prices| == |ps|
    ensures |r| == |ps|
    ensures forall i :: 0 <= i < |ps| ==> Unscored(r[i]) == Unscored(ps[i])
    ensures forall i :: 0 <= i < |ps| ==>
      r[i].score.Some? && r[i].normalizedPrice.Some? &&
      r[i].normalizedFeatures.Some? && r[i].normalizedSentiment.Some?
  {
    var np := Normalize(Negate(prices));
    var nf := Normalize(FeatureCounts(ps));
    var ns := Normalize(Polarities(ps));
    seq(|ps|, i requires 0 <= i < |ps| => ScoreRecord(w, ps[i], np[i], nf[i], ns[i]))
  }

  /** One scored record, spelled out. */
  lemma ScoreAllAt(w: ProductScoreWeights, ps: seq<Product>, prices: seq<real>, i: nat)
    requires |prices| == |ps| && i < |ps|
    ensures ScoreAll(w, ps, prices)[i] ==
      ScoreRecord(w, ps[i], Normalize(Negate(prices))[i], Normalize(FeatureCounts(ps))[i], Normalize(Polarities(ps))[i])
  {
  }

  /** The three normalised fields lie in the unit interval. */
  lemma ScoreAllUnit(w: ProductScoreWeights, ps: seq<Product>, prices: seq<real>)
    requires |prices| == |ps|
    ensures forall i :: 0 <= i < |ps| ==>
      var r := ScoreAll(w, ps, prices)[i];
      0.0 <= NormPrice(r) <= 1.0 && 0.0 <= NormFeatures(r) <= 1.0 && 0.0 <= NormSentiment(r) <= 1.0
  {
    forall i | 0 <= i < |ps|
      ensures var r := ScoreAll(w, ps, prices)[i];
        0.0 <= NormPrice(r) <= 1.0 && 0.0 <= NormFeatures(r) <= 1.0 && 0.0 <= NormSentiment(r) <= 1.0
    {
      ScoreAllAt(w, ps, prices, i);
      Round2Unit(Normalize(Negate(prices))[i]);
      Round2Unit(Normalize(FeatureCounts(ps))[i]);
      Round2Unit(Normalize(Polarities(ps))[i]);
    }
  }

  /** A cheaper product never gets a lower normalised price. */
  lemma PriceFavourability(w: ProductScoreWeights, ps: seq<Product>, prices: seq<real>, i: nat, j: nat)
    requires |prices| == |ps| && i < |ps| && j < |ps|
    requires prices[i] <= prices[j]
    ensures NormPrice(ScoreAll(w, ps, prices)[j]) <= NormPrice(ScoreAll(w, ps, prices)[i])
  {
    var n := Negate(prices);
    assert n[j] <= n[i];
    ScoreAllAt(w, ps, prices, i);
    ScoreAllAt(w, ps, prices, j);
    Round2Monotone(Normalize(n)[j], Normalize(n)[i]);
  }

  /** More key features never give a lower normalised feature score. */
  lemma FeatureMonotone(w: ProductScoreWeights, ps: seq<Product>, prices: seq<real>, i: nat, j: nat)
    requires |prices| == |ps| && i < |ps| && j < |ps|
    requires FeatureCount(ps[i]) <= FeatureCount(ps[j])
    ensures NormFeatures(ScoreAll(w, ps, prices)[i]) <= NormFeatures(ScoreAll(w, ps, prices)[j])
  {
    var f := FeatureCounts(ps);
    assert f[i] <= f[j];
    ScoreAllAt(w, ps, prices, i);
    ScoreAllAt(w, ps, prices, j);
    Round2Monotone(Normalize(f)[i], Normalize(f)[j]);
  }

  /** A higher average polarity never gives a lower normalised sentiment. */
  lemma SentimentMonotone(w: ProductScoreWeights, ps: seq<Product>, prices: seq<real>, i: nat, j: nat)
    requires |prices| == |ps| && i < |ps| && j < |ps|
    requires AveragePolarity(ps[i]) <= AveragePolarity(ps[j])
    ensures NormSentiment(ScoreAll(w, ps, prices)[i]) <= NormSentiment(ScoreAll(w, ps, prices)[j])
  {
    var s := Polarities(ps);
    assert s[i] <= s[j];
    ScoreAllAt(w, ps, prices, i);
    ScoreAllAt(w, ps, prices, j);
    Round2Monotone(Normalize(s)[i], Normalize(s)[j]);
  }

  /** With equal prices, equal feature counts or equal polarities across the
      batch, that field is one half for every product. */
  lemma ConstantFieldsHalf(w: ProductScoreWeights, ps: seq<Product>, prices: seq<real>, i: nat)
    requires |prices| == |ps| && i < |ps|
    ensures IsConstant(prices) ==> NormPrice(ScoreAll(w, ps, prices)[i]) == 0.5
    ensures IsConstant(FeatureCounts(ps)) ==> NormFeatures(ScoreAll(w, ps, prices)[i]) == 0.5
    ensures IsConstant(Polarities(ps)) ==> NormSentiment(ScoreAll(w, ps, prices)[i]) == 0.5
  {
    ScoreAllAt(w, ps, prices, i);
    var np, nf, ns := Normalize(Negate(prices)), Normalize(FeatureCounts(ps)), Normalize(Polarities(ps));
    if IsConstant(prices) {
      NegateConstant(prices);
      RoundedHalf(np, i);
    }
    if IsConstant(FeatureCounts(ps)) {
      RoundedHalf(nf, i);
    }
    if IsConstant(Polarities(ps)) {
      RoundedHalf(ns, i);
    }
  }


  lemma RoundedHalf(r: seq<real>, i: nat)
    requires i < |r| && r[i] == 0.5
    ensures Round2(r[i]) == 0.5
  {
    Round2OfCents(50);
  }

  /** With non-negative weights the score lies between 0 and the rounded sum
      of the three weights that are used. */
  lemma ScoreBounds(w: ProductScoreWeights, ps: seq<Product>, prices: seq<real>, i: nat)
    requires |prices| == |ps| && i < |ps| && NonNegative(w)
    ensures 0.0 <= ScoreOf(ScoreAll(w, ps, prices)[i]) <= Round2(w.price + w.features + w.sentiment)
  {
    ScoreAllAt(w, ps, prices, i);
    var np := Normalize(Negate(prices))[i];
    var nf := Normalize(FeatureCounts(ps))[i];
    var ns := Normalize(Polarities(ps))[i];
    ScoreRecordBounds(w, ps[i], np, nf, ns);
  }

  lemma ScoreRecordBounds(w: ProductScoreWeights, p: Product, np: real, nf: real, ns: real)
    requires NonNegative(w)
    requires 0.0 <= np <= 1.0 && 0.0 <= nf <= 1.0 && 0.0 <= ns <= 1.0
    ensures 0.0 <= ScoreOf(ScoreRecord(w, p, np, nf, ns)) <= Round2(w.price + w.features + w.sentiment)
  {
    WeightedScoreBounds(w, np, nf, ns);
    RoundedBetween(WeightedScore(w, np, nf, ns), w.price + w.features + w.sentiment);
  }

  lemma RoundedBetween(x: real, hi: real)
    requires 0.0 <= x <= hi
    ensures 0.0 <= Round2(x) <= Round2(hi)
  {
    Round2Monotone(0.0, x);
    Round2Monotone(x, hi);
    Round2OfCents(0);
  }

  lemma WeightedScoreBounds(w: ProductScoreWeights, np: real, nf: real, ns: real)
    requires NonNegative(w)
    requires 0.0 <= np <= 1.0 && 0.0 <= nf <= 1.0 && 0.0 <= ns <= 1.0
    ensures 0.0 <= WeightedScore(w, np, nf, ns) <= w.price + w.features + w.sentiment
  {
    WeightedScoreMonotone(w, 0.0, 0.0, 0.0, np, nf, ns);
    WeightedScoreMonotone(w, np, nf, ns, 1.0, 1.0, 1.0);
  }

  /** A product at least as cheap, with at least as many features and at
      least as positive reviews as another, scores at least as high when the
      weights are non-negative. */
  lemma Dominance(w: ProductScoreWeights, ps: seq<Product>, prices: seq<real>, i: nat, j: nat)
    requires |prices| == |ps| && i < |ps| && j < |ps| && NonNegative(w)
    requires prices[i] <= prices[j]
    requires FeatureCount(ps[j]) <= FeatureCount(ps[i])
    requires AveragePolarity(ps[j]) <= AveragePolarity(ps[i])
    ensures ScoreOf(ScoreAll(w, ps, prices)[j]) <= ScoreOf(ScoreAll(w, ps, prices)[i])
  {
    var n, f, s := Negate(prices), FeatureCounts(ps), Polarities(ps);
    assert n[j] <= n[i] && f[j] <= f[i] && s[j] <= s[i];
    ScoreAllAt(w, ps, prices, i);
    ScoreAllAt(w, ps, prices, j);
    WeightedScoreMonotone(w, Normalize(n)[j], Normalize(f)[j], Normalize(s)[j],
      Normalize(n)[i], Normalize(f)[i], Normalize(s)[i]);
    Round2Monotone(
      WeightedScore(w, Normalize(n)[j], Normalize(f)[j], Normalize(s)[j]),
      WeightedScore(w, Normalize(n)[i], Normalize(f)[i], Normalize(s)[i]));
  }

  lemma WeightedScoreMonotone(w: ProductScoreWeights, np: real, nf: real, ns: real, np': real, nf': real, ns': real)
    requires NonNegative(w)
    requires np <= np' && nf <= nf' && ns <= ns'
    ensures WeightedScore(w, np, nf, ns) <= WeightedScore(w, np', nf', ns')
  {
    calc {
      WeightedScore(w, np, nf, ns);
      w.price * np + w.features * nf + w.sentiment * ns;
      <= { ScaledMonotone(w.price, np, np'); }
      w.price * np' + w.features * nf + w.sentiment * ns;
      <= { ScaledMonotone(w.features, nf, nf'); }
      w.price * np' + w.features * nf' + w.sentiment * ns;
      <= { ScaledMonotone(w.sentiment, ns, ns'); }
      w.price * np' + w.features * nf' + w.sentiment * ns';
      WeightedScore(w, np', nf', ns');
    }
  }

  lemma ScaledMonotone(a: real, x: real, y: real)
    requires a >= 0.0 && x <= y
    ensures a * x <= a * y
  {
  }

  function ScoresOf(ps: seq<Product>): (r: seq<real>)
    ensures |r| == |ps|
    ensures forall i :: 0 <= i < |ps| ==> r[i] == ScoreOf(ps[i])
  {
    seq(|ps|, i requires 0 <= i < |ps| => ScoreOf(ps[i]))
  }

  /** The scored batch in input order, or the first price error. */
  function ScoreBatch(w: ProductScoreWeights, ps: seq<Product>): (r: Result<seq<Product>, ScoringError>)
    ensures r.Success? <==> ScoringPrices(ps).Success?
    ensures r.Success? ==> r.value == ScoreAll(w, ps, ScoringPrices(ps).value)
    ensures r.Failure? ==> r.error == ScoringPrices(ps).error
  {
    match ScoringPrices(ps)
    case Failure(e) => Failure(e)
    case Success(prices) => Success(ScoreAll(w, ps, prices))
  }

  /** `calculate_product_scores`: no products give no scores, a price that
      cannot be read is an error, and otherwise every record is scored and
      the batch sorted by score (the lemmas below say how). */
  function CalculateProductScores(w: ProductScoreWeights, ps: seq<Product>): (r: Result<seq<Product>, ScoringError>)
    ensures |ps| == 0 ==> r == Success([])
    ensures r.Failure? <==> exists i :: 0 <= i < |ps| && ScoringPrice(ps[i]).Failure?
    ensures r.Success? ==> |r.value| == |ps|
    ensures r.Failure? ==> r.error == ScoringPrices(ps).error
  {
    if |ps| == 0 then Success([])
    else
      match ScoreBatch(w, ps)
      case Failure(e) => Failure(e)
      case Success(batch) => Success(SortByScore(batch))
  }

  /** Apart from the four fields the scorer writes, the scored list is the
      input rearranged: nothing is lost, duplicated or altered. */
  lemma ScoresPermute(w: ProductScoreWeights, ps: seq<Product>)
    requires PricesReadable(ps)
    ensures multiset(UnscoredAll(CalculateProductScores(w, ps).value)) == multiset(UnscoredAll(ps))
  {
    if |ps| > 0 {
      var batch := ScoreBatch(w, ps).value;
      assert CalculateProductScores(w, ps).value == SortByScore(batch);
      UnscoredScoreAll(w, ps, ScoringPrices(ps).value);
    }
  }

  lemma UnscoredScoreAll(w: ProductScoreWeights, ps: seq<Product>, prices: seq<real>)
    requires |prices| == |ps|
    ensures UnscoredAll(ScoreAll(w, ps, prices)) == UnscoredAll(ps)
  {
    var a, b := UnscoredAll(ScoreAll(w, ps, prices)), UnscoredAll(ps);
    assert |a| == |b|;
    forall i | 0 <= i < |a| ensures a[i] == b[i] {
    }
  }

  /** The scored list is the stable descending sort of the scored batch:
      equal scores stay in input order. */
  lemma ScoresStable(w: ProductScoreWeights, ps: seq<Product>)
    requires PricesReadable(ps)
    ensures var batch := ScoreBatch(w, ps).value;
      exists order :: IsStableDescending(ScoresOf(batch), order) &&
        CalculateProductScores(w, ps).value == Gather(batch, order)
  {
    var batch := ScoreBatch(w, ps).value;
    if |ps| == 0 {
      assert batch == [];
      assert IsStableDescending(ScoresOf(batch), []);
      assert Gather(batch, []) == [];
    } else {
      assert CalculateProductScores(w, ps).value == SortByScore(batch);
    }
  }

  /** Every record of the scored list is a record of the scored batch. */
  lemma ScoredFromBatch(w: ProductScoreWeights, ps: seq<Product>)
    requires PricesReadable(ps)
    ensures ScoreBatch(w, ps).Success?
    ensures forall i :: 0 <= i < |CalculateProductScores(w, ps).value| ==>
      CalculateProductScores(w, ps).value[i] in ScoreBatch(w, ps).value
  {
    var r := CalculateProductScores(w, ps).value;
    ScoresStable(w, ps);
    var batch := ScoreBatch(w, ps).value;
    var order :| IsStableDescending(ScoresOf(batch), order) && r == Gather(batch, order);
    forall i | 0 <= i < |r|
      ensures r[i] in batch
    {
      assert r[i] == batch[order[i]];
    }
  }

  /** `sorted(scored_products, key=lambda x: x['score'], reverse=True)`. */
  function SortByScore(batch: seq<Product>): (r: seq<Product>)
    ensures |r| == |batch|
    ensures forall i, j :: 0 <= i < j < |r| ==> ScoreOf(r[i]) >= ScoreOf(r[j])
    ensures multiset(UnscoredAll(r)) == multiset(UnscoredAll(batch))
    ensures exists order :: IsStableDescending(ScoresOf(batch), order) && r == Gather(batch, order)
  {
    var keys := ScoresOf(batch);
    var order := RankOrder(keys);
    var r := Gather(batch, order);
    SortedPermutes(batch, order);
    assert forall i :: 0 <= i < |r| ==> ScoreOf(r[i]) == keys[order[i]];
    r
  }

  lemma SortedPermutes(batch: seq<Product>, order: seq<nat>)
    requires order == RankOrder(ScoresOf(batch))
    ensures multiset(UnscoredAll(Gather(batch, order))) == multiset(UnscoredAll(batch))
  {
    var u := UnscoredAll(batch);
    assert UnscoredAll(Gather(batch, order)) == Gather(u, order);
    RankOrderPermutes(u, ScoresOf(batch));
  }

  /** The weight on popularity has no effect on the result. */
  lemma PopularityIgnored(w: ProductScoreWeights, ps: seq<Product>, popularity: real)
    ensures CalculateProductScores(w.(popularity := popularity), ps) == CalculateProductScores(w, ps)
  {
    var w' := w.(popularity := popularity);
    if ScoringPrices(ps).Success? {
      var prices := ScoringPrices(ps).value;
      forall i | 0 <= i < |ps|
        ensures ScoreAll(w', ps, prices)[i] == ScoreAll(w, ps, prices)[i]
      {
        ScoreAllAt(w, ps, prices, i);
        ScoreAllAt(w', ps, prices, i);
        var np, nf, ns := Normalize(Negate(prices))[i], Normalize(FeatureCounts(ps))[i], Normalize(Polarities(ps))[i];
        ScoreRecordIgnoresPopularity(w, ps[i], np, nf, ns, popularity);
      }
      assert ScoreAll(w', ps, prices) == ScoreAll(w, ps, prices);
    }
  }

  lemma ScoreRecordIgnoresPopularity(w: ProductScoreWeights, p: Product, np: real, nf: real, ns: real, popularity: real)
    ensures ScoreRecord(w.(popularity := popularity), p, np, nf, ns) == ScoreRecord(w, p, np, nf, ns)
  {
    assert WeightedScore(w.(popularity := popularity), np, nf, ns) == WeightedScore(w, np, nf, ns);
  }

  /** Two identical records in a batch get identical scores. */
  lemma IdenticalProductsTie(w: ProductScoreWeights, ps: seq<Product>, i: nat, j: nat)
    requires i < |ps| && j < |ps| && ps[i] == ps[j]
    requires PricesReadable(ps)
    ensures ScoreBatch(w, ps).value[i] == ScoreBatch(w, ps).value[j]
  {
    var prices := ScoringPrices(ps).value;
    var n, f, s := Negate(prices), FeatureCounts(ps), Polarities(ps);
    assert n[i] == n[j] && f[i] == f[j] && s[i] == s[j];
    ScoreAllAt(w, ps, prices, i);
    ScoreAllAt(w, ps, prices, j);
    assert Normalize(n)[i] == Normalize(n)[j];
    assert Normalize(f)[i] == Normalize(f)[j];
    assert Normalize(s)[i] == Normalize(s)[j];
  }

  /** `get_top_products`: the first `top_n` scored records (Python slice
      semantics, so a negative `top_n` drops records from the end). */
  function GetTopProducts(w: ProductScoreWeights, ps: seq<Product>, topN: int): (r: Result<seq<Product>, ScoringError>)
    ensures r.Success? <==> CalculateProductScores(w, ps).Success?
    ensures r.Success? && topN >= 0 ==>
      |r.value| == Min(topN, |ps|) && r.value == CalculateProductScores(w, ps).value[..|r.value|]
    ensures r.Success? && topN < 0 ==>
      |r.value| == Max(0, |ps| + topN) && r.value == CalculateProductScores(w, ps).value[..|r.value|]
  {
    match CalculateProductScores(w, ps)
    case Failure(e) => Failure(e)
    case Success(scored) => Success(Take(scored, topN))
  }

  /** A price cell keeps the price as it was, text or number. */
  datatype Cell = TextCell(text: string) | NumberCell(amount: real)

  /** One row of `create_comparison_table`. */
  datatype TableRow = TableRow(
    product: string,
    brand: string,
    price: Cell,
    keyFeatures: string,
    sentimentScore: real,
    overallScore: real)

  function Brand(p: Product): string {
    if "brand" in p.specifications then p.specifications["brand"] else "N/A"
  }

  /** The price cell shows the price as stored, unparsed, or `N/A`. */
  function PriceCell(p: Product): (r: Cell)
    ensures p.price.None? ==> r == TextCell("N/A")
    ensures p.price.Some? && p.price.value.PriceText? ==> r == TextCell(p.price.value.text)
    ensures p.price.Some? && p.price.value.PriceNumber? ==> r == NumberCell(p.price.value.amount)
    ensures r.NumberCell? <==> p.price.Some? && p.price.value.PriceNumber?
  {
    match p.price
    case None => TextCell("N/A")
    case Some(PriceText(t)) => TextCell(t)
    case Some(PriceNumber(x)) => NumberCell(x)
  }

  function RowOf(p: Product): TableRow {
    TableRow(TitleOr(p, "N/A"), Brand(p), PriceCell(p), Join(", ", Take(p.keyFeatures, 3)),
      AveragePolarity(p), ScoreOf(p))
  }

  /** `create_comparison_table`, as its list of rows: one per product in
      input order, with `N/A` for a missing title, brand or price, the first
      three features joined by a comma and a space, and 0 for a missing
      polarity or score. */
  function CreateComparisonTable(ps: seq<Product>): (rows: seq<TableRow>)
    ensures |rows| == |ps|
    ensures forall i :: 0 <= i < |ps| ==>
      && rows[i].product == ps[i].title.GetOr("N/A")
      && (rows[i].brand == "N/A" <==> ("brand" !in ps[i].specifications || ps[i].specifications["brand"] == "N/A"))
      && ("brand" in ps[i].specifications ==> rows[i].brand == ps[i].specifications["brand"])
      && (ps[i].price.None? ==> rows[i].price == TextCell("N/A"))
      && (ps[i].price.Some? ==> rows[i].price == PriceCell(ps[i]))
      && rows[i].keyFeatures == Join(", ", ps[i].keyFeatures[..Min(3, |ps[i].keyFeatures|)])
      && rows[i].sentimentScore == AveragePolarity(ps[i])
      && rows[i].overallScore == ScoreOf(ps[i])
  {
    seq(|ps|, i requires 0 <= i < |ps| => RowOf(ps[i]))
  }

  /** The table of a scored list shows overall scores that never increase
      down the rows. */
  lemma TableOfScoredIsOrdered(w: ProductScoreWeights, ps: seq<Product>)
    requires PricesReadable(ps)
    ensures var rows := CreateComparisonTable(CalculateProductScores(w, ps).value);
      forall i, j :: 0 <= i < j < |rows| ==> rows[i].overallScore >= rows[j].overallScore
  {
  }
}
