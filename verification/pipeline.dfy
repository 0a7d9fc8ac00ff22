/** How the three agents are chained: each product's `review_summary` is set
    to the whole result of `analyze_reviews`, then the batch is scored and
    the recommendation built from the scored list. The scorer reads
    `average_polarity` at the top level of that summary, where
    `analyze_reviews` never puts it (it sits under `summary`), so every
    product reads a polarity of 0 and the sentiment signal is lost. */
module Pipeline {
  import opened Wrappers
  import opened Seqs
  import opened Ranking
  import opened Products
  import opened Normalization
  import opened Comparative
  import opened Recommendation
  import opened Reviews

  /** `product["review_summary"] = analyze_reviews(...)`: the whole result is
      stored. The empty dict for no reviews has no key at all; a full result
      has `reviews`, `summary` and `common_themes` at the top level, and the
      mean polarity sits under `summary`. */
  function StoredSummary(a: ReviewAnalysis): (s: Option<ReviewSummary>)
    ensures s.Some? && s.value.averagePolarity.None?
    ensures a.Analysis? ==> s.value.nestedPolarity == Some(a.summary.averagePolarity)
    ensures a.NoReviews? ==> s.value.nestedPolarity.None?
  {
    match a
    case NoReviews => Some(ReviewSummary(None, None))
    case Analysis(_, summary, _) => Some(ReviewSummary(None, Some(summary.averagePolarity)))
  }

  /** Whatever the reviews say, a product carrying a stored analysis reads
      as polarity 0, although the mean polarity of its reviews is stored
      with it. */
  lemma StoredPolarityIsZero(p: Product, a: ReviewAnalysis)
    ensures AveragePolarity(p.(reviewSummary := StoredSummary(a))) == 0.0
    ensures a.Analysis? ==>
      p.(reviewSummary := StoredSummary(a)).reviewSummary.value.nestedPolarity == Some(a.summary.averagePolarity)
  {
  }

  /** What is stored under `summary` is the mean polarity of the analysed
      reviews, the value the scorer was meant to read. */
  lemma StoredMeanPolarity(rs: seq<SentimentAnalysis>, themes: seq<string>)
    requires |rs| > 0
    ensures StoredSummary(Analysis(rs, Summarize(rs), themes)).value.nestedPolarity
         == Some(Sum(PolarityValues(rs)) / |rs| as real)
  {
  }

  /** A product as the pipeline hands it to the scorer. */
  ghost predicate CarriesStoredSummary(p: Product) {
    exists a :: p.reviewSummary == StoredSummary(a)
  }

  /** Once every product carries a stored analysis, scoring gives every
      product the normalised sentiment 0.5. */
  lemma ScoredSentimentHalf(w: ProductScoreWeights, ps: seq<Product>)
    requires forall i :: 0 <= i < |ps| ==> CarriesStoredSummary(ps[i])
    requires PricesReadable(ps)
    ensures forall i :: 0 <= i < |CalculateProductScores(w, ps).value| ==>
      NormSentiment(CalculateProductScores(w, ps).value[i]) == 0.5
  {
    var r := CalculateProductScores(w, ps).value;
    ScoredFromBatch(w, ps);
    BatchSentimentHalf(w, ps);
    HalfThroughout(r, ScoreBatch(w, ps).value);
  }

  lemma HalfThroughout(r: seq<Product>, batch: seq<Product>)
    requires forall i :: 0 <= i < |r| ==> r[i] in batch
    requires forall k :: 0 <= k < |batch| ==> NormSentiment(batch[k]) == 0.5
    ensures forall i :: 0 <= i < |r| ==> NormSentiment(r[i]) == 0.5
  {
  }

  lemma BatchSentimentHalf(w: ProductScoreWeights, ps: seq<Product>)
    requires forall i :: 0 <= i < |ps| ==> CarriesStoredSummary(ps[i])
    requires PricesReadable(ps)
    ensures forall k :: 0 <= k < |ScoreBatch(w, ps).value| ==> NormSentiment(ScoreBatch(w, ps).value[k]) == 0.5
  {
    var prices := ScoringPrices(ps).value;
    var batch := ScoreBatch(w, ps).value;
    forall i | 0 <= i < |ps|
      ensures Polarities(ps)[i] == 0.0
    {
      var a :| ps[i].reviewSummary == StoredSummary(a);
    }
    assert IsConstant(Polarities(ps));
    forall k | 0 <= k < |batch|
      ensures NormSentiment(batch[k]) == 0.5
    {
      ConstantFieldsHalf(w, ps, prices, k);
    }
  }

  /** Hence no recommended product is "highly rated", has "mixed customer
      reviews", or shows customer satisfaction as a strength or as its key
      strength: the sentiment never reaches the recommendation. */
  lemma SentimentSignalLost(w: ProductScoreWeights, ps: seq<Product>)
    requires forall i :: 0 <= i < |ps| ==> CarriesStoredSummary(ps[i])
    requires PricesReadable(ps)
    ensures forall i :: 0 <= i < |CalculateProductScores(w, ps).value| ==>
      var p := CalculateProductScores(w, ps).value[i];
      HighlyRated !in CandidatePros(p) && MixedReviews !in CandidateCons(p) &&
      "customer satisfaction" !in StrengthList(p) && KeyStrength(p) != SatisfactionStrength
  {
    ScoredSentimentHalf(w, ps);
  }
}
