/** A product record as the agents pass it around: a Python dict whose keys
    may be missing. Each key the core reads is a field, `None` standing for an
    absent key; every `.get(key, default)` of the source is one accessor
    below. */
module Products {
  import opened Wrappers

  /** The `price` value: scraped text such as `"$1,299.99"`, or a number. */
  datatype Price = PriceText(text: string) | PriceNumber(amount: real)

  /** The two places of `review_summary` an `average_polarity` can sit: at
      the top level, which is where the scorer reads it, and under
      `summary`, which is where `analyze_reviews` writes it. */
  datatype ReviewSummary = ReviewSummary(averagePolarity: Option<real>, nestedPolarity: Option<real>)

  /** `key_features` and `specifications` are kept as plain values: every read
      of them supplies the empty default, so an absent key and an empty one
      behave alike. The four score fields are written by the scorer. */
  datatype Product = Product(
    title: Option<string>,
    price: Option<Price>,
    specifications: map<string, string>,
    keyFeatures: seq<string>,
    reviewSummary: Option<ReviewSummary>,
    score: Option<real>,
    normalizedPrice: Option<real>,
    normalizedFeatures: Option<real>,
    normalizedSentiment: Option<real>)

  /** `p.get('review_summary', {}).get('average_polarity', 0)`. */
  function AveragePolarity(p: Product): real {
    match p.reviewSummary
    case None => 0.0
    case Some(s) => s.averagePolarity.GetOr(0.0)
  }

  /** The average polarity of every product of a batch. */
  function Polarities(ps: seq<Product>): (r: seq<real>)
    ensures |r| == |ps|
    ensures forall i :: 0 <= i < |ps| ==> r[i] == AveragePolarity(ps[i])
  {
    seq(|ps|, i requires 0 <= i < |ps| => AveragePolarity(ps[i]))
  }

  /** `len(p.get('key_features', []))`. */
  function FeatureCount(p: Product): nat {
    |p.keyFeatures|
  }

  /** `p.get('score', 0)`. */
  function ScoreOf(p: Product): real {
    p.score.GetOr(0.0)
  }

  /** `p.get('normalized_price', 0)`. */
  function NormPrice(p: Product): real {
    p.normalizedPrice.GetOr(0.0)
  }

  /** `p.get('normalized_features', 0)`. */
  function NormFeatures(p: Product): real {
    p.normalizedFeatures.GetOr(0.0)
  }

  /** `p.get('normalized_sentiment', 0)`. */
  function NormSentiment(p: Product): real {
    p.normalizedSentiment.GetOr(0.0)
  }

  /** `p.get('title', default)`. */
  function TitleOr(p: Product, default: string): string {
    p.title.GetOr(default)
  }

  /** `p.get('title')` inside an f-string: a missing title prints as `None`. */
  function TitleText(p: Product): string {
    p.title.GetOr("None")
  }

  /** The record with the four fields the scorer writes removed: what the
      scorer must leave unchanged. */
  function Unscored(p: Product): Product {
    p.(score := None, normalizedPrice := None, normalizedFeatures := None, normalizedSentiment := None)
  }

  function UnscoredAll(ps: seq<Product>): (r: seq<Product>)
    ensures |r| == |ps|
    ensures forall i :: 0 <= i < |ps| ==> r[i] == Unscored(ps[i])
  {
    seq(|ps|, i requires 0 <= i < |ps| => Unscored(ps[i]))
  }
}
