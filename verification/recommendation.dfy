/** `RecommendationAgent`: the report built from a ranked list of scored
    products — a primary recommendation with pros, cons and closing advice,
    a few alternatives, and a two-line comparison of the cheapest and the
    best-reviewed product.

    `textwrap.fill` is not modelled: it is the parameter `fill`, applied to
    exactly the texts the source wraps, with the configured width. */
module Recommendation {
  import opened Wrappers
  import opened Seqs
  import opened Text
  import opened Prices
  import opened Rounding
  import opened Products
  import opened Extrema

  /** `RecommendationConfig`. */
  datatype RecommendationConfig = RecommendationConfig(maxAlternatives: int, maxProsCons: int, wrapWidth: int)

  const DefaultConfig := RecommendationConfig(3, 3, 80)

  /** `config or RecommendationConfig()`: a config object is always true, so
      only a missing one is replaced by the defaults. */
  function AgentConfig(config: Option<RecommendationConfig>): RecommendationConfig {
    config.GetOr(DefaultConfig)
  }

  /** `textwrap.fill(text, width=...)`. */
  type Fill = (string, int) -> string

  const HighlyRated := "Highly rated by customers"
  const GoodValue := "Excellent value for money"
  const RichFeatures := "Rich feature set"
  const MixedReviews := "Mixed customer reviews"
  const PremiumPricing := "Premium pricing"

  /** Where each pro stands in the order the source appends them. */
  function ProRank(s: string): nat {
    if s == HighlyRated then 0 else if s == GoodValue then 1 else 2
  }

  /** Where each con stands in the order the source appends them. */
  function ConRank(s: string): nat {
    if s == MixedReviews then 0 else 1
  }

  /** Where each strength stands in the order the source appends them. */
  function StrengthRank(s: string): nat {
    if s == "features" then 0 else if s == "customer satisfaction" then 1 else 2
  }

  /** The pros the thresholds admit, before the cap, in the order the source
      appends them. */
  function CandidatePros(p: Product): (r: seq<string>)
    ensures HighlyRated in r <==> NormSentiment(p) > 0.7
    ensures GoodValue in r <==> NormPrice(p) > 0.8
    ensures RichFeatures in r <==> FeatureCount(p) > 5
    ensures forall i :: 0 <= i < |r| ==> r[i] in {HighlyRated, GoodValue, RichFeatures}
    ensures forall i, j :: 0 <= i < j < |r| ==> ProRank(r[i]) < ProRank(r[j])
    ensures NoDup(r)
  {
    assert HighlyRated[0] != GoodValue[0] && HighlyRated[0] != RichFeatures[0] && GoodValue[0] != RichFeatures[0];
    (if NormSentiment(p) > 0.7 then [HighlyRated] else []) +
    (if NormPrice(p) > 0.8 then [GoodValue] else []) +
    (if FeatureCount(p) > 5 then [RichFeatures] else [])
  }

  /** The cons the thresholds admit, before the cap. */
  function CandidateCons(p: Product): (r: seq<string>)
    ensures MixedReviews in r <==> NormSentiment(p) < 0.3
    ensures PremiumPricing in r <==> NormPrice(p) < 0.3
    ensures forall i :: 0 <= i < |r| ==> r[i] in {MixedReviews, PremiumPricing}
    ensures forall i, j :: 0 <= i < j < |r| ==> ConRank(r[i]) < ConRank(r[j])
    ensures NoDup(r)
  {
    assert MixedReviews[0] != PremiumPricing[0];
    (if NormSentiment(p) < 0.3 then [MixedReviews] else []) +
    (if NormPrice(p) < 0.3 then [PremiumPricing] else [])
  }

  /** `_extract_pros`: the admitted pros cut with `pros[:max_pros_cons]`. */
  function ExtractPros(config: RecommendationConfig, p: Product): (r: seq<string>)
    ensures |r| <= |CandidatePros(p)| <= 3
    ensures r == CandidatePros(p)[..|r|]
    ensures config.maxProsCons >= 3 ==> r == CandidatePros(p)
    ensures 0 <= config.maxProsCons ==> |r| == Min(config.maxProsCons, |CandidatePros(p)|)
  {
    Take(CandidatePros(p), config.maxProsCons)
  }

  /** `_extract_cons`: the admitted cons cut with `cons[:max_pros_cons]`. */
  function ExtractCons(config: RecommendationConfig, p: Product): (r: seq<string>)
    ensures |r| <= |CandidateCons(p)| <= 2
    ensures r == CandidateCons(p)[..|r|]
    ensures config.maxProsCons >= 2 ==> r == CandidateCons(p)
    ensures 0 <= config.maxProsCons ==> |r| == Min(config.maxProsCons, |CandidateCons(p)|)
  {
    Take(CandidateCons(p), config.maxProsCons)
  }

  /** With the default cap nothing is cut: each pro is listed exactly when its
      threshold is passed, and likewise each con. */
  lemma ProsConsUncut(p: Product)
    ensures HighlyRated in ExtractPros(DefaultConfig, p) <==> NormSentiment(p) > 0.7
    ensures GoodValue in ExtractPros(DefaultConfig, p) <==> NormPrice(p) > 0.8
    ensures RichFeatures in ExtractPros(DefaultConfig, p) <==> FeatureCount(p) > 5
    ensures MixedReviews in ExtractCons(DefaultConfig, p) <==> NormSentiment(p) < 0.3
    ensures PremiumPricing in ExtractCons(DefaultConfig, p) <==> NormPrice(p) < 0.3
  {
  }

  /** Whatever the cap, a product is never both praised and criticised for
      its reviews, nor both for its value and its pricing. */
  lemma ProsConsExclusive(config: RecommendationConfig, p: Product)
    ensures !(HighlyRated in ExtractPros(config, p) && MixedReviews in ExtractCons(config, p))
    ensures !(GoodValue in ExtractPros(config, p) && PremiumPricing in ExtractCons(config, p))
  {
    var pros, cons := ExtractPros(config, p), ExtractCons(config, p);
    assert forall x :: x in pros ==> x in CandidatePros(p);
    assert forall x :: x in cons ==> x in CandidateCons(p);
  }

  /** The strengths above 0.8, in the order the source appends them. */
  function StrengthList(p: Product): (r: seq<string>)
    ensures "features" in r <==> NormFeatures(p) > 0.8
    ensures "customer satisfaction" in r <==> NormSentiment(p) > 0.8
    ensures "value" in r <==> NormPrice(p) > 0.8
    ensures forall i :: 0 <= i < |r| ==> r[i] in {"features", "customer satisfaction", "value"}
    ensures forall i, j :: 0 <= i < j < |r| ==> StrengthRank(r[i]) < StrengthRank(r[j])
  {
    assert "features"[0] != "customer satisfaction"[0] && "features"[0] != "value"[0];
    assert "customer satisfaction"[0] != "value"[0];
    (if NormFeatures(p) > 0.8 then ["features"] else []) +
    (if NormSentiment(p) > 0.8 then ["customer satisfaction"] else []) +
    (if NormPrice(p) > 0.8 then ["value"] else [])
  }

  /** `_highlight_strengths`: the strengths joined by a comma and a space, or
      `multiple categories` when there are none; never empty. */
  function HighlightStrengths(p: Product): (r: string)
    ensures |r| > 0
    ensures r == "multiple categories" <==> |StrengthList(p)| == 0
    ensures |StrengthList(p)| > 0 ==>
      |StrengthList(p)[0]| <= |r| && r[..|StrengthList(p)[0]|] == StrengthList(p)[0]
    ensures |StrengthList(p)| > 0 ==> r == Join(", ", StrengthList(p))
  {
    var strengths := StrengthList(p);
    if |strengths| == 0 then "multiple categories"
    else
      var r := Join(", ", strengths);
      assert |r| < |"multiple categories"| || r[0] != 'm';
      r
  }

  /** When every field passes its threshold, the text lists all three
      strengths in the source's order, separated by a comma and a space. */
  lemma AllStrengths(p: Product)
    requires NormFeatures(p) > 0.8 && NormSentiment(p) > 0.8 && NormPrice(p) > 0.8
    ensures HighlightStrengths(p) == "features, customer satisfaction, value"
  {
    assert StrengthList(p) == ["features", "customer satisfaction", "value"];
    JoinThree(", ", "features", "customer satisfaction", "value");
  }

  lemma JoinThree(sep: string, a: string, b: string, c: string)
    ensures Join(sep, [a, b, c]) == a + sep + b + sep + c
  {
    assert [a, b, c][1..] == [b, c];
    assert [b, c][1..] == [c];
    assert Join(sep, [b, c]) == b + sep + c;
    assert Join(sep, [a, b, c]) == a + sep + (b + sep + c);
  }

  /** With the cap at one, the single pro kept is the first the thresholds
      admit, in the order sentiment, value, features. */
  lemma FirstProKept(config: RecommendationConfig, p: Product)
    requires config.maxProsCons == 1
    ensures NormSentiment(p) > 0.7 ==> ExtractPros(config, p) == [HighlyRated]
    ensures NormSentiment(p) <= 0.7 && NormPrice(p) > 0.8 ==> ExtractPros(config, p) == [GoodValue]
    ensures NormSentiment(p) <= 0.7 && NormPrice(p) <= 0.8 && FeatureCount(p) > 5 ==> ExtractPros(config, p) == [RichFeatures]
  {
  }

  const ValueReason := "you're looking for better value"
  const FeaturesReason := "you need specific features"
  const FallbackReason := "the primary recommendation doesn't meet your needs"

  /** `_get_alternative_reason`: value first, then features, then the
      fallback; the three cases are exactly the three threshold regions. */
  function AlternativeReason(p: Product): (r: string)
    ensures r == ValueReason <==> NormPrice(p) > 0.7
    ensures r == FeaturesReason <==> NormPrice(p) <= 0.7 && NormFeatures(p) > 0.7
    ensures r == FallbackReason <==> NormPrice(p) <= 0.7 && NormFeatures(p) <= 0.7
  {
    assert |ValueReason| != |FeaturesReason| && |ValueReason| != |FallbackReason|;
    assert |FeaturesReason| != |FallbackReason|;
    if NormPrice(p) > 0.7 then ValueReason
    else if NormFeatures(p) > 0.7 then FeaturesReason
    else FallbackReason
  }

  const SatisfactionStrength := "Customer satisfaction"
  const FeatureStrength := "Feature set"
  const BalanceStrength := "Overall balance"

  /** `_get_key_strength`: sentiment first, then features, then balance. */
  function KeyStrength(p: Product): (r: string)
    ensures r == SatisfactionStrength <==> NormSentiment(p) > 0.7
    ensures r == FeatureStrength <==> NormSentiment(p) <= 0.7 && NormFeatures(p) > 0.7
    ensures r == BalanceStrength <==> NormSentiment(p) <= 0.7 && NormFeatures(p) <= 0.7
  {
    assert SatisfactionStrength[0] != FeatureStrength[0] && SatisfactionStrength[0] != BalanceStrength[0];
    assert FeatureStrength[0] != BalanceStrength[0];
    if NormSentiment(p) > 0.7 then SatisfactionStrength
    else if NormFeatures(p) > 0.7 then FeatureStrength
    else BalanceStrength
  }

  /** The texts agree with each other: customer satisfaction named as a
      strength makes it the key strength, value named as a strength makes
      value the reason to consider an alternative, and the key strength is
      customer satisfaction exactly when the reviews are listed as a pro. */
  lemma DescriptionsAgree(p: Product)
    ensures "customer satisfaction" in StrengthList(p) ==> KeyStrength(p) == SatisfactionStrength
    ensures "value" in StrengthList(p) ==> AlternativeReason(p) == ValueReason
    ensures "features" in StrengthList(p) && NormPrice(p) <= 0.7 ==> AlternativeReason(p) == FeaturesReason
    ensures KeyStrength(p) == SatisfactionStrength <==> HighlyRated in CandidatePros(p)
  {
  }

  /** The error `_generate_comparison_highlights` raises while reading prices:
      a numeric price has no `replace`, and `float` rejects other texts. */
  datatype HighlightError = PriceNotText(amount: real) | PriceUnparsable(text: string)

  /** The default text a missing price reads as. */
  const MissingPriceText := "99999"

  /** The key `min` compares prices by. */
  function HighlightPrice(p: Product): (r: Result<real, HighlightError>)
    ensures p.price.None? ==> r == Success(99999.0)
    ensures p.price.Some? && p.price.value.PriceNumber? ==> r == Failure(PriceNotText(p.price.value.amount))
    ensures p.price.Some? && p.price.value.PriceText? ==>
      (r.Success? <==> ParsePrice(p.price.value.text).Some?) &&
      (r.Success? ==> r.value == ParsePrice(p.price.value.text).value)
  {
    match p.price
    case None => Success(99999.0)
    case Some(PriceNumber(x)) => Failure(PriceNotText(x))
    case Some(PriceText(t)) =>
      match ParsePrice(t)
      case Some(x) => Success(x)
      case None => Failure(PriceUnparsable(t))
  }

  /** A missing price reads as the default text would. */
  lemma MissingPriceReads()
    ensures ParsePrice(MissingPriceText) == Some(99999.0)
  {
    var s := MissingPriceText;
    assert s == NatToString(99999);
    assert '$' !in s && ',' !in s;
    RemoveCharAbsent(s, '$');
    RemoveCharAbsent(s, ',');
    ParseNatToString(99999);
  }

  function HighlightPriceResults(ps: seq<Product>): (r: seq<Result<real, HighlightError>>)
    ensures |r| == |ps| && forall i :: 0 <= i < |ps| ==> r[i] == HighlightPrice(ps[i])
  {
    seq(|ps|, i requires 0 <= i < |ps| => HighlightPrice(ps[i]))
  }

  /** Every product's price can be read as a `min` key. */
  predicate HighlightPricesReadable(ps: seq<Product>) {
    forall i :: 0 <= i < |ps| ==> HighlightPrice(ps[i]).Success?
  }

  /** The keys `min` compares, once all of them can be read. */
  function HighlightKeys(ps: seq<Product>): (keys: seq<real>)
    requires HighlightPricesReadable(ps)
    ensures |keys| == |ps|
    ensures forall i :: 0 <= i < |ps| ==> keys[i] == HighlightPrice(ps[i]).value
    ensures Collect(HighlightPriceResults(ps)) == Success(keys)
  {
    var keys := seq(|ps|, i requires 0 <= i < |ps| => HighlightPrice(ps[i]).value);
    assert Collect(HighlightPriceResults(ps)).value == keys;
    keys
  }

  /** `best_price.get('price')` inside an f-string. A numeric price never gets
      here: reading it as a key has already raised. */
  function PriceShown(p: Product): string
    requires !(p.price.Some? && p.price.value.PriceNumber?)
  {
    match p.price
    case None => "None"
    case Some(PriceText(t)) => t
  }

  function BestPriceLine(p: Product): string
    requires !(p.price.Some? && p.price.value.PriceNumber?)
  {
    "- " + TitleText(p) + " has the best price at " + PriceShown(p)
  }

  function BestReviewsLine(p: Product): string {
    "- " + TitleText(p) + " has the most positive reviews"
  }

  /** `_generate_comparison_highlights`: nothing for fewer than two products;
      otherwise a line naming the first of the cheapest products and a line
      naming the first of the best-reviewed ones, or the error of the first
      price that cannot be read. */
  function ComparisonHighlights(ps: seq<Product>): (r: Result<string, HighlightError>)
    ensures |ps| < 2 ==> r == Success("")
    ensures |ps| >= 2 ==> (r.Success? <==> forall i :: 0 <= i < |ps| ==> HighlightPrice(ps[i]).Success?)
  {
    if |ps| < 2 then Success("")
    else
      var keys :- Collect(HighlightPriceResults(ps));
      var bp := ps[ArgMin(keys)];
      var bs := ps[ArgMax(Polarities(ps))];
      assert HighlightPrice(bp).Success?;
      Success(Join("\n", [BestPriceLine(bp), BestReviewsLine(bs)]))
  }

  /** `k` is where `min` stops: a least key, and no earlier key as small. */
  predicate IsFirstMin(keys: seq<real>, k: nat) {
    k < |keys| && (forall i :: 0 <= i < |keys| ==> keys[k] <= keys[i]) &&
    forall i :: 0 <= i < k ==> keys[k] < keys[i]
  }

  /** `m` is where `max` stops: a greatest key, and no earlier key as large. */
  predicate IsFirstMax(keys: seq<real>, m: nat) {
    m < |keys| && (forall i :: 0 <= i < |keys| ==> keys[i] <= keys[m]) &&
    forall i :: 0 <= i < m ==> keys[i] < keys[m]
  }

  /** The highlights are two lines: the first names the first cheapest
      product and its price, the second the first product with the highest
      average polarity. Splitting on newlines gives them back when no title
      or price text holds a newline. */
  lemma HighlightsNameBest(ps: seq<Product>, k: nat, m: nat)
    requires |ps| >= 2 && HighlightPricesReadable(ps)
    requires IsFirstMin(HighlightKeys(ps), k)
    requires IsFirstMax(Polarities(ps), m)
    requires forall i :: 0 <= i < |ps| ==> '\n' !in TitleText(ps[i])
    requires forall i :: 0 <= i < |ps| ==> ps[i].price.Some? && ps[i].price.value.PriceText? ==> '\n' !in ps[i].price.value.text
    ensures HighlightPrice(ps[k]).Success?
    ensures Split(ComparisonHighlights(ps).value, '\n') == [BestPriceLine(ps[k]), BestReviewsLine(ps[m])]
  {
    var keys := HighlightKeys(ps);
    ArgMinUnique(keys, k);
    ArgMaxUnique(Polarities(ps), m);
    HighlightsText(ps);
    var a, b := BestPriceLine(ps[k]), BestReviewsLine(ps[m]);
    assert '\n' !in a by {
      BestPriceLineSingle(ps[k]);
    }
    assert '\n' !in b by {
      BestReviewsLineSingle(ps[m]);
    }
    TwoLines(a, b);
  }

  lemma TwoLines(a: string, b: string)
    requires '\n' !in a && '\n' !in b
    ensures Split(Join("\n", [a, b]), '\n') == [a, b]
  {
    SplitJoin([a, b], '\n');
  }

  /** The highlights, spelled out. */
  lemma HighlightsText(ps: seq<Product>)
    requires |ps| >= 2 && HighlightPricesReadable(ps)
    ensures var k := ArgMin(HighlightKeys(ps));
      && HighlightPrice(ps[k]).Success?
      && ComparisonHighlights(ps) ==
         Success(Join("\n", [BestPriceLine(ps[k]), BestReviewsLine(ps[ArgMax(Polarities(ps))])]))
  {
    var keys := HighlightKeys(ps);
  }

  lemma BestPriceLineSingle(p: Product)
    requires !(p.price.Some? && p.price.value.PriceNumber?)
    requires '\n' !in TitleText(p)
    requires p.price.Some? ==> '\n' !in p.price.value.text
    ensures '\n' !in BestPriceLine(p)
  {
    assert '\n' !in PriceShown(p);
  }

  lemma BestReviewsLineSingle(p: Product)
    requires '\n' !in TitleText(p)
    ensures '\n' !in BestReviewsLine(p)
  {
  }

  const Tick := "✓ "
  const Warning := "⚠ "

  /** The lines of `_generate_final_advice`: a heading naming the product,
      then the pros under `Strengths:` and the cons under `Considerations:`,
      each section only when it has entries. */
  function AdviceLines(p: Product, pros: seq<string>, cons: seq<string>): (lines: seq<string>)
    ensures |lines| == 1 + (if |pros| > 0 then 1 + |pros| else 0) + (if |cons| > 0 then 1 + |cons| else 0)
    ensures lines[0] == "Final advice on " + TitleText(p) + ":"
    ensures |pros| > 0 ==>
      (lines[1] == "Strengths:" && forall i :: 0 <= i < |pros| ==> lines[2 + i] == Tick + pros[i])
    ensures |cons| > 0 ==>
      var c := if |pros| > 0 then 2 + |pros| else 1;
      (lines[c] == "Considerations:" && forall i :: 0 <= i < |cons| ==> lines[c + 1 + i] == Warning + cons[i])
  {
    var heading := ["Final advice on " + TitleText(p) + ":"];
    var strengths := if |pros| > 0 then ["Strengths:"] + seq(|pros|, i requires 0 <= i < |pros| => Tick + pros[i]) else [];
    var considerations := if |cons| > 0 then ["Considerations:"] + seq(|cons|, i requires 0 <= i < |cons| => Warning + cons[i]) else [];
    heading + strengths + considerations
  }

  /** `_generate_final_advice`, before wrapping. */
  function FinalAdvice(p: Product, pros: seq<string>, cons: seq<string>): string {
    Join("\n", AdviceLines(p, pros, cons))
  }

  /** The advice splits back into its lines when neither the title nor any
      pro or con holds a newline. */
  lemma FinalAdviceLines(p: Product, pros: seq<string>, cons: seq<string>)
    requires '\n' !in TitleText(p)
    requires forall i :: 0 <= i < |pros| ==> '\n' !in pros[i]
    requires forall i :: 0 <= i < |cons| ==> '\n' !in cons[i]
    ensures Split(FinalAdvice(p, pros, cons), '\n') == AdviceLines(p, pros, cons)
  {
    var lines := AdviceLines(p, pros, cons);
    forall i | 0 <= i < |lines| ensures '\n' !in lines[i] {
      NoNewlineInLine(p, pros, cons, i);
    }
    SplitJoin(lines, '\n');
  }

  lemma NoNewlineInLine(p: Product, pros: seq<string>, cons: seq<string>, i: nat)
    requires '\n' !in TitleText(p)
    requires forall i :: 0 <= i < |pros| ==> '\n' !in pros[i]
    requires forall i :: 0 <= i < |cons| ==> '\n' !in cons[i]
    requires i < |AdviceLines(p, pros, cons)|
    ensures '\n' !in AdviceLines(p, pros, cons)[i]
  {
    var lines := AdviceLines(p, pros, cons);
    var c := if |pros| > 0 then 2 + |pros| else 1;
    if i == 0 {
      assert lines[0] == "Final advice on " + TitleText(p) + ":";
    } else if |pros| > 0 && i == 1 {
    } else if |pros| > 0 && i < c {
      assert lines[i] == Tick + pros[i - 2];
    } else if i == c {
    } else {
      assert lines[i] == Warning + cons[i - c - 1];
    }
  }

  /** `primary_recommendation`. */
  datatype PrimaryRecommendation = PrimaryRecommendation(
    title: string, summary: string, pros: seq<string>, cons: seq<string>, finalAdvice: string)

  /** One entry of `alternatives`. */
  datatype AlternativeRecommendation = AlternativeRecommendation(title: string, reason: string, keyStrength: string)

  /** What `generate_recommendation` returns: the error dict for no
      products, or the report. */
  datatype Recommendation =
    | NoProducts(error: string)
    | Report(primary: PrimaryRecommendation, alternatives: seq<AlternativeRecommendation>, comparisonHighlights: string)

  /** The summary sentence, before wrapping. */
  function SummaryText(p: Product): string {
    SummaryHead(p) + FormatFixed2(ScoreOf(p)) + "/1.0 overall, with strong performance in " + HighlightStrengths(p) + "."
  }

  /** The score is written right after the opening sentence, and reads back
      as the score rounded to two decimals. */
  lemma SummaryStatesScore(p: Product)
    ensures var k := |SummaryHead(p)|;
      var f := FormatFixed2(ScoreOf(p));
      k + |f| <= |SummaryText(p)| && ParseDecimal(SummaryText(p)[k..k + |f|]) == Some(Round2(ScoreOf(p)))
  {
    SummaryScoreSlice(p);
    ParseFormatFixed2(ScoreOf(p));
  }

  /** The opening of the summary, up to the score. */
  function SummaryHead(p: Product): string {
    "We recommend " + TitleOr(p, "this product") + " as your best option. It scores "
  }

  lemma SummaryScoreSlice(p: Product)
    ensures var k := |SummaryHead(p)|;
      var f := FormatFixed2(ScoreOf(p));
      k + |f| <= |SummaryText(p)| && SummaryText(p)[k..k + |f|] == f
  {
    Slot(SummaryHead(p), FormatFixed2(ScoreOf(p)), "/1.0 overall, with strong performance in ", HighlightStrengths(p), ".");
  }

  /** The middle part of a three-part text sits right after the first. */
  lemma Slot(head: string, f: string, a: string, b: string, c: string)
    ensures |head| + |f| <= |head + f + a + b + c|
    ensures (head + f + a + b + c)[|head|..|head| + |f|] == f
  {
  }

  /** The reason sentence of an alternative, before wrapping. */
  function ReasonText(p: Product): string {
    ReasonHead + FormatFixed2(ScoreOf(p)) + "/1.0. Consider this if " + AlternativeReason(p) + "."
  }

  /** The reason reads back the alternative's score rounded to two places,
      right after its opening words, and ends with the reason chosen for it. */
  lemma ReasonStatesScore(p: Product)
    ensures var k := |ReasonHead|;
      var f := FormatFixed2(ScoreOf(p));
      k + |f| <= |ReasonText(p)| && ParseDecimal(ReasonText(p)[k..k + |f|]) == Some(Round2(ScoreOf(p)))
    ensures var reason := AlternativeReason(p) + ".";
      |reason| <= |ReasonText(p)| && ReasonText(p)[|ReasonText(p)| - |reason|..] == reason
  {
    var f := FormatFixed2(ScoreOf(p));
    Slot(ReasonHead, f, "/1.0. Consider this if ", AlternativeReason(p), ".");
    ParseFormatFixed2(ScoreOf(p));
    var t := ReasonText(p);
    var reason := AlternativeReason(p) + ".";
    assert t == (ReasonHead + f + "/1.0. Consider this if ") + reason;
  }

  /** The opening of the reason, up to the score. */
  const ReasonHead := "Good alternative with score "

  /** `[textwrap.fill(t, width=...) for t in texts]`. */
  function FillAll(fill: Fill, texts: seq<string>, width: int): (r: seq<string>)
    ensures |r| == |texts|
    ensures forall i :: 0 <= i < |texts| ==> r[i] == fill(texts[i], width)
  {
    seq(|texts|, i requires 0 <= i < |texts| => fill(texts[i], width))
  }

  /** `_format_primary`: the title (`Unknown Product` when missing), the
      summary, each pro and con, and the advice built from those same pros
      and cons, each wrapped. */
  function FormatPrimary(config: RecommendationConfig, fill: Fill, p: Product): (r: PrimaryRecommendation)
    ensures r.title == TitleOr(p, "Unknown Product")
    ensures r.summary == fill(SummaryText(p), config.wrapWidth)
    ensures r.pros == FillAll(fill, ExtractPros(config, p), config.wrapWidth)
    ensures r.cons == FillAll(fill, ExtractCons(config, p), config.wrapWidth)
    ensures r.finalAdvice == fill(FinalAdvice(p, ExtractPros(config, p), ExtractCons(config, p)), config.wrapWidth)
  {
    var pros := ExtractPros(config, p);
    var cons := ExtractCons(config, p);
    PrimaryRecommendation(
      TitleOr(p, "Unknown Product"),
      fill(SummaryText(p), config.wrapWidth),
      FillAll(fill, pros, config.wrapWidth),
      FillAll(fill, cons, config.wrapWidth),
      fill(FinalAdvice(p, pros, cons), config.wrapWidth))
  }

  /** `_format_alternative`. */
  function FormatAlternative(config: RecommendationConfig, fill: Fill, p: Product): AlternativeRecommendation {
    AlternativeRecommendation(TitleOr(p, "Unknown Product"), fill(ReasonText(p), config.wrapWidth), KeyStrength(p))
  }

  /** `generate_recommendation`: the error dict for an empty list; otherwise
      the first product as the primary recommendation, the next
      `max_alternatives` as alternatives (Python slice semantics), and the
      comparison highlights over the whole list, whose error is raised. */
  function GenerateRecommendation(config: Option<RecommendationConfig>, fill: Fill, ps: seq<Product>): (r: Result<Recommendation, HighlightError>)
    ensures |ps| == 0 ==> r == Success(NoProducts("No products to recommend"))
    ensures |ps| > 0 ==> (r.Success? <==> ComparisonHighlights(ps).Success?)
    ensures r.Success? && |ps| > 0 ==>
      && r.value.Report?
      && r.value.primary == FormatPrimary(AgentConfig(config), fill, ps[0])
      && r.value.alternatives == FormatAlternatives(AgentConfig(config), fill, ps)
      && r.value.comparisonHighlights == ComparisonHighlights(ps).value
    ensures r.Success? && |ps| > 0 ==>
      && r.value.Report?
      && r.value.primary.title == TitleOr(ps[0], "Unknown Product")
      && |r.value.alternatives| < |ps|
      && forall i :: 0 <= i < |r.value.alternatives| ==>
           r.value.alternatives[i].title == TitleOr(ps[1 + i], "Unknown Product")
  {
    if |ps| == 0 then Success(NoProducts("No products to recommend"))
    else
      var c := AgentConfig(config);
      var highlights :- ComparisonHighlights(ps);
      Success(Report(FormatPrimary(c, fill, ps[0]), FormatAlternatives(c, fill, ps), highlights))
  }

  /** `[self._format_alternative(p) for p in alternatives]`: the products
      right after the first, at most `max_alternatives` of them when that is
      not negative, never the first itself. */
  function FormatAlternatives(c: RecommendationConfig, fill: Fill, ps: seq<Product>): (r: seq<AlternativeRecommendation>)
    requires |ps| > 0
    ensures |r| < |ps|
    ensures forall i :: 0 <= i < |r| ==> r[i] == FormatAlternative(c, fill, ps[1 + i])
    ensures c.maxAlternatives >= 0 ==> |r| == Min(c.maxAlternatives, |ps| - 1)
  {
    var others := Slice(ps, 1, c.maxAlternatives + 1);
    AlternativesFollowPrimary(ps, c.maxAlternatives);
    seq(|others|, i requires 0 <= i < |others| => FormatAlternative(c, fill, others[i]))
  }

  /** `top_products[1:max_alternatives + 1]` lists the products right after
      the first, in order, never the first itself. */
  lemma AlternativesFollowPrimary(ps: seq<Product>, maxAlternatives: int)
    requires |ps| > 0
    ensures var others := Slice(ps, 1, maxAlternatives + 1);
      && |others| < |ps|
      && (forall i :: 0 <= i < |others| ==> others[i] == ps[1 + i])
      && (maxAlternatives >= 0 ==> |others| == Min(maxAlternatives, |ps| - 1))
  {
    var others := Slice(ps, 1, maxAlternatives + 1);
    var a := ClampIndex(1, |ps|);
    var b := ClampIndex(maxAlternatives + 1, |ps|);
    assert a == 1;
    if a < b {
      assert others == ps[1..b];
    } else {
      assert others == [];
    }
  }
}
