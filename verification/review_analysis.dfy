/** `ReviewAnalysisAgent`: the sentiment of each review, the batch summary
    and the batch's most frequent words. The two sentiment libraries are not
    modelled; their scores for a text are supplied as functions. */
module Reviews {
  import opened Seqs
  import opened Text
  import opened Ranking
  import opened Cleaning
  import opened Normalization

  /** The four VADER scores the agent keeps. */
  datatype VaderScores = VaderScores(compound: real, positive: real, negative: real, neutral: real)

  /** The two TextBlob scores the agent keeps. */
  datatype BlobScores = BlobScores(polarity: real, subjectivity: real)

  /** The scorers, as functions of the text they are given. */
  datatype Scorers = Scorers(vader: string -> VaderScores, blob: string -> BlobScores)

  /** The record `analyze_sentiment` returns for one review. */
  datatype SentimentAnalysis = SentimentAnalysis(vader: VaderScores, textblob: BlobScores, text: string)

  /** `analyze_sentiment(text)`: both scorers see the cleaned text, which is
      kept in the record. */
  function AnalyzeSentiment(sc: Scorers, text: string): (r: SentimentAnalysis)
    ensures r.text == CleanReviewText(text)
    ensures r.vader == sc.vader(CleanReviewText(text))
    ensures r.textblob == sc.blob(CleanReviewText(text))
  {
    var cleaned := CleanReviewText(text);
    SentimentAnalysis(sc.vader(cleaned), sc.blob(cleaned), cleaned)
  }

  /** Reviews that clean to the same text get the same analysis, whatever
      markup, links, numbers or surrounding whitespace they started with. */
  lemma SentimentSeesCleanText(sc: Scorers, a: string, b: string)
    ensures CleanReviewText(a) == CleanReviewText(b) ==> AnalyzeSentiment(sc, a) == AnalyzeSentiment(sc, b)
  {
  }

  datatype Tone = Positive | Negative | Neutral

  /** The class of a review by its VADER compound score, with the thresholds
      plus and minus 0.05; every score gets exactly one class. */
  function Classify(compound: real): (t: Tone)
    ensures t == Positive <==> compound >= 0.05
    ensures t == Negative <==> compound <= -0.05
    ensures t == Neutral <==> -0.05 < compound < 0.05
  {
    if compound >= 0.05 then Positive
    else if compound <= -0.05 then Negative
    else Neutral
  }

  function ToneOf(a: SentimentAnalysis): Tone {
    Classify(a.vader.compound)
  }

  /** How many of the analyses have tone `t`. */
  function CountTone(rs: seq<SentimentAnalysis>, t: Tone): (n: nat)
    ensures n <= |rs|
  {
    if |rs| == 0 then 0
    else CountTone(rs[..|rs| - 1], t) + (if ToneOf(rs[|rs| - 1]) == t then 1 else 0)
  }

  /** One more analysis adds one to the count of its own class only. */
  lemma CountToneAppend(rs: seq<SentimentAnalysis>, a: SentimentAnalysis)
    ensures CountTone(rs + [a], Positive) == CountTone(rs, Positive) + (if ToneOf(a) == Positive then 1 else 0)
    ensures CountTone(rs + [a], Negative) == CountTone(rs, Negative) + (if ToneOf(a) == Negative then 1 else 0)
    ensures CountTone(rs + [a], Neutral) == CountTone(rs, Neutral) + (if ToneOf(a) == Neutral then 1 else 0)
  {
    assert (rs + [a])[..|rs|] == rs;
  }

  /** Every review falls in exactly one class, so the three counts add up to
      the number of reviews. */
  lemma {:induction false} CountsPartition(rs: seq<SentimentAnalysis>)
    ensures CountTone(rs, Positive) + CountTone(rs, Negative) + CountTone(rs, Neutral) == |rs|
  {
    if |rs| > 0 {
      CountsPartition(rs[..|rs| - 1]);
    }
  }

  /** `sum(xs)`, added from the left. */
  function Sum(xs: seq<real>): real {
    if |xs| == 0 then 0.0 else Sum(xs[..|xs| - 1]) + xs[|xs| - 1]
  }

  /** Values between `lo` and `hi` add up to between `n * lo` and `n * hi`. */
  lemma {:induction false} SumWithin(xs: seq<real>, lo: real, hi: real)
    requires forall i :: 0 <= i < |xs| ==> lo <= xs[i] <= hi
    ensures |xs| as real * lo <= Sum(xs) <= |xs| as real * hi
  {
    if |xs| > 0 {
      var n := |xs| as real;
      SumWithin(xs[..|xs| - 1], lo, hi);
      assert (n - 1.0) * lo + lo == n * lo;
      assert (n - 1.0) * hi + hi == n * hi;
    }
  }

  /** The mean of values between `lo` and `hi` is between them too. */
  lemma MeanWithin(xs: seq<real>, lo: real, hi: real)
    requires |xs| > 0
    requires forall i :: 0 <= i < |xs| ==> lo <= xs[i] <= hi
    ensures lo <= Sum(xs) / |xs| as real <= hi
  {
    SumWithin(xs, lo, hi);
    QuotientWithin(Sum(xs), |xs| as real, lo, hi);
  }

  lemma QuotientWithin(s: real, n: real, lo: real, hi: real)
    requires n > 0.0 && n * lo <= s <= n * hi
    ensures lo <= s / n <= hi
  {
    var q := s / n;
    assert q * n == s;
  }

  /** `(count / total) * 100`. */
  function Percent(count: nat, total: nat): (r: real)
    requires total > 0
    ensures count <= total ==> 0.0 <= r <= 100.0
  {
    (count as real / total as real) * 100.0
  }

  /** Three shares of a whole are percentages that add up to 100. */
  lemma PercentagesSum(a: nat, b: nat, c: nat, total: nat)
    requires total > 0 && a + b + c == total
    ensures Percent(a, total) + Percent(b, total) + Percent(c, total) == 100.0
  {
    var t := total as real;
    var x, y, z := a as real / t, b as real / t, c as real / t;
    calc {
      (x + y + z - 1.0) * t;
      x * t + y * t + z * t - t;
      a as real + b as real + c as real - t;
      0.0;
    }
    ZeroProduct(x + y + z - 1.0, t);
    assert x * 100.0 + y * 100.0 + z * 100.0 == (x + y + z) * 100.0;
  }

  function PolarityValues(rs: seq<SentimentAnalysis>): (r: seq<real>)
    ensures |r| == |rs|
    ensures forall i :: 0 <= i < |rs| ==> r[i] == rs[i].textblob.polarity
  {
    seq(|rs|, i requires 0 <= i < |rs| => rs[i].textblob.polarity)
  }

  function SubjectivityValues(rs: seq<SentimentAnalysis>): (r: seq<real>)
    ensures |r| == |rs|
    ensures forall i :: 0 <= i < |rs| ==> r[i] == rs[i].textblob.subjectivity
  {
    seq(|rs|, i requires 0 <= i < |rs| => rs[i].textblob.subjectivity)
  }

  function CleanedTexts(rs: seq<SentimentAnalysis>): (r: seq<string>)
    ensures |r| == |rs|
    ensures forall i :: 0 <= i < |rs| ==> r[i] == rs[i].text
  {
    seq(|rs|, i requires 0 <= i < |rs| => rs[i].text)
  }

  /** The `summary` part of the result. */
  datatype Summary = Summary(
    totalReviews: nat,
    positivePercent: real,
    negativePercent: real,
    neutralPercent: real,
    averagePolarity: real,
    averageSubjectivity: real)

  /** The summary of a non-empty batch of analyses: the share of each class,
      which together make 100 percent, and the mean TextBlob scores, which
      stay within the range of the scores they average. */
  function Summarize(rs: seq<SentimentAnalysis>): (s: Summary)
    requires |rs| > 0
    ensures s.totalReviews == |rs|
    ensures s.positivePercent == Percent(CountTone(rs, Positive), |rs|)
    ensures s.negativePercent == Percent(CountTone(rs, Negative), |rs|)
    ensures s.neutralPercent == Percent(CountTone(rs, Neutral), |rs|)
    ensures s.positivePercent + s.negativePercent + s.neutralPercent == 100.0
    ensures s.averagePolarity == Sum(PolarityValues(rs)) / |rs| as real
    ensures s.averageSubjectivity == Sum(SubjectivityValues(rs)) / |rs| as real
  {
    var total := |rs|;
    CountsPartition(rs);
    PercentagesSum(CountTone(rs, Positive), CountTone(rs, Negative), CountTone(rs, Neutral), total);
    Summary(
      total,
      Percent(CountTone(rs, Positive), total),
      Percent(CountTone(rs, Negative), total),
      Percent(CountTone(rs, Neutral), total),
      Sum(PolarityValues(rs)) / total as real,
      Sum(SubjectivityValues(rs)) / total as real)
  }

  /** Averages of scores within the scorers' ranges stay within them. */
  lemma SummaryWithin(sc: Scorers, reviews: seq<string>, rs: seq<SentimentAnalysis>)
    requires |reviews| > 0 && rs == AnalyzeAll(sc, reviews)
    ensures (forall t :: -1.0 <= sc.blob(t).polarity <= 1.0) ==>
      -1.0 <= Summarize(rs).averagePolarity <= 1.0
    ensures (forall t :: 0.0 <= sc.blob(t).subjectivity <= 1.0) ==>
      0.0 <= Summarize(rs).averageSubjectivity <= 1.0
  {
    if forall t :: -1.0 <= sc.blob(t).polarity <= 1.0 {
      MeanWithin(PolarityValues(rs), -1.0, 1.0);
    }
    if forall t :: 0.0 <= sc.blob(t).subjectivity <= 1.0 {
      MeanWithin(SubjectivityValues(rs), 0.0, 1.0);
    }
  }

  /** The result of `analyze_reviews`: the empty dict for no reviews. */
  datatype ReviewAnalysis =
    | NoReviews
    | Analysis(reviews: seq<SentimentAnalysis>, summary: Summary, commonThemes: seq<string>)

  /** `analyze_sentiment` as a value, to map over a batch. */
  function Analyzer(sc: Scorers): string -> SentimentAnalysis {
    text => AnalyzeSentiment(sc, text)
  }

  /** One step of the count: the class of the compound score gains one and
      the other two stay as they are. */
  method Tally(compound: real, positive: nat, negative: nat, neutral: nat)
    returns (positive': nat, negative': nat, neutral': nat)
    ensures positive' == positive + (if Classify(compound) == Positive then 1 else 0)
    ensures negative' == negative + (if Classify(compound) == Negative then 1 else 0)
    ensures neutral' == neutral + (if Classify(compound) == Neutral then 1 else 0)
  {
    positive', negative', neutral' := positive, negative, neutral;
    if compound >= 0.05 {
      positive' := positive + 1;
    } else if compound <= -0.05 {
      negative' := negative + 1;
    } else {
      neutral' := neutral + 1;
    }
  }

  /** `[analyze_sentiment(r) for r in reviews]`. */
  function AnalyzeAll(sc: Scorers, reviews: seq<string>): seq<SentimentAnalysis> {
    Map(Analyzer(sc), reviews)
  }

  /** The loop of `analyze_reviews`: each review analysed in order while the
      three classes are counted. */
  method AnalyzeEach(sc: Scorers, reviews: seq<string>)
    returns (results: seq<SentimentAnalysis>, positive: nat, negative: nat, neutral: nat)
    ensures results == AnalyzeAll(sc, reviews)
    ensures positive == CountTone(results, Positive)
    ensures negative == CountTone(results, Negative)
    ensures neutral == CountTone(results, Neutral)
  {
    results, positive, negative, neutral := [], 0, 0, 0;
    var i := 0;
    while i < |reviews|
      invariant 0 <= i <= |reviews|
      invariant results == AnalyzeAll(sc, reviews[..i])
      invariant positive == CountTone(results, Positive)
      invariant negative == CountTone(results, Negative)
      invariant neutral == CountTone(results, Neutral)
    {
      var analysis := AnalyzeSentiment(sc, reviews[i]);
      CountToneAppend(results, analysis);
      MapAppend(Analyzer(sc), reviews, i);
      results := results + [analysis];
      positive, negative, neutral := Tally(analysis.vader.compound, positive, negative, neutral);
      i := i + 1;
    }
    assert reviews[..i] == reviews;
  }

  /** `analyze_reviews(reviews)`: nothing for no reviews; otherwise one
      analysis per review, in order, their summary (whose mean scores stay
      within the scorers' ranges) and the common themes of the cleaned
      texts. */
  method AnalyzeReviews(sc: Scorers, reviews: seq<string>) returns (r: ReviewAnalysis)
    ensures r.NoReviews? <==> |reviews| == 0
    ensures r.Analysis? ==> r.reviews == AnalyzeAll(sc, reviews)
    ensures r.Analysis? ==> r.summary == Summarize(r.reviews)
    ensures r.Analysis? && (forall t :: -1.0 <= sc.blob(t).polarity <= 1.0) ==>
      -1.0 <= r.summary.averagePolarity <= 1.0
    ensures r.Analysis? && (forall t :: 0.0 <= sc.blob(t).subjectivity <= 1.0) ==>
      0.0 <= r.summary.averageSubjectivity <= 1.0
    ensures r.Analysis? ==> r.commonThemes == ExtractCommonThemes(CleanedTexts(r.reviews))
  {
    if |reviews| == 0 {
      return NoReviews;
    }
    var results, positive, negative, neutral := AnalyzeEach(sc, reviews);
    var total := |reviews|;
    var summary := Summary(
      total,
      Percent(positive, total),
      Percent(negative, total),
      Percent(neutral, total),
      Sum(PolarityValues(results)) / total as real,
      Sum(SubjectivityValues(results)) / total as real);
    assert summary == Summarize(results);
    SummaryWithin(sc, reviews, results);
    r := Analysis(results, summary, ExtractCommonThemes(CleanedTexts(results)));
  }

  // ----- common themes -----

  /** A token kept for the theme count: longer than three characters and
      made only of letters. */
  predicate IsThemeWord(w: string) {
    |w| > 3 && AllAlpha(w)
  }

  /** The tokens kept for the theme count, in order. */
  function ThemeWords(tokens: seq<string>): (ws: seq<string>)
    ensures forall i :: 0 <= i < |ws| ==> IsThemeWord(ws[i]) && ws[i] in tokens
    ensures forall i :: 0 <= i < |tokens| && IsThemeWord(tokens[i]) ==> tokens[i] in ws
  {
    if |tokens| == 0 then []
    else
      var rest := ThemeWords(tokens[1..]);
      assert forall w :: w in tokens[1..] ==> w in tokens;
      assert forall i :: 1 <= i < |tokens| ==> tokens[i] == tokens[1..][i - 1];
      if IsThemeWord(tokens[0]) then [tokens[0]] + rest else rest
  }

  /** The words counted for the reviews: the kept tokens of each lower-cased
      review, review after review. */
  function Words(reviews: seq<string>): (ws: seq<string>)
    ensures forall i :: 0 <= i < |ws| ==> IsThemeWord(ws[i])
    ensures forall i :: 0 <= i < |ws| ==> exists k :: 0 <= k < |reviews| && ws[i] in Tokens(Lower(reviews[k]))
    ensures forall k, w :: 0 <= k < |reviews| && w in Tokens(Lower(reviews[k])) && IsThemeWord(w) ==> w in ws
  {
    if |reviews| == 0 then []
    else
      var front := Words(reviews[..|reviews| - 1]);
      var last := ThemeWords(Tokens(Lower(reviews[|reviews| - 1])));
      assert forall k :: 0 <= k < |reviews| - 1 ==> reviews[..|reviews| - 1][k] == reviews[k];
      var ws := front + last;
      assert forall i :: 0 <= i < |front| ==> ws[i] == front[i];
      assert forall i :: |front| <= i < |ws| ==> ws[i] == last[i - |front|];
      ws
  }

  /** The filter keeps every occurrence of a theme word and nothing else:
      `Counter` sees each kept word exactly as often as the review has it. */
  lemma {:induction false} ThemeWordsCount(tokens: seq<string>)
    ensures forall w :: multiset(ThemeWords(tokens))[w] == if IsThemeWord(w) then multiset(tokens)[w] else 0
    decreases |tokens|
  {
    if |tokens| > 0 {
      ThemeWordsCount(tokens[1..]);
      assert tokens == [tokens[0]] + tokens[1..];
    }
  }

  /** The filter works token by token, so it distributes over concatenation. */
  lemma {:induction false} ThemeWordsAppend(a: seq<string>, b: seq<string>)
    ensures ThemeWords(a + b) == ThemeWords(a) + ThemeWords(b)
    decreases |a|
  {
    if |a| == 0 {
      assert a + b == b;
    } else {
      var head := if IsThemeWord(a[0]) then [a[0]] else [];
      assert (a + b)[0] == a[0];
      assert (a + b)[1..] == a[1..] + b;
      assert ThemeWords(a + b) == head + ThemeWords(a[1..] + b);
      assert ThemeWords(a) == head + ThemeWords(a[1..]);
      ThemeWordsAppend(a[1..], b);
    }
  }

  /** One more review appends its kept tokens to the words counted so far. */
  lemma WordsAppend(reviews: seq<string>, r: string)
    ensures Words(reviews + [r]) == Words(reviews) + ThemeWords(Tokens(Lower(r)))
  {
    assert (reviews + [r])[..|reviews|] == reviews;
  }

  /** How often `w` occurs among `ws`: `Counter(ws)[w]`. */
  function Occurrences(ws: seq<string>, w: string): nat {
    multiset(ws)[w]
  }

  /** The count of each distinct word, as the sort key. */
  function CountKeys(ws: seq<string>, d: seq<string>): (keys: seq<real>)
    ensures |keys| == |d|
    ensures forall i :: 0 <= i < |d| ==> keys[i] == Occurrences(ws, d[i]) as real
  {
    seq(|d|, i requires 0 <= i < |d| => Occurrences(ws, d[i]) as real)
  }

  /** The distinct words ranked by count, most frequent first, ties in order
      of first occurrence: `Counter(ws).most_common()`. */
  function MostCommon(ws: seq<string>): (r: seq<string>)
    ensures |r| == |Distinct(ws)|
    ensures NoDup(r)
    ensures forall i :: 0 <= i < |r| ==> r[i] in ws
  {
    var d := Distinct(ws);
    var order := RankOrder(CountKeys(ws, d));
    var r := Gather(d, order);
    assert forall i, j :: 0 <= i < j < |r| ==> order[i] != order[j];
    r
  }

  /** `extract_common_themes(reviews)`: at most five distinct words, each
      longer than three letters, lower-case, and a token of one of the
      reviews. */
  function ExtractCommonThemes(reviews: seq<string>): (themes: seq<string>)
    ensures |themes| <= 5
    ensures NoDup(themes)
    ensures forall i :: 0 <= i < |themes| ==> IsThemeWord(themes[i]) && themes[i] in Words(reviews)
  {
    TopFive(Words(reviews))
  }

  /** `most_common()` lists every distinct word. */
  lemma MostCommonComplete(ws: seq<string>)
    ensures forall w :: w in ws ==> w in MostCommon(ws)
  {
    var d := Distinct(ws);
    var order := RankOrder(CountKeys(ws, d));
    var r := MostCommon(ws);
    assert r == Gather(d, order);
    forall w | w in ws
      ensures w in r
    {
      var m :| 0 <= m < |d| && d[m] == w;
      assert m in order;
      var p :| 0 <= p < |order| && order[p] == m;
      assert r[p] == w;
    }
  }

  /** Along `most_common()` counts never increase, and equal counts keep the
      order in which the words first appeared. */
  lemma MostCommonRanked(ws: seq<string>)
    ensures forall i, j :: 0 <= i < j < |MostCommon(ws)| ==>
      Occurrences(ws, MostCommon(ws)[i]) >= Occurrences(ws, MostCommon(ws)[j])
    ensures forall i, j :: (0 <= i < j < |MostCommon(ws)| &&
      Occurrences(ws, MostCommon(ws)[i]) == Occurrences(ws, MostCommon(ws)[j])) ==>
      FirstIndex(ws, MostCommon(ws)[i]) < FirstIndex(ws, MostCommon(ws)[j])
  {
    var d := Distinct(ws);
    var keys := CountKeys(ws, d);
    var order := RankOrder(keys);
    var r := MostCommon(ws);
    assert r == Gather(d, order);
    forall i, j | 0 <= i < j < |r|
      ensures Occurrences(ws, r[i]) >= Occurrences(ws, r[j])
      ensures Occurrences(ws, r[i]) == Occurrences(ws, r[j]) ==> FirstIndex(ws, r[i]) < FirstIndex(ws, r[j])
    {
      assert keys[order[i]] >= keys[order[j]];
      if Occurrences(ws, r[i]) == Occurrences(ws, r[j]) {
        assert order[i] < order[j];
      }
    }
  }

  /** `Counter(ws).most_common(5)`, words only. */
  function TopFive(ws: seq<string>): (top: seq<string>)
    ensures |top| <= 5
    ensures NoDup(top)
    ensures forall i :: 0 <= i < |top| ==> top[i] in ws
  {
    Take(MostCommon(ws), 5)
  }

  /** Among the five most common words counts never increase, and equal
      counts keep the order in which the words first appeared. */
  lemma TopFiveOrdered(ws: seq<string>)
    ensures forall i, j :: 0 <= i < j < |TopFive(ws)| ==>
      Occurrences(ws, TopFive(ws)[i]) >= Occurrences(ws, TopFive(ws)[j])
    ensures forall i, j :: (0 <= i < j < |TopFive(ws)| &&
      Occurrences(ws, TopFive(ws)[i]) == Occurrences(ws, TopFive(ws)[j])) ==>
      FirstIndex(ws, TopFive(ws)[i]) < FirstIndex(ws, TopFive(ws)[j])
  {
    var r := MostCommon(ws);
    MostCommonRanked(ws);
    assert forall i :: 0 <= i < |TopFive(ws)| ==> TopFive(ws)[i] == r[i];
  }

  /** Nothing more frequent is left out: a word not among the five most
      common comes after five of them, each at least as frequent as it, and
      with five or fewer distinct words every word is among them. */
  lemma TopFiveMostFrequent(ws: seq<string>)
    ensures |TopFive(ws)| == Min(5, |Distinct(ws)|)
    ensures forall w :: w in ws && w !in TopFive(ws) ==>
      |TopFive(ws)| == 5 &&
      forall i :: 0 <= i < 5 ==> Occurrences(ws, TopFive(ws)[i]) >= Occurrences(ws, w)
  {
    var r := MostCommon(ws);
    var top := TopFive(ws);
    MostCommonComplete(ws);
    MostCommonRanked(ws);
    assert forall i :: 0 <= i < |top| ==> top[i] == r[i];
    forall w | w in ws && w !in top
      ensures |top| == 5
      ensures forall i :: 0 <= i < 5 ==> Occurrences(ws, top[i]) >= Occurrences(ws, w)
    {
      var p :| 0 <= p < |r| && r[p] == w;
      assert p >= |top|;
    }
  }

  /** Every character of a token is a character of the text. */
  lemma {:induction false} TokenChars(s: string)
    ensures forall i, j :: 0 <= i < |Tokens(s)| && 0 <= j < |Tokens(s)[i]| ==> Tokens(s)[i][j] in s
    decreases |s|
  {
    if |s| > 0 {
      if IsSpace(s[0]) {
        TokenChars(s[1..]);
      } else {
        var k := NonSpaceRun(s);
        TokenChars(s[k..]);
        var ts := Tokens(s);
        assert ts == [s[..k]] + Tokens(s[k..]);
        assert forall j :: 0 <= j < k ==> s[..k][j] in s;
        assert forall c :: c in s[k..] ==> c in s;
      }
    }
  }

  /** The counted words, and so the themes, are lower case. */
  lemma {:induction false} WordsLowerCase(reviews: seq<string>)
    ensures forall i :: 0 <= i < |Words(reviews)| ==> NoUpper(Words(reviews)[i])
    decreases |reviews|
  {
    if |reviews| > 0 {
      var front := reviews[..|reviews| - 1];
      WordsLowerCase(front);
      var low := Lower(reviews[|reviews| - 1]);
      TokenChars(low);
      var ws := Words(reviews);
      var last := ThemeWords(Tokens(low));
      assert ws == Words(front) + last;
      forall i | 0 <= i < |last|
        ensures NoUpper(last[i])
      {
        var w := last[i];
        assert w in Tokens(low);
        forall j | 0 <= j < |w|
          ensures !IsUpper(w[j])
        {
          assert w[j] in low;
        }
      }
    }
  }
}
