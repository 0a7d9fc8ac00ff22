# Product research assistant: scoring, recommendation and review analysis

This project models the three agents that hold the data logic of the AI
research assistant: the comparative analysis agent, the recommendation agent
and the review analysis agent. The model is written in Dafny, and the
properties their code promises are proved about it.

- **Comparative analysis** (`Comparative`, `Normalization`, `Prices`,
  `Rounding`, `Ranking`). The agent:
  - parses each product's price by dropping `$` and `,` and reading a
    decimal;
  - min-max normalises the negated prices, the feature counts and the
    review polarities;
  - combines them with the price, features and sentiment weights;
  - rounds to two decimals;
  - sorts stably by descending score;
  - cuts the list to the top `top_n`;
  - projects the result into comparison-table rows.
- **Recommendation** (`Recommendation`, `Extrema`). The agent:
  - takes the first product as the primary pick and the next
    `max_alternatives` as alternatives;
  - derives pros, cons, strengths, the reason for an alternative and its
    key strength from threshold rules on the normalised fields;
  - names the cheapest and the best-reviewed product in the comparison
    highlights;
  - assembles the final advice.
- **Review analysis** (`Cleaning`, `Reviews`). The agent:
  - strips HTML tags, URLs, mentions, hashtags and digit runs from each
    review, then surrounding whitespace;
  - scores the cleaned text with two sentiment scorers;
  - classifies each review on the compound score;
  - reports the three class percentages and the mean polarity and
    subjectivity;
  - extracts the five most common theme words, with ties in first-occurrence
    order.
- **The chain between them** (`Pipeline`). The application stores the whole
  review analysis as the product's `review_summary`, but the scorer reads
  `average_polarity` at the top level of that value, where the analysis
  never puts it (it sits under `summary`). As a result, every product's
  sentiment normalises to 0.5, and no recommendation text can depend on
  the reviews.

Python's behaviour is modelled explicitly:

| Python | Model |
|---|---|
| `dict.get` defaults | Option fields with accessor defaults |
| slicing, including negative bounds | `Seqs.Slice`, `Seqs.Take` |
| `min`/`max` | keep the first extremum |
| `sorted(..., reverse=True)` | stable |
| `Counter.most_common` | keeps insertion order among ties |
| `round(x, 2)` | round-half-even on exact reals |
| `:.2f` | its decimal text |
| an exception inside a list comprehension | the first failing element's error (`Wrappers.Collect`) |

The foreign sentiment scorers (VADER and TextBlob) are parameters: functions
from text to scores.

## Model

| member | source | states |
|---|---|---|
| Prices.RemoveChar | agents/comparative_analysis.py:37 | `replace(c, '')` leaves no `c` and keeps every other character with its multiplicity |
| Prices.RemoveCharAppend | agents/comparative_analysis.py:37 | removal works piecewise, so the kept characters stay in their original order |
| Prices.RemoveCharAbsent | agents/comparative_analysis.py:37 | removing a character the text does not contain leaves the text unchanged |
| Prices.StripCurrency | agents/comparative_analysis.py:37 | after removing `$` and `,` neither remains, and every other character keeps its multiplicity |
| Prices.ParseUnsignedIff | agents/comparative_analysis.py:37 | an unsigned number reads exactly when it is digits, optionally split by one point with at least one digit in all |
| Prices.ParseDecimalSucceedsIff | agents/comparative_analysis.py:37 | `float()` of a text succeeds exactly when the stripped text is an optionally signed decimal literal |
| Prices.ParseNatToString | agents/comparative_analysis.py:37 | the decimal text of a whole number parses back to that number |
| Prices.ParseUnsignedWhole | agents/comparative_analysis.py:37 | a digit string reads as the whole number it spells in base 10 |
| Prices.ParseUnsignedPoint | agents/comparative_analysis.py:37 | `i.f` with digit strings `i` and `f`, not both empty, reads as `i` plus `f / 10^len(f)` |
| Prices.PointValue | agents/comparative_analysis.py:37 | the fractional digits add less than one to the whole part |
| Prices.DigitsBelowPow10 | agents/comparative_analysis.py:37 | `n` digits spell a number below `10^n` |
| Prices.ParseSignedMinus | agents/comparative_analysis.py:37 | a leading `-` negates the value of the unsigned literal after it, and fails when that fails |
| Prices.ParseSignedPlus | agents/comparative_analysis.py:37 | a leading `+` leaves the value of the literal after it |
| Prices.ParseSignedUnsigned | agents/comparative_analysis.py:37 | text without a leading sign reads as the unsigned literal it is |
| Prices.ParsePricePoint | agents/comparative_analysis.py:37 | a price whose text without `$` and `,` is `i.f` reads as `i` plus `f / 10^len(f)` |
| Prices.ParsePriceExample | agents/comparative_analysis.py:37 | the catalogue's price text `"$1,299.99"` reads as 1299.99 |
| Prices.ParsePriceWhole | agents/comparative_analysis.py:37 | a price whose text without `$` and `,` is a digit string reads as that whole number |
| Wrappers.Collect | agents/comparative_analysis.py:37-40 | a comprehension that may raise succeeds exactly when every element does, and then yields each element's value in order |
| Wrappers.CollectFirstFailure | agents/comparative_analysis.py:37-40 | when it fails, the error raised is that of the first failing element |
| Comparative.ScoringPrice | agents/comparative_analysis.py:37-39 | a missing price reads 0, a numeric price reads as itself, and a text price reads exactly when it parses after `$` and `,` are dropped, as the parsed value; a failure names the unreadable text |
| Comparative.ScoringPrices | agents/comparative_analysis.py:37-40 | the price list exists exactly when every product's price reads, and then holds each product's price in order |
| Comparative.ScoringPricesFirstFailure | agents/comparative_analysis.py:37-40 | a failed price list raises the error of the first unreadable price |
| Comparative.FeatureCounts | agents/comparative_analysis.py:41 | one entry per product: the number of its key features |
| Products.Polarities | agents/comparative_analysis.py:42-43 | one entry per product: the top-level `average_polarity` of its review summary, 0 when either is missing |
| Normalization.Normalize | agents/comparative_analysis.py:17-29 | same length as the input; all 0.5 for a constant list; every entry within [0, 1]; order-preserving |
| Normalization.RangeZeroIff | agents/comparative_analysis.py:22-27 | the range is zero exactly when the list is constant, so there is no division by zero on the other branch |
| Normalization.NormalizeExtremes | agents/comparative_analysis.py:22-29 | for a non-constant list, an entry maps to 0 exactly when it is the minimum and to 1 exactly when it is the maximum |
| Normalization.NormalizeNegate | agents/comparative_analysis.py:46 | normalising the negated values mirrors the normalised values: for every list, constant or not, each entry becomes one minus itself (a constant list's 0.5 stays 0.5) |
| Normalization.NormalizeIdempotent | agents/comparative_analysis.py:17-29 | normalising an already normalised list changes nothing |
| Rounding.RoundHalfEven | agents/comparative_analysis.py:61 | the result is an integer within one half of the input, and an exact half goes to the even neighbour |
| Rounding.Round2 | agents/comparative_analysis.py:61-64 | `round(x, 2)` lies within half a cent of `x` |
| Rounding.Round2Monotone | agents/comparative_analysis.py:61-64 | rounding to two decimals preserves order |
| Rounding.Round2OfCents | agents/comparative_analysis.py:61-64 | a whole number of cents is left unchanged |
| Rounding.Round2Idempotent | agents/comparative_analysis.py:61-64 | rounding twice is rounding once |
| Rounding.Round2Unit | agents/comparative_analysis.py:62-64 | a value in [0, 1] stays in [0, 1] after rounding |
| Rounding.ParseFormatFixed2 | agents/recommendation.py:38 | the `:.2f` text of a number reads back as that number rounded to two decimals |
| Comparative.ScoreAll | agents/comparative_analysis.py:51-65 | one record per product, in input order; every original field unchanged; all four score fields set |
| Comparative.UnscoredScoreAll | agents/comparative_analysis.py:59-65 | with the four written fields removed, the scored records are the input records |
| Comparative.ScoreAllUnit | agents/comparative_analysis.py:46-48 | every stored normalised price, feature and sentiment value lies in [0, 1] |
| Comparative.PriceFavourability | agents/comparative_analysis.py:37-48 | a cheaper product never gets a lower normalised price than a dearer one |
| Comparative.FeatureMonotone | agents/comparative_analysis.py:41-47 | more key features never gives a lower normalised feature value |
| Comparative.SentimentMonotone | agents/comparative_analysis.py:42-48 | a higher average polarity never gives a lower normalised sentiment |
| Comparative.ConstantFieldsHalf | agents/comparative_analysis.py:26-27 | a criterion on which all products are equal stores 0.5 for every product |
| Comparative.WeightedScoreBounds | agents/comparative_analysis.py:53-57 | with non-negative weights and inputs in [0, 1], the weighted sum lies between 0 and the sum of the three weights |
| Comparative.ScoreBounds | agents/comparative_analysis.py:53-61 | with non-negative weights, each stored score lies between 0 and the rounded sum of the three weights |
| Comparative.WeightedScoreMonotone | agents/comparative_analysis.py:53-57 | with non-negative weights, the weighted sum is monotone in each normalised input |
| Comparative.Dominance | agents/comparative_analysis.py:37-61 | a product no dearer, with no fewer features and no lower polarity, never scores below another |
| Comparative.PopularityIgnored | agents/comparative_analysis.py:53-57 | the popularity weight has no effect on the scored list |
| Comparative.IdenticalProductsTie | agents/comparative_analysis.py:53-65 | two identical input products get identical scored records |
| Comparative.ScoreBatch | agents/comparative_analysis.py:37-65 | the batch is scored exactly when every price reads, and then each product is scored with the prices read, in input order; otherwise it fails with the price list's error |
| Comparative.CalculateProductScores | agents/comparative_analysis.py:31-67 | empty input gives the empty list; scoring fails exactly when some price cannot be read, with the price list's error (the first unreadable price's); otherwise one record per product |
| Comparative.ScoresPermute | agents/comparative_analysis.py:59-67 | the scored list is a permutation of the input records, up to the four written fields |
| Comparative.ScoresStable | agents/comparative_analysis.py:67 | the scored list is the batch reordered by the stable descending order of the scores |
| Comparative.SortByScore | agents/comparative_analysis.py:67 | the sorted records have non-increasing scores, are a permutation of the batch, and follow the stable descending order |
| Ranking.RankOrder | agents/comparative_analysis.py:67 | a permutation of the indices: keys non-increasing, and equal keys in ascending index order |
| Ranking.StableDescendingUnique | agents/comparative_analysis.py:67 | there is only one stable descending order, so any stable sort gives the same list |
| Ranking.RankOrderPermutes | agents/comparative_analysis.py:67 | gathering by the rank order permutes the sequence |
| Seqs.Take | agents/comparative_analysis.py:91 | `s[:n]`: the first `min(n, len)` elements, or all but the last `-n` when `n` is negative |
| Comparative.GetTopProducts | agents/comparative_analysis.py:88-91 | fails exactly when scoring fails; otherwise the first `min(top_n, n)` scored products, with Python's meaning for a negative `top_n` |
| Comparative.PriceCell | agents/comparative_analysis.py:80 | the price column shows the stored price unparsed: the text as written, the number as stored, or `N/A` when missing |
| Comparative.CreateComparisonTable | agents/comparative_analysis.py:69-86 | one row per product, in order: the title or `N/A`; the brand from the specifications, `N/A` exactly when it is missing or itself `N/A`; the stored price or `N/A`; at most three joined features; the polarity; the score |
| Comparative.TableOfScoredIsOrdered | agents/comparative_analysis.py:67-86 | the table of a scored list lists overall scores in non-increasing order |
| Seqs.Slice | agents/recommendation.py:21 | `s[start:stop]` with a non-negative start, clamped to the length: empty when the stop is at or before the start, and a negative stop counted from the end |
| Recommendation.GenerateRecommendation | agents/recommendation.py:15-27 | the error result for no products; otherwise a report exactly when the highlights can be built, with the primary pick titled after the first product and each alternative after the product that follows it |
| Recommendation.FormatAlternatives | agents/recommendation.py:20-25 | the alternatives are the products right after the first, at most `max_alternatives` of them when that is not negative |
| Recommendation.AlternativesFollowPrimary | agents/recommendation.py:20-21 | the alternatives slice never contains the first position and keeps the list order |
| Recommendation.FormatPrimary | agents/recommendation.py:29-48 | the title defaults to `Unknown Product`; the pros, the cons and the final advice all come from the same extracted pros and cons |
| Recommendation.FillAll | agents/recommendation.py:42-43 | each pro and con is wrapped on its own, in order |
| Recommendation.SummaryStatesScore | agents/recommendation.py:36-39 | the summary sentence shows the score, and that text reads back as the score rounded to two decimals |
| Recommendation.ReasonStatesScore | agents/recommendation.py:55-56 | the reason sentence shows the alternative's score, which reads back as the score rounded to two decimals, and ends with the chosen reason and a full stop |
| Recommendation.CandidatePros | agents/recommendation.py:64-70 | each pro appears exactly when its threshold is passed, in the order the checks run: reviews, value, features |
| Recommendation.CandidateCons | agents/recommendation.py:75-79 | each con appears exactly when its threshold is passed, in the order the checks run: reviews, then pricing |
| Recommendation.ExtractPros | agents/recommendation.py:62-71 | the pros are a prefix of the admitted pros, cut to `max_pros_cons` |
| Recommendation.ExtractCons | agents/recommendation.py:73-80 | the cons are a prefix of the admitted cons, cut to `max_pros_cons` |
| Recommendation.FirstProKept | agents/recommendation.py:62-71 | with the cap at one, the single pro kept is the first one whose threshold is passed |
| Recommendation.ProsConsUncut | agents/recommendation.py:62-80 | under the default configuration, each pro and con is listed exactly when its threshold is passed |
| Recommendation.ProsConsExclusive | agents/recommendation.py:62-80 | no product is both praised and criticised for its reviews, or for its value and its pricing |
| Recommendation.StrengthList | agents/recommendation.py:84-90 | each strength appears exactly when its normalised field exceeds 0.8, in the order features, customer satisfaction, value |
| Recommendation.HighlightStrengths | agents/recommendation.py:82-91 | never empty; `multiple categories` exactly when no strength qualifies, and otherwise the qualifying strengths joined by a comma and a space |
| Recommendation.AllStrengths | agents/recommendation.py:82-91 | a product strong on all three criteria is described as `features, customer satisfaction, value` |
| Recommendation.JoinThree | agents/recommendation.py:91 | three parts join with the separator between each neighbouring pair |
| Text.JoinAppend | agents/recommendation.py:91 | joining one more part appends the separator and that part |
| Recommendation.AlternativeReason | agents/recommendation.py:93-99 | the three reasons correspond exactly to the three threshold regions, price first |
| Recommendation.KeyStrength | agents/recommendation.py:101-107 | the three key strengths correspond exactly to the three threshold regions, sentiment first |
| Recommendation.DescriptionsAgree | agents/recommendation.py:82-107 | the strengths, the key strength, the reason and the pros never contradict one another |
| Extrema.ArgMin | agents/recommendation.py:114 | `min` returns the first position holding a least key |
| Extrema.ArgMax | agents/recommendation.py:115 | `max` returns the first position holding a greatest key |
| Recommendation.HighlightPrice | agents/recommendation.py:114 | a missing price reads as 99999, a numeric price raises, and a text price reads exactly when it parses |
| Recommendation.MissingPriceReads | agents/recommendation.py:114 | the default text `99999` parses to 99999 |
| Recommendation.ComparisonHighlights | agents/recommendation.py:109-122 | empty for fewer than two products; otherwise built exactly when every price can be read |
| Recommendation.HighlightsNameBest | agents/recommendation.py:113-122 | the two highlight lines name the first cheapest product with its price and the first best-reviewed product |
| Text.SplitJoin | agents/recommendation.py:122 | joining lines with a newline and splitting on it gives the lines back |
| Recommendation.AdviceLines | agents/recommendation.py:124-136 | the heading; then `Strengths:` and one ticked line per pro, only when there are pros; then `Considerations:` and one warning line per con, only when there are cons |
| Recommendation.FinalAdviceLines | agents/recommendation.py:124-136 | the final advice splits back into exactly those lines |
| Cleaning.Run | agents/review_analysis.py:16 | a greedy run: every character in it qualifies, and the next one does not |
| Cleaning.TagLength | agents/review_analysis.py:12 | a tag matches exactly at a `<` with a non-`>` character after it and a later `>`, and ends at the first such `>` |
| Cleaning.UrlLength | agents/review_analysis.py:13 | a URL matches exactly at `http` followed by a non-space, and runs up to the next whitespace |
| Cleaning.MarkedWordLength | agents/review_analysis.py:14-15 | a mention or hashtag matches exactly at the mark followed by a word character, and takes every word character after it |
| Cleaning.Sub | agents/review_analysis.py:22 | substitution keeps only characters of its input |
| Cleaning.SubAll | agents/review_analysis.py:21-22 | applying the patterns in turn keeps only characters of the input |
| Cleaning.SubNumberNoDigits | agents/review_analysis.py:16 | after digit runs are removed, no digit is left |
| Cleaning.SubUnmatched | agents/review_analysis.py:22 | text where no position starts a match is left unchanged |
| Text.Strip | agents/review_analysis.py:23 | no whitespace at either end; text already without it is unchanged; the result is a contiguous piece of the input with only whitespace cut away around it |
| Cleaning.CleanedText | agents/review_analysis.py:19-23 | the cleaned text has no digits, no surrounding whitespace, and only characters of the input |
| Cleaning.CleanPlain | agents/review_analysis.py:19-23 | text with no markup and no surrounding whitespace comes through cleaning unchanged |
| Reviews.AnalyzeSentiment | agents/review_analysis.py:25-48 | both scorers see the cleaned text, which the record keeps |
| Reviews.SentimentSeesCleanText | agents/review_analysis.py:27-34 | reviews that clean to the same text get the same analysis |
| Reviews.Classify | agents/review_analysis.py:65-70 | positive exactly at compound >= 0.05, negative exactly at <= -0.05, neutral exactly in between |
| Reviews.Tally | agents/review_analysis.py:65-70 | each review adds one to the counter of its class and leaves the other two alone |
| Reviews.CountsPartition | agents/review_analysis.py:60-72 | the three class counts sum to the number of reviews |
| Reviews.AnalyzeEach | agents/review_analysis.py:55-70 | one analysis per review, in order, with the counters equal to the class counts |
| Reviews.Percent | agents/review_analysis.py:77-79 | a count no larger than the total gives a percentage in [0, 100] |
| Reviews.PercentagesSum | agents/review_analysis.py:77-79 | the three percentages sum to 100 |
| Reviews.SumWithin | agents/review_analysis.py:80-81 | a sum of values in [lo, hi] lies between n·lo and n·hi |
| Reviews.MeanWithin | agents/review_analysis.py:80-81 | the mean of values in [lo, hi] lies in [lo, hi] |
| Reviews.Summarize | agents/review_analysis.py:72-82 | the total, each class share as count over total times 100, shares summing to 100, and the two means |
| Reviews.SummaryWithin | agents/review_analysis.py:80-81 | if every polarity lies in [-1, 1] and every subjectivity in [0, 1], the means do too |
| Reviews.AnalyzeReviews | agents/review_analysis.py:50-84 | the empty result exactly for no reviews; otherwise the per-review analyses in order, their summary, the bounded means, and the themes of the cleaned texts |
| Text.TokensJoin | agents/review_analysis.py:92 | `split()` of words joined by single spaces gives the words back |
| Reviews.WordsLowerCase | agents/review_analysis.py:92 | every collected word is lower case |
| Reviews.ThemeWords | agents/review_analysis.py:93 | a token is kept exactly when it is longer than three characters and alphabetic |
| Reviews.ThemeWordsCount | agents/review_analysis.py:93 | each theme word is kept as often as it occurs among the tokens, and nothing else is kept |
| Reviews.ThemeWordsAppend | agents/review_analysis.py:93 | filtering two token lists one after the other is filtering their concatenation |
| Reviews.WordsAppend | agents/review_analysis.py:89-94 | one more review adds its kept tokens after the words collected so far |
| Reviews.Words | agents/review_analysis.py:89-94 | every theme word of every review's lowered tokens is collected, and nothing else |
| Seqs.Distinct | agents/review_analysis.py:96 | each distinct word once, in order of first occurrence |
| Reviews.MostCommon | agents/review_analysis.py:96-97 | each distinct word exactly once |
| Reviews.MostCommonComplete | agents/review_analysis.py:96 | every counted word is listed |
| Reviews.MostCommonRanked | agents/review_analysis.py:96-97 | counts are non-increasing, and ties keep first-occurrence order |
| Reviews.TopFive | agents/review_analysis.py:97 | at most five words, distinct, each counted |
| Reviews.TopFiveOrdered | agents/review_analysis.py:97 | the five are in non-increasing count order, with ties in first-occurrence order |
| Reviews.TopFiveMostFrequent | agents/review_analysis.py:96-97 | there are five themes unless fewer words are distinct, and a word left out occurs no more often than any theme |
| Reviews.ExtractCommonThemes | agents/review_analysis.py:86-97 | at most five distinct themes, each a collected theme word |
| Pipeline.StoredSummary | app.py:179 | the whole analysis is stored: its mean polarity sits under `summary`, and there is none at the top level; no reviews store the empty dict |
| Pipeline.StoredMeanPolarity | agents/review_analysis.py:73-81 | what is stored under `summary` is the mean of the analysed reviews' polarities |
| Pipeline.StoredPolarityIsZero | agents/comparative_analysis.py:42-43 | a product carrying a stored review analysis reads polarity 0, whatever its reviews say, although their mean polarity is stored with it |
| Pipeline.ScoredSentimentHalf | app.py:198 | after the stored analyses are scored, every product's normalised sentiment is 0.5 |
| Pipeline.SentimentSignalLost | app.py:198-199 | no recommended product is listed as highly rated or as having mixed reviews, or gets customer satisfaction as a strength or key strength |

## Left out

- Network search, page scraping and feature extraction belong to other agents and are outside this model.
- The Streamlit interface, session state and JSON persistence are outside this model; from the application, only the two lines that chain the agents are modelled.
- The VADER and TextBlob scorers are foreign models. They are parameters of `Reviews.AnalyzeSentiment`, and their score ranges appear only as hypotheses.
- `textwrap.fill` is a parameter of the recommendation functions; line breaking itself is not modelled.
- The pandas DataFrame is a sequence of rows; column types and empty-frame details are not modelled.
- Floating point is exact real arithmetic. `round` is round-half-even on the exact value, so binary-double rounding effects are not modelled.
- Character classes are ASCII:
  - `\d` and `isalpha` cover ASCII digits and letters only;
  - `\w` covers ASCII letters, digits and `_`;
  - `lower` maps ASCII capitals only;
  - `\s` and `split()` use Python's whitespace set.
- `float()` accepts an optionally signed decimal with at most one point and surrounding whitespace. Exponents, `inf`, `nan` and underscores are not modelled.
- `:.2f` of a negative value that rounds to zero prints `-0.00` in Python; the model prints `0.00`.
- Product fields other than those the agents read are not modelled. A key whose value is `None` is not modelled either: an `Option` field cannot hold it. For the price, the key features and the review summary the source raises on it (`float(None)` at `agents/comparative_analysis.py:39`, `len(None)` at `agents/comparative_analysis.py:41`, `None.get` at `agents/comparative_analysis.py:42`); for text fields it would show `None` where the model shows the default.
- A non-numeric `average_polarity` is not modelled: the model's polarity is always a number.
- Recommendation.AgentConfig: no contract; `config or RecommendationConfig()` only replaces a missing configuration.
- Prices.ParsePrice: no contract of its own; what it accepts is stated by `Prices.ParseDecimalSucceedsIff` and the values it gives by `Prices.ParsePricePoint` and `Prices.ParsePriceWhole`.
- Seqs.Slice: a negative start is not stated; every slice in the agents starts at 0 or 1.
- Recommendation.FinalAdvice: no contract of its own; its lines are stated by `Recommendation.AdviceLines`, and `Recommendation.FinalAdviceLines` shows the joined text splits back into them.
- Recommendation.ReasonText: no contract of its own; its content is stated by `Recommendation.ReasonStatesScore`.
- Recommendation.FormatAlternative: no contract of its own; its fields are stated through `Recommendation.FormatAlternatives`, `Recommendation.AlternativeReason` and `Recommendation.KeyStrength`.
- Cleaning.CleanReviewText: no contract of its own; its properties are stated in `Cleaning.CleanedText` and `Cleaning.CleanPlain`.
- Cleaning.Sub: the proved claims are narrower than "no match remains". Removing numbers leaves no digit (`Cleaning.SubNumberNoDigits`), and unmatched text is kept (`Cleaning.SubUnmatched`). No such claim is made for the other four patterns: a later removal can join text into a new match of an earlier pattern, so `ht1tp://x` cleans to `http://x`.
- Comparative.ScoreBounds: the upper bound is the sum of the weights rounded to two decimals, not the sum itself, because the stored score is rounded.
- Recommendation.HighlightsNameBest: it holds when no title or price text contains a newline. Otherwise the highlight text still has the same content, but it does not split back into two lines.
- Recommendation.FinalAdviceLines: it holds when the title, pros and cons contain no newline, for the same reason.
- Reviews.AnalyzeReviews: the bounds on the means are stated only under the scorers' documented ranges, which the model takes as hypotheses.
- `app.py:179` stores the review analysis with `average_polarity` nested under `summary`, so `agents/comparative_analysis.py:42-43` reads 0 for every product (see `Pipeline`).
- `agents/recommendation.py:114` raises on a numeric price or an unparsable price text, so the comparison highlights fail instead of skipping that product.
