/** `clean_review_text`: the five regular expressions removed from review
    text, in order, and the final `strip()`. Each pattern is modelled by the
    length of its match at the start of a string, zero meaning no match, and
    `re.sub(pattern, '', text)` by the left-to-right scan that removes every
    non-overlapping match. */
module Cleaning {
  import opened Wrappers
  import opened Text

  /** The patterns, in the order they are applied. */
  datatype Pattern =
    | HtmlTag  // <[^>]+>
    | Url      // http\S+
    | Mention  // \@\w+
    | Hashtag  // \#\w+
    | Number   // \d+

  /** Every pattern, in the order `clean_review_text` applies them. */
  const CleanPatterns: seq<Pattern> := [HtmlTag, Url, Mention, Hashtag, Number]

  /** Length of the longest prefix of `s` whose characters all satisfy `ok`:
      a greedy `+` or `*` over a character class. */
  function Run(s: string, ok: char -> bool): (k: nat)
    ensures k <= |s|
    ensures forall i :: 0 <= i < k ==> ok(s[i])
    ensures k < |s| ==> !ok(s[k])
    decreases |s|
  {
    if |s| == 0 || !ok(s[0]) then 0 else 1 + Run(s[1..], ok)
  }

  /** `<[^>]+>`: a `<`, at least one character other than `>`, and the first
      `>` after them. */
  function TagLength(s: string): (n: nat)
    ensures n <= |s|
    ensures n > 0 <==> |s| > 1 && s[0] == '<' && s[1] != '>' && '>' in s[1..]
    ensures n > 0 ==> n >= 3 && s[n - 1] == '>' && '>' !in s[1..n - 1]
  {
    if |s| < 2 || s[0] != '<' then 0
    else
      match IndexOf(s[1..], '>')
      case None => 0
      case Some(k) =>
        if k == 0 then 0
        else
          assert s[1..][..k] == s[1..k + 1];
          k + 2
  }

  /** The text begins with the four letters `http`. */
  predicate StartsHttp(s: string) {
    |s| >= 4 && s[..4] == "http"
  }

  /** `http\S+`: the letters `http` and every character up to the next
      whitespace, of which there must be at least one. */
  function UrlLength(s: string): (n: nat)
    ensures n <= |s|
    ensures n > 0 <==> StartsHttp(s) && |s| > 4 && !IsSpace(s[4])
    ensures n > 0 ==> n > 4 && NoSpace(s[4..n]) && (n < |s| ==> IsSpace(s[n]))
  {
    if StartsHttp(s) && |s| > 4 then
      var k := NonSpaceRun(s[4..]);
      assert forall i :: 0 <= i < k ==> s[4..4 + k][i] == s[4..][i] && !IsSpace(s[4..][i]);
      assert 4 + k < |s| ==> s[4 + k] == s[4..][k];
      if k == 0 then 0 else 4 + k
    else 0
  }

  /** `\@\w+` and `\#\w+`: the mark and the word characters after it, of
      which there must be at least one. */
  function MarkedWordLength(s: string, mark: char): (n: nat)
    ensures n <= |s|
    ensures n > 0 <==> |s| > 1 && s[0] == mark && IsWordChar(s[1])
    ensures n > 0 ==> (forall i :: 1 <= i < n ==> IsWordChar(s[i])) && (n < |s| ==> !IsWordChar(s[n]))
  {
    if |s| > 1 && s[0] == mark then
      var k := Run(s[1..], IsWordChar);
      assert forall i :: 1 <= i <= k ==> s[i] == s[1..][i - 1];
      if k == 0 then 0 else 1 + k
    else 0
  }

  /** Length of the match of `p` at the start of `s`; zero when there is
      none (no pattern matches the empty string). */
  function MatchLength(p: Pattern, s: string): (n: nat)
    ensures n <= |s|
  {
    match p
    case HtmlTag => TagLength(s)
    case Url => UrlLength(s)
    case Mention => MarkedWordLength(s, '@')
    case Hashtag => MarkedWordLength(s, '#')
    case Number => Run(s, IsDigit)
  }

  /** `re.sub(p, '', s)`: scanning from the left, a match is dropped and the
      scan resumes after it; where nothing matches, one character is kept.
      The result keeps characters of `s` only. */
  function Sub(p: Pattern, s: string): (r: string)
    ensures multiset(r) <= multiset(s)
    decreases |s|
  {
    if |s| == 0 then ""
    else
      var n := MatchLength(p, s);
      if n > 0 then
        SuffixMultiset(s, n);
        Sub(p, s[n..])
      else
        var rest := Sub(p, s[1..]);
        SuffixMultiset(s, 1);
        assert s == [s[0]] + s[1..];
        [s[0]] + rest
  }

  /** Applying each pattern in turn. */
  function SubAll(ps: seq<Pattern>, s: string): (r: string)
    ensures multiset(r) <= multiset(s)
    decreases |ps|
  {
    if |ps| == 0 then s else SubAll(ps[1..], Sub(ps[0], s))
  }

  /** `clean_review_text(text)`: the patterns removed in order, then the
      surrounding whitespace. */
  function CleanReviewText(text: string): string {
    Strip(SubAll(CleanPatterns, text))
  }

  /** No digit survives cleaning, no whitespace is left at either end, and
      every character left is one of the input's. */
  lemma CleanedText(text: string)
    ensures multiset(CleanReviewText(text)) <= multiset(text)
    ensures forall i :: 0 <= i < |CleanReviewText(text)| ==> !IsDigit(CleanReviewText(text)[i])
    ensures |CleanReviewText(text)| > 0 ==>
      !IsSpace(CleanReviewText(text)[0]) && !IsSpace(CleanReviewText(text)[|CleanReviewText(text)| - 1])
  {
    var d := Sub(Number, Sub(Hashtag, Sub(Mention, Sub(Url, Sub(HtmlTag, text)))));
    SubAllKeeps(text);
    SubNumberNoDigits(Sub(Hashtag, Sub(Mention, Sub(Url, Sub(HtmlTag, text)))));
    StripNoDigits(d);
  }

  lemma SubAllKeeps(text: string)
    ensures SubAll(CleanPatterns, text) == Sub(Number, Sub(Hashtag, Sub(Mention, Sub(Url, Sub(HtmlTag, text)))))
    ensures multiset(SubAll(CleanPatterns, text)) <= multiset(text)
  {
    assert SubAll(CleanPatterns, text)
      == Sub(Number, Sub(Hashtag, Sub(Mention, Sub(Url, Sub(HtmlTag, text)))));
  }

  /** Stripping a digit-free text keeps it digit-free and within its
      characters. */
  lemma StripNoDigits(d: string)
    requires forall i :: 0 <= i < |d| ==> !IsDigit(d[i])
    ensures multiset(Strip(d)) <= multiset(d)
    ensures forall i :: 0 <= i < |Strip(d)| ==> !IsDigit(Strip(d)[i])
  {
    StripKeeps(d);
    var r := Strip(d);
    forall i | 0 <= i < |r|
      ensures !IsDigit(r[i])
    {
      assert r[i] in multiset(d);
    }
  }

  /** Removing numbers leaves no digit: every digit starts a match. */
  lemma {:induction false} SubNumberNoDigits(s: string)
    ensures forall i :: 0 <= i < |Sub(Number, s)| ==> !IsDigit(Sub(Number, s)[i])
    decreases |s|
  {
    if |s| > 0 {
      var n := MatchLength(Number, s);
      if n > 0 {
        SubNumberNoDigits(s[n..]);
      } else {
        SubNumberNoDigits(s[1..]);
      }
    }
  }

  /** Where no position of `s` starts a match, substitution keeps `s`. */
  lemma {:induction false} SubUnmatched(p: Pattern, s: string)
    requires forall i :: 0 <= i < |s| ==> MatchLength(p, s[i..]) == 0
    ensures Sub(p, s) == s
    decreases |s|
  {
    if |s| > 0 {
      assert MatchLength(p, s[0..]) == 0;
      assert s[0..] == s;
      forall i | 0 <= i < |s| - 1
        ensures MatchLength(p, s[1..][i..]) == 0
      {
        assert s[1..][i..] == s[i + 1..];
      }
      SubUnmatched(p, s[1..]);
      assert s == [s[0]] + s[1..];
    }
  }

  /** Text with none of the five kinds of markup: no `<`, `@`, `#`, digit
      or `http`. */
  predicate Plain(s: string) {
    forall i :: 0 <= i < |s| ==>
      s[i] != '<' && s[i] != '@' && s[i] != '#' && !IsDigit(s[i]) && !StartsHttp(s[i..])
  }

  /** No position of plain text starts a match, so substitution keeps it. */
  lemma PlainUnmatched(p: Pattern, text: string)
    requires Plain(text)
    ensures Sub(p, text) == text
  {
    forall i | 0 <= i < |text|
      ensures MatchLength(p, text[i..]) == 0
    {
      assert text[i..][0] == text[i];
    }
    SubUnmatched(p, text);
  }

  /** Plain text without surrounding whitespace comes through cleaning
      unchanged. */
  lemma CleanPlain(text: string)
    requires Plain(text)
    requires |text| == 0 || (!IsSpace(text[0]) && !IsSpace(text[|text| - 1]))
    ensures CleanReviewText(text) == text
  {
    PlainUnmatched(HtmlTag, text);
    PlainUnmatched(Url, text);
    PlainUnmatched(Mention, text);
    PlainUnmatched(Hashtag, text);
    PlainUnmatched(Number, text);
    SubAllKeeps(text);
  }
}
