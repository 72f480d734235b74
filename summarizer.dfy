/** The extractive summariser of nlp_modules/summarizer.py: sentences are
    scored by the normalised frequency of their content words and the best
    ones are kept in document order, as prose, as bullet points, or as a list
    of keywords.

    The regex fall-backs of summarizer.py are modelled: sentences are the pieces
    between runs of `.`, `!` and `?`, words are the `\b\w+\b` tokens. The
    stop-word set is a parameter (NLTK's English list, or `FallbackStopWords`
    when NLTK is missing), and so are TextBlob's noun phrases. */
module Summarizer {
  import opened Results
  import opened TextOps
  import opened Ranking

  /** The stop words used when NLTK's corpus cannot be loaded. */
  const FallbackStopWords: set<string> := {
    "i", "me", "my", "myself", "we", "our", "ours", "ourselves", "you", "your", "yours",
    "yourself", "yourselves", "he", "him", "his", "himself", "she", "her", "hers",
    "herself", "it", "its", "itself", "they", "them", "their", "theirs", "themselves",
    "what", "which", "who", "whom", "this", "that", "these", "those", "am", "is", "are",
    "was", "were", "be", "been", "being", "have", "has", "had", "having", "do", "does",
    "did", "doing", "a", "an", "the", "and", "but", "if", "or", "because", "as", "until",
    "while", "of", "at", "by", "for", "with", "through", "during", "before", "after",
    "above", "below", "up", "down", "in", "out", "on", "off", "over", "under", "again",
    "further", "then", "once"
  }

  // ----- preprocess_text -----

  /** `[s.strip() for s in pieces if s.strip()]`. */
  function StripAll(pieces: seq<string>): (r: seq<string>)
    ensures |r| <= |pieces|
    ensures forall k :: 0 <= k < |r| ==> r[k] != []
  {
    if pieces == [] then []
    else
      var s := Strip(pieces[0]);
      (if s == [] then [] else [s]) + StripAll(pieces[1..])
  }


  /** `StripAll` works piece by piece: a list of pieces gives the results of
      its parts one after the other. */
  lemma {:induction false} StripAllAppend(a: seq<string>, b: seq<string>)
    ensures StripAll(a + b) == StripAll(a) + StripAll(b)
    decreases |a|
  {
    if a == [] {
      assert a + b == b;
    } else {
      assert (a + b)[1..] == a[1..] + b;
      StripAllAppend(a[1..], b);
    }
  }

  /** One piece gives its stripped text when that is not blank, and nothing
      otherwise. */
  lemma StripAllOne(p: string)
    ensures StripAll([p]) == if Strip(p) == [] then [] else [Strip(p)]
  {
    assert [p][1..] == [];
  }

  /** What a preprocessed sentence looks like. */
  predicate CleanSentence(s: string) {
    s != [] && !IsSpace(s[0]) && !IsSpace(s[|s| - 1]) &&
    NoneOf(s, IsTerminator) && SingleSpaced(s)
  }

  lemma StripClean(p: string)
    requires NoneOf(p, IsTerminator) && SingleSpaced(p) && Strip(p) != []
    ensures CleanSentence(Strip(p))
  {
    var l := StripLeft(p);
    var r := Strip(p);
    StripLeftSuffix(p);
    StripRightPrefix(l);
    SingleSpacedStrip(p);
    assert r[0] == l[0];
    forall i | 0 <= i < |r| ensures !IsTerminator(r[i]) {
      assert r[i] == l[i] == p[|p| - |l| + i];
    }
  }

  lemma {:induction false} StripAllClean(pieces: seq<string>)
    requires forall k :: 0 <= k < |pieces| ==> NoneOf(pieces[k], IsTerminator) && SingleSpaced(pieces[k])
    ensures forall k :: 0 <= k < |StripAll(pieces)| ==> CleanSentence(StripAll(pieces)[k])
  {
    if pieces != [] {
      StripAllClean(pieces[1..]);
      if Strip(pieces[0]) != [] {
        StripClean(pieces[0]);
      }
    }
  }

  /** Collapse white space, strip, split on runs of sentence terminators and
      keep the stripped non-empty pieces. Every sentence is non-empty, holds
      no terminator, has no white space at either end and no white space
      other than single blanks. */
  function Preprocess(text: string): (r: seq<string>)
    ensures forall k :: 0 <= k < |r| ==> CleanSentence(r[k])
  {
    var c := CollapseSpaces(text);
    SingleSpacedStrip(c);
    PiecesSingleSpaced(Strip(c), IsTerminator);
    StripAllClean(Pieces(Strip(c), IsTerminator));
    StripAll(Pieces(Strip(c), IsTerminator))
  }

  // ----- calculate_word_frequencies -----

  /** `[w for w in ws if w.isalpha() and w not in stop]`. */
  function KeepQualifying(ws: seq<string>, stop: set<string>): (r: seq<string>)
    ensures forall w :: w in r <==> w in ws && IsAlpha(w) && w !in stop
  {
    if ws == [] then []
    else
      assert forall w :: w in ws <==> w == ws[0] || w in ws[1..];
      (if IsAlpha(ws[0]) && ws[0] !in stop then [ws[0]] else []) + KeepQualifying(ws[1..], stop)
  }

  /** The content words of a text: lower-cased tokens made of letters only
      that are not stop words. */
  function Qualifying(text: string, stop: set<string>): seq<string> {
    KeepQualifying(Tokens(Lower(text)), stop)
  }

  /** The largest count in ws of an element of xs. */
  function MaxOver(ws: seq<string>, xs: seq<string>): (m: nat)
    ensures forall x :: x in xs ==> multiset(ws)[x] <= m
    ensures xs != [] ==> exists x :: x in xs && multiset(ws)[x] == m
    ensures xs == [] ==> m == 0
  {
    if xs == [] then 0
    else
      var prev := MaxOver(ws, xs[..|xs| - 1]);
      var last := xs[|xs| - 1];
      assert forall x :: x in xs <==> x in xs[..|xs| - 1] || x == last;
      if multiset(ws)[last] > prev then multiset(ws)[last] else prev
  }

  /** `max(Counter(ws).values()) if ws else 1`. */
  function Normaliser(ws: seq<string>): (m: nat)
    ensures m >= 1
    ensures forall w :: w in ws ==> multiset(ws)[w] <= m
    ensures ws != [] ==> exists w :: w in ws && multiset(ws)[w] == m
  {
    if ws == [] then 1 else MaxOver(ws, ws)
  }

  /** The normalised frequency table: each content word's count divided by
      the count of the most frequent one. */
  function FrequencyTable(text: string, stop: set<string>): map<string, real> {
    Frequencies(Qualifying(text, stop))
  }

  function Frequencies(ws: seq<string>): map<string, real> {
    map w | w in ws :: multiset(ws)[w] as real / Normaliser(ws) as real
  }

  /** `calculate_word_frequencies`: count, then divide every entry in place. */
  method CalculateWordFrequencies(text: string, stop: set<string>) returns (freq: map<string, real>)
    ensures freq == FrequencyTable(text, stop)
  {
    var words := Qualifying(text, stop);
    freq := CountAndNormalise(words);
  }

  /** The part of `calculate_word_frequencies` after tokenising: `Counter`,
      then the loop that divides each entry by the largest count. */
  method CountAndNormalise(words: seq<string>) returns (freq: map<string, real>)
    ensures freq == Frequencies(words)
  {
    var keys := Unique(words);
    freq := map w | w in words :: multiset(words)[w] as real;
    assert words != [] ==> words[0] in freq;
    var maxFreq: real := if freq != map[] then MaxOver(words, words) as real else 1.0;
    assert maxFreq == Normaliser(words) as real;
    for k := 0 to |keys|
      invariant forall w :: w in freq <==> w in words
      invariant forall w :: w in freq ==>
        freq[w] == if w in keys[..k] then multiset(words)[w] as real / maxFreq else multiset(words)[w] as real
    {
      var w := keys[k];
      assert w !in keys[..k];
      PrefixGrows(keys, k);
      freq := freq[w := freq[w] / maxFreq];
    }
    PrefixWhole(keys);
  }

  lemma Scaled(c: nat, m: nat)
    requires 1 <= c <= m
    ensures 0.0 < c as real / m as real <= 1.0
    ensures c == m ==> c as real / m as real == 1.0
  {
  }

  lemma ScaledOrder(a: nat, b: nat, m: nat)
    requires m >= 1
    ensures a as real / m as real < b as real / m as real <==> a < b
    ensures a as real / m as real == b as real / m as real <==> a == b
  {
  }

  /** The table holds exactly the words; every value lies in (0, 1]; the most
      frequent words get 1; values compare as the counts do; and there is one
      entry per distinct word. */
  lemma FrequenciesCorrect(ws: seq<string>)
    ensures var t := Frequencies(ws);
      && (forall w :: w in t <==> w in ws)
      && (forall w :: w in t ==> 0.0 < t[w] <= 1.0)
      && (ws != [] ==> exists w :: w in t && t[w] == 1.0)
      && (forall v, w :: v in t && w in t ==> (t[v] < t[w] <==> multiset(ws)[v] < multiset(ws)[w]))
      && |t| == |Unique(ws)|
  {
    var t := Frequencies(ws);
    var m := Normaliser(ws);
    forall w | w in t ensures 0.0 < t[w] <= 1.0 {
      Scaled(multiset(ws)[w], m);
    }
    if ws != [] {
      var w :| w in ws && multiset(ws)[w] == m;
      Scaled(m, m);
    }
    forall v, w | v in t && w in t
      ensures t[v] < t[w] <==> multiset(ws)[v] < multiset(ws)[w]
    {
      ScaledOrder(multiset(ws)[v], multiset(ws)[w], m);
    }
    DistinctSetSize(Unique(ws));
    assert t.Keys == set x | x in Unique(ws);
  }

  // ----- score_sentences -----

  /** The sum of the table's values for the words of ws, 0 for a word the
      table does not hold. */
  function FreqSum(ws: seq<string>, freq: map<string, real>): real {
    if ws == [] then 0.0
    else
      var last := ws[|ws| - 1];
      FreqSum(ws[..|ws| - 1], freq) + (if last in freq then freq[last] else 0.0)
  }

  /** A sentence's score: the mean table value over its content words, 0 when
      it has none. */
  function SentenceScore(sentence: string, freq: map<string, real>, stop: set<string>): real {
    var ws := Qualifying(sentence, stop);
    if |ws| > 0 then FreqSum(ws, freq) / |ws| as real else 0.0
  }

  function SentenceScores(sentences: seq<string>, freq: map<string, real>, stop: set<string>): (r: seq<real>)
    ensures |r| == |sentences|
  {
    seq(|sentences|, i requires 0 <= i < |sentences| => SentenceScore(sentences[i], freq, stop))
  }

  /** `score_sentences`: the dictionary keyed 0 .. n-1 is a sequence. */
  method ScoreSentences(sentences: seq<string>, freq: map<string, real>, stop: set<string>)
    returns (scores: seq<real>)
    ensures scores == SentenceScores(sentences, freq, stop)
  {
    scores := [];
    for i := 0 to |sentences|
      invariant |scores| == i
      invariant forall j :: 0 <= j < i ==> scores[j] == SentenceScore(sentences[j], freq, stop)
    {
      var words := Qualifying(sentences[i], stop);
      if |words| > 0 {
        var score := 0.0;
        for j := 0 to |words|
          invariant score == FreqSum(words[..j], freq)
        {
          assert words[..j + 1][..j] == words[..j];
          if words[j] in freq {
            score := score + freq[words[j]];
          }
        }
        assert words[..|words|] == words;
        scores := scores + [score / |words| as real];
      } else {
        scores := scores + [0.0];
      }
    }
  }

  lemma {:induction false} FreqSumBounds(ws: seq<string>, freq: map<string, real>)
    requires forall w :: w in freq ==> 0.0 <= freq[w] <= 1.0
    ensures 0.0 <= FreqSum(ws, freq) <= |ws| as real
  {
    if ws != [] {
      FreqSumBounds(ws[..|ws| - 1], freq);
    }
  }

  /** With table values in [0, 1], as `FrequencyTable` produces, every
      sentence scores in [0, 1]. */
  lemma ScoreInUnit(sentence: string, freq: map<string, real>, stop: set<string>)
    requires forall w :: w in freq ==> 0.0 <= freq[w] <= 1.0
    ensures 0.0 <= SentenceScore(sentence, freq, stop) <= 1.0
  {
    var ws := Qualifying(sentence, stop);
    if |ws| > 0 {
      FreqSumBounds(ws, freq);
      var s := FreqSum(ws, freq);
      var n := |ws| as real;
      Fraction(s, n);
    }
  }

  lemma Fraction(s: real, n: real)
    requires 0.0 <= s <= n && n > 0.0
    ensures 0.0 <= s / n <= 1.0
  {
  }

  // ----- selecting sentences -----

  /** `int(x)`: truncation toward zero. */
  function Trunc(x: real): (t: int)
    ensures x >= 0.0 ==> t as real <= x < t as real + 1.0
    ensures x < 0.0 ==> t as real - 1.0 < x <= t as real
  {
    if x >= 0.0 then x.Floor else -((-x).Floor)
  }

  /** `max(1, int(n * ratio))`. */
  function SummaryCount(n: nat, ratio: real): (k: nat)
    ensures k >= 1
    ensures n as real * ratio >= 2.0 ==> k as real <= n as real * ratio < k as real + 1.0
    ensures n as real * ratio < 2.0 ==> k == 1
  {
    var t := Trunc(n as real * ratio);
    if t > 1 then t else 1
  }

  /** The selected positions: the min(k, n) best-scoring positions, ties to the
      earlier one, in increasing order, which is exactly what
      `sorted(idx for idx, _ in sorted(scores.items(), key=score, reverse=True)[:k])`
      yields. */
  predicate Chosen(scores: seq<real>, k: nat, sel: seq<nat>) {
    && |sel| == Min(k, |scores|)
    && (forall p, q :: 0 <= p < q < |sel| ==> sel[p] < sel[q])
    && (forall p :: 0 <= p < |sel| ==> sel[p] < |scores|)
    && (forall i: nat, j: nat :: i in sel && j !in sel && j < |scores| ==> Before(scores, i, j))
  }

  function Picked(sentences: seq<string>, sel: seq<nat>): (r: seq<string>)
    requires forall p :: 0 <= p < |sel| ==> sel[p] < |sentences|
    ensures |r| == |sel|
  {
    seq(|sel|, p requires 0 <= p < |sel| => sentences[sel[p]])
  }

  lemma SelectionChosen(scores: seq<real>, k: nat)
    ensures Chosen(scores, k, SelectInOrder(scores, k))
  {
    SelectInOrderCorrect(scores, k);
  }

  // ----- extractive_summarize -----

  /** The three shapes of the result dictionary. */
  datatype Summary =
    | TooShort(summary: string, summaryRatio: real, sentencesSelected: nat,
               compressionRatio: real, error: string)
    | Unchanged(summary: string, summaryRatio: real, sentencesSelected: nat,
                compressionRatio: real, originalSentences: nat)
    | Summarized(summary: string, originalLength: nat, summaryLength: nat,
                 originalSentences: nat, sentencesSelected: nat,
                 compressionRatio: real, summaryRatio: real)

  const MinSummaryLength := 50

  function Extractive(text: string, ratio: real, stop: set<string>): Summary {
    if |Strip(text)| < MinSummaryLength then
      TooShort(text, 1.0, 1, 1.0, "Text too short for summarization")
    else
      var sentences := Preprocess(text);
      if |sentences| <= 2 then
        Unchanged(text, 1.0, |sentences|, 1.0, |sentences|)
      else
        var scores := SentenceScores(sentences, FrequencyTable(text, stop), stop);
        var k := SummaryCount(|sentences|, ratio);
        var sel := SelectInOrder(scores, k);
        SelectionChosen(scores, k);
        var summary := Join(Picked(sentences, sel), " ");
        Summarized(summary, WordCount(text), WordCount(summary), |sentences|, k,
                   |summary| as real / |text| as real, ratio)
  }

  /** `extractive_summarize`. */
  method ExtractiveSummarize(text: string, ratio: real, stop: set<string>) returns (r: Summary)
    ensures r == Extractive(text, ratio, stop)
  {
    if |Strip(text)| < MinSummaryLength {
      return TooShort(text, 1.0, 1, 1.0, "Text too short for summarization");
    }
    var sentences := Preprocess(text);
    if |sentences| <= 2 {
      return Unchanged(text, 1.0, |sentences|, 1.0, |sentences|);
    }
    var freq := CalculateWordFrequencies(text, stop);
    var scores := ScoreSentences(sentences, freq, stop);
    var k := SummaryCount(|sentences|, ratio);
    var sel := SelectInOrder(scores, k);
    SelectionChosen(scores, k);
    var summary := Join(Picked(sentences, sel), " ");
    r := Summarized(summary, WordCount(text), WordCount(summary), |sentences|, k,
                    |summary| as real / |text| as real, ratio);
  }

  /** Which shape the result takes: too short below 50 non-blank-edged
      characters, the text itself for at most two sentences, and a summary
      otherwise; the fixed report values of the first two shapes. */
  lemma ExtractiveCases(text: string, ratio: real, stop: set<string>)
    ensures var r := Extractive(text, ratio, stop);
      && (r.TooShort? <==> |Strip(text)| < 50)
      && (r.TooShort? ==>
            r.summary == text && r.summaryRatio == 1.0 && r.sentencesSelected == 1 &&
            r.compressionRatio == 1.0)
      && (r.Unchanged? <==> |Strip(text)| >= 50 && |Preprocess(text)| <= 2)
      && (r.Unchanged? ==>
            r.summary == text && r.summaryRatio == 1.0 && r.compressionRatio == 1.0 &&
            r.sentencesSelected == r.originalSentences == |Preprocess(text)|)
      && (r.Summarized? <==> |Strip(text)| >= 50 && |Preprocess(text)| > 2)
  {
  }

  /** A summary joins, with single blanks, the sentences at the chosen
      positions: the max(1, int(n * ratio)) best-scoring ones, in document
      order. The reported count is that number, even when it exceeds n. */
  lemma ExtractiveSelects(text: string, ratio: real, stop: set<string>)
    requires Extractive(text, ratio, stop).Summarized?
    ensures var r := Extractive(text, ratio, stop);
      var sentences := Preprocess(text);
      var scores := SentenceScores(sentences, FrequencyTable(text, stop), stop);
      && r.originalSentences == |sentences| > 2
      && r.sentencesSelected == SummaryCount(|sentences|, ratio)
      && r.summaryRatio == ratio
      && r.originalLength == WordCount(text)
      && r.summaryLength == WordCount(r.summary)
      && exists sel :: Chosen(scores, r.sentencesSelected, sel) &&
           r.summary == Join(Picked(sentences, sel), " ")
  {
    var sentences := Preprocess(text);
    var scores := SentenceScores(sentences, FrequencyTable(text, stop), stop);
    var k := SummaryCount(|sentences|, ratio);
    SelectionChosen(scores, k);
  }

  /** With a ratio in [0, 1] no more sentences are asked for than there are. */
  lemma SummaryCountAtMost(n: nat, ratio: real)
    requires n >= 1 && 0.0 <= ratio <= 1.0
    ensures SummaryCount(n, ratio) <= n
  {
    var k := SummaryCount(n, ratio);
    if k > 1 {
      assert n as real * ratio <= n as real * 1.0;
    }
  }

  // ----- bullet_point_summary -----

  const Bullet := "\U{2022} "

  datatype Bullets = Bullets(bulletPoints: seq<string>, numPoints: nat, originalSentences: Option<nat>)

  function BulletPoints(text: string, maxPoints: int, stop: set<string>): Bullets {
    var sentences := Preprocess(text);
    if |sentences| <= maxPoints then
      Bullets(seq(|sentences|, i requires 0 <= i < |sentences| => Bullet + sentences[i]), |sentences|, None)
    else
      var scores := SentenceScores(sentences, FrequencyTable(text, stop), stop);
      var sel := SelectInOrder(scores, SliceEnd(|sentences|, maxPoints));
      SelectionChosen(scores, SliceEnd(|sentences|, maxPoints));
      var points := seq(|sel|, p requires 0 <= p < |sel| => Bullet + sentences[sel[p]]);
      Bullets(points, |points|, Some(|sentences|))
  }

  /** `bullet_point_summary`. */
  method BulletPointSummary(text: string, maxPoints: int, stop: set<string>) returns (r: Bullets)
    ensures r == BulletPoints(text, maxPoints, stop)
  {
    var sentences := Preprocess(text);
    if |sentences| <= maxPoints {
      var points := seq(|sentences|, i requires 0 <= i < |sentences| => Bullet + sentences[i]);
      return Bullets(points, |sentences|, None);
    }
    var freq := CalculateWordFrequencies(text, stop);
    var scores := ScoreSentences(sentences, freq, stop);
    var e := SliceEnd(|sentences|, maxPoints);
    var sel := SelectInOrder(scores, e);
    SelectionChosen(scores, e);
    var points := seq(|sel|, p requires 0 <= p < |sel| => Bullet + sentences[sel[p]]);
    r := Bullets(points, |points|, Some(|sentences|));
  }

  /** Every point is a bullet before a sentence, and the count is reported.
      With at most maxPoints sentences each becomes a point, in order;
      otherwise the best maxPoints (a negative maxPoints drops that many from
      the end of the ranking) are kept in document order. */
  lemma BulletPointsCorrect(text: string, maxPoints: int, stop: set<string>)
    ensures var r := BulletPoints(text, maxPoints, stop);
      var sentences := Preprocess(text);
      var scores := SentenceScores(sentences, FrequencyTable(text, stop), stop);
      && r.numPoints == |r.bulletPoints|
      && (|sentences| <= maxPoints ==>
            r.originalSentences == None && |r.bulletPoints| == |sentences| &&
            forall i :: 0 <= i < |sentences| ==> r.bulletPoints[i] == Bullet + sentences[i])
      && (|sentences| > maxPoints ==>
            r.originalSentences == Some(|sentences|) &&
            |r.bulletPoints| == SliceEnd(|sentences|, maxPoints) &&
            (maxPoints >= 0 ==> |r.bulletPoints| == maxPoints) &&
            exists sel :: Chosen(scores, SliceEnd(|sentences|, maxPoints), sel) &&
              forall p :: 0 <= p < |sel| ==> r.bulletPoints[p] == Bullet + sentences[sel[p]])
  {
    var sentences := Preprocess(text);
    if |sentences| > maxPoints {
      var scores := SentenceScores(sentences, FrequencyTable(text, stop), stop);
      SelectionChosen(scores, SliceEnd(|sentences|, maxPoints));
    }
  }

  // ----- keyword_summary -----

  datatype Keywords = Keywords(keywords: seq<string>, keyPhrases: seq<string>,
                               wordFrequencies: map<string, real>, totalUniqueWords: nat)

  /** The table's values in its iteration order, first appearance. */
  function TableScores(freq: map<string, real>, keys: seq<string>): (r: seq<real>)
    requires forall w :: w in keys ==> w in freq
    ensures |r| == |keys|
  {
    seq(|keys|, i requires 0 <= i < |keys| => freq[keys[i]])
  }

  function KeywordsOf(text: string, stop: set<string>, numKeywords: int, nounPhrases: seq<string>): Keywords {
    RankKeywords(Qualifying(text, stop), numKeywords, nounPhrases)
  }

  /** The keyword report for the content words ws. */
  function RankKeywords(ws: seq<string>, numKeywords: int, nounPhrases: seq<string>): Keywords {
    var freq := Frequencies(ws);
    var keys := Unique(ws);
    var top := Leading(keys, Rank(TableScores(freq, keys)), SliceEnd(|keys|, numKeywords));
    Keywords(top, Firsts(MostCommon(nounPhrases, 5)), map w | w in top :: freq[w], |freq|)
  }

  /** The keys at the first e ranked positions: `[w for w, _ in ranked[:e]]`. */
  function Leading(keys: seq<string>, ranked: seq<nat>, e: nat): (top: seq<string>)
    requires e <= |ranked| && forall p :: 0 <= p < |ranked| ==> ranked[p] < |keys|
    ensures |top| == e && forall w :: w in top ==> w in keys
    ensures forall p :: 0 <= p < e ==> top[p] == keys[ranked[p]]
  {
    seq(e, p requires 0 <= p < e => keys[ranked[p]])
  }

  /** `[x for x, _ in pairs]`. */
  function Firsts(pairs: seq<(string, nat)>): (r: seq<string>)
    ensures |r| == |pairs| && forall p :: 0 <= p < |pairs| ==> r[p] == pairs[p].0
  {
    seq(|pairs|, p requires 0 <= p < |pairs| => pairs[p].0)
  }

  /** `keyword_summary`. */
  method KeywordSummary(text: string, stop: set<string>, numKeywords: int, nounPhrases: seq<string>)
    returns (r: Keywords)
    ensures r == KeywordsOf(text, stop, numKeywords, nounPhrases)
  {
    var words := Qualifying(text, stop);
    var freq := CountAndNormalise(words);
    var keys := Unique(words);
    var top := Leading(keys, Rank(TableScores(freq, keys)), SliceEnd(|keys|, numKeywords));
    r := Keywords(top, Firsts(MostCommon(nounPhrases, 5)), map w | w in top :: freq[w], |freq|);
  }

  /** Ranking the normalised table orders the words as ranking their counts. */
  lemma TableOrdersAsCounts(ws: seq<string>)
    ensures SameOrder(TableScores(Frequencies(ws), Unique(ws)), Tally(ws))
  {
    var keys := Unique(ws);
    var m := Normaliser(ws);
    var a := TableScores(Frequencies(ws), keys);
    var b := Tally(ws);
    forall i: nat, j: nat | i < |a| && j < |a|
      ensures Before(a, i, j) <==> Before(b, i, j)
    {
      ScaledOrder(multiset(ws)[keys[i]], multiset(ws)[keys[j]], m);
    }
  }

  /** For the content words ws of a text (`KeywordsOf` passes
      `Qualifying(text, stop)`), the keywords are the words of
      `Counter(ws).most_common(k)` for the slice end k, so MostCommonCorrect
      applies: distinct content words, by non-increasing count, ties in
      first-seen order, none left out more frequent. Each keeps its table
      value; the phrases are the five most common noun phrases; the total
      counts distinct content words. */
  lemma KeywordsCorrect(ws: seq<string>, numKeywords: int, nounPhrases: seq<string>)
    ensures var r := RankKeywords(ws, numKeywords, nounPhrases);
      var mc := MostCommon(ws, SliceEnd(|Unique(ws)|, numKeywords));
      var pc := MostCommon(nounPhrases, 5);
      && |r.keywords| == |mc| && (forall p :: 0 <= p < |mc| ==> r.keywords[p] == mc[p].0)
      && (forall w :: w in r.wordFrequencies <==> w in r.keywords)
      && (forall w :: w in r.wordFrequencies ==>
            r.wordFrequencies[w] == multiset(ws)[w] as real / Normaliser(ws) as real)
      && |r.keyPhrases| == |pc| && (forall p :: 0 <= p < |pc| ==> r.keyPhrases[p] == pc[p].0)
      && r.totalUniqueWords == |Unique(ws)|
  {
    var keys := Unique(ws);
    TableOrdersAsCounts(ws);
    RankSameOrder(TableScores(Frequencies(ws), keys), Tally(ws));
    FrequenciesCorrect(ws);
    var e := SliceEnd(|keys|, numKeywords);
    assert Min(e, |keys|) == e;
  }
}
