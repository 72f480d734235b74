/** The sentiment heuristics of nlp_modules/sentiment_analyzer.py: polarity
    thresholds, keyword-based emotion scores, the intensifier/diminisher
    ratio, and the comparison of several texts.

    TextBlob's polarity, subjectivity and sentence split are inputs (a
    `Blob`); everything computed from them is modelled. */
module Sentiment {
  import opened Results
  import opened TextOps
  import opened Ranking

  datatype Label = Positive | Negative | Neutral

  /** The label rule, for the whole text and for each sentence: above 0.1 is
      positive, below -0.1 negative. */
  function LabelOf(polarity: real): (l: Label)
    ensures l == Positive <==> polarity > 0.1
    ensures l == Negative <==> polarity < -0.1
  {
    if polarity > 0.1 then Positive
    else if polarity < -0.1 then Negative
    else Neutral
  }

  function Mirror(l: Label): Label {
    match l
    case Positive => Negative
    case Negative => Positive
    case Neutral => Neutral
  }

  function Grade(l: Label): int {
    match l
    case Negative => -1
    case Neutral => 0
    case Positive => 1
  }

  /** The labels are symmetric around polarity 0 and never go down as the
      polarity goes up; the band [-0.1, 0.1], ends included, is Neutral. */
  lemma LabelRule(p: real, q: real)
    ensures LabelOf(-p) == Mirror(LabelOf(p))
    ensures p <= q ==> Grade(LabelOf(p)) <= Grade(LabelOf(q))
    ensures LabelOf(p) == Neutral <==> -0.1 <= p <= 0.1
  {
  }

  // ----- analyze_emotions -----

  /** The six emotions of the keyword table, in the table's order. */
  datatype Emotion = Joy | Sadness | Anger | Fear | Surprise | Disgust

  const AllEmotions: seq<Emotion> := [Joy, Sadness, Anger, Fear, Surprise, Disgust]

  /** The key under which the result dictionary reports an emotion. */
  function Name(e: Emotion): string {
    match e
    case Joy => "joy"
    case Sadness => "sadness"
    case Anger => "anger"
    case Fear => "fear"
    case Surprise => "surprise"
    case Disgust => "disgust"
  }

  function EmotionKeywords(e: Emotion): (r: seq<string>)
    ensures forall k :: 0 <= k < |r| ==> |r[k]| > 0
  {
    match e
    case Joy => ["happy", "joy", "excited", "wonderful", "amazing", "fantastic", "great", "excellent", "love", "perfect"]
    case Sadness => ["sad", "depressed", "unhappy", "disappointed", "terrible", "awful", "horrible", "hate", "worst", "miserable"]
    case Anger => ["angry", "furious", "annoyed", "irritated", "mad", "frustrated", "outraged", "livid", "rage", "disgusted"]
    case Fear => ["afraid", "scared", "worried", "anxious", "nervous", "terrified", "frightened", "panic", "concern", "stress"]
    case Surprise => ["surprised", "shocked", "amazed", "astonished", "unexpected", "sudden", "wow", "incredible", "unbelievable"]
    case Disgust => ["disgusting", "revolting", "sick", "gross", "awful", "repulsive", "horrible", "nasty", "terrible"]
  }

  /** Keyword occurrences per white-space-separated word, 0 without words. */
  function EmotionScore(text: string, keywords: seq<string>): (r: real)
    requires forall k :: 0 <= k < |keywords| ==> |keywords[k]| > 0
    ensures r >= 0.0
  {
    var n := WordCount(text);
    if n > 0 then KeywordHits(Lower(text), keywords) as real / n as real else 0.0
  }

  function EmotionScores(text: string): map<Emotion, real> {
    map e: Emotion | e in AllEmotions :: EmotionScore(text, EmotionKeywords(e))
  }

  /** `analyze_emotions`: an accumulating loop per emotion. */
  method AnalyzeEmotions(text: string) returns (scores: map<Emotion, real>)
    ensures scores == EmotionScores(text)
  {
    var textLower := Lower(text);
    var n := WordCount(text);
    scores := map[];
    for i := 0 to |AllEmotions|
      invariant forall e :: e in scores <==> e in AllEmotions[..i]
      invariant forall e :: e in scores ==> scores[e] == EmotionScore(text, EmotionKeywords(e))
    {
      var emotion := AllEmotions[i];
      var keywords := EmotionKeywords(emotion);
      var score := CountKeywordHits(textLower, keywords);
      scores := scores[emotion := if n > 0 then score as real / n as real else 0.0];
      assert AllEmotions[..i + 1] == AllEmotions[..i] + [emotion];
    }
    assert AllEmotions[..|AllEmotions|] == AllEmotions;
  }

  /** Every emotion gets a score, no score is negative, and a text without
      words scores 0 everywhere. */
  lemma EmotionScoresCorrect(text: string)
    ensures var s := EmotionScores(text);
      && (forall e: Emotion :: e in s)
      && (forall e :: e in s ==> s[e] >= 0.0)
      && (WordCount(text) == 0 ==> forall e :: e in s ==> s[e] == 0.0)
  {
    AllEmotionsListed();
  }

  lemma AllEmotionsListed()
    ensures forall e: Emotion :: e in AllEmotions
  {
    forall e: Emotion ensures e in AllEmotions {
      assert e == Joy || e == Sadness || e == Anger || e == Fear || e == Surprise || e == Disgust;
    }
  }

  /** "awful", "horrible" and "terrible" are keywords of both sadness and
      disgust: each of their matches raises both scores. */
  lemma SharedKeywords(s: string)
    ensures forall w :: w in ["awful", "horrible", "terrible"] ==>
      KeywordHits(s, EmotionKeywords(Sadness)) >= BoundedMatches(s, w) &&
      KeywordHits(s, EmotionKeywords(Disgust)) >= BoundedMatches(s, w)
  {
    forall w | w in ["awful", "horrible", "terrible"]
      ensures KeywordHits(s, EmotionKeywords(Sadness)) >= BoundedMatches(s, w)
      ensures KeywordHits(s, EmotionKeywords(Disgust)) >= BoundedMatches(s, w)
    {
      KeywordHitsCover(s, EmotionKeywords(Sadness), w);
      KeywordHitsCover(s, EmotionKeywords(Disgust), w);
    }
  }

  // ----- analyze_intensity -----

  const Intensifiers: seq<string> :=
    ["very", "extremely", "really", "quite", "so", "too", "incredibly", "absolutely", "totally"]
  const Diminishers: seq<string> :=
    ["slightly", "somewhat", "rather", "fairly", "pretty", "kind of", "sort of", "a bit"]

  datatype Level = High | Medium | Low

  datatype Intensity = Intensity(level: Level, intensifiers: nat, diminishers: nat, ratio: real)

  /** `sum(1 for w in ws if w in list)`. */
  function CountIn(ws: seq<string>, list: seq<string>): (c: nat)
    ensures c <= |ws|
  {
    if ws == [] then 0
    else CountIn(ws[..|ws| - 1], list) + (if ws[|ws| - 1] in list then 1 else 0)
  }

  function LevelOf(ratio: real): Level {
    if ratio > 0.7 then High else if ratio > 0.4 then Medium else Low
  }

  /** `analyze_intensity`: exact membership of the lower-cased
      white-space-separated words. The ratio is the share of intensifiers
      among the modifiers found, 0.5 when there are none. */
  function AnalyzeIntensity(text: string): (r: Intensity)
    ensures 0.0 <= r.ratio <= 1.0
    ensures r.intensifiers + r.diminishers > 0 ==>
      r.ratio * (r.intensifiers + r.diminishers) as real == r.intensifiers as real
    ensures r.intensifiers + r.diminishers == 0 ==> r.ratio == 0.5
  {
    var words := Words(Lower(text));
    var i := CountIn(words, Intensifiers);
    var d := CountIn(words, Diminishers);
    var ratio := if i + d > 0 then i as real / (i + d) as real else 0.5;
    if i + d > 0 then
      RatioInUnit(i, d);
      Intensity(LevelOf(ratio), i, d, ratio)
    else
      Intensity(LevelOf(ratio), i, d, ratio)
  }

  /** A word found in neither of two disjoint lists is counted once at most. */
  lemma {:induction false} CountInDisjoint(ws: seq<string>, a: seq<string>, b: seq<string>)
    requires forall w :: w in a ==> w !in b
    ensures CountIn(ws, a) + CountIn(ws, b) <= |ws|
  {
    if ws != [] {
      CountInDisjoint(ws[..|ws| - 1], a, b);
    }
  }

  /** Lists that agree on the words of ws count them alike. */
  lemma {:induction false} CountInAgree(ws: seq<string>, a: seq<string>, b: seq<string>)
    requires forall k :: 0 <= k < |ws| ==> (ws[k] in a <==> ws[k] in b)
    ensures CountIn(ws, a) == CountIn(ws, b)
  {
    if ws != [] {
      CountInAgree(ws[..|ws| - 1], a, b);
    }
  }

  /** The three diminishers made of two words. */
  const MultiWordDiminishers: seq<string> := ["kind of", "sort of", "a bit"]

  lemma DiminishersSplit()
    ensures Diminishers == Diminishers[..5] + MultiWordDiminishers
  {
  }

  /** A word of `str.split()` holds no white space, so it is none of the
      two-word diminishers. */
  lemma NotMultiWord(w: string)
    requires NoneOf(w, IsSpace)
    ensures w !in MultiWordDiminishers
  {
    assert IsSpace(' ');
    assert forall i :: 0 <= i < |w| ==> w[i] != ' ';
    assert "kind of"[4] == ' ' && "sort of"[4] == ' ' && "a bit"[1] == ' ';
  }

  lemma ModifiersDisjoint()
    ensures forall w :: w in Intensifiers ==> w !in Diminishers
  {
  }

  /** Each list is counted over the lower-cased words, and the modifiers
      counted never outnumber the words; the ratio lies in [0, 1]; no
      modifier gives 0.5 and Medium, only intensifiers 1 and High, only
      diminishers 0 and Low; in integers, the level is High exactly when
      3 I > 7 D (a ratio above 0.7) and Low exactly when some modifier was
      found and 3 I <= 2 D (a ratio of at most 0.4), so a ratio of exactly 0.7
      is Medium; and the three diminishers made of two words can never match
      a single word, so only the first five count. */
  lemma IntensityCorrect(text: string)
    ensures var r := AnalyzeIntensity(text); var words := Words(Lower(text));
      && r.intensifiers == CountIn(words, Intensifiers)
      && r.intensifiers + r.diminishers <= |words|
      && 0.0 <= r.ratio <= 1.0
      && (r.intensifiers + r.diminishers == 0 ==> r.ratio == 0.5 && r.level == Medium)
      && (r.intensifiers > 0 && r.diminishers == 0 ==> r.ratio == 1.0 && r.level == High)
      && (r.intensifiers == 0 && r.diminishers > 0 ==> r.ratio == 0.0 && r.level == Low)
      && r.diminishers == CountIn(words, Diminishers[..5])
    ensures var r := AnalyzeIntensity(text);
      && (r.level == High <==> 3 * r.intensifiers > 7 * r.diminishers)
      && (r.level == Low <==> r.intensifiers + r.diminishers > 0 && 3 * r.intensifiers <= 2 * r.diminishers)
  {
    var words := Words(Lower(text));
    ModifiersDisjoint();
    CountInDisjoint(words, Intensifiers, Diminishers);
    DiminishersSplit();
    forall k | 0 <= k < |words| ensures words[k] in Diminishers <==> words[k] in Diminishers[..5] {
      NotMultiWord(words[k]);
    }
    CountInAgree(words, Diminishers, Diminishers[..5]);
    if CountIn(words, Intensifiers) + CountIn(words, Diminishers) > 0 {
      RatioInUnit(CountIn(words, Intensifiers), CountIn(words, Diminishers));
      LevelThresholds(CountIn(words, Intensifiers), CountIn(words, Diminishers));
    }
  }

  /** With i intensifiers and d diminishers, the ratio i / (i + d) is above
      0.7 exactly when 3 i > 7 d, and at most 0.4 exactly when 3 i <= 2 d. */
  lemma LevelThresholds(i: nat, d: nat)
    requires i + d > 0
    ensures LevelOf(i as real / (i + d) as real) == High <==> 3 * i > 7 * d
    ensures LevelOf(i as real / (i + d) as real) == Low <==> 3 * i <= 2 * d
  {
    var n := (i + d) as real;
    var r := i as real / n;
    RatioInUnit(i, d);
    ScaleStrict(r, 0.7, n, i as real);
    ScaleStrict(r, 0.4, n, i as real);
    assert i as real > 0.7 * n <==> 3 * i > 7 * d;
    assert i as real > 0.4 * n <==> 3 * i > 2 * d;
  }

  /** Multiplying by a positive number keeps a strict comparison. */
  lemma ScaleStrict(a: real, b: real, n: real, c: real)
    requires n > 0.0 && a * n == c
    ensures a > b <==> c > b * n
  {
    if a > b {
      assert (a - b) * n > 0.0;
    } else {
      assert (b - a) * n >= 0.0;
    }
  }

  lemma RatioInUnit(i: nat, d: nat)
    requires i + d > 0
    ensures 0.0 <= i as real / (i + d) as real <= 1.0
    ensures d == 0 ==> i as real / (i + d) as real == 1.0
    ensures i == 0 ==> i as real / (i + d) as real == 0.0
    ensures i as real / (i + d) as real * (i + d) as real == i as real
  {
  }

  // ----- analyze_sentiment -----

  datatype BlobSentence = BlobSentence(text: string, polarity: real, subjectivity: real)

  /** What TextBlob reports for a text. */
  datatype Blob = Blob(polarity: real, subjectivity: real, sentences: seq<BlobSentence>)

  datatype SentenceSentiment = SentenceSentiment(text: string, polarity: real, subjectivity: real, sentiment: Label)

  datatype Report = Report(
    sentiment: Label, polarity: real, subjectivity: real, confidence: real,
    emotionScores: map<Emotion, real>, intensity: Intensity,
    sentenceAnalysis: seq<SentenceSentiment>,
    textLength: nat, wordCount: nat, sentenceCount: nat)

  function Labelled(s: BlobSentence): SentenceSentiment {
    SentenceSentiment(s.text, s.polarity, s.subjectivity, LabelOf(s.polarity))
  }

  /** The sentence-by-sentence analysis. */
  function LabelAll(ss: seq<BlobSentence>): (r: seq<SentenceSentiment>)
    ensures |r| == |ss| && forall i :: 0 <= i < |ss| ==> r[i] == Labelled(ss[i])
  {
    if ss == [] then [] else LabelAll(ss[..|ss| - 1]) + [Labelled(ss[|ss| - 1])]
  }

  function Analysis(text: string, blob: Blob): Result<Report> {
    if |Strip(text)| < 1 then Err("Text is empty or too short for analysis")
    else
      var sentences := LabelAll(blob.sentences);
      Ok(Report(LabelOf(blob.polarity), blob.polarity, blob.subjectivity, Abs(blob.polarity),
                EmotionScores(text), AnalyzeIntensity(text), sentences,
                |text|, WordCount(text), |sentences|))
  }

  /** `analyze_sentiment`, with TextBlob's results for the text as `blob`. */
  method AnalyzeSentiment(text: string, blob: Blob) returns (r: Result<Report>)
    ensures r == Analysis(text, blob)
  {
    if |Strip(text)| < 1 {
      return Err("Text is empty or too short for analysis");
    }
    var emotions := AnalyzeEmotions(text);
    var intensity := AnalyzeIntensity(text);
    var sentences: seq<SentenceSentiment> := [];
    for i := 0 to |blob.sentences|
      invariant sentences == LabelAll(blob.sentences[..i])
    {
      var s := blob.sentences[i];
      assert blob.sentences[..i + 1][..i] == blob.sentences[..i];
      sentences := sentences + [SentenceSentiment(s.text, s.polarity, s.subjectivity, LabelOf(s.polarity))];
    }
    r := Ok(Report(LabelOf(blob.polarity), blob.polarity, blob.subjectivity, Abs(blob.polarity),
                   emotions, intensity, sentences, |text|, WordCount(text), |sentences|));
    assert blob.sentences[..|blob.sentences|] == blob.sentences;
  }

  /** An error exactly for an empty or all-white-space text; otherwise the
      label follows the thresholds, confidence is |polarity|, and every
      TextBlob sentence is reported, in order, labelled by its own polarity. */
  lemma AnalysisCorrect(text: string, blob: Blob)
    ensures var r := Analysis(text, blob);
      && (r.Err? <==> forall i :: 0 <= i < |text| ==> IsSpace(text[i]))
      && (r.Ok? ==>
            && (r.value.sentiment == Positive <==> blob.polarity > 0.1)
            && (r.value.sentiment == Negative <==> blob.polarity < -0.1)
            && r.value.confidence >= 0.0
            && (r.value.confidence == blob.polarity || r.value.confidence == -blob.polarity)
            && r.value.sentenceCount == |r.value.sentenceAnalysis| == |blob.sentences|
            && forall i :: 0 <= i < |blob.sentences| ==>
                 r.value.sentenceAnalysis[i].text == blob.sentences[i].text &&
                 r.value.sentenceAnalysis[i].sentiment == LabelOf(blob.sentences[i].polarity))
  {
    StripEmptyIffBlank(text);
  }

  // ----- compare_sentiments -----

  datatype Compared = Compared(textId: nat, preview: string, sentiment: Label,
                               polarity: real, subjectivity: real, confidence: real)

  datatype Comparison = Comparison(comparisons: seq<Compared>, averagePolarity: real,
                                   mostPositive: Compared, mostNegative: Compared, totalTexts: nat)

  /** `text[:50] + "..." if len(text) > 50 else text`. */
  function Preview(text: string): (p: string)
    ensures |text| <= 50 ==> p == text
    ensures |text| > 50 ==> |p| == 53 && p[..50] == text[..50] && p[50..] == "..."
  {
    if |text| > 50 then text[..50] + "..." else text
  }

  /** The row for text number id (1-based). */
  function RowOf(id: nat, text: string, b: Blob): Compared {
    Compared(id, Preview(text), LabelOf(b.polarity), b.polarity, b.subjectivity, Abs(b.polarity))
  }

  /** The rows for the first n texts: one per text that is not blank. */
  function Rows(texts: seq<string>, blob: string -> Blob, n: nat): seq<Compared>
    requires n <= |texts|
  {
    if n == 0 then []
    else
      var rest := Rows(texts, blob, n - 1);
      var text := texts[n - 1];
      if |Strip(text)| >= 1 then rest + [RowOf(n, text, blob(text))] else rest
  }

  function Polarities(rows: seq<Compared>): (ps: seq<real>)
    ensures |ps| == |rows|
  {
    seq(|rows|, i requires 0 <= i < |rows| => rows[i].polarity)
  }

  function Sum(xs: seq<real>): real {
    if xs == [] then 0.0 else Sum(xs[..|xs| - 1]) + xs[|xs| - 1]
  }

  function Compare(texts: seq<string>, blob: string -> Blob): Result<Comparison> {
    var rows := Rows(texts, blob, |texts|);
    if rows == [] then Err("No valid texts to compare") else Ok(Summarise(rows))
  }

  /** The statistics over the valid rows. */
  function Summarise(rows: seq<Compared>): Comparison
    requires rows != []
  {
    var ps := Polarities(rows);
    Comparison(rows, Sum(ps) / |ps| as real, rows[ArgMax(ps)], rows[ArgMin(ps)], |rows|)
  }

  /** `compare_sentiments`, with `blob(s)` TextBlob's results for text s. */
  method CompareSentiments(texts: seq<string>, blob: string -> Blob) returns (r: Result<Comparison>)
    ensures r == Compare(texts, blob)
  {
    var results: seq<Compared> := [];
    for i := 0 to |texts|
      invariant results == Rows(texts, blob, i)
    {
      var text := texts[i];
      var analysis := AnalyzeSentiment(text, blob(text));
      if analysis.Ok? {
        var a := analysis.value;
        results := results + [Compared(i + 1, Preview(text), a.sentiment, a.polarity, a.subjectivity, a.confidence)];
      }
    }
    if results == [] {
      return Err("No valid texts to compare");
    }
    var polarities := Polarities(results);
    var total := 0.0;
    for k := 0 to |polarities|
      invariant total == Sum(polarities[..k])
    {
      assert polarities[..k + 1][..k] == polarities[..k];
      total := total + polarities[k];
    }
    assert polarities[..|polarities|] == polarities;
    r := Ok(Comparison(results, total / |polarities| as real,
                       results[ArgMax(polarities)], results[ArgMin(polarities)], |results|));
  }

  /** A row made, under a 1-based position of at most n, for a text that is
      not blank, carrying that text's TextBlob results. */
  predicate RowFor(texts: seq<string>, blob: string -> Blob, n: nat, row: Compared) {
    1 <= row.textId <= n && row.textId <= |texts| &&
    var text := texts[row.textId - 1];
    |Strip(text)| >= 1 && row == RowOf(row.textId, text, blob(text))
  }

  /** Each row is made, under its 1-based position, for a text that is not
      blank and carries that text's TextBlob results; positions increase. */
  lemma RowsSound(texts: seq<string>, blob: string -> Blob, n: nat)
    requires n <= |texts|
    ensures var rows := Rows(texts, blob, n);
      && |rows| <= n
      && (forall k :: 0 <= k < |rows| ==> RowFor(texts, blob, n, rows[k]))
      && (forall p, q :: 0 <= p < q < |rows| ==> rows[p].textId < rows[q].textId)
  {
    RowsMade(texts, blob, n);
    RowsOrdered(texts, blob, n);
  }

  lemma {:induction false} RowsMade(texts: seq<string>, blob: string -> Blob, n: nat)
    requires n <= |texts|
    ensures var rows := Rows(texts, blob, n);
      |rows| <= n && forall k :: 0 <= k < |rows| ==> RowFor(texts, blob, n, rows[k])
    decreases n
  {
    if n > 0 {
      var rest := Rows(texts, blob, n - 1);
      var rows := Rows(texts, blob, n);
      RowsMade(texts, blob, n - 1);
      assert rows[..|rest|] == rest;
      forall k | 0 <= k < |rows| ensures RowFor(texts, blob, n, rows[k]) {
        if k < |rest| {
          assert rows[k] == rest[k] && RowFor(texts, blob, n - 1, rest[k]);
        }
      }
    }
  }

  lemma {:induction false} RowsOrdered(texts: seq<string>, blob: string -> Blob, n: nat)
    requires n <= |texts|
    ensures var rows := Rows(texts, blob, n);
      forall p, q :: 0 <= p < q < |rows| ==> rows[p].textId < rows[q].textId
    decreases n
  {
    if n > 0 {
      var rest := Rows(texts, blob, n - 1);
      var rows := Rows(texts, blob, n);
      RowsOrdered(texts, blob, n - 1);
      RowsMade(texts, blob, n - 1);
      assert rows[..|rest|] == rest;
      forall p, q | 0 <= p < q < |rows| ensures rows[p].textId < rows[q].textId {
        assert rows[p] == rest[p] && RowFor(texts, blob, n - 1, rest[p]);
        if q >= |rest| {
          assert rows[q].textId == n;
        } else {
          assert rows[q] == rest[q];
        }
      }
    }
  }

  /** Every text that is not blank has a row. */
  lemma {:induction false} RowsComplete(texts: seq<string>, blob: string -> Blob, n: nat, i: nat)
    requires i < n <= |texts| && |Strip(texts[i])| >= 1
    ensures exists k :: 0 <= k < |Rows(texts, blob, n)| && Rows(texts, blob, n)[k].textId == i + 1
    decreases n
  {
    var rest := Rows(texts, blob, n - 1);
    var rows := Rows(texts, blob, n);
    assert rows[..|rest|] == rest;
    if i < n - 1 {
      RowsComplete(texts, blob, n - 1, i);
      var k :| 0 <= k < |rest| && rest[k].textId == i + 1;
      assert rows[k] == rest[k];
    } else {
      assert rows[|rest|].textId == n;
    }
  }

  lemma {:induction false} SumBounds(xs: seq<real>, lo: real, hi: real)
    requires forall i :: 0 <= i < |xs| ==> lo <= xs[i] <= hi
    ensures |xs| as real * lo <= Sum(xs) <= |xs| as real * hi
  {
    if xs != [] {
      SumBounds(xs[..|xs| - 1], lo, hi);
    }
  }

  /** A mean lies between the least and the greatest value. */
  lemma MeanBetween(xs: seq<real>, lo: real, hi: real)
    requires |xs| > 0 && forall i :: 0 <= i < |xs| ==> lo <= xs[i] <= hi
    ensures lo <= Sum(xs) / |xs| as real <= hi
  {
    SumBounds(xs, lo, hi);
    var n := |xs| as real;
    assert Sum(xs) / n >= lo by {
      assert Sum(xs) >= n * lo;
    }
    assert Sum(xs) / n <= hi by {
      assert Sum(xs) <= n * hi;
    }
  }

  /** The comparison fails exactly when every text is blank. */
  lemma CompareFails(texts: seq<string>, blob: string -> Blob)
    ensures Compare(texts, blob).Err? <==> forall i :: 0 <= i < |texts| ==> |Strip(texts[i])| < 1
  {
    RowsSound(texts, blob, |texts|);
    if exists i :: 0 <= i < |texts| && |Strip(texts[i])| >= 1 {
      var i :| 0 <= i < |texts| && |Strip(texts[i])| >= 1;
      RowsComplete(texts, blob, |texts|, i);
    }
  }

  /** The statistics list the rows. The most positive row is the first row
      holding the greatest polarity, the most negative the first holding the
      least; the average lies between those two polarities; and the total
      counts the rows. */
  lemma SummariseCorrect(rows: seq<Compared>)
    requires rows != []
    ensures var r := Summarise(rows);
      && r.comparisons == rows && r.totalTexts == |rows|
      && (exists hi :: 0 <= hi < |rows| && r.mostPositive == rows[hi] &&
            (forall k :: 0 <= k < |rows| ==> rows[k].polarity <= rows[hi].polarity) &&
            (forall k :: 0 <= k < hi ==> rows[k].polarity < rows[hi].polarity))
      && (exists lo :: 0 <= lo < |rows| && r.mostNegative == rows[lo] &&
            (forall k :: 0 <= k < |rows| ==> rows[lo].polarity <= rows[k].polarity) &&
            (forall k :: 0 <= k < lo ==> rows[lo].polarity < rows[k].polarity))
      && r.mostNegative.polarity <= r.averagePolarity <= r.mostPositive.polarity
  {
    var ps := Polarities(rows);
    var hi := ArgMax(ps);
    var lo := ArgMin(ps);
    MeanBetween(ps, ps[lo], ps[hi]);
    assert forall k :: 0 <= k < |rows| ==> ps[k] == rows[k].polarity;
  }
}
