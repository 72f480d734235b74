/** The keyword classifier of nlp_modules/text_classifier.py: each of eight
    categories is scored by how often its keywords occur per word, the best
    one wins, and a text without any keyword falls back on TextBlob's
    polarity, which is an input here. */
module Classifier {
  import opened TextOps
  import opened Ranking

  /** The categories in the order of the `categories` table of
      text_classifier.py, which decides ties. */
  datatype Category = Technology | Business | Sports | Health | Education | Entertainment | News | Personal

  const AllCategories: seq<Category> :=
    [Technology, Business, Sports, Health, Education, Entertainment, News, Personal]

  function Name(c: Category): string {
    match c
    case Technology => "technology"
    case Business => "business"
    case Sports => "sports"
    case Health => "health"
    case Education => "education"
    case Entertainment => "entertainment"
    case News => "news"
    case Personal => "personal"
  }

  function CategoryKeywords(c: Category): (r: seq<string>)
    ensures forall k :: 0 <= k < |r| ==> |r[k]| > 0
  {
    match c
    case Technology => ["computer", "software", "tech", "programming", "code", "app", "digital", "internet", "ai", "machine learning"]
    case Business => ["company", "market", "finance", "money", "profit", "sales", "business", "corporate", "investment"]
    case Sports => ["game", "player", "team", "score", "match", "sport", "football", "basketball", "soccer", "tennis"]
    case Health => ["doctor", "medicine", "hospital", "health", "disease", "treatment", "medical", "patient", "therapy"]
    case Education => ["school", "student", "teacher", "learn", "education", "university", "study", "class", "academic"]
    case Entertainment => ["movie", "music", "show", "actor", "celebrity", "film", "concert", "entertainment", "tv"]
    case News => ["breaking", "report", "news", "journalist", "headline", "story", "media", "press"]
    case Personal => ["i", "me", "my", "myself", "personal", "life", "family", "friend", "relationship"]
  }

  /** Keyword matches in the lower-cased text per white-space-separated word,
      0 for a text without words. */
  function CategoryScore(text: string, c: Category): (r: real)
    ensures r >= 0.0
  {
    var n := WordCount(text);
    if n > 0 then KeywordHits(Lower(text), CategoryKeywords(c)) as real / n as real else 0.0
  }

  /** The scores in table order. */
  function ScoreList(text: string): (r: seq<real>)
    ensures |r| == |AllCategories|
    ensures forall i :: 0 <= i < |r| ==> r[i] == CategoryScore(text, AllCategories[i])
  {
    seq(|AllCategories|, i requires 0 <= i < |AllCategories| => CategoryScore(text, AllCategories[i]))
  }

  function AllScores(text: string): map<Category, real> {
    map c: Category | c in AllCategories :: CategoryScore(text, c)
  }

  datatype Classification =
    | TooShort(category: string, confidence: real, error: string)
    | Classified(category: string, confidence: real, allScores: map<Category, real>,
                 textLength: nat, wordCount: nat)

  function MinReal(a: real, b: real): real {
    if a <= b then a else b
  }

  /** The category and confidence chosen from the scores in table order: the
      name is one of the eight categories or "general", and the confidence is
      positive and at most 1 unless it is the polarity-based "personal". */
  function Decide(scores: seq<real>, polarity: real): (d: (string, real))
    requires |scores| == |AllCategories|
    ensures d.0 == "general" || exists c :: c in AllCategories && d.0 == Name(c)
    ensures 0.0 < d.1 <= 1.0 || (d.0 == "personal" && d.1 == 0.7 * Abs(polarity))
  {
    var best := ArgMax(scores);
    if scores[best] > 0.0 then (Name(AllCategories[best]), MinReal(scores[best] * 2.0, 1.0))
    else if Abs(polarity) > 0.3 then
      assert Name(Personal) == "personal" && Personal in AllCategories;
      ("personal", Abs(polarity) * 0.7)
    else ("general", 0.3)
  }

  function Classify(text: string, polarity: real): Classification {
    if |Strip(text)| < 3 then TooShort("unknown", 0.0, "Text too short for classification")
    else
      var d := Decide(ScoreList(text), polarity);
      Classified(d.0, d.1, AllScores(text), |text|, WordCount(text))
  }

  /** `classify_text`, with TextBlob's polarity of the text as an input. */
  method ClassifyText(text: string, polarity: real) returns (r: Classification)
    ensures r == Classify(text, polarity)
  {
    if |Strip(text)| < 3 {
      return TooShort("unknown", 0.0, "Text too short for classification");
    }
    var textLower := Lower(text);
    var n := WordCount(text);
    var categoryScores: map<Category, real> := map[];
    var scores: seq<real> := [];
    for i := 0 to |AllCategories|
      invariant categoryScores == map c: Category | c in AllCategories[..i] :: CategoryScore(text, c)
      invariant scores == ScoreList(text)[..i]
    {
      var category := AllCategories[i];
      var value := ScoreCategory(text, textLower, n, category);
      categoryScores := categoryScores[category := value];
      ScoreListGrows(text, i);
      scores := scores + [value];
      PrefixGrows(AllCategories, i);
    }
    PrefixWhole(AllCategories);
    assert categoryScores == AllScores(text);
    assert scores == ScoreList(text);
    var decision := Decide(scores, polarity);
    r := Classified(decision.0, decision.1, categoryScores, |text|, WordCount(text));
  }

  lemma ScoreListGrows(text: string, i: nat)
    requires i < |AllCategories|
    ensures ScoreList(text)[..i + 1] == ScoreList(text)[..i] + [CategoryScore(text, AllCategories[i])]
  {
    PrefixGrows(ScoreList(text), i);
  }

  /** One category's score: its keyword matches per word. */
  method ScoreCategory(text: string, textLower: string, n: nat, c: Category) returns (value: real)
    requires textLower == Lower(text) && n == WordCount(text)
    ensures value == CategoryScore(text, c)
  {
    var score := CountKeywordHits(textLower, CategoryKeywords(c));
    value := if n > 0 then score as real / n as real else 0.0;
  }

  lemma AllCategoriesListed()
    ensures forall c: Category :: c in AllCategories
  {
    forall c: Category ensures c in AllCategories {
      assert c == Technology || c == Business || c == Sports || c == Health ||
             c == Education || c == Entertainment || c == News || c == Personal;
    }
  }

  /** Texts under 3 characters once stripped are "unknown" with confidence 0;
      otherwise every category is scored, and the lengths are reported. */
  lemma ClassifyShape(text: string, polarity: real)
    ensures var r := Classify(text, polarity);
      && (r.TooShort? <==> |Strip(text)| < 3)
      && (r.TooShort? ==> r.category == "unknown" && r.confidence == 0.0)
      && (r.Classified? ==>
            (forall c: Category :: c in r.allScores && r.allScores[c] == CategoryScore(text, c)) &&
            r.textLength == |text| && r.wordCount == WordCount(text))
  {
    AllCategoriesListed();
  }

  /** When some keyword matched, the winner is the first category in table
      order with the greatest score, and its confidence is twice that score
      capped at 1. When none matched, a polarity beyond 0.3 either way makes
      it "personal" with confidence 0.7 |polarity|, and anything else
      "general" with 0.3. */
  lemma DecideCorrect(scores: seq<real>, polarity: real)
    requires |scores| == |AllCategories|
    requires forall i :: 0 <= i < |scores| ==> scores[i] >= 0.0
    ensures var d := Decide(scores, polarity);
      && ((exists i :: 0 <= i < |scores| && scores[i] > 0.0) ==>
            exists b :: 0 <= b < |scores| && d.0 == Name(AllCategories[b]) &&
              (forall i :: 0 <= i < |scores| ==> scores[i] <= scores[b]) &&
              (forall i :: 0 <= i < b ==> scores[i] < scores[b]) &&
              0.0 < d.1 <= 1.0 && d.1 == (if 2.0 * scores[b] <= 1.0 then 2.0 * scores[b] else 1.0))
      && ((forall i :: 0 <= i < |scores| ==> scores[i] == 0.0) ==>
            if polarity > 0.3 || polarity < -0.3 then d.0 == "personal" && d.1 == 0.7 * Abs(polarity)
            else d.0 == "general" && d.1 == 0.3)
  {
    var best := ArgMax(scores);
    if exists i :: 0 <= i < |scores| && scores[i] > 0.0 {
      var i :| 0 <= i < |scores| && scores[i] > 0.0;
      assert scores[best] >= scores[i];
    }
  }

  /** With TextBlob's polarity in [-1, 1], confidence always lies in [0, 1]. */
  lemma ConfidenceInUnit(text: string, polarity: real)
    requires -1.0 <= polarity <= 1.0
    ensures 0.0 <= Classify(text, polarity).confidence <= 1.0
  {
  }

  // ----- get_category_description -----

  const Descriptions: map<string, string> := map[
    "technology" := "Technology-related content including computers, software, and digital topics",
    "business" := "Business and finance-related content",
    "sports" := "Sports and athletics-related content",
    "health" := "Health and medical-related content",
    "education" := "Educational and academic content",
    "entertainment" := "Entertainment industry and media content",
    "news" := "News and journalism content",
    "personal" := "Personal experiences and opinions",
    "general" := "General content that doesn't fit specific categories",
    "unknown" := "Unable to classify the content"
  ]

  const NoDescription := "No description available"

  /** `descriptions.get(category, "No description available")`. */
  function CategoryDescription(category: string): (d: string)
    ensures category in Descriptions ==> d == Descriptions[category]
    ensures category !in Descriptions ==> d == NoDescription
  {
    if category in Descriptions then Descriptions[category] else NoDescription
  }

  /** Every category the classifier can produce has a description of its
      own: the eight names, "general" and "unknown". */
  lemma EveryOutcomeDescribed(text: string, polarity: real)
    ensures CategoryDescription(Classify(text, polarity).category) != NoDescription
  {
    var category := Classify(text, polarity).category;
    OutcomeNames(text, polarity);
    if category in {"unknown", "personal", "general"} {
      assert category in Descriptions;
    } else {
      var c :| category == Name(c);
      NameDescribed(c);
    }
  }

  /** The category reported is "unknown", "personal", "general" or a name. */
  lemma OutcomeNames(text: string, polarity: real)
    ensures var category := Classify(text, polarity).category;
      category in {"unknown", "personal", "general"} || exists c :: category == Name(c)
  {
    if |Strip(text)| >= 3 {
      var scores := ScoreList(text);
      var best := ArgMax(scores);
      if scores[best] > 0.0 {
        assert Classify(text, polarity).category == Name(AllCategories[best]);
      }
    }
  }

  lemma NameDescribed(c: Category)
    ensures Name(c) in Descriptions && Descriptions[Name(c)] != NoDescription
  {
  }
}
