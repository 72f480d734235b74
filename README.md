# NLP toolkit analysers in Dafny

This project models the five analysers of the Streamlit NLP toolkit and proves
properties of them:

- the named entity extractor (`NERExtractor`, nlp_modules/ner-extractor.py);
- the extractive summariser (`TextSummarizer`, nlp_modules/summarizer.py);
- the sentiment analyser (`SentimentAnalyzer`, nlp_modules/sentiment_analyzer.py);
- the keyword classifier (`TextClassifier`, nlp_modules/text_classifier.py);
- the template text generator (`TextGenerator`, nlp_modules/text_generator.py).

Each analyser is one module:

| file | module | models |
|---|---|---|
| entities.dfy | `NamedEntities` | rule-based extraction, chunker mapping, merge, relationships, custom patterns, batch |
| summarizer.dfy | `Summarizer` | sentence cleaning, frequency table, sentence scores, extractive, bullet and keyword summaries |
| sentiment.dfy | `Sentiment` | labels, emotion scores, intensity, the single-text report, comparison of several texts |
| classifier.dfy | `Classifier` | category scores, the decision rule, category descriptions |
| generator.dfy | `Generator` | `str.format` templates, stories, e-mails, blog posts, continuations |

Three modules are shared by the analysers:

- text_ops.dfy (`TextOps`) holds the Python string operations they rely on:
  - `str.isspace` / `strip` / `split` / `lower`, `re.sub(r'\s+', ' ')`;
  - the `[.!?]+` split and the `\b\w+\b` tokens;
  - `re.findall(r'\b' + keyword + r'\b')` counts, `in` and `join`.
- ranking.dfy (`Ranking`) holds:
  - the stable descending `sorted(..., reverse=True)`, `max`/`min` with a key, `abs`, and `Counter.most_common`;
  - "put the top k back into document order".
- results.dfy (`Results`) holds `Option` and `Result`; an error dictionary `{"error": ...}` is an `Err`.

## Form of the model

- **Loops become methods.** Code that builds its result step by step is a `method` with the source's loops:
  - the per-category and per-keyword score loops;
  - the duplicate-avoiding append loops;
  - the chunk-tree loop and the relationship loops;
  - the batch loops;
  - the frequency normalisation loop.

  Each method's `ensures` ties its result to a specification function, and the lemmas state what that function promises.
- **Expressions become functions.** Code that is one expression is a function, for example the label rule, the templates and the slice arithmetic.
- **The analyser classes hold only constant tables**, so they are not classes here. Their tables are module constants: keyword lists, patterns, templates and word banks.

External results are parameters of the model:

- **Regular-expression matches** of the entity patterns: `matches(t)`, the matches of category t, pattern after pattern.
- **The NLTK chunk tree:** `None` when tokenising, tagging or chunking raises.
- **TextBlob's results:**
  - polarity, subjectivity and sentence split (`Blob`);
  - the classifier's polarity;
  - the noun phrases.
- **The stop-word set:** NLTK's English list, or `FallbackStopWords`.
- **What `random.choice` draws:**
  - the story template and the story words (`StoryWords`, with `Drawn` saying each comes from its bank);
  - the blog template;
  - the index of the continuation.
- **`re.findall` for custom patterns:** `None` when the pattern does not compile.

Where the summariser offers an NLTK tokenizer with a regex fall-back, the fall-back is modelled. Sentences are split on runs of `[.!?]`, and words are the `\b\w+\b` tokens.

The chunker code keeps the label "LOCATION" under its own key: the mapping only renames GPE and GSP. So chunker entities labelled LOCATION do reach the merged result. Chunker entities labelled GPE or GSP are renamed to LOCATION. The "GPE" and "GSP" lists therefore always stay empty (`NoGeopoliticalEntries`).

## Model

| member | source | states |
|---|---|---|
| TextOps.StripLeft | nlp_modules/summarizer.py:51 | the result starts with a non-space and every character removed is white space |
| TextOps.StripRight | nlp_modules/summarizer.py:51 | the result ends with a non-space and every character removed is white space |
| TextOps.StripLeftSuffix | nlp_modules/summarizer.py:51 | left stripping keeps a suffix of the text |
| TextOps.StripRightPrefix | nlp_modules/summarizer.py:51 | right stripping keeps a prefix of the text |
| TextOps.StripEmptyIffBlank | nlp_modules/sentiment_analyzer.py:32-33 | `strip()` leaves nothing exactly when every character is white space, in both directions |
| TextOps.LeadingRun | nlp_modules/summarizer.py:58 | the leading run holds no separator and stops at one or at the end |
| TextOps.Pieces | nlp_modules/summarizer.py:58-59 | every piece of a split is non-empty and holds no separator |
| TextOps.PiecesOfRun | nlp_modules/summarizer.py:58 | a non-empty text without separators is a single piece, itself |
| TextOps.PiecesOfSeparators | nlp_modules/summarizer.py:58-59 | a text made only of separators has no pieces |
| TextOps.PiecesAppend | nlp_modules/summarizer.py:58 | splitting two texts joined at a separator splits each of them |
| TextOps.WordCountAppend | nlp_modules/text_generator.py:79 | `len(split())` adds up across a white-space seam |
| TextOps.CollapseSpaces | nlp_modules/summarizer.py:50 | after `re.sub(r'\s+', ' ')` only single blanks remain; empty exactly when the input is; it starts with a blank exactly when the input starts with white space |
| TextOps.SingleSpacedStrip | nlp_modules/summarizer.py:50-51 | stripping a single-spaced text keeps it single-spaced |
| TextOps.PiecesSingleSpaced | nlp_modules/summarizer.py:58 | the pieces of a single-spaced text are single-spaced |
| TextOps.ContainsIffOccurs | nlp_modules/text_generator.py:95-101 | Python's `sub in s` holds exactly when sub occurs at some position of s |
| TextOps.ContainsWithin | nlp_modules/text_generator.py:108-114 | text found in s is still found once s is embedded in a larger text |
| TextOps.ContainsTrans | nlp_modules/text_generator.py:145-154 | containment is transitive |
| TextOps.MatchesFit | nlp_modules/text_classifier.py:44 | the `\b keyword \b` matches do not overlap, so their count times the keyword's length fits in the text |
| TextOps.AbsentNotCounted | nlp_modules/text_classifier.py:44 | a keyword that does not occur is never counted |
| TextOps.CountKeywordHits | nlp_modules/text_classifier.py:41-45 | the accumulating loop over the keywords returns the sum of their match counts |
| TextOps.KeywordHitsCover | nlp_modules/sentiment_analyzer.py:93-98 | each listed keyword contributes all of its matches to the score |
| TextOps.JoinContains | nlp_modules/summarizer.py:153 | every part of a join occurs in it |
| TextOps.JoinSnoc | nlp_modules/text_generator.py:137 | joining one more part appends the separator and that part |
| TextOps.HasWord | nlp_modules/text_generator.py:79 | a text with a non-space character has at least one word |
| Ranking.SliceEnd | nlp_modules/summarizer.py:186 | the end of the slice `[:k]` never exceeds the length; it is min(k, n) for k ≥ 0 and max(0, n + k) for k < 0 |
| Ranking.Insert | nlp_modules/summarizer.py:147 | insertion adds exactly the one position: same multiset plus x |
| Ranking.InsertSorted | nlp_modules/summarizer.py:147 | inserting into a stably sorted list keeps it sorted |
| Ranking.RankFirst | nlp_modules/summarizer.py:147 | the ranking lists every position once, by non-increasing score, ties in index order |
| Ranking.SortedIsDistinct | nlp_modules/summarizer.py:147 | a sorted ranking lists each position once |
| Ranking.RankSameOrder | nlp_modules/summarizer.py:212 | the ranking depends only on how the scores compare, not on their values |
| Ranking.Ascending | nlp_modules/summarizer.py:150 | `sorted(chosen)` lists exactly the chosen positions in increasing order |
| Ranking.TopSize | nlp_modules/summarizer.py:147 | the slice of the ranking keeps min(k, n) positions, all valid |
| Ranking.TopBeatsRest | nlp_modules/summarizer.py:147 | a kept position ranks before every position left out |
| Ranking.SelectInOrderCorrect | nlp_modules/summarizer.py:146-151 | the selection has min(k, n) positions, increasing, and each beats every unselected one with ties to the earlier |
| Ranking.SelectAll | nlp_modules/summarizer.py:175-177 | with k ≥ n every position is selected, in document order |
| Ranking.Abs | nlp_modules/sentiment_analyzer.py:50 | `abs` is non-negative and ± its argument |
| Ranking.ArgMax | nlp_modules/text_classifier.py:54-55 | `max` with a key returns the first position holding the greatest value |
| Ranking.ArgMin | nlp_modules/sentiment_analyzer.py:169 | `min` with a key returns the first position holding the least value |
| Ranking.Unique | nlp_modules/summarizer.py:77 | the keys of `Counter(xs)`: exactly the elements of xs, each once |
| Ranking.UniqueFirstSeen | nlp_modules/summarizer.py:77 | the keys come in order of first appearance |
| Ranking.MostCommonCorrect | nlp_modules/summarizer.py:218-219 | `most_common(n)`: min(n, number of distinct elements) distinct elements with exact counts, non-increasing, ties in first-seen order; every left-out element occurs less often than each listed one, or as often and first seen later |
| Ranking.LeftOutBelow | nlp_modules/ner-extractor.py:208 | an element `most_common` leaves out occurs less often than a listed one, or as often and is first seen later |
| Summarizer.StripAll | nlp_modules/summarizer.py:59 | keeps at most the given pieces, none of them empty |
| Summarizer.StripAllAppend | nlp_modules/summarizer.py:59 | pieces are handled one by one, in order: the result for a list of pieces is the results of its parts one after the other |
| Summarizer.StripAllOne | nlp_modules/summarizer.py:59 | one piece gives its stripped text when that is not blank, and nothing otherwise |
| Summarizer.Preprocess | nlp_modules/summarizer.py:50-59 | every sentence is non-empty, holds no terminator, has no white space at its ends and only single blanks inside |
| Summarizer.KeepQualifying | nlp_modules/summarizer.py:74 | keeps exactly the alphabetic tokens that are not stop words |
| Summarizer.MaxOver | nlp_modules/summarizer.py:80 | the largest count among the given words, attained by one of them |
| Summarizer.Normaliser | nlp_modules/summarizer.py:80 | `max(Counter.values()) if words else 1`: at least 1, no count exceeds it, and some word attains it |
| Summarizer.CalculateWordFrequencies | nlp_modules/summarizer.py:67-84 | returns the normalised frequency table of the text's content words |
| Summarizer.CountAndNormalise | nlp_modules/summarizer.py:77-84 | the counting and in-place division loop yields count / largest count for each word |
| Summarizer.FrequenciesCorrect | nlp_modules/summarizer.py:77-84 | the table holds exactly the content words, values in (0, 1], the most frequent at 1, values ordered as counts, one entry per distinct word |
| Summarizer.ScoreSentences | nlp_modules/summarizer.py:90-111 | the loop gives each sentence the mean table value of its content words, 0 without any |
| Summarizer.FreqSumBounds | nlp_modules/summarizer.py:102-104 | with table values in [0, 1] the summed values lie between 0 and the number of words |
| Summarizer.ScoreInUnit | nlp_modules/summarizer.py:100-109 | with table values in [0, 1] every sentence score lies in [0, 1] |
| Summarizer.Trunc | nlp_modules/summarizer.py:146 | `int(x)` truncates toward zero |
| Summarizer.SummaryCount | nlp_modules/summarizer.py:146 | `max(1, int(n * ratio))` is the whole part of n·ratio when n·ratio ≥ 2, and 1 otherwise |
| Summarizer.SummaryCountAtMost | nlp_modules/summarizer.py:146 | with a ratio in [0, 1] no more sentences are asked for than there are |
| Summarizer.Picked | nlp_modules/summarizer.py:151 | one sentence per selected index |
| Summarizer.SelectionChosen | nlp_modules/summarizer.py:146-151 | the selected indices are the best-scoring ones in document order |
| Summarizer.ExtractiveSummarize | nlp_modules/summarizer.py:118-163 | returns the extractive summary of the text |
| Summarizer.ExtractiveCases | nlp_modules/summarizer.py:118-137 | too short exactly below 50 stripped characters, unchanged exactly for at most two sentences, summarised otherwise; the fixed report values of the first two |
| Summarizer.ExtractiveSelects | nlp_modules/summarizer.py:139-163 | a summary joins with blanks the max(1, int(n·ratio)) best sentences in document order and reports the counts and lengths |
| Summarizer.BulletPointSummary | nlp_modules/summarizer.py:173-196 | returns the bullet-point summary of the text |
| Summarizer.BulletPointsCorrect | nlp_modules/summarizer.py:173-196 | every sentence bulleted in order when there are at most max_points, else the best max_points in document order; the count is reported |
| Summarizer.TableScores | nlp_modules/summarizer.py:212 | one table value per key |
| Summarizer.Leading | nlp_modules/summarizer.py:222 | exactly e words, the p-th being the key at the p-th ranked position |
| Summarizer.Firsts | nlp_modules/summarizer.py:219 | the first component of each pair, in order |
| Summarizer.KeywordSummary | nlp_modules/summarizer.py:206-227 | returns the keyword report of the text |
| Summarizer.TableOrdersAsCounts | nlp_modules/summarizer.py:212 | ranking the normalised table orders words as ranking their counts |
| Summarizer.KeywordsCorrect | nlp_modules/summarizer.py:209-225 | the keywords are `Counter(words).most_common(k)`, each with its table value; the phrases are the five most common noun phrases; the total counts distinct words |
| Classifier.CategoryKeywords | nlp_modules/text_classifier.py:12-21 | no keyword of the table is empty |
| Classifier.CategoryScore | nlp_modules/text_classifier.py:47-51 | a category's score is never negative |
| Classifier.ScoreList | nlp_modules/text_classifier.py:39-51 | one score per category, in table order |
| Classifier.ScoreCategory | nlp_modules/text_classifier.py:41-51 | the keyword loop yields the category's matches per word, 0 without words |
| Classifier.ClassifyText | nlp_modules/text_classifier.py:28-73 | the scoring loop fills every category and the result is the classification of the text |
| Classifier.AllCategoriesListed | nlp_modules/text_classifier.py:12-21 | every category is in the table |
| Classifier.ClassifyShape | nlp_modules/text_classifier.py:28-73 | "unknown" with confidence 0 exactly below 3 stripped characters; otherwise every category scored, the lengths reported |
| Classifier.Decide | nlp_modules/text_classifier.py:54-65 | the category is one of the eight or "general"; the confidence is in (0, 1] except the polarity-based "personal" one |
| Classifier.DecideCorrect | nlp_modules/text_classifier.py:54-65 | the first best category wins with confidence exactly min(2·score, 1); without matches \|polarity\| > 0.3 gives "personal" at 0.7·\|polarity\|, else "general" at 0.3 |
| Classifier.ConfidenceInUnit | nlp_modules/text_classifier.py:54-65 | with a polarity in [-1, 1] the confidence lies in [0, 1] |
| Classifier.CategoryDescription | nlp_modules/text_classifier.py:86-98 | the table's description, or "No description available" for other names |
| Classifier.OutcomeNames | nlp_modules/text_classifier.py:28-65 | the category is "unknown", "personal", "general" or a category name |
| Classifier.NameDescribed | nlp_modules/text_classifier.py:86-97 | every category name has its own description |
| Classifier.EveryOutcomeDescribed | nlp_modules/text_classifier.py:86-98 | every category the classifier can report has a description of its own |
| Sentiment.LabelOf | nlp_modules/sentiment_analyzer.py:42-47 | Positive exactly above 0.1, Negative exactly below -0.1 |
| Sentiment.LabelRule | nlp_modules/sentiment_analyzer.py:42-47 | labels are symmetric around 0 and never go down as polarity rises |
| Sentiment.EmotionKeywords | nlp_modules/sentiment_analyzer.py:14-21 | no emotion keyword is empty |
| Sentiment.EmotionScore | nlp_modules/sentiment_analyzer.py:93-104 | an emotion score is never negative |
| Sentiment.AnalyzeEmotions | nlp_modules/sentiment_analyzer.py:90-106 | the emotion loop yields each emotion's keyword matches per word |
| Sentiment.AllEmotionsListed | nlp_modules/sentiment_analyzer.py:14-21 | every emotion is in the table |
| Sentiment.EmotionScoresCorrect | nlp_modules/sentiment_analyzer.py:93-104 | every emotion is scored, no score is negative, and a text without words scores 0 everywhere |
| Sentiment.SharedKeywords | nlp_modules/sentiment_analyzer.py:16-20 | "awful", "horrible" and "terrible" raise both the sadness and the disgust score |
| Sentiment.CountIn | nlp_modules/sentiment_analyzer.py:115-116 | a count of listed words never exceeds the number of words |
| Sentiment.CountInDisjoint | nlp_modules/sentiment_analyzer.py:115-119 | for disjoint lists the two counts together never exceed the number of words |
| Sentiment.CountInAgree | nlp_modules/sentiment_analyzer.py:116 | lists that agree on the words count them alike |
| Sentiment.DiminishersSplit | nlp_modules/sentiment_analyzer.py:25 | the last three diminishers are the ones made of two words |
| Sentiment.NotMultiWord | nlp_modules/sentiment_analyzer.py:113-116 | a word of `split()` is none of the two-word diminishers |
| Sentiment.ModifiersDisjoint | nlp_modules/sentiment_analyzer.py:24-25 | no word is both an intensifier and a diminisher |
| Sentiment.AnalyzeIntensity | nlp_modules/sentiment_analyzer.py:116-122 | the ratio lies in [0, 1]; with modifiers it is the intensifiers' share (ratio · (I + D) = I), without them 0.5 |
| Sentiment.IntensityCorrect | nlp_modules/sentiment_analyzer.py:112-131 | both counts are over the lower-cased words and never outnumber them; none gives 0.5 and Medium, only intensifiers 1 and High, only diminishers 0 and Low; High exactly when 3I > 7D, Low exactly when I + D > 0 and 3I ≤ 2D (0.7 is Medium); two-word diminishers never count |
| Sentiment.LevelThresholds | nlp_modules/sentiment_analyzer.py:124-129 | the ratio I/(I + D) is above 0.7 exactly when 3I > 7D and at most 0.4 exactly when 3I ≤ 2D |
| Sentiment.RatioInUnit | nlp_modules/sentiment_analyzer.py:119-121 | the intensity ratio lies in [0, 1], 1 without diminishers and 0 without intensifiers |
| Sentiment.LabelAll | nlp_modules/sentiment_analyzer.py:59-68 | one labelled entry per TextBlob sentence, in order |
| Sentiment.AnalyzeSentiment | nlp_modules/sentiment_analyzer.py:31-81 | returns the error for a blank text and the full report otherwise |
| Sentiment.AnalysisCorrect | nlp_modules/sentiment_analyzer.py:32-81 | error exactly for a blank text; label thresholds in both directions; confidence \|polarity\|; every sentence reported in order with its own label |
| Sentiment.Preview | nlp_modules/sentiment_analyzer.py:151 | texts up to 50 characters are kept; longer ones become their first 50 characters and "..." |
| Sentiment.Polarities | nlp_modules/sentiment_analyzer.py:162 | one polarity per row |
| Sentiment.CompareSentiments | nlp_modules/sentiment_analyzer.py:145-171 | the row loop and the summing loop yield the comparison of the texts |
| Sentiment.RowsSound | nlp_modules/sentiment_analyzer.py:146-156 | each row is for a non-blank text under its 1-based position and carries that text's results; positions increase |
| Sentiment.RowsComplete | nlp_modules/sentiment_analyzer.py:146-156 | every non-blank text has a row |
| Sentiment.CompareFails | nlp_modules/sentiment_analyzer.py:158-159 | the comparison fails exactly when every text is blank |
| Sentiment.SumBounds | nlp_modules/sentiment_analyzer.py:163 | a sum of values within [lo, hi] lies within n·lo and n·hi |
| Sentiment.MeanBetween | nlp_modules/sentiment_analyzer.py:163 | a mean lies between the least and the greatest value |
| Sentiment.SummariseCorrect | nlp_modules/sentiment_analyzer.py:161-171 | the most positive row is the first with the greatest polarity, the most negative the first with the least; the average lies between them; the total counts the rows |
| NamedEntities.Merge | nlp_modules/ner-extractor.py:187-194 | the merge keeps acc as its prefix and adds at most the candidates |
| NamedEntities.MergeFrom | nlp_modules/ner-extractor.py:187-194 | every merged entry comes from acc or the candidates |
| NamedEntities.MergeCovers | nlp_modules/ner-extractor.py:99-106 | a text is present after the merge exactly when it was in acc or among the candidates, ignoring case |
| NamedEntities.MergeNoDuplicates | nlp_modules/ner-extractor.py:99-106 | the merge adds no case-insensitive duplicates |
| NamedEntities.MergeKeepsFirst | nlp_modules/ner-extractor.py:99-106 | the first candidate of each new text is kept |
| NamedEntities.MergeOnlyFirst | nlp_modules/ner-extractor.py:99-106 | every candidate kept is the first with its text |
| NamedEntities.Kept | nlp_modules/ner-extractor.py:99-106 | the candidates first with their text, an in-order filter, no more of them than candidates |
| NamedEntities.MergeIsKept | nlp_modules/ner-extractor.py:99-106 | a merge is acc followed by exactly the first-of-text candidates, in candidate order |
| NamedEntities.KeptFrom | nlp_modules/ner-extractor.py:99-106 | every kept entry is a candidate |
| NamedEntities.KeptInOrder | nlp_modules/ner-extractor.py:99-106 | kept entries keep the candidates' order |
| NamedEntities.MergeInOrder | nlp_modules/ner-extractor.py:187-194 | the entries a merge appends after acc come in candidate order |
| NamedEntities.AppendNew | nlp_modules/ner-extractor.py:99-106 | the nested `any(...)` append loop computes the merge |
| NamedEntities.RuleEntities | nlp_modules/ner-extractor.py:94-106 | one record per match |
| NamedEntities.ExtractRuleBased | nlp_modules/ner-extractor.py:87-108 | the category loop yields the rule-based dictionary |
| NamedEntities.RuleBasedCorrect | nlp_modules/ner-extractor.py:87-108 | one list per pattern category and no other; no case-insensitive duplicates; each entry a match's text, start, end with confidence 0.8; the list is exactly the first match of each text, in match order |
| NamedEntities.ExtractChunked | nlp_modules/ner-extractor.py:114-161 | the chunk-tree loop yields the chunker dictionary, empty after a failure |
| NamedEntities.MapLabel | nlp_modules/ner-extractor.py:139-146 | GPE and GSP become LOCATION, every other label is kept; so the result is LOCATION exactly for GPE, GSP and LOCATION |
| NamedEntities.FileChunk | nlp_modules/ner-extractor.py:134-155 | a subtree whose mapped label is a key gets its record appended there, and nothing else changes |
| NamedEntities.ChunkStep | nlp_modules/ner-extractor.py:133-155 | one more node extends exactly the list of its mapped label |
| NamedEntities.NoGeopoliticalEntries | nlp_modules/ner-extractor.py:139-149 | the "GPE" and "GSP" lists always stay empty |
| NamedEntities.ChunkEntitiesCorrect | nlp_modules/ner-extractor.py:133-155 | each chunker record comes from a subtree mapped to its category, with blank-joined leaves, start 0, end its length, confidence 0.7, and every such subtree gives one |
| NamedEntities.ChunkedKeys | nlp_modules/ner-extractor.py:122-161 | the five keys after success, none after failure |
| NamedEntities.Texts | nlp_modules/ner-extractor.py:206 | the texts of the entries, in order |
| NamedEntities.CombineLists | nlp_modules/ner-extractor.py:178-194 | the merge loop yields the nine merged lists |
| NamedEntities.MergeCategory | nlp_modules/ner-extractor.py:181-194 | one category: the rule list, then the chunker entries it lacks |
| NamedEntities.ExtractComprehensive | nlp_modules/ner-extractor.py:168-217 | the comprehensive extraction, an error exactly below 10 stripped characters |
| NamedEntities.TotalIsCountSum | nlp_modules/ner-extractor.py:197-206 | the total is the sum of the counts and the number of texts counted |
| NamedEntities.ComprehensiveLists | nlp_modules/ner-extractor.py:178-201 | exactly the nine categories; each list is the rule list unchanged followed by exactly the chunker entries with a new text, in chunker order; no case-insensitive duplicates; each is counted |
| NamedEntities.ComprehensiveStatistics | nlp_modules/ner-extractor.py:197-215 | the total equals the counts' sum and the number of texts; the most-common list is `most_common(10)` over those texts; the text length is the input's |
| NamedEntities.ComprehensiveRanking | nlp_modules/ner-extractor.py:205-208 | min(10, distinct texts) distinct texts with exact counts, non-increasing, ties in first-seen order; every text left out occurs less often than each listed one, or as often and first seen later |
| NamedEntities.Row | nlp_modules/ner-extractor.py:236-242 | one pair per y |
| NamedEntities.PairsShape | nlp_modules/ner-extractor.py:235-262 | there are \|xs\|·\|ys\| pairs, all of the given type |
| NamedEntities.PairsAt | nlp_modules/ner-extractor.py:235-262 | the pair of xs[i] and ys[j] sits at position i·\|ys\| + j |
| NamedEntities.Slot | nlp_modules/ner-extractor.py:235-262 | a row-major position lies inside the table |
| NamedEntities.AppendPairs | nlp_modules/ner-extractor.py:235-242 | the nested loops append all pairs, x-major |
| NamedEntities.AnalyzeRelationships | nlp_modules/ner-extractor.py:227-268 | the three nested loops yield the relationship result |
| NamedEntities.RelateOrder | nlp_modules/ner-extractor.py:234-266 | P·O + P·L + O·L relationships: person–organisation, then person–location, then organisation–location, each at its exact position |
| NamedEntities.PairsKinds | nlp_modules/ner-extractor.py:267 | a pair type occurs exactly when both of its lists are non-empty |
| NamedEntities.RelateKinds | nlp_modules/ner-extractor.py:267 | a relationship type is listed exactly when both of its categories are non-empty |
| NamedEntities.Dedup | nlp_modules/ner-extractor.py:282 | `list(set(xs))` holds each element of xs once |
| NamedEntities.ExtractCustomPatterns | nlp_modules/ner-extractor.py:277-287 | an error exactly when some pattern is invalid; otherwise one distinct list of matches per pattern name |
| NamedEntities.Preview | nlp_modules/ner-extractor.py:303 | texts up to 100 characters are kept; longer ones become their first 100 characters and "..." |
| NamedEntities.SumCountOutside | nlp_modules/ner-extractor.py:316-318 | a category no entry counts sums to 0 |
| NamedEntities.Average | nlp_modules/ner-extractor.py:312 | the average times the number of texts gives the total; 0 without texts |
| NamedEntities.BatchExtract | nlp_modules/ner-extractor.py:294-326 | the batch loops yield the batch result |
| NamedEntities.AddTotals | nlp_modules/ner-extractor.py:311 | the sum of the entries' totals |
| NamedEntities.AddAllCounts | nlp_modules/ner-extractor.py:315-318 | per category, the sum of the entries' counts |
| NamedEntities.AddCounts | nlp_modules/ner-extractor.py:317-318 | one entry adds its count to each of its categories and leaves the others |
| NamedEntities.BatchItemsSound | nlp_modules/ner-extractor.py:296-307 | each entry is for a text over 5 stripped characters whose extraction succeeded, under its 1-based position; positions increase |
| NamedEntities.BatchItemsComplete | nlp_modules/ner-extractor.py:296-307 | every such text has an entry |
| NamedEntities.ComprehensiveFitsBatch | nlp_modules/ner-extractor.py:168-201 | the comprehensive extraction succeeds exactly from 10 stripped characters and then counts the nine categories |
| NamedEntities.BatchKeepsOnlyLong | nlp_modules/ner-extractor.py:297-300 | texts of 6 to 9 stripped characters pass the batch guard but are dropped: every entry is for a text of at least 10 |
| NamedEntities.BatchKeepsAllLong | nlp_modules/ner-extractor.py:297-300 | every text of at least 10 stripped characters has an entry |
| NamedEntities.BatchTotals | nlp_modules/ner-extractor.py:309-325 | the batch counts its entries and averages their totals (0 without any); the combined counts are the nine categories' sums, or empty |
| NamedEntities.KeysOfEntries | nlp_modules/ner-extractor.py:315-318 | when every entry counts the nine categories, so do the sums |
| Generator.FormatContains | nlp_modules/text_generator.py:51-62 | every piece of a template, literal or filled in, appears in the formatted text |
| Generator.FormatOpening | nlp_modules/text_generator.py:108-114 | a template opening with text, a slot and text starts with those, filled in |
| Generator.FormatPair | nlp_modules/text_generator.py:145-154 | neighbouring pieces appear side by side |
| Generator.StoryLengths | nlp_modules/text_generator.py:64-80 | "medium" appends one "This led to" sentence, "long" one more; other lengths give the short story; each sentence adds its own words and characters |
| Generator.AddSentence | nlp_modules/text_generator.py:79 | a sentence starting with a space and a letter adds its words |
| Generator.StoryTheme | nlp_modules/text_generator.py:74-79 | a non-empty theme puts "[Theme: theme] " in front and adds its words; an empty one changes nothing |
| Generator.StorySlots | nlp_modules/text_generator.py:48-62 | every placeholder of the chosen template is filled with its drawn word |
| Generator.EveryTemplateNamesCharacter | nlp_modules/text_generator.py:12-17 | every story template has a character placeholder |
| Generator.GenerateStory | nlp_modules/text_generator.py:43-82 | the filled template appears whole in the story, so does the theme; word and character counts are those of the story |
| Generator.StoryMentions | nlp_modules/text_generator.py:47-78 | every story mentions the drawn character and its theme |
| Generator.StoryCharacterFromBank | nlp_modules/text_generator.py:48-62 | every story names one of the bank's characters |
| Generator.ThemeMentioned | nlp_modules/text_generator.py:74-75 | the theme appears in the story |
| Generator.UnknownStyleIsProfessional | nlp_modules/text_generator.py:92 | any style other than "casual" and "formal" writes the professional e-mail |
| Generator.ToneRule | nlp_modules/text_generator.py:95-106 | the first of "meeting", "follow", "thank" found in the lower-cased purpose decides, in both directions; none gives the default |
| Generator.GenerateEmail | nlp_modules/text_generator.py:87-121 | whatever the style, the e-mail names the recipient, the purpose and the sender; word and character counts are those of the e-mail |
| Generator.EmailMentions | nlp_modules/text_generator.py:108-119 | the e-mail names the recipient, purpose, details and sender; the casual style starts "Hi recipient" with its greeting, the others "Dear recipient" |
| Generator.EmailValueFacts | nlp_modules/text_generator.py:108-114 | each keyword argument of `format` gets its value |
| Generator.EmailTemplateShape | nlp_modules/text_generator.py:19-23 | where each value sits in the three e-mail templates |
| Generator.EmailFromShape | nlp_modules/text_generator.py:108-114 | a template of that shape shows every value and opens by addressing the recipient |
| Generator.TemplateMentions | nlp_modules/text_generator.py:20-22 | what each e-mail template shows of its values |
| Generator.Sections | nlp_modules/text_generator.py:137 | one section per main point |
| Generator.SectionsAt | nlp_modules/text_generator.py:137 | section i is that of point i |
| Generator.SectionsSnoc | nlp_modules/text_generator.py:137 | one more point appends its section |
| Generator.ContentInOrder | nlp_modules/text_generator.py:137 | sections follow the points in order, separated by blank lines |
| Generator.Takeaways | nlp_modules/text_generator.py:143 | exactly three takeaways: the first three points, padded with "Consider the broader implications" |
| Generator.BlogTemplateShape | nlp_modules/text_generator.py:25-28 | both blog templates are headed by the title; the first has the introduction; the second lists takeaways after dashes |
| Generator.BlogFromShape | nlp_modules/text_generator.py:145-154 | a headed template starts with "# title" and contains the content |
| Generator.TakeawaysFromShape | nlp_modules/text_generator.py:145-154 | a takeaway template shows each takeaway after a dash |
| Generator.TakeawayFollowsDash | nlp_modules/text_generator.py:27 | a slot after text ending in "- " appears right after the dash |
| Generator.IntroductionMentions | nlp_modules/text_generator.py:134 | the introduction mentions the lower-cased title |
| Generator.ContentMentions | nlp_modules/text_generator.py:137 | each point's section appears in the content |
| Generator.GenerateBlogPost | nlp_modules/text_generator.py:126-164 | a template of the blog shape opens with "# title" and shows the content; word and character counts are those of the post |
| Generator.BlogSections | nlp_modules/text_generator.py:130-159 | every blog post opens with "# title" and carries one section per point |
| Generator.BlogIntroduction | nlp_modules/text_generator.py:134-154 | the first template mentions the lower-cased title |
| Generator.BlogTakeaways | nlp_modules/text_generator.py:143-154 | the second template lists the three takeaways, each after a dash |
| Generator.Continuations | nlp_modules/text_generator.py:177-207 | each style's list is its sentences, each after a space |
| Generator.Spaced | nlp_modules/text_generator.py:177-207 | each element gains a leading space |
| Generator.ContinueText | nlp_modules/text_generator.py:166-218 | the input is kept whole and followed by a sentence of the style's list; the new word count is the old plus the added words |
| Generator.UnknownStyleContinuesDefault | nlp_modules/text_generator.py:201-207 | a style other than the three named ones continues with the default list |

## Left out

- Regular expressions, NLTK and TextBlob are not modelled. Their outputs are parameters:
  - the entity-pattern matches;
  - the chunk tree;
  - polarity, subjectivity, sentences and noun phrases;
  - custom-pattern `findall` results.
- The summariser's `sent_tokenize` and `word_tokenize` paths are not modelled. Only their regex fall-backs are.
- The NLTK stop-word corpus is a parameter. The fall-back list is a constant.
- `random.choice` is a parameter. The drawn template, the drawn words and the continuation index are inputs:
  - `StoryMentions` and `StoryCharacterFromBank` require the template to be one of the story templates;
  - `StoryCharacterFromBank` also requires that the words come from their banks (`Drawn`).
- `str.lower`, `str.isalpha` and `\w` are modelled for ASCII letters only. There is no Unicode case folding.
- Floating-point numbers are exact reals. Rounding of the divisions is not modelled.
- The `try`/`except` handlers that turn an unexpected exception into an error dictionary are not modelled.
  - With the external results as parameters, none of the modelled operations raises.
  - The chunker's failure (`{}`) and an invalid custom pattern are modelled.
- The Streamlit interfaces (`create_*_interface`), file upload and the `__main__` entry points are not modelled. The same goes for `st.warning` in the chunker's error branch.
- `list(set(...))` orders are left open:
  - custom-pattern matches are distinct in an unspecified order (`Dedup`);
  - relationship types are a `set`.
- `findall` results that are group tuples are not modelled: custom matches are strings.
- Text ids are numbers. The sentiment comparison's `"Text {i+1}"` label is represented by its number.
- Dictionaries keyed by emotion or category names are maps keyed by datatypes, with `Name` giving the key string.
- The constant `"type"` entries of the result dictionaries are not modelled. Neither is the `processing_method` label.
- The stable sort of `sorted(..., reverse=True)` is modelled as an insertion sort by the same strict order. Any stable sort gives the same result.
- The default values of `recipient`, `sender`, `theme`, `length`, `style`, `summary_ratio`, `max_points` and `num_keywords` are left to the caller.
- `continue_text` builds a TextBlob and `last_sentence`, but never uses them. They are not modelled.
- ContinueText: does not state that at least one word is added. It states only that the count grows by the continuation's own words.
- EmailMentions: states the "Dear " / "Hi " + recipient opening, but not the punctuation that follows it.
- StoryLengths: states the word count of the added sentences through `WordCount`, not as fixed numbers.
- Pieces: its own contract says only that every piece is non-empty and free of separators. Which pieces come out, in order, follows from `PiecesOfRun`, `PiecesOfSeparators` and `PiecesAppend` together.
- StripAll: its own contract gives only the size bound and non-empty results. The exact output, in order, is stated by `StripAllAppend` and `StripAllOne` together.
- Decide: its own contract gives only the possible names and the confidence range. The full rule, with non-negative scores, is `DecideCorrect`.
