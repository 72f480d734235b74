/** Named entity extraction (`NERExtractor` in nlp_modules/ner-extractor.py):
    rule-based extraction from regular-expression matches, the mapping of
    chunker subtrees onto entity categories, the merge of both into nine fixed
    categories with statistics, the typed relationship product, custom
    patterns and the batch driver.

    The regular-expression engine and the NLTK chunker are not modelled: their
    outputs are parameters. `matches(t)` is the list of matches that the
    patterns of category t produce, pattern after pattern, each in text order;
    the chunker's tree is `Some(subtrees)`, or `None` when tokenising, tagging
    or chunking raised. */
module NamedEntities {
  import opened Results
  import opened TextOps
  import opened Ranking

  /** One entity record: the `text`, `start`, `end` and `confidence` keys. */
  datatype Entity = Entity(text: string, start: nat, end: nat, confidence: real)

  /** One regular-expression match: `group()`, `start()` and `end()`. */
  datatype Match = Match(text: string, start: nat, end: nat)

  /** A top-level node of the chunk tree: a plain (word, tag) pair, or a
      labelled subtree with its (word, tag) leaves. */
  datatype Chunk = Leaf(word: string, tag: string) | Subtree(name: string, leaves: seq<(string, string)>)

  /** The categories of the pattern table, in its order; the merged result
      uses the same nine in the same order. */
  const EntityTypes: seq<string> :=
    ["PERSON", "ORGANIZATION", "LOCATION", "DATE", "TIME", "MONEY", "EMAIL", "PHONE", "URL"]

  /** The keys of the chunker's result dictionary. */
  const ChunkTypes: seq<string> := ["PERSON", "ORGANIZATION", "LOCATION", "GPE", "GSP"]

  const RuleConfidence: real := 0.8
  const ChunkConfidence: real := 0.7

  type Entities = map<string, seq<Entity>>

  /** `entities.get(t, [])`. */
  function Lookup(m: Entities, t: string): seq<Entity> {
    if t in m then m[t] else []
  }

  // ----- first match wins -----

  /** Some entry has the text t, ignoring case. */
  predicate HasText(es: seq<Entity>, t: string) {
    exists e :: e in es && Lower(e.text) == Lower(t)
  }

  /** No two entries have the same text, ignoring case. */
  predicate NoFoldedDuplicates(es: seq<Entity>) {
    forall p, q :: 0 <= p < q < |es| ==> Lower(es[p].text) != Lower(es[q].text)
  }

  /** The list acc extended by each candidate, in order, whose text is not yet
      present ignoring case (counting candidates added before it). */
  function Merge(acc: seq<Entity>, cands: seq<Entity>): (r: seq<Entity>)
    ensures |acc| <= |r| <= |acc| + |cands|
    ensures r[..|acc|] == acc
    decreases |cands|
  {
    if cands == [] then acc
    else
      var m := Merge(acc, cands[..|cands| - 1]);
      var c := cands[|cands| - 1];
      if HasText(m, c.text) then m else m + [c]
  }

  /** Every entry of a merge is an entry of acc or a candidate. */
  lemma {:induction false} MergeFrom(acc: seq<Entity>, cands: seq<Entity>)
    ensures forall e :: e in Merge(acc, cands) ==> e in acc || e in cands
    decreases |cands|
  {
    if cands != [] {
      var init := cands[..|cands| - 1];
      MergeFrom(acc, init);
      assert forall e :: e in init ==> e in cands;
    }
  }

  /** A text is present after the merge exactly when it was present in acc or
      among the candidates. */
  lemma {:induction false} MergeCovers(acc: seq<Entity>, cands: seq<Entity>, t: string)
    ensures HasText(Merge(acc, cands), t) <==> HasText(acc + cands, t)
    decreases |cands|
  {
    if cands == [] {
      assert acc + cands == acc;
    } else {
      var init := cands[..|cands| - 1];
      var c := cands[|cands| - 1];
      var m := Merge(acc, init);
      MergeCovers(acc, init, t);
      MergeCovers(acc, init, c.text);
      assert acc + cands == (acc + init) + [c];
      if HasText(acc + cands, t) {
        var e :| e in acc + cands && Lower(e.text) == Lower(t);
        if e !in acc + init {
          assert e == c;
          if HasText(m, c.text) {
            var f :| f in m && Lower(f.text) == Lower(c.text);
            assert f in Merge(acc, cands);
          } else {
            assert c in Merge(acc, cands);
          }
        } else {
          assert HasText(acc + init, t);
          var f :| f in m && Lower(f.text) == Lower(t);
          assert f in Merge(acc, cands);
        }
      }
      if HasText(Merge(acc, cands), t) {
        var e :| e in Merge(acc, cands) && Lower(e.text) == Lower(t);
        if e in m {
          assert HasText(m, t);
          var f :| f in acc + init && Lower(f.text) == Lower(t);
          assert f in acc + cands;
        } else {
          assert e == c && c in acc + cands;
        }
      }
    }
  }

  /** A merge into a list without case-insensitive duplicates has none. */
  lemma {:induction false} MergeNoDuplicates(acc: seq<Entity>, cands: seq<Entity>)
    requires NoFoldedDuplicates(acc)
    ensures NoFoldedDuplicates(Merge(acc, cands))
    decreases |cands|
  {
    if cands != [] {
      var init := cands[..|cands| - 1];
      var c := cands[|cands| - 1];
      var m := Merge(acc, init);
      MergeNoDuplicates(acc, init);
      if !HasText(m, c.text) {
        var r := m + [c];
        forall p, q | 0 <= p < q < |r| ensures Lower(r[p].text) != Lower(r[q].text) {
          if q == |m| {
            assert r[p] in m;
          }
        }
      }
    }
  }

  /** Candidate j has a text not present in acc or among the candidates
      before it, ignoring case. */
  predicate FirstOfText(acc: seq<Entity>, cands: seq<Entity>, j: nat)
    requires j < |cands|
  {
    !HasText(acc + cands[..j], cands[j].text)
  }

  /** The first candidate with a given text (ignoring case) is kept. */
  lemma {:induction false} MergeKeepsFirst(acc: seq<Entity>, cands: seq<Entity>)
    ensures forall j: nat :: j < |cands| && FirstOfText(acc, cands, j) ==> cands[j] in Merge(acc, cands)
    decreases |cands|
  {
    if cands != [] {
      var n := |cands| - 1;
      var init := cands[..n];
      var m := Merge(acc, init);
      var r := Merge(acc, cands);
      MergeKeepsFirst(acc, init);
      MergeCovers(acc, init, cands[n].text);
      assert cands[..n] == init;
      forall j: nat | j < |cands| && FirstOfText(acc, cands, j)
        ensures cands[j] in r
      {
        if j < n {
          assert cands[..j] == init[..j] && cands[j] == init[j];
          assert FirstOfText(acc, init, j);
          assert m == r[..|m|];
        }
      }
    }
  }

  /** Every candidate kept is the first with its text (ignoring case). */
  lemma {:induction false} MergeOnlyFirst(acc: seq<Entity>, cands: seq<Entity>, k: nat)
    requires |acc| <= k < |Merge(acc, cands)|
    ensures exists j: nat :: j < |cands| && cands[j] == Merge(acc, cands)[k] && FirstOfText(acc, cands, j)
    decreases |cands|
  {
    var n := |cands| - 1;
    var init := cands[..n];
    var m := Merge(acc, init);
    var r := Merge(acc, cands);
    assert cands[..n] == init;
    if k < |m| {
      MergeOnlyFirst(acc, init, k);
      assert r[k] == m[k];
      var j: nat :| j < |init| && init[j] == m[k] && FirstOfText(acc, init, j);
      assert cands[..j] == init[..j] && cands[j] == init[j];
      assert FirstOfText(acc, cands, j);
    } else {
      MergeCovers(acc, init, cands[n].text);
      assert r[k] == cands[n];
      assert FirstOfText(acc, cands, n);
    }
  }

  /** The candidates that are first with their text (ignoring case), in
      candidate order: an in-order filter of `cands` by `FirstOfText`. */
  function Kept(acc: seq<Entity>, cands: seq<Entity>): (r: seq<Entity>)
    ensures |r| <= |cands|
    decreases |cands|
  {
    if cands == [] then []
    else
      var n := |cands| - 1;
      Kept(acc, cands[..n]) + (if FirstOfText(acc, cands, n) then [cands[n]] else [])
  }

  /** A merge is acc followed by exactly the candidates that are first with
      their text, in candidate order. */
  lemma {:induction false} MergeIsKept(acc: seq<Entity>, cands: seq<Entity>)
    ensures Merge(acc, cands) == acc + Kept(acc, cands)
    decreases |cands|
  {
    if cands != [] {
      var n := |cands| - 1;
      var init := cands[..n];
      MergeIsKept(acc, init);
      MergeCovers(acc, init, cands[n].text);
      assert acc + init == acc + cands[..n];
    }
  }

  /** Every kept entry is a candidate. */
  lemma {:induction false} KeptFrom(acc: seq<Entity>, cands: seq<Entity>, k: nat)
    requires k < |Kept(acc, cands)|
    ensures exists j: nat :: j < |cands| && cands[j] == Kept(acc, cands)[k]
    decreases |cands|
  {
    var n := |cands| - 1;
    var init := cands[..n];
    if k < |Kept(acc, init)| {
      KeptFrom(acc, init, k);
      var j: nat :| j < |init| && init[j] == Kept(acc, init)[k];
      assert cands[j] == init[j];
    } else {
      assert Kept(acc, cands)[k] == cands[n];
    }
  }

  /** Kept entries keep the order of the candidates. */
  lemma {:induction false} KeptInOrder(acc: seq<Entity>, cands: seq<Entity>, k1: nat, k2: nat)
    requires k1 < k2 < |Kept(acc, cands)|
    ensures exists j1: nat, j2: nat ::
      j1 < j2 < |cands| && cands[j1] == Kept(acc, cands)[k1] && cands[j2] == Kept(acc, cands)[k2]
    decreases |cands|
  {
    var n := |cands| - 1;
    var init := cands[..n];
    var r := Kept(acc, cands);
    assert r[..|Kept(acc, init)|] == Kept(acc, init);
    if k2 < |Kept(acc, init)| {
      KeptInOrder(acc, init, k1, k2);
      var j1: nat, j2: nat :|
        j1 < j2 < |init| && init[j1] == Kept(acc, init)[k1] && init[j2] == Kept(acc, init)[k2];
      assert cands[j1] == init[j1] && cands[j2] == init[j2];
    } else {
      KeptFrom(acc, init, k1);
      var j1: nat :| j1 < |init| && init[j1] == Kept(acc, init)[k1];
      assert cands[j1] == r[k1] && cands[n] == r[k2];
    }
  }

  /** The candidates a merge appends follow acc in candidate order. */
  lemma MergeInOrder(acc: seq<Entity>, cands: seq<Entity>, k1: nat, k2: nat)
    requires |acc| <= k1 < k2 < |Merge(acc, cands)|
    ensures exists j1: nat, j2: nat ::
      j1 < j2 < |cands| && cands[j1] == Merge(acc, cands)[k1] && cands[j2] == Merge(acc, cands)[k2]
  {
    MergeIsKept(acc, cands);
    KeptInOrder(acc, cands, k1 - |acc|, k2 - |acc|);
  }

  /** The duplicate-avoiding append loop shared by rule-based extraction and
      the merge of chunker entities. */
  method AppendNew(acc: seq<Entity>, cands: seq<Entity>) returns (r: seq<Entity>)
    ensures r == Merge(acc, cands)
  {
    r := acc;
    for i := 0 to |cands|
      invariant r == Merge(acc, cands[..i])
    {
      var c := cands[i];
      var seen := false;
      for k := 0 to |r|
        invariant seen <==> HasText(r[..k], c.text)
      {
        if Lower(r[k].text) == Lower(c.text) {
          seen := true;
        }
        assert r[..k + 1] == r[..k] + [r[k]];
      }
      assert r[..|r|] == r;
      assert cands[..i + 1][..i] == cands[..i];
      if !seen {
        r := r + [c];
      }
    }
    assert cands[..|cands|] == cands;
  }

  // ----- rule-based extraction -----

  /** Records for the matches of one category, confidence 0.8. */
  function RuleEntities(ms: seq<Match>): (es: seq<Entity>)
    ensures |es| == |ms|
  {
    seq(|ms|, i requires 0 <= i < |ms| => Entity(ms[i].text, ms[i].start, ms[i].end, RuleConfidence))
  }

  /** What `extract_entities_rule_based` returns. */
  function RuleBased(matches: string -> seq<Match>): Entities {
    map t | t in EntityTypes :: Merge([], RuleEntities(matches(t)))
  }

  method ExtractRuleBased(matches: string -> seq<Match>) returns (entities: Entities)
    ensures entities == RuleBased(matches)
  {
    entities := map[];
    for i := 0 to |EntityTypes|
      invariant entities.Keys == set t | t in EntityTypes[..i]
      invariant forall t :: t in entities ==> entities[t] == Merge([], RuleEntities(matches(t)))
    {
      var t := EntityTypes[i];
      var found := AppendNew([], RuleEntities(matches(t)));
      entities := entities[t := found];
      PrefixGrows(EntityTypes, i);
    }
    PrefixWhole(EntityTypes);
  }

  /** Every category of the pattern table has a list; within a list no two
      texts are equal ignoring case; each entry is a match's text, start and
      end with confidence 0.8; the first match of each text is the one kept;
      and the list is exactly those first matches, in match order. */
  lemma RuleBasedCorrect(matches: string -> seq<Match>, t: string)
    ensures t in RuleBased(matches) <==> t in EntityTypes
    ensures t in EntityTypes ==>
      var es := RuleBased(matches)[t];
      var ms := matches(t);
      && NoFoldedDuplicates(es)
      && (forall e :: e in es ==>
            e.confidence == 0.8 && exists m :: m in ms && e == Entity(m.text, m.start, m.end, 0.8))
      && (forall j :: 0 <= j < |ms| && !HasText(RuleEntities(ms)[..j], ms[j].text) ==>
            Entity(ms[j].text, ms[j].start, ms[j].end, 0.8) in es)
    ensures t in EntityTypes ==> RuleBased(matches)[t] == Kept([], RuleEntities(matches(t)))
  {
    if t in EntityTypes {
      var ms := matches(t);
      var cands := RuleEntities(ms);
      MergeIsKept([], cands);
      assert [] + Kept([], cands) == Kept([], cands);
      MergeNoDuplicates([], cands);
      MergeFrom([], cands);
      MergeKeepsFirst([], cands);
      forall e | e in RuleBased(matches)[t]
        ensures e.confidence == 0.8 && exists m :: m in ms && e == Entity(m.text, m.start, m.end, 0.8)
      {
        var i :| 0 <= i < |cands| && cands[i] == e;
        assert ms[i] in ms;
      }
      forall j | 0 <= j < |ms| && !HasText(cands[..j], ms[j].text)
        ensures Entity(ms[j].text, ms[j].start, ms[j].end, 0.8) in RuleBased(matches)[t]
      {
        assert [] + cands[..j] == cands[..j];
        assert cands[j].text == ms[j].text;
        assert FirstOfText([], cands, j);
      }
    }
  }

  // ----- chunker entities -----

  /** The category a chunker label is filed under: the two geo-political
      labels become LOCATION, every other label is kept as it is. */
  function MapLabel(tag: string): (r: string)
    ensures r == "LOCATION" <==> tag == "GPE" || tag == "GSP" || tag == "LOCATION"
    ensures tag != "GPE" && tag != "GSP" ==> r == tag
  {
    if tag == "PERSON" then "PERSON"
    else if tag == "ORGANIZATION" then "ORGANIZATION"
    else if tag == "GPE" || tag == "GSP" then "LOCATION"
    else tag
  }

  /** The words of a subtree's leaves joined by single blanks. */
  function LeafText(leaves: seq<(string, string)>): string {
    Join(seq(|leaves|, i requires 0 <= i < |leaves| => leaves[i].0), " ")
  }

  function ChunkEntity(leaves: seq<(string, string)>): Entity {
    var name := LeafText(leaves);
    Entity(name, 0, |name|, ChunkConfidence)
  }

  /** The records the chunker loop files under category c, in tree order. */
  function ChunkEntities(tree: seq<Chunk>, c: string): seq<Entity>
    decreases |tree|
  {
    if tree == [] then []
    else
      var rest := ChunkEntities(tree[..|tree| - 1], c);
      var node := tree[|tree| - 1];
      if node.Subtree? && MapLabel(node.name) == c then rest + [ChunkEntity(node.leaves)] else rest
  }

  /** What `extract_entities_nltk` returns; a failure of the NLTK pipeline
      gives the empty dictionary. */
  function Chunked(tree: Option<seq<Chunk>>): Entities {
    match tree
    case None => map[]
    case Some(nodes) => map c | c in ChunkTypes :: ChunkEntities(nodes, c)
  }

  method ExtractChunked(tree: Option<seq<Chunk>>) returns (entities: Entities)
    ensures entities == Chunked(tree)
  {
    if tree.None? {
      return map[];
    }
    var nodes := tree.value;
    entities := map["PERSON" := [], "ORGANIZATION" := [], "LOCATION" := [], "GPE" := [], "GSP" := []];
    for i := 0 to |nodes|
      invariant entities.Keys == set c | c in ChunkTypes
      invariant forall c :: c in entities ==> entities[c] == ChunkEntities(nodes[..i], c)
    {
      ChunkStep(nodes, i);
      entities := FileChunk(entities, nodes[i]);
    }
    PrefixWhole(nodes);
  }

  /** One pass of the chunker loop: a subtree whose mapped label is a key
      gets its record appended to that key's list. */
  method FileChunk(entities: Entities, node: Chunk) returns (out: Entities)
    ensures out.Keys == entities.Keys
    ensures forall c :: c in out ==>
      out[c] == if node.Subtree? && MapLabel(node.name) == c then entities[c] + [ChunkEntity(node.leaves)]
                else entities[c]
  {
    out := entities;
    if node.Subtree? {
      var name := LeafText(node.leaves);
      var mapped := MapLabel(node.name);
      if mapped in out {
        out := out[mapped := out[mapped] + [Entity(name, 0, |name|, ChunkConfidence)]];
      }
    }
  }

  lemma ChunkStep(nodes: seq<Chunk>, i: nat)
    requires i < |nodes|
    ensures forall c ::
      ChunkEntities(nodes[..i + 1], c) ==
        if nodes[i].Subtree? && MapLabel(nodes[i].name) == c
        then ChunkEntities(nodes[..i], c) + [ChunkEntity(nodes[i].leaves)]
        else ChunkEntities(nodes[..i], c)
  {
    assert nodes[..i + 1][..i] == nodes[..i];
  }

  /** Labels never map to GPE or GSP, so those two lists stay empty. */
  lemma {:induction false} NoGeopoliticalEntries(tree: seq<Chunk>)
    ensures ChunkEntities(tree, "GPE") == [] && ChunkEntities(tree, "GSP") == []
    decreases |tree|
  {
    if tree != [] {
      NoGeopoliticalEntries(tree[..|tree| - 1]);
    }
  }

  /** Each chunker record of category c comes from a subtree whose label maps
      to c, has its leaves joined by blanks as text, start 0, end the text's
      length and confidence 0.7; every such subtree gives a record. */
  lemma {:induction false} ChunkEntitiesCorrect(tree: seq<Chunk>, c: string)
    ensures forall e :: e in ChunkEntities(tree, c) ==>
      e.start == 0 && e.end == |e.text| && e.confidence == 0.7 &&
      exists k :: 0 <= k < |tree| && tree[k].Subtree? && MapLabel(tree[k].name) == c &&
        e.text == LeafText(tree[k].leaves)
    ensures forall k :: 0 <= k < |tree| && tree[k].Subtree? && MapLabel(tree[k].name) == c ==>
      ChunkEntity(tree[k].leaves) in ChunkEntities(tree, c)
    decreases |tree|
  {
    if tree != [] {
      var init := tree[..|tree| - 1];
      ChunkEntitiesCorrect(init, c);
      forall k | 0 <= k < |init| ensures tree[k] == init[k] { }
    }
  }

  /** The chunker's result has the five keys, or none after a failure. */
  lemma ChunkedKeys(tree: Option<seq<Chunk>>)
    ensures tree.None? ==> Chunked(tree) == map[]
    ensures tree.Some? ==> Chunked(tree).Keys == {"PERSON", "ORGANIZATION", "LOCATION", "GPE", "GSP"}
    ensures tree.Some? ==> Lookup(Chunked(tree), "GPE") == [] && Lookup(Chunked(tree), "GSP") == []
  {
    if tree.Some? {
      NoGeopoliticalEntries(tree.value);
    }
  }

  // ----- comprehensive extraction -----

  /** The merged lists: for each of the nine categories, the rule-based list
      followed by the chunker entries whose text is new ignoring case. */
  function Combine(rule: Entities, chunked: Entities): Entities {
    map t | t in EntityTypes :: Merge(Lookup(rule, t), Lookup(chunked, t))
  }

  /** `sum(len(entities) for entities in combined.values())`, the values
      taken in the key order ts. */
  function TotalOf(m: Entities, ts: seq<string>): nat
    decreases |ts|
  {
    if ts == [] then 0 else TotalOf(m, ts[..|ts| - 1]) + |Lookup(m, ts[|ts| - 1])|
  }

  function Texts(es: seq<Entity>): (r: seq<string>)
    ensures |r| == |es| && forall i :: 0 <= i < |es| ==> r[i] == es[i].text
  {
    seq(|es|, i requires 0 <= i < |es| => es[i].text)
  }

  /** `all_entity_texts`: the texts of every list, category after category. */
  function AllTexts(m: Entities, ts: seq<string>): seq<string>
    decreases |ts|
  {
    if ts == [] then [] else AllTexts(m, ts[..|ts| - 1]) + Texts(Lookup(m, ts[|ts| - 1]))
  }

  /** `entity_counts`. */
  function Counts(m: Entities): map<string, nat> {
    map t | t in m :: |m[t]|
  }

  /** `counts.get(t, 0)`. */
  function Get0(counts: map<string, nat>, t: string): nat {
    if t in counts then counts[t] else 0
  }

  function SumCounts(counts: map<string, nat>, ts: seq<string>): nat
    decreases |ts|
  {
    if ts == [] then 0 else SumCounts(counts, ts[..|ts| - 1]) + Get0(counts, ts[|ts| - 1])
  }

  /** The successful result of `extract_entities_comprehensive`. */
  datatype Extraction = Extraction(
    entities: Entities,
    total: nat,
    counts: map<string, nat>,
    mostCommon: seq<(string, nat)>,
    textLength: nat)

  /** What `extract_entities_comprehensive` returns. */
  function Comprehensive(text: string, matches: string -> seq<Match>, tree: Option<seq<Chunk>>): Result<Extraction> {
    if |Strip(text)| < 10 then Err("Text too short for entity extraction")
    else
      var combined := Combine(RuleBased(matches), Chunked(tree));
      Ok(Extraction(combined, TotalOf(combined, EntityTypes), Counts(combined),
        MostCommon(AllTexts(combined, EntityTypes), 10), |text|))
  }

  /** The merge loop of `extract_entities_comprehensive`. */
  method CombineLists(rule: Entities, chunked: Entities) returns (combined: Entities)
    ensures combined == Combine(rule, chunked)
  {
    combined := map[];
    for i := 0 to |EntityTypes|
      invariant combined.Keys == set t | t in EntityTypes[..i]
      invariant forall t :: t in combined ==> combined[t] == Merge(Lookup(rule, t), Lookup(chunked, t))
    {
      var t := EntityTypes[i];
      var list := MergeCategory(rule, chunked, t);
      combined := combined[t := list];
      PrefixGrows(EntityTypes, i);
    }
    PrefixWhole(EntityTypes);
  }

  /** One category of the merge loop: the rule-based list, then the chunker
      entries it does not already hold. */
  method MergeCategory(rule: Entities, chunked: Entities, t: string) returns (list: seq<Entity>)
    ensures list == Merge(Lookup(rule, t), Lookup(chunked, t))
  {
    list := [];
    if t in rule {
      list := rule[t];
    }
    if t in chunked {
      list := AppendNew(list, chunked[t]);
    }
  }

  method ExtractComprehensive(text: string, matches: string -> seq<Match>, tree: Option<seq<Chunk>>)
    returns (r: Result<Extraction>)
    ensures r == Comprehensive(text, matches, tree)
    ensures r.Err? <==> |Strip(text)| < 10
  {
    if |Strip(text)| < 10 {
      return Err("Text too short for entity extraction");
    }
    var rule := ExtractRuleBased(matches);
    var chunked := ExtractChunked(tree);
    var combined := CombineLists(rule, chunked);
    r := Ok(Extraction(combined, TotalOf(combined, EntityTypes), Counts(combined),
      MostCommon(AllTexts(combined, EntityTypes), 10), |text|));
  }

  /** The total is the sum of the per-category counts and the number of texts
      the most-common list is counted over. */
  lemma {:induction false} TotalIsCountSum(m: Entities, ts: seq<string>)
    requires forall t :: t in ts ==> t in m
    ensures TotalOf(m, ts) == SumCounts(Counts(m), ts) == |AllTexts(m, ts)|
    decreases |ts|
  {
    if ts != [] {
      TotalIsCountSum(m, ts[..|ts| - 1]);
    }
  }

  /** Every one of the nine categories, and no other, has a list; it starts
      with the rule-based list unchanged, then holds exactly the chunker
      entries whose text is new ignoring case, in chunker order, and has no
      case-insensitive duplicates; each count is its list's length. */
  lemma ComprehensiveLists(text: string, matches: string -> seq<Match>, tree: Option<seq<Chunk>>, x: Extraction)
    requires Comprehensive(text, matches, tree) == Ok(x)
    ensures forall t :: t in x.entities <==> t in EntityTypes
    ensures forall t :: t in x.counts <==> t in EntityTypes
    ensures forall t :: t in EntityTypes ==>
      && x.entities[t] == Merge(RuleBased(matches)[t], Lookup(Chunked(tree), t))
      && x.entities[t][..|RuleBased(matches)[t]|] == RuleBased(matches)[t]
      && NoFoldedDuplicates(x.entities[t])
      && x.counts[t] == |x.entities[t]|
    ensures forall t :: t in EntityTypes ==>
      x.entities[t] == RuleBased(matches)[t] + Kept(RuleBased(matches)[t], Lookup(Chunked(tree), t))
  {
    var rule := RuleBased(matches);
    forall t | t in EntityTypes
      ensures NoFoldedDuplicates(x.entities[t])
      ensures x.entities[t] == rule[t] + Kept(rule[t], Lookup(Chunked(tree), t))
    {
      RuleBasedCorrect(matches, t);
      MergeNoDuplicates(rule[t], Lookup(Chunked(tree), t));
      MergeIsKept(rule[t], Lookup(Chunked(tree), t));
    }
  }

  /** The total is the sum of the counts and the number of texts counted; the
      most-common list is `Counter(all).most_common(10)` over those texts; the
      text length is that of the input. */
  lemma ComprehensiveStatistics(text: string, matches: string -> seq<Match>, tree: Option<seq<Chunk>>, x: Extraction)
    requires Comprehensive(text, matches, tree) == Ok(x)
    ensures x.total == SumCounts(x.counts, EntityTypes) == |AllTexts(x.entities, EntityTypes)|
    ensures x.mostCommon == MostCommon(AllTexts(x.entities, EntityTypes), 10)
    ensures x.textLength == |text|
  {
    TotalIsCountSum(x.entities, EntityTypes);
  }

  /** The most-common list holds min(10, number of distinct texts) distinct
      texts with their exact number of occurrences, in non-increasing count,
      ties in first-seen order, and every text left out occurs less often
      than each listed one, or as often and is first seen later. */
  lemma ComprehensiveRanking(text: string, matches: string -> seq<Match>, tree: Option<seq<Chunk>>, x: Extraction)
    requires Comprehensive(text, matches, tree) == Ok(x)
    ensures |x.mostCommon| == Min(10, |Unique(AllTexts(x.entities, EntityTypes))|)
    ensures ExactCounts(AllTexts(x.entities, EntityTypes), x.mostCommon) && DistinctKeys(x.mostCommon)
    ensures CountOrder(AllTexts(x.entities, EntityTypes), x.mostCommon)
    ensures LeftOutAfter(AllTexts(x.entities, EntityTypes), x.mostCommon)
  {
    ComprehensiveStatistics(text, matches, tree, x);
    MostCommonCorrect(AllTexts(x.entities, EntityTypes), 10);
  }

  // ----- relationships -----

  /** One relationship record: `type`, `entity1`, `entity2`, `relationship`. */
  datatype Relation = Relation(kind: string, entity1: string, entity2: string, relationship: string)

  /** The result of `analyze_entity_relationships`; the list of pair types is
      built from a set, so its order is not modelled. */
  datatype Relationships = Relationships(relations: seq<Relation>, count: nat, kinds: set<string>)

  /** The pairs of one x with every y, in order. */
  function Row(x: Entity, ys: seq<Entity>, kind: string, rel: string): (r: seq<Relation>)
    ensures |r| == |ys|
  {
    seq(|ys|, j requires 0 <= j < |ys| => Relation(kind, x.text, ys[j].text, rel))
  }

  /** All pairs, x-major: the nested loops over xs and ys. */
  function Pairs(xs: seq<Entity>, ys: seq<Entity>, kind: string, rel: string): seq<Relation>
    decreases |xs|
  {
    if xs == [] then [] else Pairs(xs[..|xs| - 1], ys, kind, rel) + Row(xs[|xs| - 1], ys, kind, rel)
  }

  /** The pairs number |xs|·|ys|, all of the given type. */
  lemma {:induction false} PairsShape(xs: seq<Entity>, ys: seq<Entity>, kind: string, rel: string)
    ensures |Pairs(xs, ys, kind, rel)| == |xs| * |ys|
    ensures forall k :: 0 <= k < |Pairs(xs, ys, kind, rel)| ==> Pairs(xs, ys, kind, rel)[k].kind == kind
    decreases |xs|
  {
    if xs != [] {
      var n := |xs| - 1;
      PairsShape(xs[..n], ys, kind, rel);
      assert (n + 1) * |ys| == n * |ys| + |ys|;
    }
  }

  /** The pair of xs[i] with ys[j] sits at position i·|ys| + j. */
  lemma {:induction false} PairsAt(xs: seq<Entity>, ys: seq<Entity>, kind: string, rel: string, i: nat, j: nat)
    requires i < |xs| && j < |ys|
    ensures |Pairs(xs, ys, kind, rel)| == |xs| * |ys|
    ensures Pairs(xs, ys, kind, rel)[Slot(i, j, |xs|, |ys|)] == Relation(kind, xs[i].text, ys[j].text, rel)
    decreases |xs|
  {
    var n := |xs| - 1;
    var init := xs[..n];
    var p := Pairs(init, ys, kind, rel);
    var k := Slot(i, j, |xs|, |ys|);
    PairsShape(xs, ys, kind, rel);
    PairsShape(init, ys, kind, rel);
    assert Pairs(xs, ys, kind, rel) == p + Row(xs[n], ys, kind, rel);
    if i < n {
      PairsAt(init, ys, kind, rel, i, j);
      assert Slot(i, j, n, |ys|) == k;
      assert xs[i] == init[i];
    } else {
      assert k == n * |ys| + j == |p| + j;
    }
  }

  /** The position of pair (i, j) in an n-by-m table laid out row by row. */
  function Slot(i: nat, j: nat, n: nat, m: nat): (k: nat)
    requires i < n && j < m
    ensures k < n * m
  {
    assert (i + 1) * m <= n * m;
    i * m + j
  }

  /** Appends all pairs of xs and ys, x-major, to rels. */
  method AppendPairs(rels: seq<Relation>, xs: seq<Entity>, ys: seq<Entity>, kind: string, rel: string)
    returns (out: seq<Relation>)
    ensures out == rels + Pairs(xs, ys, kind, rel)
  {
    out := rels;
    for i := 0 to |xs|
      invariant out == rels + Pairs(xs[..i], ys, kind, rel)
    {
      for j := 0 to |ys|
        invariant out == rels + Pairs(xs[..i], ys, kind, rel) + Row(xs[i], ys[..j], kind, rel)
      {
        assert Row(xs[i], ys[..j + 1], kind, rel) == Row(xs[i], ys[..j], kind, rel) + [Relation(kind, xs[i].text, ys[j].text, rel)];
        out := out + [Relation(kind, xs[i].text, ys[j].text, rel)];
      }
      assert ys[..|ys|] == ys;
      assert xs[..i + 1][..i] == xs[..i];
    }
    assert xs[..|xs|] == xs;
  }

  /** The relationship list for the given persons, organisations and locations. */
  function Relations(P: seq<Entity>, O: seq<Entity>, L: seq<Entity>): seq<Relation> {
    Pairs(P, O, "PERSON-ORGANIZATION", "associated_with")
      + Pairs(P, L, "PERSON-LOCATION", "located_in")
      + Pairs(O, L, "ORGANIZATION-LOCATION", "based_in")
  }

  /** What `analyze_entity_relationships` returns. */
  function Relate(entities: Entities): Relationships {
    var rels := Relations(Lookup(entities, "PERSON"), Lookup(entities, "ORGANIZATION"), Lookup(entities, "LOCATION"));
    Relationships(rels, |rels|, set r: Relation | r in rels :: r.kind)
  }

  method AnalyzeRelationships(entities: Entities) returns (r: Relationships)
    ensures r == Relate(entities)
  {
    var persons := Lookup(entities, "PERSON");
    var orgs := Lookup(entities, "ORGANIZATION");
    var locations := Lookup(entities, "LOCATION");
    var rels := AppendPairs([], persons, orgs, "PERSON-ORGANIZATION", "associated_with");
    rels := AppendPairs(rels, persons, locations, "PERSON-LOCATION", "located_in");
    rels := AppendPairs(rels, orgs, locations, "ORGANIZATION-LOCATION", "based_in");
    r := Relationships(rels, |rels|, set x: Relation | x in rels :: x.kind);
  }

  /** There are P·O + P·L + O·L relationships: first every person with every organisation, person-major, then
      every person with every location, then every organisation with every
      location. */
  lemma RelateOrder(P: seq<Entity>, O: seq<Entity>, L: seq<Entity>)
    ensures var rels := Relations(P, O, L);
      && |rels| == |P| * |O| + |P| * |L| + |O| * |L|
      && (forall i, j :: 0 <= i < |P| && 0 <= j < |O| ==>
            rels[Slot(i, j, |P|, |O|)] == Relation("PERSON-ORGANIZATION", P[i].text, O[j].text, "associated_with"))
      && (forall i, j :: 0 <= i < |P| && 0 <= j < |L| ==>
            rels[|P| * |O| + Slot(i, j, |P|, |L|)] == Relation("PERSON-LOCATION", P[i].text, L[j].text, "located_in"))
      && (forall i, j :: 0 <= i < |O| && 0 <= j < |L| ==>
            rels[|P| * |O| + |P| * |L| + Slot(i, j, |O|, |L|)] ==
              Relation("ORGANIZATION-LOCATION", O[i].text, L[j].text, "based_in"))
  {
    var a := Pairs(P, O, "PERSON-ORGANIZATION", "associated_with");
    var b := Pairs(P, L, "PERSON-LOCATION", "located_in");
    var c := Pairs(O, L, "ORGANIZATION-LOCATION", "based_in");
    PairsShape(P, O, "PERSON-ORGANIZATION", "associated_with");
    PairsShape(P, L, "PERSON-LOCATION", "located_in");
    PairsShape(O, L, "ORGANIZATION-LOCATION", "based_in");
    var rels := a + b + c;
    forall i, j | 0 <= i < |P| && 0 <= j < |O|
      ensures rels[Slot(i, j, |P|, |O|)] == Relation("PERSON-ORGANIZATION", P[i].text, O[j].text, "associated_with")
    {
      PairsAt(P, O, "PERSON-ORGANIZATION", "associated_with", i, j);
    }
    forall i, j | 0 <= i < |P| && 0 <= j < |L|
      ensures rels[|a| + Slot(i, j, |P|, |L|)] == Relation("PERSON-LOCATION", P[i].text, L[j].text, "located_in")
    {
      PairsAt(P, L, "PERSON-LOCATION", "located_in", i, j);
    }
    forall i, j | 0 <= i < |O| && 0 <= j < |L|
      ensures rels[|a| + |b| + Slot(i, j, |O|, |L|)] ==
        Relation("ORGANIZATION-LOCATION", O[i].text, L[j].text, "based_in")
    {
      PairsAt(O, L, "ORGANIZATION-LOCATION", "based_in", i, j);
    }
  }

  /** A pair type is listed exactly when both of its categories are non-empty. */
  lemma RelateKinds(P: seq<Entity>, O: seq<Entity>, L: seq<Entity>)
    ensures var kinds := set r: Relation | r in Relations(P, O, L) :: r.kind;
      && ("PERSON-ORGANIZATION" in kinds <==> |P| > 0 && |O| > 0)
      && ("PERSON-LOCATION" in kinds <==> |P| > 0 && |L| > 0)
      && ("ORGANIZATION-LOCATION" in kinds <==> |O| > 0 && |L| > 0)
      && kinds <= {"PERSON-ORGANIZATION", "PERSON-LOCATION", "ORGANIZATION-LOCATION"}
  {
    var a := Pairs(P, O, "PERSON-ORGANIZATION", "associated_with");
    var b := Pairs(P, L, "PERSON-LOCATION", "located_in");
    var c := Pairs(O, L, "ORGANIZATION-LOCATION", "based_in");
    PairsKinds(P, O, "PERSON-ORGANIZATION", "associated_with");
    PairsKinds(P, L, "PERSON-LOCATION", "located_in");
    PairsKinds(O, L, "ORGANIZATION-LOCATION", "based_in");
    var rels := a + b + c;
    assert (set r: Relation | r in rels :: r.kind) ==
      (set r: Relation | r in a :: r.kind) + (set r: Relation | r in b :: r.kind) + (set r: Relation | r in c :: r.kind);
  }

  /** The pair type occurs among the pairs exactly when both lists are non-empty. */
  lemma PairsKinds(xs: seq<Entity>, ys: seq<Entity>, kind: string, rel: string)
    ensures (set r: Relation | r in Pairs(xs, ys, kind, rel) :: r.kind) == if |xs| > 0 && |ys| > 0 then {kind} else {}
  {
    var p := Pairs(xs, ys, kind, rel);
    PairsShape(xs, ys, kind, rel);
    if |xs| > 0 && |ys| > 0 {
      assert p[0 * |ys| + 0] in p;
    } else {
      assert |p| == 0;
    }
  }

  // ----- custom patterns -----

  /** `list(set(xs))`: each distinct element once, in an order the model
      leaves open (Python's set iteration order). */
  method Dedup(xs: seq<string>) returns (d: seq<string>)
    ensures Distinct(d)
    ensures forall x :: x in d <==> x in xs
  {
    var rest := set x | x in xs;
    d := [];
    while rest != {}
      invariant forall x :: x in d ==> x !in rest
      invariant forall x :: x in xs <==> x in d || x in rest
      invariant Distinct(d)
      decreases rest
    {
      var x :| x in rest;
      d := d + [x];
      rest := rest - {x};
    }
  }

  /** `extract_custom_patterns`: `findall(p)` is what matching pattern p
      against the text finds, or `None` when p is not a valid expression,
      which makes the whole call an error. */
  method ExtractCustomPatterns(patterns: map<string, string>, findall: string -> Option<seq<string>>)
    returns (r: Result<map<string, seq<string>>>)
    ensures r.Err? <==> exists name :: name in patterns && findall(patterns[name]).None?
    ensures r.Ok? ==> r.value.Keys == patterns.Keys
    ensures r.Ok? ==> forall name :: name in patterns ==>
      && findall(patterns[name]).Some?
      && Distinct(r.value[name])
      && (forall x :: x in r.value[name] <==> x in findall(patterns[name]).value)
  {
    var custom: map<string, seq<string>> := map[];
    var names := patterns.Keys;
    while names != {}
      invariant names <= patterns.Keys
      invariant custom.Keys == patterns.Keys - names
      invariant forall name :: name in custom ==>
        && findall(patterns[name]).Some?
        && Distinct(custom[name])
        && (forall x :: x in custom[name] <==> x in findall(patterns[name]).value)
      decreases names
    {
      var name :| name in names;
      var found := findall(patterns[name]);
      if found.None? {
        return Err("Custom pattern extraction failed");
      }
      var d := Dedup(found.value);
      custom := custom[name := d];
      names := names - {name};
    }
    return Ok(custom);
  }

  // ----- batch extraction -----

  /** One successful entry of `batch_results`. */
  datatype BatchItem = BatchItem(
    textId: nat,
    preview: string,
    total: nat,
    counts: map<string, nat>,
    entities: Entities)

  /** The result of `batch_extract_entities`. */
  datatype Batch = Batch(
    items: seq<BatchItem>,
    totalTexts: nat,
    totalEntities: nat,
    average: real,
    combinedCounts: map<string, nat>)

  /** The first 100 characters followed by "..." for longer texts. */
  function Preview(text: string): (p: string)
    ensures |text| <= 100 ==> p == text
    ensures |text| > 100 ==> |p| == 103 && p[..100] == text[..100] && p[100..] == "..."
  {
    if |text| > 100 then Prefix(text, 100) + "..." else text
  }

  /** The entries the batch loop produces for the first n texts, where
      `extract(s)` is the comprehensive extraction of text s. */
  function BatchItems(texts: seq<string>, extract: string -> Result<Extraction>, n: nat): seq<BatchItem>
    requires n <= |texts|
  {
    if n == 0 then []
    else
      var rest := BatchItems(texts, extract, n - 1);
      var text := texts[n - 1];
      if |Strip(text)| > 5 && extract(text).Ok? then
        var x := extract(text).value;
        rest + [BatchItem(n, Preview(text), x.total, x.counts, x.entities)]
      else rest
  }

  function SumTotals(items: seq<BatchItem>): nat
    decreases |items|
  {
    if items == [] then 0 else SumTotals(items[..|items| - 1]) + items[|items| - 1].total
  }

  /** The sum of the counts of category t over the entries. */
  function SumCount(items: seq<BatchItem>, t: string): nat
    decreases |items|
  {
    if items == [] then 0 else SumCount(items[..|items| - 1], t) + Get0(items[|items| - 1].counts, t)
  }

  /** A category no entry counts sums to zero. */
  lemma {:induction false} SumCountOutside(items: seq<BatchItem>, t: string)
    requires t !in CountKeys(items)
    ensures SumCount(items, t) == 0
    decreases |items|
  {
    if items != [] {
      SumCountOutside(items[..|items| - 1], t);
    }
  }

  /** The categories counted by some entry. */
  function CountKeys(items: seq<BatchItem>): set<string>
    decreases |items|
  {
    if items == [] then {} else CountKeys(items[..|items| - 1]) + items[|items| - 1].counts.Keys
  }

  /** `combined_counts`: per category, the sum over the entries. */
  function CombinedCounts(items: seq<BatchItem>): map<string, nat> {
    map t | t in CountKeys(items) :: SumCount(items, t)
  }

  /** `total / n if n > 0 else 0`: the average, which times n gives back the total. */
  function Average(total: nat, n: nat): (a: real)
    ensures n > 0 ==> a * n as real == total as real
    ensures n == 0 ==> a == 0.0
  {
    if n > 0 then total as real / n as real else 0.0
  }

  function BatchOf(texts: seq<string>, extract: string -> Result<Extraction>): Batch {
    var items := BatchItems(texts, extract, |texts|);
    Batch(items, |items|, SumTotals(items), Average(SumTotals(items), |items|), CombinedCounts(items))
  }

  /** What `batch_extract_entities` returns; `found(s)` and `chunks(s)` are
      the pattern matches and the chunk tree for text s. */
  function BatchSpec(texts: seq<string>, found: string -> string -> seq<Match>,
                     chunks: string -> Option<seq<Chunk>>): Batch
  {
    BatchOf(texts, s => Comprehensive(s, found(s), chunks(s)))
  }

  method BatchExtract(texts: seq<string>, found: string -> string -> seq<Match>,
                      chunks: string -> Option<seq<Chunk>>) returns (b: Batch)
    ensures b == BatchSpec(texts, found, chunks)
  {
    ghost var extract := s => Comprehensive(s, found(s), chunks(s));
    var items: seq<BatchItem> := [];
    for i := 0 to |texts|
      invariant items == BatchItems(texts, extract, i)
    {
      var text := texts[i];
      if |Strip(text)| > 5 {
        var result := ExtractComprehensive(text, found(text), chunks(text));
        assert result == extract(text);
        if result.Ok? {
          var x := result.value;
          items := items + [BatchItem(i + 1, Preview(text), x.total, x.counts, x.entities)];
        }
      }
    }
    var total := AddTotals(items);
    var combined := AddAllCounts(items);
    b := Batch(items, |items|, total, Average(total, |items|), combined);
  }

  /** `total_entities += result["total_entities"]`, entry after entry. */
  method AddTotals(items: seq<BatchItem>) returns (total: nat)
    ensures total == SumTotals(items)
  {
    total := 0;
    for k := 0 to |items|
      invariant total == SumTotals(items[..k])
    {
      assert items[..k + 1][..k] == items[..k];
      total := total + items[k].total;
    }
    PrefixWhole(items);
  }

  /** The in-place update of `combined_counts`, entry after entry. */
  method AddAllCounts(items: seq<BatchItem>) returns (combined: map<string, nat>)
    ensures combined == CombinedCounts(items)
  {
    combined := map[];
    for k := 0 to |items|
      invariant combined.Keys == CountKeys(items[..k])
      invariant forall t :: t in combined ==> combined[t] == SumCount(items[..k], t)
    {
      var prefix := items[..k + 1];
      assert prefix[..k] == items[..k];
      forall t | t !in CountKeys(items[..k]) ensures SumCount(items[..k], t) == 0 {
        SumCountOutside(items[..k], t);
      }
      combined := AddCounts(combined, items[k].counts);
    }
    assert items[..|items|] == items;
  }

  /** One entry's contribution to `combined_counts`: its categories are taken
      in an order the model leaves open, each adding its count. */
  method AddCounts(combined: map<string, nat>, counts: map<string, nat>) returns (out: map<string, nat>)
    ensures out.Keys == combined.Keys + counts.Keys
    ensures forall t :: t in out ==> out[t] == Get0(combined, t) + Get0(counts, t)
  {
    out := combined;
    var todo := counts.Keys;
    while todo != {}
      invariant todo <= counts.Keys
      invariant out.Keys == combined.Keys + (counts.Keys - todo)
      invariant forall t :: t in out ==>
        out[t] == Get0(combined, t) + (if t in counts.Keys - todo then counts[t] else 0)
      decreases todo
    {
      var t :| t in todo;
      out := out[t := Get0(out, t) + counts[t]];
      todo := todo - {t};
    }
  }

  /** The entry is the one the batch makes for the text at its position. */
  predicate EntryOf(texts: seq<string>, extract: string -> Result<Extraction>, item: BatchItem) {
    && 1 <= item.textId <= |texts|
    && var text := texts[item.textId - 1];
    && |Strip(text)| > 5
    && extract(text).Ok?
    && var x := extract(text).value;
    && item == BatchItem(item.textId, Preview(text), x.total, x.counts, x.entities)
  }

  /** Each entry is made, with its 1-based position, for a text longer than 5
      characters once stripped whose extraction succeeds, and carries that
      extraction; positions increase along the entries. */
  lemma BatchItemsSound(texts: seq<string>, extract: string -> Result<Extraction>, n: nat)
    requires n <= |texts|
    ensures var items := BatchItems(texts, extract, n);
      && |items| <= n
      && (forall k :: 0 <= k < |items| ==> items[k].textId <= n && EntryOf(texts, extract, items[k]))
      && (forall p, q :: 0 <= p < q < |items| ==> items[p].textId < items[q].textId)
  {
    BatchItemsMade(texts, extract, n);
    BatchItemsOrdered(texts, extract, n);
  }

  lemma {:induction false} BatchItemsMade(texts: seq<string>, extract: string -> Result<Extraction>, n: nat)
    requires n <= |texts|
    ensures |BatchItems(texts, extract, n)| <= n
    ensures forall k :: 0 <= k < |BatchItems(texts, extract, n)| ==>
      EntryOf(texts, extract, BatchItems(texts, extract, n)[k])
    decreases n
  {
    if n > 0 {
      var rest := BatchItems(texts, extract, n - 1);
      var items := BatchItems(texts, extract, n);
      BatchItemsMade(texts, extract, n - 1);
      assert items[..|rest|] == rest;
      forall k | 0 <= k < |items| ensures EntryOf(texts, extract, items[k]) {
        if k < |rest| {
          assert items[k] == rest[k];
        }
      }
    }
  }

  lemma {:induction false} BatchItemsOrdered(texts: seq<string>, extract: string -> Result<Extraction>, n: nat)
    requires n <= |texts|
    ensures forall k :: 0 <= k < |BatchItems(texts, extract, n)| ==> BatchItems(texts, extract, n)[k].textId <= n
    ensures forall p, q :: 0 <= p < q < |BatchItems(texts, extract, n)| ==>
      BatchItems(texts, extract, n)[p].textId < BatchItems(texts, extract, n)[q].textId
    decreases n
  {
    if n > 0 {
      var rest := BatchItems(texts, extract, n - 1);
      var items := BatchItems(texts, extract, n);
      BatchItemsOrdered(texts, extract, n - 1);
      assert items[..|rest|] == rest;
      assert |items| == |rest| || (|items| == |rest| + 1 && items[|rest|].textId == n);
      forall k | 0 <= k < |items| ensures items[k].textId <= n {
        if k < |rest| {
          assert items[k] == rest[k];
        }
      }
      forall p, q | 0 <= p < q < |items| ensures items[p].textId < items[q].textId {
        assert items[p] == rest[p] && rest[p].textId <= n - 1;
        if q >= |rest| {
          assert items[q].textId == n;
        } else {
          assert items[q] == rest[q];
        }
      }
    }
  }

  /** Every text longer than 5 characters once stripped whose extraction
      succeeds has an entry. */
  lemma {:induction false} BatchItemsComplete(texts: seq<string>, extract: string -> Result<Extraction>, n: nat, i: nat)
    requires i < n <= |texts|
    requires |Strip(texts[i])| > 5 && extract(texts[i]).Ok?
    ensures exists k :: 0 <= k < |BatchItems(texts, extract, n)| && BatchItems(texts, extract, n)[k].textId == i + 1
    decreases n
  {
    var rest := BatchItems(texts, extract, n - 1);
    var items := BatchItems(texts, extract, n);
    assert items[..|rest|] == rest;
    if i < n - 1 {
      BatchItemsComplete(texts, extract, n - 1, i);
      var k :| 0 <= k < |rest| && rest[k].textId == i + 1;
      assert items[k] == rest[k];
    } else {
      assert items[|rest|].textId == n;
    }
  }

  /** Comprehensive extraction fails exactly on texts shorter than 10
      characters once stripped, and otherwise counts the nine categories. */
  lemma ComprehensiveFitsBatch(found: string -> string -> seq<Match>, chunks: string -> Option<seq<Chunk>>)
    ensures forall s :: Comprehensive(s, found(s), chunks(s)).Ok? <==> |Strip(s)| >= 10
    ensures forall s :: Comprehensive(s, found(s), chunks(s)).Ok? ==>
      Comprehensive(s, found(s), chunks(s)).value.counts.Keys == set t | t in EntityTypes
  {
    forall s | Comprehensive(s, found(s), chunks(s)).Ok?
      ensures Comprehensive(s, found(s), chunks(s)).value.counts.Keys == set t | t in EntityTypes
    {
      ComprehensiveLists(s, found(s), chunks(s), Comprehensive(s, found(s), chunks(s)).value);
    }
  }

  /** With an extraction that fails on texts shorter than 10 characters
      once stripped, as the comprehensive one does, every entry is for such a
      text of at least 10, under its 1-based position: texts of 6 to 9 pass
      the batch's own guard but fail the extraction's and are dropped. */
  lemma BatchKeepsOnlyLong(texts: seq<string>, extract: string -> Result<Extraction>)
    requires forall s :: extract(s).Ok? ==> |Strip(s)| >= 10
    ensures var items := BatchOf(texts, extract).items;
      forall k :: 0 <= k < |items| ==>
        1 <= items[k].textId <= |texts| && |Strip(texts[items[k].textId - 1])| >= 10
  {
    var items := BatchItems(texts, extract, |texts|);
    BatchItemsSound(texts, extract, |texts|);
    forall k | 0 <= k < |items|
      ensures 1 <= items[k].textId <= |texts| && |Strip(texts[items[k].textId - 1])| >= 10
    {
      assert EntryOf(texts, extract, items[k]);
    }
  }

  /** With an extraction that succeeds on texts of at least 10 characters
      once stripped, as the comprehensive one does, every such text has an
      entry under its 1-based position. */
  lemma BatchKeepsAllLong(texts: seq<string>, extract: string -> Result<Extraction>)
    requires forall s :: |Strip(s)| >= 10 ==> extract(s).Ok?
    ensures var items := BatchOf(texts, extract).items;
      forall i :: 0 <= i < |texts| && |Strip(texts[i])| >= 10 ==>
        exists k :: 0 <= k < |items| && items[k].textId == i + 1
  {
    var items := BatchItems(texts, extract, |texts|);
    forall i | 0 <= i < |texts| && |Strip(texts[i])| >= 10
      ensures exists k :: 0 <= k < |items| && items[k].textId == i + 1
    {
      BatchItemsComplete(texts, extract, |texts|, i);
    }
  }

  /** The batch counts its entries and averages their totals (0 with none).
      With an extraction that counts the nine categories, as the
      comprehensive one does, the combined counts cover exactly those nine
      whenever something succeeded, each the sum over the entries, and are
      empty otherwise. */
  lemma BatchTotals(texts: seq<string>, extract: string -> Result<Extraction>)
    requires forall s :: extract(s).Ok? ==> extract(s).value.counts.Keys == set t | t in EntityTypes
    ensures var b := BatchOf(texts, extract);
      && b.totalTexts == |b.items| <= |texts|
      && (b.totalTexts == 0 ==> b.average == 0.0 && b.combinedCounts == map[])
      && (b.totalTexts > 0 ==>
            && b.average == b.totalEntities as real / b.totalTexts as real
            && (forall t :: t in b.combinedCounts <==> t in EntityTypes))
      && (forall t :: t in b.combinedCounts ==> b.combinedCounts[t] == SumCount(b.items, t))
  {
    var items := BatchItems(texts, extract, |texts|);
    var b := BatchOf(texts, extract);
    BatchItemsSound(texts, extract, |texts|);
    if items != [] {
      forall k | 0 <= k < |items|
        ensures items[k].counts.Keys == set t | t in EntityTypes
      {
        assert EntryOf(texts, extract, items[k]);
      }
      KeysOfEntries(items);
    }
  }

  /** When every entry counts the nine categories, so do their sums. */
  lemma {:induction false} KeysOfEntries(items: seq<BatchItem>)
    requires items != []
    requires forall k :: 0 <= k < |items| ==> items[k].counts.Keys == set t | t in EntityTypes
    ensures CountKeys(items) == set t | t in EntityTypes
    decreases |items|
  {
    var init := items[..|items| - 1];
    if init != [] {
      forall k | 0 <= k < |init| ensures init[k] == items[k] { }
      KeysOfEntries(init);
    }
  }
}
