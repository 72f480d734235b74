/** Ranking as the analysers do it with Python built-ins: a stable sort by a
    score in descending order (`sorted(..., key=..., reverse=True)`, and
    `Counter.most_common`, which is documented to equal it), a slice of the
    first k, the re-sorting of chosen indices into document order, and
    `max`/`min` with a key, which return the first extreme element, and
    `abs`.

    Positions are ranked, not values: position i comes before position j when
    its score is higher, or the scores are equal and i is earlier. Every
    stable sort produces exactly this order, so it is computed here by
    insertion. */
module Ranking {

  /** The strict order in which a stable descending sort places positions. */
  predicate Before(scores: seq<real>, i: nat, j: nat)
    requires i < |scores| && j < |scores|
  {
    scores[i] > scores[j] || (scores[i] == scores[j] && i < j)
  }

  predicate InRange(scores: seq<real>, s: seq<nat>) {
    forall k :: 0 <= k < |s| ==> s[k] < |scores|
  }

  predicate SortedBy(scores: seq<real>, s: seq<nat>)
    requires InRange(scores, s)
  {
    forall p, q :: 0 <= p < q < |s| ==> Before(scores, s[p], s[q])
  }

  predicate Distinct<T(==,!new)>(s: seq<T>) {
    forall p, q :: 0 <= p < q < |s| ==> s[p] != s[q]
  }

  function Min(a: nat, b: nat): nat {
    if a <= b then a else b
  }

  /** Python's `abs` on a number. */
  function Abs(x: real): (a: real)
    ensures a >= 0.0 && (a == x || a == -x)
  {
    if x < 0.0 then -x else x
  }

  /** The end of the Python slice `s[:k]` on a sequence of length n. */
  function SliceEnd(n: nat, k: int): (e: nat)
    ensures e <= n
    ensures k >= 0 ==> e == Min(k, n)
    ensures k < 0 ==> e == (if n + k >= 0 then n + k else 0)
  {
    if k >= 0 then Min(k, n) else if n + k >= 0 then n + k else 0
  }

  // ----- stable descending sort of positions -----

  function Insert(scores: seq<real>, x: nat, s: seq<nat>): (r: seq<nat>)
    requires x < |scores| && InRange(scores, s)
    ensures |r| == |s| + 1 && InRange(scores, r)
    ensures multiset(r) == multiset(s) + multiset{x}
    ensures forall y :: y in r <==> y == x || y in s
  {
    if s == [] then [x]
    else if Before(scores, x, s[0]) then [x] + s
    else
      assert s == [s[0]] + s[1..];
      [s[0]] + Insert(scores, x, s[1..])
  }

  lemma {:induction false} InsertSorted(scores: seq<real>, x: nat, s: seq<nat>)
    requires x < |scores| && InRange(scores, s) && SortedBy(scores, s) && x !in s
    ensures SortedBy(scores, Insert(scores, x, s))
  {
    if s != [] && !Before(scores, x, s[0]) {
      var tail := Insert(scores, x, s[1..]);
      InsertSorted(scores, x, s[1..]);
      forall q | 0 <= q < |tail| ensures Before(scores, s[0], tail[q]) {
        assert tail[q] in tail;
        if tail[q] != x {
          var q' :| 0 <= q' < |s[1..]| && s[1..][q'] == tail[q];
          assert s[q' + 1] == tail[q];
        }
      }
      var r := Insert(scores, x, s);
      assert r == [s[0]] + tail;
      forall p, q | 0 <= p < q < |r| ensures Before(scores, r[p], r[q]) {
        if p > 0 {
          assert r[p] == tail[p - 1] && r[q] == tail[q - 1];
        } else {
          assert r[q] == tail[q - 1];
        }
      }
    }
  }

  /** Positions 0 .. m-1 in ranking order. */
  function RankFirst(scores: seq<real>, m: nat): (r: seq<nat>)
    requires m <= |scores|
    ensures |r| == m && InRange(scores, r) && SortedBy(scores, r)
    ensures forall i: nat :: i in r <==> i < m
  {
    if m == 0 then []
    else
      var prev := RankFirst(scores, m - 1);
      InsertSorted(scores, m - 1, prev);
      Insert(scores, m - 1, prev)
  }

  /** `[i for i, _ in sorted(enumerate(scores), key=..., reverse=True)]`. */
  function Rank(scores: seq<real>): seq<nat> {
    RankFirst(scores, |scores|)
  }

  /** A sorted sequence lists each position once. */
  lemma SortedIsDistinct(scores: seq<real>, s: seq<nat>)
    requires InRange(scores, s) && SortedBy(scores, s)
    ensures Distinct(s)
  {
    forall p, q | 0 <= p < q < |s| ensures s[p] != s[q] {
      assert Before(scores, s[p], s[q]);
    }
  }

  lemma {:induction false} DistinctSetSize<T(!new)>(s: seq<T>)
    requires Distinct(s)
    ensures |set x | x in s| == |s|
  {
    if s != [] {
      var init := s[..|s| - 1];
      var last := s[|s| - 1];
      assert Distinct(init) by {
        forall p, q | 0 <= p < q < |init| ensures init[p] != init[q] {
          assert init[p] == s[p] && init[q] == s[q];
        }
      }
      DistinctSetSize(init);
      assert s == init + [last];
      assert (set x | x in s) == (set x | x in init) + {last};
      var a := set x | x in init;
      assert a * {last} == {};
      assert |a + {last}| == |a| + 1;
    }
  }

  /** Two score sequences that order every pair of positions alike. */
  predicate SameOrder(a: seq<real>, b: seq<real>) {
    |a| == |b| &&
    forall i: nat, j: nat :: i < |a| && j < |a| ==> (Before(a, i, j) <==> Before(b, i, j))
  }

  lemma {:induction false} InsertSameOrder(a: seq<real>, b: seq<real>, x: nat, s: seq<nat>)
    requires SameOrder(a, b) && x < |a| && InRange(a, s)
    ensures Insert(a, x, s) == Insert(b, x, s)
    decreases |s|
  {
    if s != [] && !Before(a, x, s[0]) {
      InsertSameOrder(a, b, x, s[1..]);
    }
  }

  lemma {:induction false} RankFirstSameOrder(a: seq<real>, b: seq<real>, m: nat)
    requires SameOrder(a, b) && m <= |a|
    ensures RankFirst(a, m) == RankFirst(b, m)
  {
    if m > 0 {
      RankFirstSameOrder(a, b, m - 1);
      InsertSameOrder(a, b, m - 1, RankFirst(a, m - 1));
    }
  }

  /** The ranking depends only on how the scores compare, not on their values. */
  lemma RankSameOrder(a: seq<real>, b: seq<real>)
    requires SameOrder(a, b)
    ensures Rank(a) == Rank(b)
  {
    RankFirstSameOrder(a, b, |a|);
  }

  /** The positions a slice `[:k]` of the ranking keeps. */
  function Top(scores: seq<real>, k: nat): set<nat> {
    var r := Rank(scores);
    set x: nat | x in r[..Min(k, |r|)]
  }

  /** The chosen positions below m, in increasing order: `sorted(chosen)`. */
  function Ascending(m: nat, chosen: set<nat>): (r: seq<nat>)
    ensures forall i: nat :: i in r <==> i < m && i in chosen
    ensures forall p, q :: 0 <= p < q < |r| ==> r[p] < r[q]
  {
    if m == 0 then []
    else
      var prev := Ascending(m - 1, chosen);
      assert forall p :: 0 <= p < |prev| ==> prev[p] in prev;
      prev + (if m - 1 in chosen then [m - 1] else [])
  }

  /** The top k positions, put back into document order. */
  function SelectInOrder(scores: seq<real>, k: nat): seq<nat> {
    Ascending(|scores|, Top(scores, k))
  }

  lemma TopSize(scores: seq<real>, k: nat)
    ensures |Top(scores, k)| == Min(k, |scores|)
    ensures forall x :: x in Top(scores, k) ==> x < |scores|
  {
    var r := Rank(scores);
    var m := Min(k, |r|);
    SortedIsDistinct(scores, r);
    assert Distinct(r[..m]);
    DistinctSetSize(r[..m]);
    assert forall x :: x in r[..m] ==> x in r;
    assert Top(scores, k) == set x: nat | x in r[..m];
  }

  /** Sorting a set of positions below n keeps all of them. */
  lemma AscendingSize(n: nat, chosen: set<nat>)
    requires forall x :: x in chosen ==> x < n
    ensures |Ascending(n, chosen)| == |chosen|
  {
    var a := Ascending(n, chosen);
    assert (set x: nat | x in a) == chosen;
    assert Distinct(a);
    DistinctSetSize(a);
  }

  /** A position kept by the slice beats every position it leaves out. */
  lemma TopBeatsRest(scores: seq<real>, k: nat, i: nat, j: nat)
    requires i in Top(scores, k) && j < |scores| && j !in Top(scores, k)
    ensures i < |scores| && Before(scores, i, j)
  {
    var r := Rank(scores);
    var m := Min(k, |r|);
    var p :| 0 <= p < m && r[p] == i;
    assert j in r;
    var q :| 0 <= q < |r| && r[q] == j;
  }

  /** What the summaries select: min(k, n) positions, in increasing order, and
      every selected position beats every unselected one, ties going to the
      earlier position. */
  lemma SelectInOrderCorrect(scores: seq<real>, k: nat)
    ensures var sel := SelectInOrder(scores, k);
      && |sel| == Min(k, |scores|)
      && (forall p, q :: 0 <= p < q < |sel| ==> sel[p] < sel[q])
      && (forall p :: 0 <= p < |sel| ==> sel[p] < |scores|)
      && (forall i: nat, j: nat :: i in sel && j !in sel && j < |scores| ==> Before(scores, i, j))
  {
    var sel := SelectInOrder(scores, k);
    TopSize(scores, k);
    AscendingSize(|scores|, Top(scores, k));
    assert forall p :: 0 <= p < |sel| ==> sel[p] in sel;
    forall i: nat, j: nat | i in sel && j !in sel && j < |scores| ensures Before(scores, i, j) {
      TopBeatsRest(scores, k, i, j);
    }
  }

  /** With k at least n every position is selected, in document order. */
  lemma SelectAll(scores: seq<real>, k: nat)
    requires k >= |scores|
    ensures SelectInOrder(scores, k) == seq(|scores|, i requires 0 <= i < |scores| => i)
  {
    var sel := SelectInOrder(scores, k);
    var all := seq(|scores|, i requires 0 <= i < |scores| => i);
    SelectInOrderCorrect(scores, k);
    forall p | 0 <= p < |sel| ensures sel[p] == p {
      SelectedAt(sel, |scores|, p);
    }
  }

  lemma {:induction false} SelectedAt(sel: seq<nat>, n: nat, p: nat)
    requires |sel| == n && p < n
    requires forall p, q :: 0 <= p < q < |sel| ==> sel[p] < sel[q]
    requires forall p :: 0 <= p < |sel| ==> sel[p] < n
    ensures sel[p] == p
    decreases n - p
  {
    if p + 1 < n {
      SelectedAt(sel, n, p + 1);
      assert sel[p] < sel[p + 1];
    }
    if sel[p] < p {
      LowerBound(sel, p);
    }
  }

  lemma {:induction false} LowerBound(sel: seq<nat>, p: nat)
    requires p < |sel|
    requires forall p, q :: 0 <= p < q < |sel| ==> sel[p] < sel[q]
    ensures sel[p] >= p
  {
    if p > 0 {
      LowerBound(sel, p - 1);
    }
  }

  // ----- first maximum and first minimum -----

  /** `max(range(len(xs)), key=xs.__getitem__)`: the first position holding
      the largest value. */
  function ArgMax(xs: seq<real>): (k: nat)
    requires |xs| > 0
    ensures k < |xs|
    ensures forall i :: 0 <= i < |xs| ==> xs[i] <= xs[k]
    ensures forall i :: 0 <= i < k ==> xs[i] < xs[k]
  {
    if |xs| == 1 then 0
    else
      var k := ArgMax(xs[..|xs| - 1]);
      if xs[|xs| - 1] > xs[k] then |xs| - 1 else k
  }

  /** `min(range(len(xs)), key=xs.__getitem__)`: the first position holding
      the smallest value. */
  function ArgMin(xs: seq<real>): (k: nat)
    requires |xs| > 0
    ensures k < |xs|
    ensures forall i :: 0 <= i < |xs| ==> xs[k] <= xs[i]
    ensures forall i :: 0 <= i < k ==> xs[k] < xs[i]
  {
    if |xs| == 1 then 0
    else
      var k := ArgMin(xs[..|xs| - 1]);
      if xs[|xs| - 1] < xs[k] then |xs| - 1 else k
  }

  // ----- Counter -----

  /** The keys of `Counter(xs)` in its iteration order: first appearance. */
  function Unique<T(==,!new)>(xs: seq<T>): (d: seq<T>)
    ensures forall x :: x in d <==> x in xs
    ensures Distinct(d)
  {
    if xs == [] then []
    else
      var d := Unique(xs[..|xs| - 1]);
      var last := xs[|xs| - 1];
      assert forall x :: x in xs <==> x in xs[..|xs| - 1] || x == last;
      if last in d then d else d + [last]
  }

  /** Position of the first occurrence of x. */
  function FirstIndex<T(==,!new)>(xs: seq<T>, x: T): (i: nat)
    requires x in xs
    ensures i < |xs| && xs[i] == x && x !in xs[..i]
  {
    if xs[0] == x then 0 else 1 + FirstIndex(xs[1..], x)
  }

  lemma FirstIndexExtend<T(!new)>(xs: seq<T>, y: T, x: T)
    requires x in xs
    ensures FirstIndex(xs + [y], x) == FirstIndex(xs, x)
  {
    var i := FirstIndex(xs, x);
    var j := FirstIndex(xs + [y], x);
    assert (xs + [y])[i] == x;
    assert (xs + [y])[..i] == xs[..i];
  }

  /** `Unique` lists the elements in the order of their first appearance. */
  lemma {:induction false} UniqueFirstSeen<T(!new)>(xs: seq<T>, p: nat, q: nat)
    requires p < q < |Unique(xs)|
    ensures FirstIndex(xs, Unique(xs)[p]) < FirstIndex(xs, Unique(xs)[q])
    decreases |xs|
  {
    var init := xs[..|xs| - 1];
    var last := xs[|xs| - 1];
    var d := Unique(init);
    assert xs == init + [last];
    var a, b := Unique(xs)[p], Unique(xs)[q];
    assert a in init by {
      if last !in d {
        assert a == d[p];
      }
    }
    FirstIndexExtend(init, last, a);
    if q < |d| {
      assert a == d[p] && b == d[q];
      UniqueFirstSeen(init, p, q);
      FirstIndexExtend(init, last, b);
    } else {
      assert b == last && last !in init;
      assert FirstIndex(xs, b) == |init|;
    }
  }

  /** How many times each key of `Counter(xs)` occurs, in iteration order. */
  function Tally<T(==,!new)>(xs: seq<T>): seq<real> {
    var d := Unique(xs);
    seq(|d|, i requires 0 <= i < |d| => multiset(xs)[d[i]] as real)
  }

  /** `Counter(xs).most_common(n)`. */
  function MostCommon<T(==,!new)>(xs: seq<T>, n: nat): seq<(T, nat)> {
    var d := Unique(xs);
    var r := Rank(Tally(xs));
    seq(Min(n, |d|), p requires 0 <= p < Min(n, |d|) => (d[r[p]], multiset(xs)[d[r[p]]]))
  }

  lemma Listed<T>(mc: seq<(T, nat)>, q: nat)
    requires q < |mc|
    ensures mc[q] in mc
  {
  }

  /** Every entry of mc is an element of xs with its exact count. */
  ghost predicate ExactCounts<T(!new)>(xs: seq<T>, mc: seq<(T, nat)>) {
    forall p :: 0 <= p < |mc| ==> mc[p].0 in xs && mc[p].1 == multiset(xs)[mc[p].0]
  }

  /** No element is listed twice. */
  ghost predicate DistinctKeys<T(!new)>(mc: seq<(T, nat)>) {
    forall p, q :: 0 <= p < q < |mc| ==> mc[p].0 != mc[q].0
  }

  /** The entries come by non-increasing count, ties in first-seen order. */
  ghost predicate CountOrder<T(!new)>(xs: seq<T>, mc: seq<(T, nat)>)
    requires ExactCounts(xs, mc)
  {
    && (forall p, q :: 0 <= p < q < |mc| ==> mc[p].1 >= mc[q].1)
    && (forall p, q :: 0 <= p < q < |mc| && mc[p].1 == mc[q].1 ==>
          FirstIndex(xs, mc[p].0) < FirstIndex(xs, mc[q].0))
  }

  /** Every element of xs that mc leaves out comes after each listed one in
      that order: it occurs less often, or as often and is first seen later. */
  ghost predicate LeftOutAfter<T(!new)>(xs: seq<T>, mc: seq<(T, nat)>)
    requires ExactCounts(xs, mc)
  {
    forall x, p :: x in xs && 0 <= p < |mc| && (forall q :: 0 <= q < |mc| ==> mc[q].0 != x) ==>
      multiset(xs)[x] < mc[p].1
      || (multiset(xs)[x] == mc[p].1 && FirstIndex(xs, mc[p].0) < FirstIndex(xs, x))
  }

  /** `most_common(n)` holds min(n, number of distinct elements) distinct
      elements of xs with their exact counts, in non-increasing count, ties in
      first-seen order, and every element left out comes after each listed one
      in that same order. */
  lemma MostCommonCorrect<T(!new)>(xs: seq<T>, n: nat)
    ensures |MostCommon(xs, n)| == Min(n, |Unique(xs)|)
    ensures ExactCounts(xs, MostCommon(xs, n)) && DistinctKeys(MostCommon(xs, n))
    ensures CountOrder(xs, MostCommon(xs, n)) && LeftOutAfter(xs, MostCommon(xs, n))
  {
    MostCommonEntries(xs, n);
    MostCommonOrder(xs, n);
    MostCommonTop(xs, n);
  }

  lemma MostCommonEntries<T(!new)>(xs: seq<T>, n: nat)
    ensures |MostCommon(xs, n)| == Min(n, |Unique(xs)|)
    ensures ExactCounts(xs, MostCommon(xs, n)) && DistinctKeys(MostCommon(xs, n))
  {
    SortedIsDistinct(Tally(xs), Rank(Tally(xs)));
  }

  lemma MostCommonOrder<T(!new)>(xs: seq<T>, n: nat)
    ensures ExactCounts(xs, MostCommon(xs, n)) && CountOrder(xs, MostCommon(xs, n))
  {
    var mc := MostCommon(xs, n);
    var d := Unique(xs);
    var scores := Tally(xs);
    var r := Rank(scores);
    MostCommonEntries(xs, n);
    assert SortedBy(scores, r);
    assert |scores| == |d| == |r| && |mc| <= |d|;
    forall p, q | 0 <= p < q < |mc| ensures mc[p].1 >= mc[q].1
      && (mc[p].1 == mc[q].1 ==> FirstIndex(xs, mc[p].0) < FirstIndex(xs, mc[q].0))
    {
      assert scores[r[p]] == mc[p].1 as real && scores[r[q]] == mc[q].1 as real;
      assert Before(scores, r[p], r[q]);
      if mc[p].1 == mc[q].1 {
        UniqueFirstSeen(xs, r[p], r[q]);
      }
    }
  }

  lemma MostCommonTop<T(!new)>(xs: seq<T>, n: nat)
    ensures ExactCounts(xs, MostCommon(xs, n)) && LeftOutAfter(xs, MostCommon(xs, n))
  {
    var mc := MostCommon(xs, n);
    MostCommonEntries(xs, n);
    forall x, p | x in xs && 0 <= p < |mc| && (forall q :: 0 <= q < |mc| ==> mc[q].0 != x)
      ensures multiset(xs)[x] < mc[p].1
        || (multiset(xs)[x] == mc[p].1 && FirstIndex(xs, mc[p].0) < FirstIndex(xs, x))
    {
      LeftOutBelow(xs, n, x, p);
    }
  }

  /** An element `most_common(n)` leaves out is ranked after every listed one. */
  lemma LeftOutBelow<T(!new)>(xs: seq<T>, n: nat, x: T, p: nat)
    requires x in xs && p < |MostCommon(xs, n)|
    requires forall q :: 0 <= q < |MostCommon(xs, n)| ==> MostCommon(xs, n)[q].0 != x
    ensures multiset(xs)[x] < MostCommon(xs, n)[p].1
      || (multiset(xs)[x] == MostCommon(xs, n)[p].1
          && FirstIndex(xs, MostCommon(xs, n)[p].0) < FirstIndex(xs, x))
  {
    var mc := MostCommon(xs, n);
    var d := Unique(xs);
    var scores := Tally(xs);
    var r := Rank(scores);
    assert |scores| == |d| == |r| && |mc| <= |d|;
    var i :| 0 <= i < |d| && d[i] == x;
    assert i in r;
    var q: nat :| q < |r| && r[q] == i;
    if q < |mc| {
      Listed(mc, q);
      assert false;
    }
    assert SortedBy(scores, r);
    assert mc[p].1 as real == scores[r[p]] && multiset(xs)[x] as real == scores[r[q]];
    assert Before(scores, r[p], r[q]);
    if scores[r[p]] == scores[r[q]] {
      UniqueFirstSeen(xs, r[p], r[q]);
    }
  }
}
