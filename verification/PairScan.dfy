/** Similarity scores of two token sets. Weights are reals; the logarithm is a parameter. */
module Scores {

  type Tokens = set<string>
  type Idf = map<string, real>

  datatype Metric = IdfWeighted | Raw

  function Get(idf: Idf, w: string): real {
    if w in idf then idf[w] else 0.0
  }

  /** What the tokens of a set weigh together; a token outside the corpus weighs nothing. */
  ghost function Weight(s: Tokens, idf: Idf): real {
    if s == {} then 0.0
    else
      var w :| w in s;
      Get(idf, w) + Weight(s - {w}, idf)
  }

  ghost function Score(metric: Metric, a: Tokens, b: Tokens, idf: Idf): real {
    match metric
    case Raw => if a + b == {} then 0.0 else |a * b| as real / |a + b| as real
    case IdfWeighted =>
      var den := Weight(a + b, idf);
      if den <= 0.0 then 0.0 else Weight(a * b, idf) / den
  }

  ghost predicate NonNegative(idf: Idf) {
    forall w :: w in idf ==> idf[w] >= 0.0
  }

  /** The sum does not depend on the order in which the set is traversed. */
  lemma {:induction false} WeightWithout(s: Tokens, w: string, idf: Idf)
    requires w in s
    ensures Weight(s, idf) == Get(idf, w) + Weight(s - {w}, idf)
    decreases |s|
  {
    var v :| v in s && Weight(s, idf) == Get(idf, v) + Weight(s - {v}, idf);
    if v != w {
      WeightWithout(s - {v}, w, idf);
      WeightWithout(s - {w}, v, idf);
      assert s - {v} - {w} == s - {w} - {v};
    }
  }

  lemma {:induction false} WeightOfParts(a: Tokens, b: Tokens, idf: Idf)
    requires a !! b
    ensures Weight(a + b, idf) == Weight(a, idf) + Weight(b, idf)
    decreases |a|
  {
    if a == {} {
      assert a + b == b;
    } else {
      var w :| w in a;
      WeightWithout(a, w, idf);
      WeightWithout(a + b, w, idf);
      assert a + b - {w} == (a - {w}) + b;
      WeightOfParts(a - {w}, b, idf);
    }
  }

  /** A token outside the corpus adds nothing. */
  lemma UnknownWeighsNothing(s: Tokens, w: string, idf: Idf)
    requires w !in idf
    ensures Weight(s + {w}, idf) == Weight(s, idf)
  {
    if w !in s {
      WeightWithout(s + {w}, w, idf);
      assert s + {w} - {w} == s;
    } else {
      assert s + {w} == s;
    }
  }

  lemma {:induction false} WeightNonNegative(s: Tokens, idf: Idf)
    requires NonNegative(idf)
    ensures Weight(s, idf) >= 0.0
    ensures (exists w :: w in s && Get(idf, w) > 0.0) ==> Weight(s, idf) > 0.0
    decreases |s|
  {
    if s != {} {
      var w: string :| w in s && ((exists v :: v in s && Get(idf, v) > 0.0) ==> Get(idf, w) > 0.0);
      WeightWithout(s, w, idf);
      WeightNonNegative(s - {w}, idf);
    }
  }

  lemma ScoreIsSymmetric(metric: Metric, a: Tokens, b: Tokens, idf: Idf)
    ensures Score(metric, a, b, idf) == Score(metric, b, a, idf)
  {
    assert a + b == b + a && a * b == b * a;
  }

  lemma Ratio(x: real, y: real)
    requires 0.0 <= x <= y && y > 0.0
    ensures 0.0 <= x / y <= 1.0
    ensures x / y > 0.0 <==> x > 0.0
  {
  }

  /** Sets without a common token score 0, whatever the weights are. */
  lemma DisjointScoresZero(metric: Metric, a: Tokens, b: Tokens, idf: Idf)
    requires a * b == {}
    ensures Score(metric, a, b, idf) == 0.0
  {
  }

  /**
   Scores lie between 0 and 1. With positive weights for the shared tokens, a score
   is positive exactly when a token is shared.
   */
  lemma ScoreRange(metric: Metric, a: Tokens, b: Tokens, idf: Idf)
    requires NonNegative(idf)
    ensures 0.0 <= Score(metric, a, b, idf) <= 1.0
    ensures metric == Raw || (forall w :: w in a * b ==> Get(idf, w) > 0.0) ==>
              (Score(metric, a, b, idf) > 0.0 <==> a * b != {})
  {
    if a * b == {} {
      DisjointScoresZero(metric, a, b, idf);
    }
    match metric
    case Raw =>
      if a + b != {} {
        var rest := (a + b) - a * b;
        assert a + b == a * b + rest;
        assert |a + b| == |a * b| + |rest|;
        Ratio(|a * b| as real, |a + b| as real);
      }
    case IdfWeighted =>
      var rest := (a + b) - a * b;
      WeightOfParts(a * b, rest, idf);
      assert a + b == a * b + rest;
      WeightNonNegative(a * b, idf);
      WeightNonNegative(rest, idf);
      if Weight(a + b, idf) > 0.0 {
        Ratio(Weight(a * b, idf), Weight(a + b, idf));
      }
  }

  lemma {:induction false} SplitByOther(a: Tokens, b: Tokens)
    ensures a == a * b + (a - b) && a + b == a * b + (a - b) + (b - a)
    ensures |a| == |a * b| + |a - b| && |a + b| == |a| + |b| - |a * b|
  {
    assert a == a * b + (a - b) && b == a * b + (b - a);
    assert a + b == a * b + (a - b) + (b - a);
  }

  /** The raw score is the part that the shared tokens are of all. */
  lemma RawIsSharedPart(a: Tokens, b: Tokens, idf: Idf)
    ensures Score(Raw, a, b, idf) * (|a| + |b| - |a * b|) as real == |a * b| as real
  {
    SplitByOther(a, b);
    if a + b == {} {
      assert a * b == {};
    } else {
      Quotient(|a * b| as real, |a + b| as real);
    }
  }

  lemma NothingWeighs(a: Tokens, b: Tokens, idf: Idf)
    requires NonNegative(idf) && Weight(a + b, idf) <= 0.0
    ensures Weight(a + b, idf) == Weight(a * b, idf) == 0.0
  {
    var rest := a + b - a * b;
    assert a + b == a * b + rest;
    WeightOfParts(a * b, rest, idf);
    WeightNonNegative(a * b, idf);
    WeightNonNegative(rest, idf);
  }

  /** The weighted score is the part that the shared tokens weigh of all. */
  lemma WeightedIsSharedPart(a: Tokens, b: Tokens, idf: Idf)
    requires NonNegative(idf)
    ensures Score(IdfWeighted, a, b, idf) * Weight(a + b, idf) == Weight(a * b, idf)
  {
    if Weight(a + b, idf) > 0.0 {
      Quotient(Weight(a * b, idf), Weight(a + b, idf));
    } else {
      NothingWeighs(a, b, idf);
    }
  }

  lemma Quotient(x: real, y: real)
    requires y > 0.0
    ensures x / y * y == x
  {
  }

  method SumWeights(s: Tokens, idf: Idf) returns (total: real)
    ensures total == Weight(s, idf)
  {
    total := 0.0;
    var rest := s;
    while rest != {}
      invariant rest <= s && total + Weight(rest, idf) == Weight(s, idf)
      decreases |rest|
    {
      var w :| w in rest;
      WeightWithout(rest, w, idf);
      total := total + Get(idf, w);
      rest := rest - {w};
    }
  }

  method ComputeScore(metric: Metric, a: Tokens, b: Tokens, idf: Idf) returns (s: real)
    ensures s == Score(metric, a, b, idf)
  {
    if metric == Raw {
      s := if a + b == {} then 0.0 else |a * b| as real / |a + b| as real;
    } else {
      var num := SumWeights(a * b, idf);
      var den := SumWeights(a + b, idf);
      s := if den <= 0.0 then 0.0 else num / den;
    }
  }
}

/** All-pairs comparison of a corpus through an inverted index. */
module PairScan {
  import opened Counting
  import opened Scores

  datatype Pair = Pair(score: real, i: nat, j: nat)

  // ----- what is to be computed: every pair, one by one -----

  /** The positively scored pairs (i, j) with i < j < k. */
  ghost function Row(metric: Metric, toks: seq<Tokens>, idf: Idf, i: nat, k: nat): seq<Pair>
    requires i < |toks| && k <= |toks|
  {
    if k <= i + 1 then []
    else Row(metric, toks, idf, i, k - 1) + Scored(metric, toks, idf, i, k - 1)
  }

  ghost function Scored(metric: Metric, toks: seq<Tokens>, idf: Idf, i: nat, j: nat): seq<Pair>
    requires i < |toks| && j < |toks|
  {
    var s := Score(metric, toks[i], toks[j], idf);
    if s > 0.0 then [Pair(s, i, j)] else []
  }

  ghost function AllPairs(metric: Metric, toks: seq<Tokens>, idf: Idf, n: nat): seq<Pair>
    requires n <= |toks|
  {
    if n == 0 then []
    else AllPairs(metric, toks, idf, n - 1) + Row(metric, toks, idf, n - 1, |toks|)
  }

  /** The pairs on one side of the threshold. */
  function Side(pairs: seq<Pair>, threshold: real, above: bool): seq<Pair> {
    if pairs == [] then []
    else
      var last := pairs[|pairs| - 1];
      Side(pairs[..|pairs| - 1], threshold, above) + if (last.score >= threshold) == above then [last] else []
  }

  lemma {:induction false} SideConcat(a: seq<Pair>, b: seq<Pair>, threshold: real, above: bool)
    ensures Side(a + b, threshold, above) == Side(a, threshold, above) + Side(b, threshold, above)
  {
    if b == [] {
      assert a + b == a;
    } else {
      assert (a + b)[..|a + b| - 1] == a + b[..|b| - 1];
      SideConcat(a, b[..|b| - 1], threshold, above);
    }
  }

  // ----- the inverted index -----

  predicate Shares(a: Tokens, b: Tokens) {
    a * b != {}
  }

  predicate Listed(index: map<string, seq<nat>>, t: string, i: nat) {
    t in index && i in index[t]
  }

  /** After k entries: each of their tokens lists exactly the entries that have it. */
  ghost predicate Indexes(index: map<string, seq<nat>>, toks: seq<Tokens>, k: nat)
    requires k <= |toks|
  {
    forall t: string, i: nat :: Listed(index, t, i) <==> i < k && t in toks[i]
  }

  method BuildIndex(toks: seq<Tokens>) returns (index: map<string, seq<nat>>)
    ensures Indexes(index, toks, |toks|)
  {
    index := map[];
    var i: nat := 0;
    while i < |toks|
      invariant i <= |toks| && Indexes(index, toks, i)
    {
      var rest := toks[i];
      while rest != {}
        invariant rest <= toks[i]
        invariant forall t: string, j: nat ::
                    Listed(index, t, j) <==> (j < i && t in toks[j]) || (j == i && t in toks[i] - rest)
        decreases |rest|
      {
        var t :| t in rest;
        ghost var before := index;
        index := Posted(index, t, i);
        forall u: string, j: nat ensures Listed(index, u, j) <==> Listed(before, u, j) || (u == t && j == i) {
        }
        rest := rest - {t};
      }
      i := i + 1;
    }
  }

  /** Adds i behind the entries listed for t. */
  function Posted(index: map<string, seq<nat>>, t: string, i: nat): map<string, seq<nat>> {
    index[t := (if t in index then index[t] else []) + [i]]
  }

  /** The elements of a set in increasing order. */
  method Sorted(s: set<nat>) returns (r: seq<nat>)
    ensures Increasing(r) && forall x :: x in r <==> x in s
  {
    r := [];
    var rest := s;
    while rest != {}
      invariant rest <= s && Increasing(r)
      invariant forall x :: x in r <==> x in s - rest
      invariant forall k, y :: 0 <= k < |r| && y in rest ==> r[k] < y
      decreases |rest|
    {
      var least := Least(rest);
      r := r + [least];
      rest := rest - {least};
    }
  }

  method Least(s: set<nat>) returns (least: nat)
    requires s != {}
    ensures least in s && forall y :: y in s ==> least <= y
  {
    least :| least in s;
    var others := s;
    while others != {}
      invariant others <= s && least in s
      invariant forall y :: y in s ==> y in others || least <= y
      decreases |others|
    {
      var y :| y in others;
      if y < least {
        least := y;
      }
      others := others - {y};
    }
  }

  /** The later entries below k that share a token with entry i. */
  function Candidates(toks: seq<Tokens>, i: nat, k: nat): (js: seq<nat>)
    requires i < |toks| && k <= |toks|
    ensures forall m :: 0 <= m < |js| ==> i < js[m] < k
  {
    if k <= i + 1 then []
    else Candidates(toks, i, k - 1) + if Shares(toks[i], toks[k - 1]) then [k - 1] else []
  }

  lemma {:induction false} CandidatesAreShared(toks: seq<Tokens>, i: nat, k: nat)
    requires i < |toks| && k <= |toks|
    ensures Increasing(Candidates(toks, i, k))
    ensures forall j: nat :: j in Candidates(toks, i, k) <==> i < j < k && Shares(toks[i], toks[j])
  {
    if k > i + 1 {
      var before, last: nat := Candidates(toks, i, k - 1), k - 1;
      CandidatesAreShared(toks, i, last);
      if Shares(toks[i], toks[last]) {
        assert Candidates(toks, i, k) == before + [last];
        assert forall j: nat :: j in before + [last] <==> j in before || j == last;
      } else {
        assert Candidates(toks, i, k) == before;
      }
    }
  }

  lemma WithoutLast(a: seq<nat>, x: nat)
    requires Increasing(a) && a != []
    ensures x in a[..|a| - 1] <==> x in a && x != a[|a| - 1]
    ensures x in a ==> x <= a[|a| - 1]
  {
  }

  lemma LastIsIn(a: seq<nat>)
    ensures a == [] || a[|a| - 1] in a
  {
  }

  lemma {:induction false} IncreasingIsUnique(a: seq<nat>, b: seq<nat>)
    requires Increasing(a) && Increasing(b) && forall x: nat :: x in a <==> x in b
    ensures a == b
  {
    LastIsIn(a);
    LastIsIn(b);
    if a != [] && b != [] {
      var x, y := a[|a| - 1], b[|b| - 1];
      WithoutLast(a, y);
      WithoutLast(b, x);
      var a', b' := a[..|a| - 1], b[..|b| - 1];
      forall z: nat ensures z in a' <==> z in b' {
        WithoutLast(a, z);
        WithoutLast(b, z);
      }
      IncreasingIsUnique(a', b');
      assert a == a' + [x] && b == b' + [y];
    }
  }

  method CandidateIndices(toks: seq<Tokens>, index: map<string, seq<nat>>, i: nat) returns (js: seq<nat>)
    requires i < |toks| && Indexes(index, toks, |toks|)
    ensures js == Candidates(toks, i, |toks|)
  {
    var cand: set<nat> := {};
    var rest := toks[i];
    while rest != {}
      invariant rest <= toks[i]
      invariant Gathered(cand, toks, toks[i] - rest)
      decreases |rest|
    {
      var t :| t in rest;
      assert Listed(index, t, i);
      GatherOne(cand, toks, index, toks[i] - rest, t);
      assert toks[i] - (rest - {t}) == toks[i] - rest + {t};
      cand := cand + (set j | j in index[t]);
      rest := rest - {t};
    }
    assert toks[i] - {} == toks[i];
    js := Sorted(set j | j in cand && j > i);
    CandidatesAreShared(toks, i, |toks|);
    IncreasingIsUnique(js, Candidates(toks, i, |toks|));
  }

  /** cand holds the entries that have one of the tokens in seen. */
  ghost predicate Gathered(cand: set<nat>, toks: seq<Tokens>, seen: Tokens) {
    forall j: nat :: j in cand <==> j < |toks| && Shares(seen, toks[j])
  }

  lemma GatherOne(cand: set<nat>, toks: seq<Tokens>, index: map<string, seq<nat>>, seen: Tokens, t: string)
    requires Indexes(index, toks, |toks|) && t in index && Gathered(cand, toks, seen)
    ensures Gathered(cand + (set j | j in index[t]), toks, seen + {t})
  {
    forall j: nat
      ensures j in (cand + set x | x in index[t]) <==> j < |toks| && Shares(seen + {t}, toks[j])
    {
      assert j in index[t] <==> Listed(index, t, j);
      if j < |toks| {
        SharesMore(seen, t, toks[j]);
      }
    }
  }

  lemma SharesMore(seen: Tokens, t: string, b: Tokens)
    ensures Shares(seen + {t}, b) <==> Shares(seen, b) || t in b
  {
    if t in b {
      assert t in (seen + {t}) * b;
    } else {
      assert (seen + {t}) * b == seen * b;
    }
  }

  // ----- the scan -----

  /** The positive scores of entry i against a list of entries. */
  ghost function ScoredAll(metric: Metric, toks: seq<Tokens>, idf: Idf, i: nat, js: seq<nat>): seq<Pair>
    requires i < |toks| && forall m :: 0 <= m < |js| ==> js[m] < |toks|
  {
    if js == [] then []
    else ScoredAll(metric, toks, idf, i, js[..|js| - 1]) + Scored(metric, toks, idf, i, js[|js| - 1])
  }

  lemma ScoredSnoc(metric: Metric, toks: seq<Tokens>, idf: Idf, i: nat, js: seq<nat>, j: nat)
    requires i < |toks| && j < |toks| && forall m :: 0 <= m < |js| ==> js[m] < |toks|
    ensures ScoredAll(metric, toks, idf, i, js + [j])
         == ScoredAll(metric, toks, idf, i, js) + Scored(metric, toks, idf, i, j)
  {
    assert (js + [j])[..|js|] == js;
  }

  /** A later entry without a shared token adds neither a candidate nor a score. */
  lemma CandidateStep(metric: Metric, toks: seq<Tokens>, idf: Idf, i: nat, j: nat)
    requires i < j < |toks|
    ensures ScoredAll(metric, toks, idf, i, Candidates(toks, i, j + 1))
         == ScoredAll(metric, toks, idf, i, Candidates(toks, i, j)) + Scored(metric, toks, idf, i, j)
  {
    if Shares(toks[i], toks[j]) {
      ScoredSnoc(metric, toks, idf, i, Candidates(toks, i, j), j);
    } else {
      DisjointScoresZero(metric, toks[i], toks[j], idf);
      assert Candidates(toks, i, j + 1) == Candidates(toks, i, j);
    }
  }

  lemma RowStep(metric: Metric, toks: seq<Tokens>, idf: Idf, i: nat, j: nat)
    requires i < j < |toks|
    ensures Row(metric, toks, idf, i, j + 1) == Row(metric, toks, idf, i, j) + Scored(metric, toks, idf, i, j)
  {
  }

  lemma RowStart(metric: Metric, toks: seq<Tokens>, idf: Idf, i: nat, k: nat)
    requires i < |toks| && k <= |toks| && k <= i + 1
    ensures Row(metric, toks, idf, i, k) == [] && Candidates(toks, i, k) == []
  {
  }

  /** Scoring the candidates is scoring the whole row. */
  lemma {:induction false} CandidatesSuffice(metric: Metric, toks: seq<Tokens>, idf: Idf, i: nat, k: nat)
    requires i < |toks| && k <= |toks|
    ensures ScoredAll(metric, toks, idf, i, Candidates(toks, i, k)) == Row(metric, toks, idf, i, k)
  {
    if k > i + 1 {
      var last: nat := k - 1;
      CandidatesSuffice(metric, toks, idf, i, last);
      CandidateStep(metric, toks, idf, i, last);
      RowStep(metric, toks, idf, i, last);
    } else {
      RowStart(metric, toks, idf, i, k);
    }
  }

  /** The pair, if it scores and lies on this side of the threshold. */
  ghost function OnSide(p: Pair, threshold: real, above: bool): seq<Pair> {
    if p.score > 0.0 && (p.score >= threshold) == above then [p] else []
  }

  lemma OneMoreOnSide(metric: Metric, toks: seq<Tokens>, idf: Idf, threshold: real, i: nat, js: seq<nat>, m: nat, above: bool)
    requires i < |toks| && m < |js| && forall k :: 0 <= k < |js| ==> js[k] < |toks|
    ensures Side(ScoredAll(metric, toks, idf, i, js[..m + 1]), threshold, above)
         == Side(ScoredAll(metric, toks, idf, i, js[..m]), threshold, above)
            + OnSide(Pair(Score(metric, toks[i], toks[js[m]], idf), i, js[m]), threshold, above)
  {
    assert js[..m + 1][..m] == js[..m];
    var scored := Scored(metric, toks, idf, i, js[m]);
    SideConcat(ScoredAll(metric, toks, idf, i, js[..m]), scored, threshold, above);
    assert |scored| == 1 ==> scored[..0] == [];
  }

  /** Scores the candidates of one entry and sorts them by the threshold. */
  method ScanRow(metric: Metric, toks: seq<Tokens>, idf: Idf, threshold: real, i: nat, js: seq<nat>)
      returns (edges: seq<Pair>, near: seq<Pair>)
    requires i < |toks| && forall m :: 0 <= m < |js| ==> js[m] < |toks|
    ensures edges == Side(ScoredAll(metric, toks, idf, i, js), threshold, true)
    ensures near == Side(ScoredAll(metric, toks, idf, i, js), threshold, false)
  {
    edges, near := [], [];
    for m := 0 to |js|
      invariant edges == Side(ScoredAll(metric, toks, idf, i, js[..m]), threshold, true)
      invariant near == Side(ScoredAll(metric, toks, idf, i, js[..m]), threshold, false)
    {
      var j := js[m];
      var s := ComputeScore(metric, toks[i], toks[j], idf);
      OneMoreOnSide(metric, toks, idf, threshold, i, js, m, true);
      OneMoreOnSide(metric, toks, idf, threshold, i, js, m, false);
      if s > 0.0 {
        var rec := Pair(s, i, j);
        if s >= threshold {
          edges := edges + [rec];
        } else {
          near := near + [rec];
        }
      }
    }
    assert js[..|js|] == js;
  }

  /** The scan through the index finds what comparing every pair finds, in the same order. */
  method ScanPairs(metric: Metric, toks: seq<Tokens>, idf: Idf, threshold: real)
      returns (edges: seq<Pair>, near: seq<Pair>)
    ensures edges == Side(AllPairs(metric, toks, idf, |toks|), threshold, true)
    ensures near == Side(AllPairs(metric, toks, idf, |toks|), threshold, false)
  {
    var index := BuildIndex(toks);
    edges, near := [], [];
    for i := 0 to |toks|
      invariant edges == Side(AllPairs(metric, toks, idf, i), threshold, true)
      invariant near == Side(AllPairs(metric, toks, idf, i), threshold, false)
    {
      var js := CandidateIndices(toks, index, i);
      var e, n := ScanRow(metric, toks, idf, threshold, i, js);
      CandidatesSuffice(metric, toks, idf, i, |toks|);
      SideConcat(AllPairs(metric, toks, idf, i), Row(metric, toks, idf, i, |toks|), threshold, true);
      SideConcat(AllPairs(metric, toks, idf, i), Row(metric, toks, idf, i, |toks|), threshold, false);
      edges, near := edges + e, near + n;
    }
  }

  // ----- the weights of a corpus -----

  /** How many of the first k token sets have w. */
  function DocFreq(toks: seq<Tokens>, w: string, k: nat): nat
    requires k <= |toks|
  {
    if k == 0 then 0 else DocFreq(toks, w, k - 1) + if w in toks[k - 1] then 1 else 0
  }

  /** Of the logarithm only that it is positive above 1 is used. */
  ghost predicate IsLog(log: real -> real) {
    forall x: real {:trigger log(x)} :: x > 1.0 ==> log(x) > 0.0
  }

  predicate Counts(df: map<string, nat>, w: string, count: nat) {
    (w in df <==> count > 0) && (w in df ==> df[w] == count)
  }

  method CountTokens(toks: seq<Tokens>) returns (df: map<string, nat>)
    ensures forall w :: Counts(df, w, DocFreq(toks, w, |toks|))
  {
    df := map[];
    var i: nat := 0;
    while i < |toks|
      invariant i <= |toks|
      invariant forall w :: Counts(df, w, DocFreq(toks, w, i))
    {
      var rest := toks[i];
      while rest != {}
        invariant rest <= toks[i]
        invariant forall w :: Counts(df, w, if w in rest then DocFreq(toks, w, i) else DocFreq(toks, w, i + 1))
        decreases |rest|
      {
        var t :| t in rest;
        assert Counts(df, t, DocFreq(toks, t, i));
        ghost var before := df;
        df := df[t := (if t in df then df[t] else 0) + 1];
        forall w ensures Counts(df, w, if w in rest - {t} then DocFreq(toks, w, i) else DocFreq(toks, w, i + 1)) {
          assert Counts(before, w, if w in rest then DocFreq(toks, w, i) else DocFreq(toks, w, i + 1));
        }
        rest := rest - {t};
      }
      i := i + 1;
    }
  }

  method ComputeIdf(toks: seq<Tokens>, log: real -> real) returns (idf: Idf, n: nat)
    ensures n == |toks| && IsIdfOf(idf, toks, log)
  {
    n := |toks|;
    var df := CountTokens(toks);
    idf := map w | w in df :: log(1.0 + n as real / (1 + df[w]) as real);
    forall w ensures w in idf <==> Holders(toks, w) != {}
      ensures w in idf ==> idf[w] == log(1.0 + |toks| as real / (1 + |Holders(toks, w)|) as real)
    {
      assert Counts(df, w, DocFreq(toks, w, |toks|));
      DocFreqIsHolders(toks, w);
    }
  }

  /** The entries that have w. */
  ghost function Holders(toks: seq<Tokens>, w: string): set<int> {
    set i | 0 <= i < |toks| && w in toks[i]
  }

  /** Exactly the tokens that occur have a weight: the smoothed inverse of how many entries have them. */
  ghost predicate IsIdfOf(idf: Idf, toks: seq<Tokens>, log: real -> real) {
    && (forall w :: w in idf <==> Holders(toks, w) != {})
    && (forall w :: w in idf ==> idf[w] == log(1.0 + |toks| as real / (1 + |Holders(toks, w)|) as real))
  }

  ghost function HoldersBelow(toks: seq<Tokens>, w: string, k: nat): set<int>
    requires k <= |toks|
  {
    set i | 0 <= i < k && w in toks[i]
  }

  lemma {:induction false} DocFreqCounts(toks: seq<Tokens>, w: string, k: nat)
    requires k <= |toks|
    ensures DocFreq(toks, w, k) == |HoldersBelow(toks, w, k)|
  {
    if k > 0 {
      var last: nat := k - 1;
      DocFreqCounts(toks, w, last);
      assert HoldersBelow(toks, w, k) == HoldersBelow(toks, w, last) + if w in toks[last] then {last} else {};
    } else {
      assert HoldersBelow(toks, w, 0) == {};
    }
  }

  lemma DocFreqIsHolders(toks: seq<Tokens>, w: string)
    ensures DocFreq(toks, w, |toks|) == |Holders(toks, w)|
  {
    DocFreqCounts(toks, w, |toks|);
    assert HoldersBelow(toks, w, |toks|) == Holders(toks, w);
  }

  /** The logarithm grows, above 0. */
  ghost predicate Grows(log: real -> real) {
    forall x: real, y: real {:trigger log(x), log(y)} :: 0.0 < x < y ==> log(x) < log(y)
  }

  lemma LargerShare(n: nat, a: nat, b: nat)
    requires n > 0 && a < b
    ensures 0.0 < 1.0 + n as real / (1 + b) as real < 1.0 + n as real / (1 + a) as real
  {
    var x, p, q := n as real, (1 + a) as real, (1 + b) as real;
    assert p < q && x > 0.0 && p > 0.0;
    assert x / p - x / q == x * (q - p) / (p * q);
    assert x * (q - p) > 0.0 && p * q > 0.0;
  }

  /** Rarer tokens weigh more. */
  lemma RarerWeighsMore(toks: seq<Tokens>, idf: Idf, log: real -> real, v: string, w: string)
    requires Grows(log) && IsIdfOf(idf, toks, log) && v in idf && w in idf
    ensures |Holders(toks, v)| < |Holders(toks, w)| <==> idf[v] > idf[w]
  {
    var a, b := |Holders(toks, v)|, |Holders(toks, w)|;
    assert Holders(toks, v) != {};
    if a < b {
      LargerShare(|toks|, a, b);
    } else if b < a {
      LargerShare(|toks|, b, a);
    }
  }

  // ----- the final order -----

  /** The higher score first, then the smaller indices. */
  predicate RanksBefore(p: Pair, q: Pair) {
    p.score > q.score || (p.score == q.score && (p.i < q.i || (p.i == q.i && p.j < q.j)))
  }

  function Place(p: Pair, s: seq<Pair>): (r: seq<Pair>)
    ensures multiset(r) == multiset{p} + multiset(s)
  {
    if s == [] || !RanksBefore(s[0], p) then
      assert [p] + s == [p] + s;
      [p] + s
    else
      assert s == [s[0]] + s[1..];
      [s[0]] + Place(p, s[1..])
  }

  function Ranked(s: seq<Pair>): (r: seq<Pair>)
    ensures multiset(r) == multiset(s)
  {
    if s == [] then []
    else
      assert s == [s[0]] + s[1..];
      Place(s[0], Ranked(s[1..]))
  }

  ghost predicate InRank(s: seq<Pair>) {
    forall a, b :: 0 <= a < b < |s| ==> !RanksBefore(s[b], s[a])
  }

  lemma {:induction false} PlaceRanks(p: Pair, s: seq<Pair>)
    requires InRank(s)
    ensures InRank(Place(p, s))
  {
    if s != [] && RanksBefore(s[0], p) {
      var r := Place(p, s[1..]);
      PlaceRanks(p, s[1..]);
      forall k | 0 <= k < |r| ensures !RanksBefore(r[k], s[0]) {
        assert r[k] in multiset(r);
        assert r[k] == p || r[k] in s[1..];
      }
    } else if s != [] {
      forall k | 0 <= k < |s| ensures !RanksBefore(s[k], p) {
      }
    }
  }

  lemma {:induction false} RankedRanks(s: seq<Pair>)
    ensures InRank(Ranked(s))
  {
    if s != [] {
      RankedRanks(s[1..]);
      PlaceRanks(s[0], Ranked(s[1..]));
    }
  }

  lemma SameMembers(a: seq<Pair>, b: seq<Pair>, p: Pair)
    requires multiset(a) == multiset(b)
    ensures p in a <==> p in b
  {
    assert p in a <==> p in multiset(a);
    assert p in b <==> p in multiset(b);
  }

  lemma SameFirst(a: seq<Pair>, b: seq<Pair>)
    requires InRank(a) && InRank(b) && a != [] && b != [] && a[0] in b && b[0] in a
    ensures a[0] == b[0]
  {
  }

  lemma SameRest(a: seq<Pair>, b: seq<Pair>)
    requires a != [] && b != [] && a[0] == b[0] && multiset(a) == multiset(b)
    ensures multiset(a[1..]) == multiset(b[1..])
  {
    assert a == [a[0]] + a[1..] && b == [b[0]] + b[1..];
    assert multiset(a[1..]) == multiset(a) - multiset{a[0]};
  }

  /** There is one ranked list of the same pairs. */
  lemma {:induction false} RankingIsUnique(a: seq<Pair>, b: seq<Pair>)
    requires InRank(a) && InRank(b) && multiset(a) == multiset(b)
    ensures a == b
  {
    if a == [] {
      assert |multiset(b)| == 0;
    } else {
      SameMembers(a, b, a[0]);
      SameMembers(a, b, b[0]);
      SameFirst(a, b);
      SameRest(a, b);
      RankingIsUnique(a[1..], b[1..]);
    }
  }

  /** However a scan enumerates the pairs, the ranked list is the same. */
  lemma RankedForgetsOrder(a: seq<Pair>, b: seq<Pair>)
    requires multiset(a) == multiset(b)
    ensures Ranked(a) == Ranked(b)
  {
    RankedRanks(a);
    RankedRanks(b);
    RankingIsUnique(Ranked(a), Ranked(b));
  }

  /** The scan of a corpus, with each list ranked by score. */
  method FindEdges(metric: Metric, toks: seq<Tokens>, threshold: real, log: real -> real)
      returns (edges: seq<Pair>, near: seq<Pair>, idf: Idf, n: nat)
    ensures n == |toks| && if metric == Raw then idf == map[] else IsIdfOf(idf, toks, log)
    ensures edges == Ranked(Side(AllPairs(metric, toks, idf, |toks|), threshold, true))
    ensures near == Ranked(Side(AllPairs(metric, toks, idf, |toks|), threshold, false))
  {
    if metric == IdfWeighted {
      idf, n := ComputeIdf(toks, log);
    } else {
      idf, n := map[], |toks|;
    }
    edges, near := ScanPairs(metric, toks, idf, threshold);
    edges, near := Ranked(edges), Ranked(near);
  }

  // ----- which pairs are found -----

  lemma CorpusWeightsArePositive(toks: seq<Tokens>, idf: Idf, log: real -> real, i: nat)
    requires IsLog(log) && IsIdfOf(idf, toks, log) && i < |toks|
    ensures NonNegative(idf) && forall w :: w in toks[i] ==> Get(idf, w) > 0.0
  {
    forall w | w in idf ensures idf[w] > 0.0 {
      Fraction(|toks|, 1 + |Holders(toks, w)|);
    }
    forall w | w in toks[i] ensures Get(idf, w) > 0.0 {
      assert i in Holders(toks, w);
    }
  }

  lemma Fraction(a: nat, b: nat)
    requires a > 0 && b > 0
    ensures 1.0 + a as real / b as real > 1.0
  {
  }

  /** A pair of the corpus scores above 0 exactly when it shares a token, and never above 1. */
  lemma CorpusScores(metric: Metric, toks: seq<Tokens>, idf: Idf, log: real -> real, i: nat, j: nat)
    requires IsLog(log) && i < |toks| && j < |toks|
    requires if metric == Raw then idf == map[] else IsIdfOf(idf, toks, log)
    ensures 0.0 <= Score(metric, toks[i], toks[j], idf) <= 1.0
    ensures Score(metric, toks[i], toks[j], idf) > 0.0 <==> Shares(toks[i], toks[j])
  {
    if metric == IdfWeighted {
      CorpusWeightsArePositive(toks, idf, log, i);
    }
    ScoreRange(metric, toks[i], toks[j], idf);
  }

  ghost predicate IsScoredPair(metric: Metric, toks: seq<Tokens>, idf: Idf, p: Pair) {
    p.i < p.j < |toks| && p.score == Score(metric, toks[p.i], toks[p.j], idf) && p.score > 0.0
  }

  lemma {:induction false} RowContains(metric: Metric, toks: seq<Tokens>, idf: Idf, i: nat, k: nat, p: Pair)
    requires i < |toks| && k <= |toks|
    ensures p in Row(metric, toks, idf, i, k) <==> IsScoredPair(metric, toks, idf, p) && p.i == i && p.j < k
  {
    if k > i + 1 {
      RowContains(metric, toks, idf, i, k - 1, p);
    }
  }

  lemma InEither(a: seq<Pair>, b: seq<Pair>, p: Pair)
    ensures p in a + b <==> p in a || p in b
  {
  }

  /** All-pairs comparison yields each positively scored pair, and nothing else. */
  lemma {:induction false} AllPairsContains(metric: Metric, toks: seq<Tokens>, idf: Idf, n: nat, p: Pair)
    requires n <= |toks|
    ensures p in AllPairs(metric, toks, idf, n) <==> IsScoredPair(metric, toks, idf, p) && p.i < n
  {
    if n > 0 {
      var last: nat := n - 1;
      AllPairsContains(metric, toks, idf, last, p);
      RowContains(metric, toks, idf, last, |toks|, p);
      OneMoreRow(metric, toks, idf, last, p);
    }
  }

  lemma OneMoreRow(metric: Metric, toks: seq<Tokens>, idf: Idf, n: nat, p: Pair)
    requires n < |toks|
    ensures p in AllPairs(metric, toks, idf, n + 1)
       <==> p in AllPairs(metric, toks, idf, n) || p in Row(metric, toks, idf, n, |toks|)
  {
    InEither(AllPairs(metric, toks, idf, n), Row(metric, toks, idf, n, |toks|), p);
  }

  lemma {:induction false} SideContains(pairs: seq<Pair>, threshold: real, above: bool, p: Pair)
    ensures p in Side(pairs, threshold, above) <==> p in pairs && (p.score >= threshold) == above
  {
    if pairs != [] {
      SideContains(pairs[..|pairs| - 1], threshold, above, p);
      assert p in pairs <==> p in pairs[..|pairs| - 1] || p == pairs[|pairs| - 1];
    }
  }

  predicate Before(p: Pair, q: Pair) {
    p.i < q.i || (p.i == q.i && p.j < q.j)
  }

  ghost predicate InOrder(pairs: seq<Pair>) {
    forall a, b :: 0 <= a < b < |pairs| ==> Before(pairs[a], pairs[b])
  }

  lemma {:induction false} SideInOrder(pairs: seq<Pair>, threshold: real, above: bool)
    requires InOrder(pairs)
    ensures InOrder(Side(pairs, threshold, above))
  {
    if pairs != [] {
      var init := pairs[..|pairs| - 1];
      SideInOrder(init, threshold, above);
      var side := Side(init, threshold, above);
      forall a | 0 <= a < |side| ensures Before(side[a], pairs[|pairs| - 1]) {
        SideContains(init, threshold, above, side[a]);
      }
    }
  }

  lemma {:induction false} RowInOrder(metric: Metric, toks: seq<Tokens>, idf: Idf, i: nat, k: nat)
    requires i < |toks| && k <= |toks|
    ensures InOrder(Row(metric, toks, idf, i, k))
  {
    if k > i + 1 {
      RowInOrder(metric, toks, idf, i, k - 1);
      var row := Row(metric, toks, idf, i, k - 1);
      forall a | 0 <= a < |row| ensures row[a].i == i && row[a].j < k - 1 {
        RowContains(metric, toks, idf, i, k - 1, row[a]);
      }
    }
  }

  lemma OrderJoins(a: seq<Pair>, b: seq<Pair>, i: nat)
    requires InOrder(a) && InOrder(b)
    requires (forall k :: 0 <= k < |a| ==> a[k].i < i) && (forall k :: 0 <= k < |b| ==> b[k].i == i)
    ensures InOrder(a + b)
  {
  }

  /** No pair occurs twice: the list is in strictly increasing order of its indices. */
  lemma {:induction false} AllPairsInOrder(metric: Metric, toks: seq<Tokens>, idf: Idf, n: nat)
    requires n <= |toks|
    ensures InOrder(AllPairs(metric, toks, idf, n))
  {
    if n > 0 {
      var last: nat := n - 1;
      AllPairsInOrder(metric, toks, idf, last);
      RowInOrder(metric, toks, idf, last, |toks|);
      var all, row := AllPairs(metric, toks, idf, last), Row(metric, toks, idf, last, |toks|);
      forall a | 0 <= a < |all| ensures all[a].i < last {
        AllPairsContains(metric, toks, idf, last, all[a]);
      }
      forall b | 0 <= b < |row| ensures row[b].i == last {
        RowContains(metric, toks, idf, last, |toks|, row[b]);
      }
      OrderJoins(all, row, last);
    }
  }

  ghost predicate NoneTwice(s: seq<Pair>) {
    forall p :: multiset(s)[p] <= 1
  }

  lemma {:induction false} OrderedOnce(s: seq<Pair>)
    requires InOrder(s)
    ensures NoneTwice(s)
  {
    if s != [] {
      var init, last := s[..|s| - 1], s[|s| - 1];
      OrderedOnce(init);
      assert s == init + [last] && last !in init;
    }
  }

  /**
   Edges and near misses of a corpus: every pair i < j that shares a token is in
   exactly one of the two lists, once, on the side its score is of the threshold;
   nothing else is in either, and each list is in descending order of score.
   */
  lemma FoundPairs(metric: Metric, toks: seq<Tokens>, idf: Idf, log: real -> real, threshold: real, i: nat, j: nat, above: bool)
    requires IsLog(log) && i < |toks| && j < |toks|
    requires if metric == Raw then idf == map[] else IsIdfOf(idf, toks, log)
    ensures var found := Ranked(Side(AllPairs(metric, toks, idf, |toks|), threshold, above));
            var s := Score(metric, toks[i], toks[j], idf);
            && InRank(found) && NoneTwice(found)
            && (Pair(s, i, j) in found <==> i < j && Shares(toks[i], toks[j]) && (s >= threshold) == above)
            && (forall p :: p in found ==> IsScoredPair(metric, toks, idf, p))
  {
    var all := AllPairs(metric, toks, idf, |toks|);
    var side := Side(all, threshold, above);
    var found, s := Ranked(side), Score(metric, toks[i], toks[j], idf);
    AllPairsInOrder(metric, toks, idf, |toks|);
    SideInOrder(all, threshold, above);
    OrderedOnce(side);
    RankedRanks(side);
    CorpusScores(metric, toks, idf, log, i, j);
    SameMembers(found, side, Pair(s, i, j));
    SideContains(all, threshold, above, Pair(s, i, j));
    AllPairsContains(metric, toks, idf, |toks|, Pair(s, i, j));
    forall p | p in found ensures IsScoredPair(metric, toks, idf, p) {
      SameMembers(found, side, p);
      SideContains(all, threshold, above, p);
      AllPairsContains(metric, toks, idf, |toks|, p);
    }
  }
}
