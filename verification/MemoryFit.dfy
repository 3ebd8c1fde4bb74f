/** A cut-off in an increasing table of lengths. */
module CutOff {

  ghost predicate Increases(g: nat -> nat, total: nat) {
    forall n: nat :: n < total ==> g(n) < g(n + 1)
  }

  lemma {:induction false} IsBelow(g: nat -> nat, m: nat, n: nat, total: nat)
    requires Increases(g, total) && m <= n <= total
    ensures g(m) <= g(n)
    decreases n - m
  {
    if m < n {
      IsBelow(g, m + 1, n, total);
    }
  }

  /** Where k still fits and k + 1 does not, exactly the numbers up to k fit. */
  lemma FirstOverflowCuts(g: nat -> nat, total: nat, k: nat, budget: int)
    requires Increases(g, total) && k <= total
    requires k == 0 || g(k) <= budget
    requires k == total || g(k + 1) > budget
    ensures forall m: nat :: 1 <= m <= total ==> (g(m) <= budget <==> m <= k)
  {
    forall m: nat | 1 <= m <= total ensures g(m) <= budget <==> m <= k {
      if m <= k {
        IsBelow(g, m, k, total);
      } else {
        IsBelow(g, k + 1, m, total);
      }
    }
  }
}

/** The search for the largest recent lane whose rendering fits a budget. */
module MemoryFit {
  import opened Observations
  import opened Quotas
  import opened Selections
  import opened SelectionProperties
  import opened Texts
  import opened IndexText
  import opened CutOff

  const LINE_COST: Obs -> nat := (o: Obs) => |IndexLine(o)| + 1

  // ----- one more entry makes the rendering longer -----

  lemma {:induction false} CostOfIndexLines(s: seq<Obs>)
    ensures Cost(IndexLines(s)) == Weigh(s, LINE_COST)
  {
    if s != [] {
      CostOfIndexLines(s[1..]);
    }
  }

  lemma TopGrows(f: Frame, shown: nat, next: nat)
    requires next == shown + 1
    ensures Cost(Top(f, shown)) <= Cost(Top(f, next))
  {
    var rest := Block(f.warning) + Section(f.words.stable, IndexLines(f.stable));
    assert Top(f, shown) == [f.words.open, Header(f, shown)] + rest;
    assert Top(f, next) == [f.words.open, Header(f, next)] + rest;
    CostConcat([f.words.open, Header(f, shown)], rest);
    CostConcat([f.words.open, Header(f, next)], rest);
    NextNumberText(shown);
  }

  lemma LaneGrows(f: Frame, a: seq<Obs>, b: seq<Obs>, o: Obs)
    requires multiset(b) == multiset(a) + multiset{o}
    ensures |b| == |a| + 1
    ensures Cost(Lane(f, b)) >= Cost(Lane(f, a)) + 3
  {
    assert multiset(a + [o]) == multiset(b);
    assert |multiset(b)| == |multiset(a)| + 1;
    WeighPermuted(a + [o], b, LINE_COST);
    WeighConcat(a, [o], LINE_COST);
    assert Weigh([o], LINE_COST) == |IndexLine(o)| + 1;
    CostOfIndexLines(a);
    CostOfIndexLines(b);
    CostConcat([f.words.recent], IndexLines(a));
    CostConcat([f.words.recent], IndexLines(b));
  }

  lemma Cancel<T>(shown: multiset<T>, more: multiset<T>, less: multiset<T>)
    requires shown + more == shown + less
    ensures more == less
  {
    assert (shown + more) - shown == more && (shown + less) - shown == less;
  }

  lemma OmittedLosesOne(f: Frame, a: seq<Obs>, b: seq<Obs>, o: Obs)
    requires ValidLane(f, b) && multiset(b) == multiset(a) + multiset{o}
    ensures multiset(Omitted(f, a)) == multiset(Omitted(f, b) + [o])
  {
    ShownAndOmitted(f, a);
    ShownAndOmitted(f, b);
    var shown := multiset(f.stable) + multiset(a);
    assert shown + multiset(Omitted(f, a)) == shown + multiset(Omitted(f, b) + [o]);
    Cancel(shown, multiset(Omitted(f, a)), multiset(Omitted(f, b) + [o]));
  }

  lemma OmittedShrinks(f: Frame, a: seq<Obs>, b: seq<Obs>, o: Obs)
    requires ValidLane(f, b) && multiset(b) == multiset(a) + multiset{o}
    ensures |Omitted(f, a)| == |Omitted(f, b)| + 1
    ensures OmittedWithId(f, a) == OmittedWithId(f, b) + WITH_ID(o)
  {
    var more, less := Omitted(f, a), Omitted(f, b);
    OmittedLosesOne(f, a, b, o);
    assert |multiset(more)| == |multiset(less + [o])|;
    WeighPermuted(more, less + [o], WITH_ID);
    WeighConcat(less, [o], WITH_ID);
    assert Weigh([o], WITH_ID) == WITH_ID(o);
  }

  lemma FooterShrinks(w: Wording, withId: nat, withoutId: nat)
    ensures |Footer(w, withId + 1, withoutId)| <= |Footer(w, withId, withoutId)| + 1
    ensures |Footer(w, withId, withoutId + 1)| <= |Footer(w, withId, withoutId)| + 1
  {
    NextNumberText(withId);
    NextNumberText(withoutId);
  }

  lemma CostOfTwo(a: string, b: string)
    ensures Cost([a, b]) == |a| + |b| + 2
  {
    CostConcat([a], [b]);
    assert [a, b] == [a] + [b];
    assert Cost([a]) == |a| + 1 && Cost([b]) == |b| + 1;
  }

  /** The omitted counts lose at most one digit between them. */
  lemma BottomShrinks(f: Frame, a: seq<Obs>, b: seq<Obs>, o: Obs)
    requires ValidLane(f, b) && multiset(b) == multiset(a) + multiset{o}
    ensures Cost(Bottom(f, a)) <= Cost(Bottom(f, b)) + 1
  {
    OmittedShrinks(f, a, b, o);
    var withId := OmittedWithId(f, b);
    var withoutId := |Omitted(f, b)| - withId;
    FooterShrinks(f.words, withId, withoutId);
    CostOfTwo(Bottom(f, a)[0], f.words.close);
    CostOfTwo(Bottom(f, b)[0], f.words.close);
  }

  lemma AssembleGrows(top: seq<string>, lane: seq<string>, blocks: seq<string>, bottom: seq<string>,
                      top': seq<string>, lane': seq<string>, bottom': seq<string>)
    requires top != [] && top' != [] && bottom != [] && bottom' != []
    requires Cost(top) <= Cost(top') && Cost(lane) + 3 <= Cost(lane') && Cost(bottom) <= Cost(bottom') + 1
    ensures |Assemble(top, lane, blocks, bottom)| < |Assemble(top', lane', blocks, bottom')|
  {
  }

  /** The omitted counts may lose a digit; the new line always costs more. */
  lemma RenderGrows(f: Frame, a: seq<Obs>, b: seq<Obs>, o: Obs, local: string, stale: string)
    requires ValidLane(f, b) && multiset(b) == multiset(a) + multiset{o}
    ensures |Render(f, a, local, stale)| < |Render(f, b, local, stale)|
  {
    LaneGrows(f, a, b, o);
    BottomShrinks(f, a, b, o);
    TopGrows(f, |f.stable| + |a|, |f.stable| + |b|);
    AssembleGrows(Top(f, |f.stable| + |a|), Lane(f, a), Blocks(f, local, stale), Bottom(f, a),
                  Top(f, |f.stable| + |b|), Lane(f, b), Bottom(f, b));
  }

  // ----- the largest selection that fits -----

  /** Length of the rendering, by the cap of the recent lane. */
  function LengthOf(f: Frame, local: string, stale: string): nat -> nat {
    (n: nat) => |Render(f, Selection(RecentPool(f), n), local, stale)|
  }

  /** recent is the selection with the most entries among those that fit, empty when none does. */
  ghost predicate Largest(f: Frame, recent: seq<Obs>, budget: int, local: string, stale: string) {
    var pool, length := RecentPool(f), LengthOf(f, local, stale);
    && |recent| <= Available(pool)
    && recent == Selection(pool, |recent|)
    && forall n: nat :: 1 <= n <= Available(pool) ==> (length(n) <= budget <==> n <= |recent|)
  }

  lemma NextIsLonger(f: Frame, n: nat, local: string, stale: string)
    requires ValidFrame(f) && |Names(RecentPool(f))| <= 2 && n < Available(RecentPool(f))
    ensures LengthOf(f, local, stale)(n) < LengthOf(f, local, stale)(n + 1)
  {
    var pool := RecentPool(f);
    var o := SelectionGrows(pool, n);
    SelectionIsIncluded(pool, n + 1);
    RenderGrows(f, Selection(pool, n), Selection(pool, n + 1), o, local, stale);
  }

  /** With at most two origins, every entry more makes the rendering longer. */
  lemma LengthsIncrease(f: Frame, local: string, stale: string)
    requires ValidFrame(f) && |Names(RecentPool(f))| <= 2
    ensures Increases(LengthOf(f, local, stale), Available(RecentPool(f)))
  {
    forall n: nat | n < Available(RecentPool(f))
      ensures LengthOf(f, local, stale)(n) < LengthOf(f, local, stale)(n + 1)
    {
      NextIsLonger(f, n, local, stale);
    }
  }

  lemma SelectionSaturates(s: seq<Obs>, cap: nat)
    requires cap >= Available(s)
    ensures Selection(s, cap) == Selection(s, Available(s))
  {
    var groups := Groups(Names(s), s);
    SizesOfRanked(groups);
    if |groups| == 1 {
      SumOfOne(Sizes(groups));
    }
  }

  lemma AvailableAreSome(s: seq<Obs>)
    ensures Available(s) <= |s|
  {
    SelectionIsGranted(s, Available(s));
    SelectionIsIncluded(s, Available(s));
    var chosen := Selection(s, Available(s));
    assert multiset(s) == multiset(chosen) + (multiset(s) - multiset(chosen));
    assert |multiset(chosen)| <= |multiset(s)|;
  }

  function Max(a: nat, b: nat): nat { if a < b then b else a }

  /** Everything the quota can give: the selection under a cap nobody reaches. */
  method SelectAll(f: Frame) returns (available: seq<Obs>)
    ensures available == Selection(RecentPool(f), Available(RecentPool(f)))
    ensures |available| == Available(RecentPool(f))
  {
    var pool := RecentPool(f);
    available := CapPreservingOrigins(pool, Max(1, |pool|));
    AvailableAreSome(pool);
    SelectionSaturates(pool, Max(1, |pool|));
    SelectionIsGranted(pool, Available(pool));
  }

  /** The entries so far are a selection that fits. */
  ghost predicate FitsSoFar(f: Frame, best: seq<Obs>, budget: int, local: string, stale: string) {
    && best == Selection(RecentPool(f), |best|)
    && (best != [] ==> |Render(f, best, local, stale)| <= budget)
  }

  method Candidate(f: Frame, n: nat, budget: int, local: string, stale: string)
    returns (candidate: seq<Obs>, fits: bool)
    requires n <= Available(RecentPool(f))
    ensures candidate == Selection(RecentPool(f), n) && |candidate| == n
    ensures fits <==> |Render(f, candidate, local, stale)| <= budget
  {
    candidate := CapPreservingOrigins(RecentPool(f), n);
    SelectionIsGranted(RecentPool(f), n);
    fits := |Render(f, candidate, local, stale)| <= budget;
  }

  /** One entry more at a time, until the first rendering that is too long. */
  method SearchUp(f: Frame, total: nat, budget: int, local: string, stale: string) returns (best: seq<Obs>)
    requires ValidFrame(f) && total == Available(RecentPool(f))
    ensures FitsSoFar(f, best, budget, local, stale)
    ensures |Names(RecentPool(f))| <= 2 ==> Largest(f, best, budget, local, stale)
  {
    best := [];
    var candidate, fits := Candidate(f, 0, budget, local, stale);
    var n: nat := 1;
    while n <= total
      invariant |best| + 1 == n <= total + 1
      invariant FitsSoFar(f, best, budget, local, stale)
    {
      candidate, fits := Candidate(f, n, budget, local, stale);
      if !fits {
        break;
      }
      best := candidate;
      n := n + 1;
    }
    if |Names(RecentPool(f))| <= 2 {
      StopIsLargest(f, best, budget, local, stale);
    }
  }

  /** Tries everything first. */
  method Fit(f: Frame, available: seq<Obs>, budget: int, local: string, stale: string) returns (best: seq<Obs>)
    requires ValidFrame(f) && available == Selection(RecentPool(f), |available|)
    requires |available| == Available(RecentPool(f))
    ensures FitsSoFar(f, best, budget, local, stale)
    ensures |Names(RecentPool(f))| <= 2 ==> Largest(f, best, budget, local, stale)
  {
    if |Render(f, available, local, stale)| <= budget {
      best := available;
      if |Names(RecentPool(f))| <= 2 {
        StopIsLargest(f, best, budget, local, stale);
      }
    } else {
      best := SearchUp(f, |available|, budget, local, stale);
    }
  }

  /** A selection that fits is the largest one when it has everything or one more entry is too much. */
  lemma StopIsLargest(f: Frame, best: seq<Obs>, budget: int, local: string, stale: string)
    requires ValidFrame(f) && |Names(RecentPool(f))| <= 2 && FitsSoFar(f, best, budget, local, stale)
    requires |best| <= Available(RecentPool(f))
    requires |best| == Available(RecentPool(f)) || LengthOf(f, local, stale)(|best| + 1) > budget
    ensures Largest(f, best, budget, local, stale)
  {
    var length, total := LengthOf(f, local, stale), Available(RecentPool(f));
    LengthsIncrease(f, local, stale);
    FirstOverflowCuts(length, total, |best|, budget);
  }
}
