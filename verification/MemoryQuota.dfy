/** Observations, and the quota that keeps every origin in the memory index. */
module Observations {

  datatype Status = Active | Refined | Refuted | Superseded

  /**
   One observation. An absent text field is empty. stamp orders the timestamps
   as strings; a missing one is the smallest.
   */
  datatype Obs = Obs(
    id: string,
    origin: string,
    stamp: int,
    topic: string,
    source: string,
    sourceTicket: string,
    signal: string,
    memoryClass: string,
    status: Status)

  const AUTOGENERATED_TOPICS: set<string> := {"architecture", "ticket-completion"}

  predicate IsHookTelemetry(o: Obs) {
    o.source == "post_tool_hook" && o.topic == "tool_usage" && o.id == "" && o.sourceTicket == ""
  }

  predicate IsLesson(o: Obs) {
    o.topic !in AUTOGENERATED_TOPICS && !IsHookTelemetry(o)
  }

  predicate IsStale(o: Obs) {
    o.status in {Refuted, Superseded}
  }

  datatype DedupKey = ById(id: string) | Fallback(topic: string, ticket: string, stamp: int)

  function KeyOf(o: Obs): DedupKey {
    if o.id != "" then ById(o.id) else Fallback(o.topic, o.sourceTicket, o.stamp)
  }

  /** Two observations are copies of each other exactly if they share an id, or have none and agree in topic, ticket and time. */
  lemma CopiesIff(a: Obs, b: Obs)
    ensures KeyOf(a) == KeyOf(b) <==>
            if a.id != "" || b.id != "" then a.id == b.id
            else a.topic == b.topic && a.sourceTicket == b.sourceTicket && a.stamp == b.stamp
  {
  }

  /** Entries that the motor wrote by itself: closing templates, and telemetry of the tool hook without id and ticket. */
  predicate IsTemplate(o: Obs) {
    || o.topic == "architecture" || o.topic == "ticket-completion"
    || (o.source == "post_tool_hook" && o.topic == "tool_usage" && o.id == "" && o.sourceTicket == "")
  }

  lemma LessonIff(o: Obs)
    ensures IsLesson(o) <==> !IsTemplate(o)
  {
  }

  // ----- newest first -----

  ghost predicate NewestFirst(s: seq<Obs>) {
    forall i, j :: 0 <= i < j < |s| ==> s[i].stamp >= s[j].stamp
  }

  /** Puts o in front of the first entry that is not newer. */
  function Insert(o: Obs, s: seq<Obs>): (r: seq<Obs>)
    ensures multiset(r) == multiset{o} + multiset(s)
  {
    if s == [] then [o]
    else if s[0].stamp <= o.stamp then
      assert [o] + s == [o] + s;
      [o] + s
    else
      assert s == [s[0]] + s[1..];
      [s[0]] + Insert(o, s[1..])
  }

  /** Newest first; entries of one timestamp keep their order. */
  function SortNewest(s: seq<Obs>): (r: seq<Obs>)
    ensures multiset(r) == multiset(s) && |r| == |s|
  {
    if s == [] then []
    else
      assert s == [s[0]] + s[1..];
      var r := Insert(s[0], SortNewest(s[1..]));
      assert |multiset(r)| == |multiset(s)|;
      r
  }

  lemma {:induction false} InsertSorts(o: Obs, s: seq<Obs>)
    requires NewestFirst(s)
    ensures NewestFirst(Insert(o, s))
  {
    if s != [] && s[0].stamp > o.stamp {
      InsertSorts(o, s[1..]);
      var r := Insert(o, s[1..]);
      forall k | 0 <= k < |r| ensures s[0].stamp >= r[k].stamp {
        assert r[k] in multiset(r);
        assert r[k] == o || r[k] in s[1..];
      }
    }
  }

  lemma {:induction false} SortSorts(s: seq<Obs>)
    ensures NewestFirst(SortNewest(s))
  {
    if s != [] {
      SortSorts(s[1..]);
      InsertSorts(s[0], SortNewest(s[1..]));
    }
  }

  lemma SortKeepsMembers(s: seq<Obs>)
    ensures forall o :: o in SortNewest(s) <==> o in s
  {
    forall o ensures o in SortNewest(s) <==> o in s {
      assert o in SortNewest(s) <==> o in multiset(SortNewest(s));
      assert o in s <==> o in multiset(s);
    }
  }

  // ----- one entry per key, the newest -----

  ghost predicate KeysDistinct(s: seq<Obs>) {
    forall i, j :: 0 <= i < j < |s| ==> KeyOf(s[i]) != KeyOf(s[j])
  }

  ghost predicate HasKey(s: seq<Obs>, k: DedupKey) {
    exists b :: b in s && KeyOf(b) == k
  }

  /** s holds an entry with the key of o that is at least as new. */
  ghost predicate Covers(s: seq<Obs>, o: Obs) {
    exists b :: b in s && KeyOf(b) == KeyOf(o) && b.stamp >= o.stamp
  }

  lemma AppendKeepsKeys(s: seq<Obs>, o: Obs)
    ensures forall k :: HasKey(s + [o], k) <==> HasKey(s, k) || k == KeyOf(o)
    ensures forall x :: Covers(s, x) ==> Covers(s + [o], x)
    ensures Covers(s + [o], o)
  {
    assert o in s + [o];
    forall k | HasKey(s, k) ensures HasKey(s + [o], k) {
      var b :| b in s && KeyOf(b) == k;
      assert b in s + [o];
    }
    forall x | Covers(s, x) ensures Covers(s + [o], x) {
      var b :| b in s && KeyOf(b) == KeyOf(x) && b.stamp >= x.stamp;
      assert b in s + [o];
    }
  }

  lemma NewestCovers(s: seq<Obs>, o: Obs)
    requires HasKey(s, KeyOf(o)) && forall b :: b in s ==> b.stamp >= o.stamp
    ensures Covers(s, o)
  {
  }

  /** best has, of all copies with one key, the newest and only it. */
  ghost predicate Deduplicates(best: seq<Obs>, observations: seq<Obs>) {
    && KeysDistinct(best)
    && NewestFirst(best)
    && (forall o :: o in best ==> o in observations)
    && (forall o :: o in observations ==> Covers(best, o))
  }

  method DedupNewest(observations: seq<Obs>) returns (best: seq<Obs>)
    ensures Deduplicates(best, observations)
  {
    var sorted := SortNewest(observations);
    SortSorts(observations);
    SortKeepsMembers(observations);
    best := [];
    var seen: set<DedupKey> := {};
    for i := 0 to |sorted|
      invariant KeysDistinct(best) && NewestFirst(best)
      invariant i < |sorted| ==> forall b :: b in best ==> b.stamp >= sorted[i].stamp
      invariant forall k :: k in seen <==> HasKey(best, k)
      invariant forall b :: b in best ==> b in sorted
      invariant forall j :: 0 <= j < i ==> Covers(best, sorted[j])
    {
      var o := sorted[i];
      if KeyOf(o) in seen {
        NewestCovers(best, o);
      } else {
        AppendKeepsKeys(best, o);
        AppendKeepsOrder(best, o);
        best, seen := best + [o], seen + {KeyOf(o)};
      }
    }
  }

  lemma AppendKeepsOrder(s: seq<Obs>, o: Obs)
    requires KeysDistinct(s) && NewestFirst(s)
    requires !HasKey(s, KeyOf(o)) && forall b :: b in s ==> b.stamp >= o.stamp
    ensures KeysDistinct(s + [o]) && NewestFirst(s + [o])
  {
    forall i | 0 <= i < |s| ensures KeyOf(s[i]) != KeyOf(o) && s[i].stamp >= o.stamp {
      assert s[i] in s;
    }
  }
}

/** How many entries of each origin a cap leaves room for. */
module Quotas {

  function Min(a: int, b: int): int { if a < b then a else b }

  function Sum(s: seq<nat>): nat {
    if s == [] then 0 else s[0] + Sum(s[1..])
  }

  /** The even share of each origin, as far as it can fill it. */
  function Bases(sizes: seq<nat>, share: nat): (b: seq<nat>)
    ensures |b| == |sizes|
    ensures forall i :: 0 <= i < |b| ==> b[i] == Min(share, sizes[i])
  {
    if sizes == [] then [] else [Min(share, sizes[0])] + Bases(sizes[1..], share)
  }

  /** Everybody's share, and what is left of the cap in turn, as far as there are entries. */
  function Fill(sizes: seq<nat>, share: nat, remaining: nat): (t: seq<nat>)
    ensures |t| == |sizes|
    ensures forall i :: 0 <= i < |t| ==> Min(share, sizes[i]) <= t[i] <= sizes[i]
  {
    if sizes == [] then []
    else
      var base := Min(share, sizes[0]);
      var extra := Min(remaining, sizes[0] - base);
      [base + extra] + Fill(sizes[1..], share, remaining - extra)
  }

  lemma {:induction false} SumOfBases(sizes: seq<nat>, share: nat)
    ensures Sum(Bases(sizes, share)) <= |sizes| * share
    ensures Sum(Bases(sizes, share)) <= Sum(sizes)
  {
    if sizes != [] {
      SumOfBases(sizes[1..], share);
      assert |sizes| * share == share + |sizes[1..]| * share;
    }
  }

  lemma {:induction false} SumOfFill(sizes: seq<nat>, share: nat, remaining: nat)
    ensures Sum(Bases(sizes, share)) <= Sum(sizes)
    ensures Sum(Fill(sizes, share, remaining)) == Min(Sum(Bases(sizes, share)) + remaining, Sum(sizes))
  {
    if sizes != [] {
      var extra := Min(remaining, sizes[0] - Min(share, sizes[0]));
      SumOfFill(sizes[1..], share, remaining - extra);
    }
  }

  /** Entries taken from each origin under a cap, in the order of the origins. */
  function Takes(sizes: seq<nat>, cap: nat): (t: seq<nat>)
    ensures |t| == |sizes|
  {
    if |sizes| < 2 then Bases(sizes, cap)
    else if Sum(sizes) <= cap then sizes
    else Fill(sizes, Share(cap, |sizes|), Left(sizes, Share(cap, |sizes|), cap))
  }

  /** What the bases leave of the cap. */
  function Left(sizes: seq<nat>, share: nat, cap: nat): nat {
    var bases := Sum(Bases(sizes, share));
    if bases <= cap then cap - bases else 0
  }

  /** The even share of the cap. */
  function Share(cap: nat, k: nat): nat
    requires k > 0
  {
    cap / k
  }

  lemma ShareFits(cap: nat, k: nat)
    requires k > 0
    ensures k * Share(cap, k) <= cap
  {
  }

  lemma BasesFit(sizes: seq<nat>, cap: nat)
    requires |sizes| > 0
    ensures Sum(Bases(sizes, Share(cap, |sizes|))) <= cap
  {
    var share := Share(cap, |sizes|);
    SumOfBases(sizes, share);
    ShareFits(cap, |sizes|);
  }

  /** With shares that fit, filling up uses the whole cap. */
  lemma FillUsesTheCap(sizes: seq<nat>, share: nat, cap: nat)
    requires Sum(Bases(sizes, share)) <= cap
    ensures Sum(Fill(sizes, share, Left(sizes, share, cap))) == Min(cap, Sum(sizes))
  {
    SumOfFill(sizes, share, cap - Sum(Bases(sizes, share)));
  }

  /**
   The cap is used up as far as there are entries, nothing is taken twice, and
   every origin keeps at least its even share of the cap.
   */
  lemma TakesAreFair(sizes: seq<nat>, cap: nat)
    ensures Sum(Takes(sizes, cap)) == Min(cap, Sum(sizes))
    ensures forall i :: 0 <= i < |sizes| ==>
              Min(Share(cap, |sizes|), sizes[i]) <= Takes(sizes, cap)[i] <= sizes[i]
  {
    if |sizes| == 1 {
      SumOfOne(sizes);
      SumOfOne(Bases(sizes, cap));
    } else if |sizes| >= 2 && Sum(sizes) > cap {
      BasesFit(sizes, cap);
      FillUsesTheCap(sizes, Share(cap, |sizes|), cap);
    }
  }

  lemma SumOfOne(s: seq<nat>)
    requires |s| == 1
    ensures Sum(s) == s[0]
  {
    assert s[1..] == [];
  }

  lemma SumOfTwo(s: seq<nat>)
    requires |s| == 2
    ensures Sum(s) == s[0] + s[1]
  {
    SumOfOne(s[1..]);
  }

  /** Entries the first of two origins gets: its half, and what the second cannot use. */
  function First(a: nat, b: nat, cap: nat): int {
    Min(a, cap - Min(cap / 2, b))
  }

  lemma FillOfTwo(sizes: seq<nat>, share: nat, cap: nat)
    requires |sizes| == 2 && 2 * share <= cap <= Sum(sizes)
    ensures var first := Min(sizes[0], cap - Min(share, sizes[1]));
            Fill(sizes, share, Left(sizes, share, cap)) == [first, cap - first]
  {
    SumOfTwo(sizes);
    SumOfTwo(Bases(sizes, share));
    FillUsesTheCap(sizes, share, cap);
    SumOfTwo(Fill(sizes, share, Left(sizes, share, cap)));
  }

  lemma HalfShare(cap: nat, k: nat)
    requires k == 2
    ensures Share(cap, k) == cap / 2 && 2 * (cap / 2) <= cap
  {
  }

  lemma HalvesOfTwo(sizes: seq<nat>, share: nat, cap: nat)
    requires |sizes| == 2 && share == cap / 2 && cap <= Sum(sizes)
    ensures var first := First(sizes[0], sizes[1], cap);
            && Fill(sizes, share, Left(sizes, share, cap)) == [first, cap - first]
            && first <= sizes[0]
            && cap - first <= sizes[1]
  {
    FillOfTwo(sizes, share, cap);
  }

  lemma TakesOfTwo(sizes: seq<nat>, cap: nat)
    requires |sizes| == 2 && cap <= Sum(sizes)
    ensures var first := First(sizes[0], sizes[1], cap);
            Takes(sizes, cap) == [first, cap - first] && first <= sizes[0] && cap - first <= sizes[1]
  {
    SumOfTwo(sizes);
    if Sum(sizes) > cap {
      HalfShare(cap, |sizes|);
      HalvesOfTwo(sizes, Share(cap, |sizes|), cap);
    }
  }

  lemma FirstGrows(a: nat, b: nat, cap: nat)
    ensures First(a, b, cap) <= First(a, b, cap + 1) <= First(a, b, cap) + 1
  {
    assert cap / 2 <= (cap + 1) / 2 <= cap / 2 + 1;
  }

  /** With at most two origins, raising the cap by one takes one more entry and drops none. */
  lemma TakesGrowByOne(sizes: seq<nat>, cap: nat) returns (i: nat)
    requires |sizes| <= 2 && cap < Sum(sizes)
    ensures i < |sizes|
    ensures Takes(sizes, cap)[i] < sizes[i]
    ensures Takes(sizes, cap + 1) == Takes(sizes, cap)[i := Takes(sizes, cap)[i] + 1]
  {
    if |sizes| == 1 {
      SumOfOne(sizes);
      i := 0;
    } else {
      i := TakesOfTwoGrow(sizes, cap);
    }
  }

  lemma TakesOfTwoGrow(sizes: seq<nat>, cap: nat) returns (i: nat)
    requires |sizes| == 2 && cap < Sum(sizes)
    ensures i < 2
    ensures Takes(sizes, cap)[i] < sizes[i]
    ensures Takes(sizes, cap + 1) == Takes(sizes, cap)[i := Takes(sizes, cap)[i] + 1]
  {
    TakesOfTwo(sizes, cap);
    TakesOfTwo(sizes, cap + 1);
    FirstGrows(sizes[0], sizes[1], cap);
    var f, g := First(sizes[0], sizes[1], cap), First(sizes[0], sizes[1], cap + 1);
    i := if g > f then 0 else 1;
    assert [f, cap - f][i := [f, cap - f][i] + 1] == [g, cap + 1 - g];
  }

  function Repeat(x: nat, n: nat): (s: seq<nat>)
    ensures |s| == n && forall i :: 0 <= i < n ==> s[i] == x
  {
    if n == 0 then [] else [x] + Repeat(x, n - 1)
  }

  lemma {:induction false} BasesOfRepeat(x: nat, n: nat, share: nat)
    requires share <= x
    ensures Sum(Bases(Repeat(x, n), share)) == n * share
  {
    if n > 0 {
      assert Repeat(x, n)[1..] == Repeat(x, n - 1);
      BasesOfRepeat(x, n - 1, share);
      assert n * share == share + (n - 1) * share;
    }
  }

  lemma SharesOfTwice(k: nat)
    requires k >= 2
    ensures Share(2 * k - 1, k) == 1 && Share(2 * k, k) == 2
  {
  }

  /** With three or more origins it is not so: with one more place the first origin can lose entries. */
  lemma MoreOriginsLoseEntries(k: nat)
    requires k >= 3
    ensures Takes(Repeat(k, k), 2 * k - 1)[0] == k
    ensures Takes(Repeat(k, k), 2 * k)[0] == 2
  {
    var sizes := Repeat(k, k);
    SharesOfTwice(k);
    BasesOfRepeat(k, k, 1);
    BasesOfRepeat(k, k, 2);
    BasesOfRepeat(k, k, k);
    SumOfBases(sizes, k);
    assert k * k >= 3 * k;
    assert Fill(sizes, 1, k - 1)[0] == k;
    assert Fill(sizes, 2, 0)[0] == 2;
  }
}
