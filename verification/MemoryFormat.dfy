/** The memory index as a whole: lanes, floors, what is dropped first, and the hard cut. */
module MemoryFormat {
  import T = TicketStates
  import opened Observations
  import opened Quotas
  import opened Selections
  import opened SelectionProperties
  import opened Texts
  import opened IndexText
  import opened MemoryFit

  const STABLE_LANE_CAP := 5
  const LOCAL_SUBCAP := 800
  const STALE_SUBCAP := 400
  const FLOOR_TOTAL := 25
  const FLOOR_PER_ORIGIN := 10
  const LOCAL_OMITTED := "[Tier local omitido por presupuesto: ver --full]"

  // ----- vigent and stale -----

  function Keep(s: seq<Obs>, p: Obs -> bool): (r: seq<Obs>)
    ensures multiset(r) <= multiset(s)
    ensures forall o :: o in r <==> o in s && p(o)
  {
    if s == [] then []
    else
      assert s == [s[0]] + s[1..];
      if p(s[0]) then [s[0]] + Keep(s[1..], p) else Keep(s[1..], p)
  }

  lemma {:induction false} KeepKeepsKeys(s: seq<Obs>, p: Obs -> bool)
    requires KeysDistinct(s)
    ensures KeysDistinct(Keep(s, p))
  {
    if s != [] {
      KeepKeepsKeys(s[1..], p);
      var rest := Keep(s[1..], p);
      forall j | 0 <= j < |rest| ensures KeyOf(rest[j]) != KeyOf(s[0]) {
        assert rest[j] in s[1..];
        var k :| 0 <= k < |s[1..]| && s[1..][k] == rest[j];
        assert KeyOf(s[k + 1]) != KeyOf(s[0]);
      }
    }
  }

  // ----- the stable lane -----

  predicate IsStable(o: Obs) {
    o.memoryClass != "" && IsLesson(o)
  }

  ghost predicate HasTopic(s: seq<Obs>, topic: string) {
    exists b :: b in s && b.topic == topic
  }

  ghost predicate TopicsDistinct(s: seq<Obs>) {
    forall i, j :: 0 <= i < j < |s| ==> s[i].topic != s[j].topic
  }

  lemma {:induction false} TopicsDistinctCount(s: seq<Obs>, o: Obs)
    requires TopicsDistinct(s)
    ensures multiset(s)[o] <= 1
  {
    if s != [] {
      assert s == [s[0]] + s[1..];
      TopicsDistinctCount(s[1..], o);
      forall k | 0 <= k < |s[1..]| ensures s[1..][k] != s[0] {
        assert s[k + 1].topic != s[0].topic;
      }
    }
  }

  ghost predicate CoversTopic(s: seq<Obs>, o: Obs) {
    exists b :: b in s && b.topic == o.topic && b.stamp >= o.stamp
  }

  ghost predicate AllAsNew(s: seq<Obs>, o: Obs) {
    forall b :: b in s ==> b.stamp >= o.stamp
  }

  /** A lesson with a memory class. */
  predicate IsTagged(o: Obs) {
    o.memoryClass != "" && !IsTemplate(o)
  }

  /** The newest tagged lesson of every topic, at most five, the newest of those. */
  ghost predicate IsStableLane(vigent: seq<Obs>, stable: seq<Obs>) {
    && |stable| <= 5
    && TopicsDistinct(stable)
    && (forall o :: o in stable ==> o in vigent && IsTagged(o))
    && (forall o :: o in vigent && IsTagged(o) ==> CoversTopic(stable, o) || (|stable| == 5 && AllAsNew(stable, o)))
  }

  method StableLane(vigent: seq<Obs>) returns (stable: seq<Obs>)
    ensures IsStableLane(vigent, stable)
  {
    var pool := SortNewest(Keep(vigent, IsStable));
    SortSorts(Keep(vigent, IsStable));
    SortKeepsMembers(Keep(vigent, IsStable));
    stable := NewestPerTopic(pool);
    forall o ensures IsStable(o) <==> IsTagged(o) {
      LessonIff(o);
    }
  }

  method NewestPerTopic(pool: seq<Obs>) returns (stable: seq<Obs>)
    requires NewestFirst(pool)
    ensures |stable| <= STABLE_LANE_CAP && TopicsDistinct(stable)
    ensures forall b :: b in stable ==> b in pool
    ensures forall o :: o in pool ==> CoversTopic(stable, o) || (|stable| == STABLE_LANE_CAP && AllAsNew(stable, o))
  {
    stable := [];
    var seen: set<string> := {};
    for i := 0 to |pool|
      invariant |stable| < STABLE_LANE_CAP && TopicsDistinct(stable)
      invariant forall t :: t in seen <==> HasTopic(stable, t)
      invariant forall b :: b in stable ==> b in pool
      invariant i < |pool| ==> AllAsNew(stable, pool[i])
      invariant forall j :: 0 <= j < i ==> CoversTopic(stable, pool[j])
    {
      var o := pool[i];
      if o.topic in seen {
        assert CoversTopic(stable, o);
      } else {
        AppendCovers(stable, o);
        stable, seen := stable + [o], seen + {o.topic};
        if |stable| >= STABLE_LANE_CAP {
          return;
        }
      }
    }
  }

  lemma AppendCovers(s: seq<Obs>, o: Obs)
    requires TopicsDistinct(s) && !HasTopic(s, o.topic)
    ensures TopicsDistinct(s + [o])
    ensures forall t :: HasTopic(s + [o], t) <==> HasTopic(s, t) || t == o.topic
    ensures forall x :: CoversTopic(s, x) ==> CoversTopic(s + [o], x)
    ensures CoversTopic(s + [o], o)
  {
    assert o in s + [o];
    forall t | HasTopic(s, t) ensures HasTopic(s + [o], t) {
      var b :| b in s && b.topic == t;
      assert b in s + [o];
    }
    forall x | CoversTopic(s, x) ensures CoversTopic(s + [o], x) {
      var b :| b in s && b.topic == x.topic && b.stamp >= x.stamp;
      assert b in s + [o];
    }
    assert forall i :: 0 <= i < |s| ==> s[i] in s;
  }

  // ----- floors -----

  /** The floors count an untagged entry as the motor's; the quota counts it as local. */
  function FloorOrigin(o: Obs): string {
    if o.origin == "" then "motor" else o.origin
  }

  function FloorMark(name: string): Obs -> nat {
    (o: Obs) => if FloorOrigin(o) == name then 1 else 0
  }

  predicate FloorsMet(available: seq<Obs>, recent: seq<Obs>) {
    && |recent| >= Min(FLOOR_TOTAL, |available|)
    && forall o | o in available ::
         Weigh(recent, FloorMark(FloorOrigin(o))) >= Min(FLOOR_PER_ORIGIN, Weigh(available, FloorMark(FloorOrigin(o))))
  }

  /** Entries of an origin; one without origin counts as the motor's here. */
  ghost function ShownOf(s: seq<Obs>, name: string): set<int> {
    set i | 0 <= i < |s| && (s[i].origin == name || (s[i].origin == "" && name == "motor"))
  }

  /** At least 25 entries, and 10 of each origin, as far as there are so many. */
  ghost predicate MeetsFloors(available: seq<Obs>, recent: seq<Obs>) {
    && (|recent| >= 25 || |recent| >= |available|)
    && forall name :: name != "" ==>
         |ShownOf(recent, name)| >= 10 || |ShownOf(recent, name)| >= |ShownOf(available, name)|
  }

  lemma OneMoreShown(s: seq<Obs>, name: string)
    requires s != [] && name != ""
    ensures |ShownOf(s, name)| == |ShownOf(s[..|s| - 1], name)| + FloorMark(name)(s[|s| - 1])
  {
    var last := |s| - 1;
    assert ShownOf(s, name) == ShownOf(s[..last], name) + if FloorMark(name)(s[last]) == 1 then {last} else {};
  }

  lemma {:induction false} WeightIsShown(s: seq<Obs>, name: string)
    requires name != ""
    ensures Weigh(s, FloorMark(name)) == |ShownOf(s, name)|
  {
    if s == [] {
      assert ShownOf(s, name) == {};
    } else {
      var init, last := s[..|s| - 1], s[|s| - 1];
      assert s == init + [last];
      WeightIsShown(init, name);
      WeighConcat(init, [last], FloorMark(name));
      OneMoreShown(s, name);
    }
  }

  lemma FloorsIff(available: seq<Obs>, recent: seq<Obs>)
    ensures FloorsMet(available, recent) <==> MeetsFloors(available, recent)
  {
    if FloorsMet(available, recent) {
      forall name | name != ""
        ensures |ShownOf(recent, name)| >= 10 || |ShownOf(recent, name)| >= |ShownOf(available, name)|
      {
        WeightIsShown(recent, name);
        WeightIsShown(available, name);
        if i :| i in ShownOf(available, name) {
          assert available[i] in available && FloorOrigin(available[i]) == name;
        }
      }
    } else if MeetsFloors(available, recent) {
      forall o | o in available
        ensures Weigh(recent, FloorMark(FloorOrigin(o))) >= Min(FLOOR_PER_ORIGIN, Weigh(available, FloorMark(FloorOrigin(o))))
      {
        WeightIsShown(recent, FloorOrigin(o));
        WeightIsShown(available, FloorOrigin(o));
      }
    }
  }

  // ----- the lanes -----

  /** The recent lane is the largest one beside these blocks, if there are at most two origins. */
  ghost predicate Fitted(f: Frame, recent: seq<Obs>, budget: int, local: string, stale: string) {
    && FitsSoFar(f, recent, budget, local, stale)
    && (|Names(RecentPool(f))| <= 2 ==> Largest(f, recent, budget, local, stale))
  }

  ghost predicate MissesFloors(f: Frame, budget: int, local: string, stale: string) {
    var all := Selection(RecentPool(f), Available(RecentPool(f)));
    exists recent :: Fitted(f, recent, budget, local, stale) && !MeetsFloors(all, recent)
  }

  /** Which blocks are given up: the stale one first, then the local tier, each only for a missed floor. */
  ghost predicate GivesUp(f: Frame, recent: seq<Obs>, budget: int,
                          local: string, stale: string, local': string, stale': string) {
    var all := Selection(RecentPool(f), Available(RecentPool(f)));
    && (stale' == stale || (stale' == "" && MissesFloors(f, budget, local, stale)))
    && (local' == local || (local' == LOCAL_OMITTED && local != "" && MissesFloors(f, budget, local, stale')))
    && (MeetsFloors(all, recent) || (stale' == "" && local' in {"", LOCAL_OMITTED}))
  }

  method ChooseLanes(f: Frame, budget: int, local: string, stale: string)
    returns (recent: seq<Obs>, local': string, stale': string)
    requires ValidFrame(f)
    ensures Fitted(f, recent, budget, local', stale')
    ensures GivesUp(f, recent, budget, local, stale, local', stale')
  {
    local', stale' := local, stale;
    var available := SelectAll(f);
    recent := Fit(f, available, budget, local, stale);
    FloorsIff(available, recent);
    if !FloorsMet(available, recent) && stale != "" {
      stale' := "";
      recent := Fit(f, available, budget, local, stale');
      FloorsIff(available, recent);
    }
    if !FloorsMet(available, recent) && local != "" {
      local' := LOCAL_OMITTED;
      recent := Fit(f, available, budget, local', stale');
      FloorsIff(available, recent);
    }
  }

  // ----- the hard cut -----

  const CUT_NOTE := "\n[indice recortado]\n"

  /** A text over the budget is cut, and closed again behind a note; with no room for that, nothing is left. */
  function Cut(text: string, opening: string, note: string, closing: string, budget: int): (r: string)
    requires opening != "" && opening <= text && EndsWith(text, closing)
    ensures r == "" || (|r| <= budget && opening <= r && EndsWith(r, closing))
    ensures |text| <= budget ==> r == text
    ensures r == "" <==> |text| > budget && budget <= |opening| + |note| + |closing|
    ensures |text| > budget && r != "" ==> |r| == budget && EndsWith(r, note + closing) && r[..|r| - |note + closing|] <= text
  {
    if |text| <= budget then text
    else
      var room := budget - |note + closing|;
      if room <= |opening| then ""
      else
        var r := text[..room] + (note + closing);
        assert r[|r| - |closing|..] == closing;
        r
  }

  function Finish(rendered: string, budget: int): (r: string)
    requires OPEN <= rendered && EndsWith(rendered, CLOSE)
    ensures r == "" || (|r| <= budget && OPEN <= r && EndsWith(r, CLOSE))
    ensures |rendered| <= budget ==> r == rendered
    ensures r == "" <==> |rendered| > budget && budget <= |OPEN| + |CUT_NOTE| + |CLOSE|
    ensures |rendered| > budget && r != "" ==>
              |r| == budget && EndsWith(r, CUT_NOTE + CLOSE) && r[..|r| - |CUT_NOTE + CLOSE|] <= rendered
  {
    Cut(rendered, OPEN, CUT_NOTE, CLOSE, budget)
  }

  // ----- the whole index -----

  predicate IsVigent(o: Obs) {
    !IsStale(o)
  }

  function StaleLine(o: Obs): string {
    (if o.status.Superseded? then "[SUPERSEDIDA] " else "[REFUTADA] ") + IndexLine(o)[2..]
  }

  function StaleLines(s: seq<Obs>): seq<string> {
    if s == [] then [] else [StaleLine(s[0])] + StaleLines(s[1..])
  }

  function StaleHeading(n: nat): string {
    "## Refutadas o supersedidas (" + NumberText(n) + ")"
  }

  function StaleText(stale: seq<Obs>): string {
    if stale == [] then ""
    else Join([StaleHeading(|stale|)] + StaleLines(stale))
  }

  /** The frame shows the vigent ones among the deduplicated observations, under their origins and the warning. */
  ghost predicate IsFrame(f: Frame, stale: seq<Obs>, observations: seq<Obs>, breakdown: seq<Obs> -> string, warning: string) {
    && ValidFrame(f)
    && f.words == WORDING && f.breakdown == breakdown(f.vigent) && f.warning == warning
    && IsStableLane(f.vigent, f.stable)
    && exists unique :: Deduplicates(unique, observations) && f.vigent == Keep(unique, IsVigent) && stale == Keep(unique, IsStale)
  }

  method MakeFrame(observations: seq<Obs>, breakdown: seq<Obs> -> string, warning: string)
    returns (f: Frame, stale: seq<Obs>)
    ensures IsFrame(f, stale, observations, breakdown, warning)
  {
    var unique := DedupNewest(observations);
    var vigent := Keep(unique, IsVigent);
    stale := Keep(unique, IsStale);
    var stable := StableLane(vigent);
    f := Frame(WORDING, vigent, stable, breakdown(vigent), warning);
    KeepKeepsKeys(unique, IsVigent);
    forall o ensures multiset(stable)[o] <= multiset(vigent)[o] {
      TopicsDistinctCount(stable, o);
      if o in multiset(stable) {
        assert o in stable;
        assert o in vigent;
      }
    }
  }

  /** The rendering before the hard cut: lanes chosen beside clipped blocks, nothing lost in the accounts. */
  ghost predicate IsBounded(f: Frame, stale: seq<Obs>, localText: string, budget: int, rendered: string) {
    exists recent, local, text, local', text' ::
      && |local| <= 800 && IsClipped(Strip(localText), 800, "Tier local", local)
      && |text| <= 400 && IsClipped(StaleText(stale), 400, "Refutadas", text)
      && Fitted(f, recent, budget, local', text')
      && GivesUp(f, recent, budget, local, text, local', text')
      && ValidLane(f, recent)
      && rendered == Render(f, recent, local', text')
  }

  method RenderBounded(f: Frame, stale: seq<Obs>, localText: string, budget: int) returns (rendered: string)
    requires ValidFrame(f) && f.words == WORDING
    ensures IsBounded(f, stale, localText, budget, rendered)
    ensures OPEN <= rendered && EndsWith(rendered, CLOSE)
  {
    ClipNotesAreShort();
    var local := ClipBlock(Strip(localText), LOCAL_SUBCAP, "Tier local");
    var text := ClipBlock(StaleText(stale), STALE_SUBCAP, "Refutadas");
    var recent, local', text' := ChooseLanes(f, budget, local, text);
    SelectionIsIncluded(RecentPool(f), |recent|);
    rendered := Render(f, recent, local', text');
  }

  /** What one call returns without a budget: everything, nothing clipped. */
  ghost predicate IsFullIndex(
    r: string, observations: seq<Obs>, localText: string, breakdown: seq<Obs> -> string, warning: string)
  {
    exists f, stale ::
      IsFrame(f, stale, observations, breakdown, warning) && r == Render(f, SortNewest(RecentPool(f)), Strip(localText), StaleText(stale))
  }

  /** What one call returns within a budget. */
  ghost predicate IsIndex(
    r: string, observations: seq<Obs>, localText: string, budget: int, breakdown: seq<Obs> -> string, warning: string)
  {
    exists f, stale, rendered ::
      && IsFrame(f, stale, observations, breakdown, warning)
      && IsBounded(f, stale, localText, budget, rendered)
      && OPEN <= rendered && EndsWith(rendered, CLOSE)
      && r == Finish(rendered, budget)
  }

  method FormatFull(
    f: Frame, stale: seq<Obs>, ghost observations: seq<Obs>, localText: string,
    ghost breakdown: seq<Obs> -> string, ghost warning: string)
    returns (r: string)
    requires IsFrame(f, stale, observations, breakdown, warning)
    ensures IsFullIndex(r, observations, localText, breakdown, warning) && OPEN <= r && EndsWith(r, CLOSE)
  {
    r := Render(f, SortNewest(RecentPool(f)), Strip(localText), StaleText(stale));
  }

  lemma FinishedIsIndex(
    f: Frame, stale: seq<Obs>, rendered: string, observations: seq<Obs>, localText: string, budget: int,
    breakdown: seq<Obs> -> string, warning: string)
    requires IsFrame(f, stale, observations, breakdown, warning) && IsBounded(f, stale, localText, budget, rendered)
    requires OPEN <= rendered && EndsWith(rendered, CLOSE)
    ensures IsIndex(Finish(rendered, budget), observations, localText, budget, breakdown, warning)
  {
  }

  method FormatWithin(
    f: Frame, stale: seq<Obs>, ghost observations: seq<Obs>, localText: string, budget: int,
    ghost breakdown: seq<Obs> -> string, ghost warning: string)
    returns (r: string)
    requires IsFrame(f, stale, observations, breakdown, warning)
    ensures IsIndex(r, observations, localText, budget, breakdown, warning)
    ensures r == "" || (|r| <= budget && OPEN <= r && EndsWith(r, CLOSE))
  {
    var rendered := RenderBounded(f, stale, localText, budget);
    r := Finish(rendered, budget);
    FinishedIsIndex(f, stale, rendered, observations, localText, budget, breakdown, warning);
  }

  method FormatMemoryIndex(observations: seq<Obs>, localText: string, budget: T.Option<int>,
                           breakdown: seq<Obs> -> string, warning: string)
    returns (r: string)
    ensures r == "" || ("<memory-index readonly>" <= r && EndsWith(r, "</memory-index>"))
    ensures budget.Some? && r != "" ==> |r| <= budget.value
    ensures observations == [] && localText == "" ==> r == ""
    ensures observations != [] || localText != "" ==>
              match budget
              case None => IsFullIndex(r, observations, localText, breakdown, warning)
              case Some(limit) => IsIndex(r, observations, localText, limit, breakdown, warning)
  {
    if observations == [] && localText == "" {
      return "";
    }
    var f, stale := MakeFrame(observations, breakdown, warning);
    match budget
    case None => r := FormatFull(f, stale, observations, localText, breakdown, warning);
    case Some(limit) => r := FormatWithin(f, stale, observations, localText, limit, breakdown, warning);
  }

  lemma {:induction false} StaleLineAt(stale: seq<Obs>, i: nat)
    requires i < |stale|
    ensures |StaleLines(stale)| == |stale| && StaleLines(stale)[i] == StaleLine(stale[i])
  {
    if |stale| > 1 {
      StaleLineAt(stale[1..], if i > 0 then i - 1 else 0);
    }
  }

  /** The stale block has one line for each entry, marked by what became of it. */
  lemma StaleLinesTell(stale: seq<Obs>, i: nat)
    requires i < |stale|
    ensures |StaleLines(stale)| == |stale|
    ensures StaleLines(stale)[i] ==
            (if stale[i].status == Superseded then "[SUPERSEDIDA] " else "[REFUTADA] ") + IndexLine(stale[i])[2..]
  {
    StaleLineAt(stale, i);
  }

  /** Its heading counts them, and each has its line in the text; there is no block for none. */
  lemma StaleTextTells(stale: seq<Obs>)
    ensures stale == [] <==> StaleText(stale) == ""
    ensures stale != [] ==> Occurs(StaleText(stale), StaleHeading(|stale|))
    ensures |StaleLines(stale)| == |stale|
    ensures forall i :: 0 <= i < |stale| ==> Occurs(StaleText(stale), StaleLines(stale)[i])
  {
    if stale != [] {
      StaleLineAt(stale, 0);
      var lines := [StaleHeading(|stale|)] + StaleLines(stale);
      LineOccurs(lines, 0);
      forall i | 0 <= i < |stale| ensures Occurs(StaleText(stale), StaleLines(stale)[i]) {
        LineOccurs(lines, i + 1);
      }
    }
  }

  /** Vigent and stale entries: only refuted and superseded ones are set apart. */
  lemma VigentIff(o: Obs)
    ensures IsVigent(o) <==> o.status == Active || o.status == Refined
    ensures IsStale(o) <==> !IsVigent(o)
  {
  }

  /** Without a budget nothing is omitted. */
  lemma FullShowsAll(f: Frame)
    requires ValidFrame(f)
    ensures ValidLane(f, SortNewest(RecentPool(f))) && Omitted(f, SortNewest(RecentPool(f))) == []
  {
    var recent := SortNewest(RecentPool(f));
    ShownAndOmitted(f, recent);
    ShownAndOmitted(f, RecentPool(f));
    if Omitted(f, recent) != [] {
      var o := Omitted(f, recent)[0];
      WithoutCounts(f.vigent, f.stable + recent, o);
      WithoutCounts(f.vigent, f.stable, o);
      assert false;
    }
  }

  /** Shorter blocks never show fewer recent entries, so giving up a block helps unless its stand-in is longer. */
  lemma ShorterBlocksShowNoLess(f: Frame, recent: seq<Obs>, recent': seq<Obs>, budget: int,
                                local: string, stale: string, local': string, stale': string)
    requires Largest(f, recent, budget, local, stale) && Largest(f, recent', budget, local', stale')
    requires Cost(Blocks(f, local', stale')) <= Cost(Blocks(f, local, stale))
    ensures |recent'| >= |recent|
  {
    if recent != [] {
      assert LengthOf(f, local', stale')(|recent|) <= LengthOf(f, local, stale)(|recent|);
    }
  }
}
