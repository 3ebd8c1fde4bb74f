/** What the quota guarantees about the entries it keeps. */
module SelectionProperties {
  import opened Observations
  import opened Quotas
  import opened Selections

  // ----- sums over entries do not depend on their order -----

  function Weigh(s: seq<Obs>, w: Obs -> nat): nat {
    if s == [] then 0 else w(s[0]) + Weigh(s[1..], w)
  }

  lemma {:induction false} WeighConcat(a: seq<Obs>, b: seq<Obs>, w: Obs -> nat)
    ensures Weigh(a + b, w) == Weigh(a, w) + Weigh(b, w)
  {
    if a == [] {
      assert a + b == b;
    } else {
      assert (a + b)[1..] == a[1..] + b;
      WeighConcat(a[1..], b, w);
    }
  }

  lemma WeighBetween(before: seq<Obs>, o: Obs, after: seq<Obs>, w: Obs -> nat)
    ensures Weigh(before + ([o] + after), w) == w(o) + Weigh(before + after, w)
  {
    WeighConcat(before, [o] + after, w);
    WeighConcat(before, after, w);
    assert ([o] + after)[1..] == after;
  }

  lemma TakenApart(s: seq<Obs>, j: nat)
    requires j < |s|
    ensures s == s[..j] + ([s[j]] + s[j + 1..])
  {
  }

  lemma WeighWithout(s: seq<Obs>, j: nat, w: Obs -> nat)
    requires j < |s|
    ensures Weigh(s, w) == w(s[j]) + Weigh(s[..j] + s[j + 1..], w)
  {
    WeighBetween(s[..j], s[j], s[j + 1..], w);
    TakenApart(s, j);
  }

  lemma CountWithout(s: seq<Obs>, j: nat)
    requires j < |s|
    ensures multiset(s[..j] + s[j + 1..]) == multiset(s) - multiset{s[j]}
  {
    TakenApart(s, j);
  }

  lemma RestsArePermuted(a: seq<Obs>, b: seq<Obs>, j: nat)
    requires multiset(a) == multiset(b) && a != [] && j < |b| && b[j] == a[0]
    ensures multiset(a[1..]) == multiset(b[..j] + b[j + 1..])
  {
    CountWithout(b, j);
    TakenApart(a, 0);
    assert multiset(a) == multiset{a[0]} + multiset(a[1..]);
  }

  lemma {:induction false} WeighPermuted(a: seq<Obs>, b: seq<Obs>, w: Obs -> nat)
    requires multiset(a) == multiset(b)
    ensures Weigh(a, w) == Weigh(b, w)
  {
    if a == [] {
      assert |multiset(a)| == |multiset(b)|;
    } else {
      assert a[0] in multiset(b);
      var j :| 0 <= j < |b| && b[j] == a[0];
      var rest := b[..j] + b[j + 1..];
      WeighWithout(b, j, w);
      RestsArePermuted(a, b, j);
      WeighPermuted(a[1..], rest, w);
    }
  }

  // ----- a selection is made of prefixes of the pools -----

  lemma {:induction false} SizesOfRanked(groups: seq<seq<Obs>>)
    ensures Sizes(Ranked(groups)) == Sizes(groups)
    ensures multiset(Flat(Ranked(groups))) == multiset(Flat(groups))
    ensures |Flat(groups)| == Sum(Sizes(groups))
  {
    if groups != [] {
      SizesOfRanked(groups[1..]);
    }
  }

  lemma {:induction false} AllArePrefixes(pools: seq<seq<Obs>>)
    ensures Prefixes(pools, Sizes(pools)) == Flat(pools)
  {
    if pools != [] {
      AllArePrefixes(pools[1..]);
    }
  }

  lemma JoinParts(whole: seq<Obs>, a: seq<Obs>, b: seq<Obs>, parts: seq<Obs>, rest: (seq<Obs>, seq<Obs>))
    requires whole == a + b && multiset(rest.0) + multiset(rest.1) == multiset(parts)
    ensures multiset(a + rest.0) + multiset(b + rest.1) == multiset(whole + parts)
  {
  }

  lemma FillOfPools(pools: seq<seq<Obs>>, share: nat, remaining: nat)
    requires pools != []
    ensures var t, extra := Fill(Sizes(pools), share, remaining), |Beyond(pools[0], share, remaining)|;
            t[0] == Min(share, |pools[0]|) + extra && t[1..] == Fill(Sizes(pools[1..]), share, remaining - extra)
  {
    assert Sizes(pools)[1..] == Sizes(pools[1..]);
  }

  lemma {:induction false} PartsArePrefixes(pools: seq<seq<Obs>>, share: nat, remaining: nat, t: seq<nat>)
    requires t == Fill(Sizes(pools), share, remaining)
    ensures multiset(BaseParts(pools, share)) + multiset(ExtraParts(pools, share, remaining)) == multiset(Prefixes(pools, t))
  {
    if pools != [] {
      var p, rest := pools[0], pools[1..];
      var base, extra := Head(p, share), Beyond(p, share, remaining);
      FillOfPools(pools, share, remaining);
      PartsArePrefixes(rest, share, remaining - |extra|, t[1..]);
      assert p[..t[0]] == base + extra;
      JoinParts(p[..t[0]], base, extra, Prefixes(rest, t[1..]),
                (BaseParts(rest, share), ExtraParts(rest, share, remaining - |extra|)));
    }
  }

  lemma {:induction false} SizeOfBaseParts(pools: seq<seq<Obs>>, share: nat)
    ensures |BaseParts(pools, share)| == Sum(Bases(Sizes(pools), share))
  {
    if pools != [] {
      SizeOfBaseParts(pools[1..], share);
    }
  }

  /** The prefixes of the pools that the quota grants under a cap. */
  function Granted(pools: seq<seq<Obs>>, cap: nat): (r: seq<Obs>)
    ensures |r| == Min(cap, Sum(Sizes(pools)))
  {
    TakesAreFair(Sizes(pools), cap);
    Prefixes(pools, Takes(Sizes(pools), cap))
  }

  lemma SameSize(a: seq<Obs>, b: seq<Obs>)
    requires multiset(a) == multiset(b)
    ensures |a| == |b|
  {
    assert |multiset(a)| == |multiset(b)|;
  }

  lemma PickedIsGranted(pools: seq<seq<Obs>>, cap: nat)
    requires |pools| >= 2 && cap < Sum(Sizes(pools))
    ensures multiset(Picked(pools, Share(cap, |pools|), cap)) == multiset(Granted(pools, cap))
    ensures |Picked(pools, Share(cap, |pools|), cap)| == cap
  {
    var share := Share(cap, |pools|);
    SizeOfBaseParts(pools, share);
    PartsArePrefixes(pools, share, Left(Sizes(pools), share, cap), Takes(Sizes(pools), cap));
    SameSize(Picked(pools, share, cap), Granted(pools, cap));
  }

  lemma HeadOfSorted(s: seq<Obs>, n: nat)
    ensures NewestFirst(Head(SortNewest(s), n))
  {
    SortSorts(s);
  }

  lemma WholeHead(s: seq<Obs>, n: nat)
    requires |s| <= n
    ensures multiset(Head(SortNewest(s), n)) == multiset(s) && NewestFirst(Head(SortNewest(s), n))
  {
    SortSorts(s);
    assert Head(SortNewest(s), n) == SortNewest(s);
  }

  lemma OnePoolIsGranted(pool: seq<Obs>, cap: nat)
    ensures Granted([pool], cap) == Head(pool, cap)
  {
    assert Sizes([pool]) == [|pool|];
    assert Bases([|pool|], cap) == [Min(cap, |pool|)];
  }

  lemma SharesAreGranted(groups: seq<seq<Obs>>, cap: nat)
    requires |groups| >= 2 && |Flat(groups)| > cap
    ensures multiset(SelectionOf(groups, cap)) == multiset(Granted(Ranked(groups), cap))
    ensures NewestFirst(SelectionOf(groups, cap))
  {
    var picked := Picked(Ranked(groups), Share(cap, |groups|), cap);
    SizesOfRanked(groups);
    PickedIsGranted(Ranked(groups), cap);
    WholeHead(picked, cap);
  }

  lemma SelectionOfIsGranted(groups: seq<seq<Obs>>, cap: nat)
    ensures multiset(SelectionOf(groups, cap)) == multiset(Granted(Ranked(groups), cap))
    ensures NewestFirst(SelectionOf(groups, cap))
  {
    var pools := Ranked(groups);
    if |groups| == 1 {
      assert pools == [SortNewest(groups[0])];
      OnePoolIsGranted(pools[0], cap);
      HeadOfSorted(groups[0], cap);
    } else if |groups| >= 2 && |Flat(groups)| <= cap {
      SizesOfRanked(groups);
      AllArePrefixes(pools);
      SortSorts(Flat(groups));
    } else if |groups| >= 2 {
      SharesAreGranted(groups, cap);
    }
  }

  /**
   The selection is newest first and has as many entries as the cap and the
   candidates allow; from every origin it takes a newest-first prefix of what
   that origin has.
   */
  lemma SelectionIsGranted(s: seq<Obs>, cap: nat)
    ensures NewestFirst(Selection(s, cap))
    ensures multiset(Selection(s, cap)) == multiset(Granted(Pools(s), cap))
    ensures |Selection(s, cap)| == Min(cap, Available(s))
  {
    SelectionOfIsGranted(Groups(Names(s), s), cap);
    SameSize(Selection(s, cap), Granted(Pools(s), cap));
  }

  // ----- nothing is invented or repeated -----

  lemma {:induction false} GroupKeepsCounts(s: seq<Obs>, name: string, o: Obs)
    ensures multiset(Group(s, name))[o] == if OriginOf(o) == name then multiset(s)[o] else 0
  {
    if s != [] {
      assert s == s[..|s| - 1] + [s[|s| - 1]];
      GroupKeepsCounts(s[..|s| - 1], name, o);
    }
  }

  lemma {:induction false} LessonsAreIncluded(s: seq<Obs>)
    ensures multiset(Lessons(s)) <= multiset(s)
    ensures forall o :: o in Lessons(s) <==> o in s && IsLesson(o)
  {
    if s != [] {
      assert s == [s[0]] + s[1..];
      LessonsAreIncluded(s[1..]);
    }
  }

  lemma {:induction false} NamesAreDistinct(s: seq<Obs>)
    ensures forall i, j :: 0 <= i < j < |Names(s)| ==> Names(s)[i] != Names(s)[j]
    ensures forall o :: o in s ==> OriginOf(o) in Names(s)
    ensures forall n :: n in Names(s) ==> Group(s, n) != []
  {
    if s != [] {
      NamesAreDistinct(s[..|s| - 1]);
      assert s == s[..|s| - 1] + [s[|s| - 1]];
    }
  }

  lemma {:induction false} GroupsKeepCounts(names: seq<string>, s: seq<Obs>, o: Obs)
    requires forall i, j :: 0 <= i < j < |names| ==> names[i] != names[j]
    ensures multiset(Flat(Groups(names, s)))[o] <= if OriginOf(o) in names then multiset(s)[o] else 0
  {
    if names != [] {
      GroupKeepsCounts(s, names[0], o);
      LessonsAreIncluded(Group(s, names[0]));
      GroupsKeepCounts(names[1..], s, o);
      assert names == [names[0]] + names[1..];
    }
  }

  lemma {:induction false} PrefixesAreIncluded(pools: seq<seq<Obs>>, t: seq<nat>)
    requires |t| == |pools| && forall i :: 0 <= i < |t| ==> t[i] <= |pools[i]|
    ensures multiset(Prefixes(pools, t)) <= multiset(Flat(pools))
  {
    if pools != [] {
      PrefixesAreIncluded(pools[1..], t[1..]);
      assert pools[0] == pools[0][..t[0]] + pools[0][t[0]..];
    }
  }

  lemma SelectionIsIncluded(s: seq<Obs>, cap: nat)
    ensures multiset(Selection(s, cap)) <= multiset(s)
  {
    var groups := Groups(Names(s), s);
    SelectionIsGranted(s, cap);
    TakesAreFair(Sizes(Pools(s)), cap);
    PrefixesAreIncluded(Pools(s), Takes(Sizes(Pools(s)), cap));
    SizesOfRanked(groups);
    NamesAreDistinct(s);
    forall o ensures multiset(Flat(groups))[o] <= multiset(s)[o] {
      GroupsKeepCounts(Names(s), s, o);
    }
  }

  // ----- every origin is represented -----

  function Mark(name: string): Obs -> nat {
    o => if OriginOf(o) == name then 1 else 0
  }

  /** Number of entries of an origin. */
  function CountOf(s: seq<Obs>, name: string): nat {
    Weigh(s, Mark(name))
  }

  lemma {:induction false} CountOfUniform(s: seq<Obs>, name: string, own: bool)
    requires forall o :: o in s ==> (OriginOf(o) == name <==> own)
    ensures CountOf(s, name) == if own then |s| else 0
  {
    if s != [] {
      CountOfUniform(s[1..], name, own);
    }
  }

  /** Pool i holds entries of origin i only. */
  predicate PoolsMatch(pools: seq<seq<Obs>>, names: seq<string>) {
    |pools| == |names| && forall i, o :: 0 <= i < |names| && o in pools[i] ==> OriginOf(o) == names[i]
  }

  lemma {:induction false} CountOfPrefixes(pools: seq<seq<Obs>>, names: seq<string>, t: seq<nat>, i: nat)
    requires PoolsMatch(pools, names) && i < |names|
    requires forall i, j :: 0 <= i < j < |names| ==> names[i] != names[j]
    requires |t| == |pools| && forall i :: 0 <= i < |t| ==> t[i] <= |pools[i]|
    ensures CountOf(Prefixes(pools, t), names[i]) == t[i]
  {
    WeighConcat(pools[0][..t[0]], Prefixes(pools[1..], t[1..]), Mark(names[i]));
    CountOfUniform(pools[0][..t[0]], names[i], i == 0);
    if i == 0 {
      CountOfOthers(pools[1..], names[1..], t[1..], names[0]);
    } else {
      CountOfPrefixes(pools[1..], names[1..], t[1..], i - 1);
    }
  }

  lemma {:induction false} CountOfOthers(pools: seq<seq<Obs>>, names: seq<string>, t: seq<nat>, name: string)
    requires PoolsMatch(pools, names) && name !in names
    requires |t| == |pools| && forall i :: 0 <= i < |t| ==> t[i] <= |pools[i]|
    ensures CountOf(Prefixes(pools, t), name) == 0
  {
    if pools != [] {
      WeighConcat(pools[0][..t[0]], Prefixes(pools[1..], t[1..]), Mark(name));
      CountOfUniform(pools[0][..t[0]], name, false);
      CountOfOthers(pools[1..], names[1..], t[1..], name);
    }
  }

  lemma {:induction false} GroupIsOfOrigin(s: seq<Obs>, name: string)
    ensures forall o :: o in Group(s, name) ==> OriginOf(o) == name
  {
    if s != [] {
      GroupIsOfOrigin(s[..|s| - 1], name);
    }
  }

  lemma {:induction false} PoolAt(names: seq<string>, s: seq<Obs>, i: nat)
    requires i < |names|
    ensures Ranked(Groups(names, s))[i] == SortNewest(Filtered(Group(s, names[i])))
  {
    RankedAt(Groups(names, s), i);
    GroupAt(names, s, i);
  }

  lemma {:induction false} GroupAt(names: seq<string>, s: seq<Obs>, i: nat)
    requires i < |names|
    ensures Groups(names, s)[i] == Filtered(Group(s, names[i]))
  {
    if i > 0 {
      GroupAt(names[1..], s, i - 1);
    }
  }

  lemma PoolsAreOfOrigin(s: seq<Obs>)
    ensures PoolsMatch(Pools(s), Names(s))
  {
    var names := Names(s);
    forall i, o | 0 <= i < |names| && o in Pools(s)[i] ensures OriginOf(o) == names[i] {
      PoolAt(names, s, i);
      GroupIsOfOrigin(s, names[i]);
      LessonsAreIncluded(Group(s, names[i]));
      SortKeepsMembers(Filtered(Group(s, names[i])));
    }
  }

  /**
   Every origin keeps at least its even share of the cap, or all it has. An
   origin that holds templates only competes with those, so it does not vanish.
   */
  lemma EveryOriginIsRepresented(s: seq<Obs>, cap: nat, i: nat)
    requires i < |Names(s)|
    ensures var name := Names(s)[i];
            && CountOf(Selection(s, cap), name) >= Min(Share(cap, |Names(s)|), |Filtered(Group(s, name))|)
            && |Filtered(Group(s, name))| > 0
  {
    var names, pools := Names(s), Pools(s);
    SelectionIsGranted(s, cap);
    WeighPermuted(Selection(s, cap), Granted(pools, cap), Mark(names[i]));
    TakesAreFair(Sizes(pools), cap);
    NamesAreDistinct(s);
    PoolsAreOfOrigin(s);
    PoolAt(names, s, i);
    CountOfPrefixes(pools, names, Takes(Sizes(pools), cap), i);
  }

  // ----- templates give way to lessons -----

  /** An entry without an origin is the local side's. */
  predicate SameOrigin(a: Obs, b: Obs) {
    || a.origin == b.origin
    || (a.origin == "" && b.origin == "local") || (a.origin == "local" && b.origin == "")
  }

  lemma {:induction false} InSomePool(pools: seq<seq<Obs>>, o: Obs) returns (i: nat)
    requires o in Flat(pools)
    ensures i < |pools| && o in pools[i]
  {
    if o in pools[0] {
      i := 0;
    } else {
      i := InSomePool(pools[1..], o);
      i := i + 1;
    }
  }

  lemma {:induction false} GroupHasAll(s: seq<Obs>, name: string, o: Obs)
    ensures o in Group(s, name) <==> o in s && OriginOf(o) == name
  {
    if s != [] {
      GroupHasAll(s[..|s| - 1], name, o);
      assert s == s[..|s| - 1] + [s[|s| - 1]];
    }
  }

  lemma SelectedIsInPool(s: seq<Obs>, cap: nat, o: Obs) returns (i: nat)
    requires o in Selection(s, cap)
    ensures i < |Names(s)| && o in Filtered(Group(s, Names(s)[i]))
  {
    SelectionIsGranted(s, cap);
    TakesAreFair(Sizes(Pools(s)), cap);
    PrefixesAreIncluded(Pools(s), Takes(Sizes(Pools(s)), cap));
    assert o in multiset(Selection(s, cap)) && o in multiset(Granted(Pools(s), cap));
    assert o in multiset(Flat(Pools(s)));
    i := InSomePool(Pools(s), o);
    PoolAt(Names(s), s, i);
    SortKeepsMembers(Filtered(Group(s, Names(s)[i])));
  }

  /** A template is selected only where its origin has no lesson at all. */
  lemma TemplatesGiveWay(s: seq<Obs>, cap: nat, o: Obs, lesson: Obs)
    requires o in Selection(s, cap) && IsTemplate(o) && lesson in s && SameOrigin(o, lesson)
    ensures IsTemplate(lesson)
  {
    var i := SelectedIsInPool(s, cap, o);
    var name := Names(s)[i];
    GroupHasAll(s, name, o);
    GroupHasAll(s, name, lesson);
    LessonsAreIncluded(Group(s, name));
    LessonIff(o);
    LessonIff(lesson);
    assert o in Group(s, name) && OriginOf(lesson) == OriginOf(o);
    assert Lessons(Group(s, name)) == [] || o !in Lessons(Group(s, name));
    assert !IsTemplate(lesson) ==> lesson in Lessons(Group(s, name));
  }

  // ----- a larger cap -----

  lemma OneMore(p: seq<Obs>, n: nat)
    requires n < |p|
    ensures multiset(p[..n + 1]) == multiset(p[..n]) + multiset{p[n]}
  {
    assert p[..n + 1] == p[..n] + [p[n]];
  }

  lemma {:induction false} OneMorePrefix(pools: seq<seq<Obs>>, t: seq<nat>, u: seq<nat>, i: nat)
    requires |t| == |pools| && (forall k :: 0 <= k < |t| ==> t[k] <= |pools[k]|)
    requires i < |t| && t[i] < |pools[i]| && u == t[i := t[i] + 1]
    ensures multiset(Prefixes(pools, u)) == multiset(Prefixes(pools, t)) + multiset{pools[i][t[i]]}
  {
    if i == 0 {
      OneMore(pools[0], t[0]);
      assert u[1..] == t[1..];
    } else {
      OneMorePrefix(pools[1..], t[1..], u[1..], i - 1);
    }
  }

  /** With at most two origins, a cap one higher keeps the same entries and one more. */
  lemma SelectionGrows(s: seq<Obs>, cap: nat) returns (o: Obs)
    requires |Names(s)| <= 2 && cap < Available(s)
    ensures multiset(Selection(s, cap + 1)) == multiset(Selection(s, cap)) + multiset{o}
  {
    var pools := Pools(s);
    SelectionIsGranted(s, cap);
    SelectionIsGranted(s, cap + 1);
    var i := TakesGrowByOne(Sizes(pools), cap);
    var t := Takes(Sizes(pools), cap);
    TakesAreFair(Sizes(pools), cap);
    o := pools[i][t[i]];
    OneMorePrefix(pools, t, Takes(Sizes(pools), cap + 1), i);
  }
}
