/** The quota applied: which observations a cap keeps, and how the choice grows with the cap. */
module Selections {
  import opened Observations
  import opened Quotas

  function OriginOf(o: Obs): string {
    if o.origin == "" then "local" else o.origin
  }

  /** The origins in the order they are first seen. */
  function Names(s: seq<Obs>): seq<string> {
    if s == [] then []
    else
      var before, o := Names(s[..|s| - 1]), s[|s| - 1];
      if OriginOf(o) in before then before else before + [OriginOf(o)]
  }

  function Group(s: seq<Obs>, name: string): seq<Obs> {
    if s == [] then []
    else
      var before, o := Group(s[..|s| - 1], name), s[|s| - 1];
      if OriginOf(o) == name then before + [o] else before
  }

  function Lessons(s: seq<Obs>): seq<Obs> {
    if s == [] then []
    else if IsLesson(s[0]) then [s[0]] + Lessons(s[1..])
    else Lessons(s[1..])
  }

  /** The lessons of a group; a group without lessons keeps what it has. */
  function Filtered(entries: seq<Obs>): seq<Obs> {
    if Lessons(entries) == [] then entries else Lessons(entries)
  }

  /** What each origin may contribute. */
  function Groups(names: seq<string>, s: seq<Obs>): (r: seq<seq<Obs>>)
    ensures |r| == |names|
  {
    if names == [] then [] else [Filtered(Group(s, names[0]))] + Groups(names[1..], s)
  }

  function Ranked(groups: seq<seq<Obs>>): (r: seq<seq<Obs>>)
    ensures |r| == |groups|
  {
    if groups == [] then [] else [SortNewest(groups[0])] + Ranked(groups[1..])
  }

  /** The candidates of every origin, newest first. */
  function Pools(s: seq<Obs>): seq<seq<Obs>> {
    Ranked(Groups(Names(s), s))
  }

  function Sizes(pools: seq<seq<Obs>>): (r: seq<nat>)
    ensures |r| == |pools| && forall i :: 0 <= i < |r| ==> r[i] == |pools[i]|
  {
    if pools == [] then [] else [|pools[0]|] + Sizes(pools[1..])
  }

  /** Number of entries the quota can choose from. */
  function Available(s: seq<Obs>): nat {
    Sum(Sizes(Pools(s)))
  }

  function Flat(pools: seq<seq<Obs>>): seq<Obs> {
    if pools == [] then [] else pools[0] + Flat(pools[1..])
  }

  function Head(s: seq<Obs>, n: nat): seq<Obs> {
    s[..Min(n, |s|)]
  }

  function BaseParts(pools: seq<seq<Obs>>, share: nat): seq<Obs> {
    if pools == [] then [] else Head(pools[0], share) + BaseParts(pools[1..], share)
  }

  /** What a pool gives beyond its share. */
  function Beyond(p: seq<Obs>, share: nat, remaining: nat): (r: seq<Obs>)
    ensures |r| == Min(remaining, |p| - Min(share, |p|))
    ensures Head(p, share) + r == p[..Min(share, |p|) + |r|]
  {
    var already := Min(share, |p|);
    p[already..Min(already + remaining, |p|)]
  }

  function ExtraParts(pools: seq<seq<Obs>>, share: nat, remaining: nat): seq<Obs> {
    if pools == [] then []
    else
      var extra := Beyond(pools[0], share, remaining);
      extra + ExtraParts(pools[1..], share, remaining - |extra|)
  }

  /** The first t[i] entries of every pool. */
  function Prefixes(pools: seq<seq<Obs>>, t: seq<nat>): (r: seq<Obs>)
    requires |t| == |pools| && forall i :: 0 <= i < |t| ==> t[i] <= |pools[i]|
    ensures |r| == Sum(t)
  {
    if pools == [] then [] else pools[0][..t[0]] + Prefixes(pools[1..], t[1..])
  }

  function Picked(pools: seq<seq<Obs>>, share: nat, cap: nat): seq<Obs> {
    var bases := BaseParts(pools, share);
    bases + ExtraParts(pools, share, if |bases| <= cap then cap - |bases| else 0)
  }

  function SelectionOf(groups: seq<seq<Obs>>, cap: nat): seq<Obs> {
    if groups == [] then []
    else if |groups| < 2 then Head(SortNewest(groups[0]), cap)
    else if |Flat(groups)| <= cap then SortNewest(Flat(groups))
    else Head(SortNewest(Picked(Ranked(groups), Share(cap, |groups|), cap)), cap)
  }

  function Selection(s: seq<Obs>, cap: nat): seq<Obs> {
    SelectionOf(Groups(Names(s), s), cap)
  }

  // ----- the loops -----

  method GroupByOrigin(observations: seq<Obs>) returns (names: seq<string>, groups: map<string, seq<Obs>>)
    ensures names == Names(observations)
    ensures forall n :: n in groups <==> n in names
    ensures forall n :: n in names ==> groups[n] == Group(observations, n)
  {
    names, groups := [], map[];
    for i := 0 to |observations|
      invariant names == Names(observations[..i])
      invariant forall n :: n in groups <==> n in names
      invariant forall n :: n in names ==> groups[n] == Group(observations[..i], n)
      invariant forall n :: n !in names ==> Group(observations[..i], n) == []
    {
      var o := observations[i];
      var name := OriginOf(o);
      assert observations[..i + 1][..i] == observations[..i];
      if name in groups {
        groups := groups[name := groups[name] + [o]];
      } else {
        names, groups := names + [name], groups[name := [o]];
      }
    }
    assert observations[..|observations|] == observations;
  }

  method FilterGroups(observations: seq<Obs>, names: seq<string>, groups: map<string, seq<Obs>>)
    returns (kept: seq<seq<Obs>>)
    requires forall n :: n in names ==> n in groups && groups[n] == Group(observations, n)
    ensures kept == Groups(names, observations)
  {
    kept := [];
    for i := 0 to |names|
      invariant kept + Groups(names[i..], observations) == Groups(names, observations)
    {
      assert names[i] in names;
      kept := kept + [Filtered(groups[names[i]])];
      assert names[i..][1..] == names[i + 1..];
    }
  }

  lemma {:induction false} RankedAt(groups: seq<seq<Obs>>, i: nat)
    requires i < |groups|
    ensures Ranked(groups)[i] == SortNewest(groups[i])
  {
    if i > 0 {
      RankedAt(groups[1..], i - 1);
    }
  }

  lemma NextShare(picked: seq<Obs>, pools: seq<seq<Obs>>, share: nat, i: nat)
    requires i < |pools| && picked + BaseParts(pools[i..], share) == BaseParts(pools, share)
    ensures picked + Head(pools[i], share) + BaseParts(pools[i + 1..], share) == BaseParts(pools, share)
  {
    assert pools[i..][1..] == pools[i + 1..];
  }

  lemma OneMorePool(pools: seq<seq<Obs>>, i: nat)
    requires i < |pools|
    ensures pools[..i + 1] == pools[..i] + [pools[i]]
  {
  }

  method TakeShares(groups: seq<seq<Obs>>, share: nat) returns (picked: seq<Obs>, ranked: seq<seq<Obs>>)
    ensures ranked == Ranked(groups)
    ensures picked == BaseParts(ranked, share)
  {
    picked, ranked := [], [];
    ghost var pools := Ranked(groups);
    assert pools[0..] == pools;
    var i: nat := 0;
    while i < |groups|
      invariant i <= |groups|
      invariant ranked == pools[..i]
      invariant picked + BaseParts(pools[i..], share) == BaseParts(pools, share)
    {
      var entries := SortNewest(groups[i]);
      RankedAt(groups, i);
      NextShare(picked, pools, share, i);
      OneMorePool(pools, i);
      ranked := ranked + [entries];
      picked := picked + Head(entries, share);
      i := i + 1;
    }
    assert pools[i..] == [];
  }

  method TakeExtras(ranked: seq<seq<Obs>>, share: nat, left: nat, bases: seq<Obs>) returns (picked: seq<Obs>)
    ensures picked == bases + ExtraParts(ranked, share, left)
  {
    picked := bases;
    var remaining: nat := left;
    var i := 0;
    while i < |ranked| && remaining > 0
      invariant 0 <= i <= |ranked|
      invariant picked + ExtraParts(ranked[i..], share, remaining) == bases + ExtraParts(ranked, share, left)
    {
      var extra := Beyond(ranked[i], share, remaining);
      assert ranked[i..][1..] == ranked[i + 1..];
      picked := picked + extra;
      remaining := remaining - |extra|;
      i := i + 1;
    }
    NothingRemains(ranked[i..], share, remaining);
  }

  lemma {:induction false} NothingRemains(pools: seq<seq<Obs>>, share: nat, remaining: nat)
    requires pools == [] || remaining == 0
    ensures ExtraParts(pools, share, remaining) == []
  {
    if pools != [] {
      NothingRemains(pools[1..], share, 0);
    }
  }

  method PickShares(groups: seq<seq<Obs>>, share: nat, cap: nat) returns (picked: seq<Obs>)
    ensures picked == Picked(Ranked(groups), share, cap)
  {
    var bases, ranked := TakeShares(groups, share);
    var left: nat := if |bases| <= cap then cap - |bases| else 0;
    if left > 0 {
      picked := TakeExtras(ranked, share, left, bases);
    } else {
      NothingRemains(ranked, share, left);
      picked := bases;
    }
  }

  method CapPreservingOrigins(observations: seq<Obs>, cap: nat) returns (r: seq<Obs>)
    ensures r == Selection(observations, cap)
  {
    var names, byName := GroupByOrigin(observations);
    var groups := FilterGroups(observations, names, byName);
    if groups == [] {
      return [];
    }
    if |groups| < 2 {
      return Head(SortNewest(groups[0]), cap);
    }
    var flat := Flat(groups);
    if |flat| <= cap {
      return SortNewest(flat);
    }
    var picked := PickShares(groups, Share(cap, |groups|), cap);
    r := Head(SortNewest(picked), cap);
  }
}
