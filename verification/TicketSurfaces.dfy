/** How identifiers are found in the texts of the two surfaces, and what repeated allocation over them does. */
module TicketSurfaces {
  import opened TicketIds
  import opened TicketStates

  // ----- finding identifiers in a text -----

  /** Where the letters and digits from k on end. */
  function RunEnd(text: string, k: nat): (e: nat)
    requires k <= |text|
    ensures k <= e <= |text| && (e < |text| ==> !IsAlnum(text[e]))
    ensures forall i :: k <= i < e ==> IsAlnum(text[i])
    decreases |text| - k
  {
    if k < |text| && IsAlnum(text[k]) then RunEnd(text, k + 1) else k
  }

  /** Where a prefix at k ends, if one stands there in front of a dash. */
  function PrefixEnd(text: string, k: nat): (e: nat)
    requires k <= |text|
    ensures e > k ==> e < |text| && text[e] == '-' && CollectedPrefix(text[k..e])
  {
    if k + 2 < |text| && text[k + 2] == '-' && text[k..k + 2] in {"WP", "WT"} then k + 2
    else if k + 3 < |text| && text[k + 3] == '-' && AllUpper(text[k..k + 3]) then k + 3
    else k
  }

  /** Where an identifier at k ends, if one stands there. */
  function MatchEnd(text: string, k: nat): (e: nat)
    requires k <= |text|
    ensures k <= e <= |text|
  {
    var y := PrefixEnd(text, k) + 1;
    if y > k + 1 && y + 4 < |text| && AllDigits(text[y..y + 4]) && text[y + 4] == '-' && RunEnd(text, y + 5) > y + 5
    then RunEnd(text, y + 5) else k
  }

  /** The identifiers from k on, from left to right, each search going on behind the last find. */
  function FindAll(text: string, k: nat): set<string>
    requires k <= |text|
    decreases |text| - k
  {
    if k == |text| then {}
    else
      var e := MatchEnd(text, k);
      if e > k then {text[k..e]} + FindAll(text, e) else FindAll(text, k + 1)
  }

  function Collected(text: string): set<string> {
    FindAll(text, 0)
  }

  /** The two files; a missing one is empty. */
  datatype Surfaces = Surfaces(backlog: string, archive: string)

  function Existing(s: Surfaces): set<string> {
    Collected(s.backlog) + Collected(s.archive)
  }

  // ----- what is found is an identifier -----

  predicate IsInside(c: char) { IsAlnum(c) || c == '-' }

  lemma PartsAreTicketId(prefix: string, year: string, tail: string)
    requires CollectedPrefix(prefix) && |year| == 4 && AllDigits(year) && tail != "" && AllAlnum(tail)
    ensures IsTicketId(prefix + "-" + year + "-" + tail)
  {
    PartsOf(prefix, year, tail);
  }

  lemma MatchIsTicketId(text: string, k: nat)
    requires k <= |text| && MatchEnd(text, k) > k
    ensures IsTicketId(text[k..MatchEnd(text, k)])
  {
    var p, e := PrefixEnd(text, k), MatchEnd(text, k);
    var prefix, year, tail := text[k..p], text[p + 1..p + 5], text[p + 6..e];
    assert text[k..e] == prefix + "-" + year + "-" + tail;
    PartsAreTicketId(prefix, year, tail);
  }

  lemma MatchIsInside(text: string, k: nat, i: nat)
    requires k <= |text| && k <= i < MatchEnd(text, k)
    ensures IsInside(text[i])
  {
    var p := PrefixEnd(text, k);
    if i < p {
      assert text[i] == text[k..p][i - k];
    } else if p < i < p + 5 {
      assert text[i] == text[p + 1..p + 5][i - p - 1];
    }
  }

  lemma {:induction false} FoundIsTicketId(text: string, k: nat, s: string)
    requires k <= |text| && s in FindAll(text, k)
    ensures IsTicketId(s)
    decreases |text| - k
  {
    var e := MatchEnd(text, k);
    if e == k {
      FoundIsTicketId(text, k + 1, s);
    } else if s == text[k..e] {
      MatchIsTicketId(text, k);
    } else {
      FoundIsTicketId(text, e, s);
    }
  }

  lemma ExistingAreTicketIds(s: Surfaces)
    ensures forall x :: x in Existing(s) ==> IsTicketId(x)
  {
    forall x | x in Existing(s) ensures IsTicketId(x) {
      FoundIsTicketId(if x in Collected(s.backlog) then s.backlog else s.archive, 0, x);
    }
  }

  // ----- an identifier that stands by itself is found -----

  predicate Separates(before: string, after: string) {
    && (before != "" ==> !IsInside(before[|before| - 1]))
    && (after != "" ==> !IsAlnum(after[0]))
  }

  /** s stands in the text, set off from what is around it. */
  ghost predicate WrittenIn(s: string, text: string) {
    exists before, after :: text == before + s + after && Separates(before, after)
  }

  lemma PrefixIsFound(text: string, k: nat, prefix: string)
    requires CollectedPrefix(prefix) && k + |prefix| < |text|
    requires text[k..k + |prefix|] == prefix && text[k + |prefix|] == '-'
    ensures PrefixEnd(text, k) == k + |prefix|
  {
    if |prefix| == 3 {
      assert text[k + 2] == prefix[2];
    }
  }

  lemma RunIsTail(text: string, k: nat, n: nat)
    requires k + n <= |text| && (forall i :: k <= i < k + n ==> IsAlnum(text[i]))
    requires k + n < |text| ==> !IsAlnum(text[k + n])
    ensures RunEnd(text, k) == k + n
  {
  }

  lemma SlicesMatch(text: string, k: nat, prefix: string, year: string, tail: string)
    requires CollectedPrefix(prefix) && |year| == 4 && AllDigits(year) && tail != "" && AllAlnum(tail)
    requires k + |prefix| + 6 + |tail| <= |text|
    requires var p := k + |prefix|;
             && text[k..p] == prefix && text[p] == '-' && text[p + 1..p + 5] == year && text[p + 5] == '-'
             && text[p + 6..p + 6 + |tail|] == tail && (p + 6 + |tail| < |text| ==> !IsAlnum(text[p + 6 + |tail|]))
    ensures MatchEnd(text, k) == k + |prefix| + 6 + |tail|
  {
    var t := k + |prefix| + 6;
    PrefixIsFound(text, k, prefix);
    forall i | t <= i < t + |tail| ensures IsAlnum(text[i]) {
      assert text[i] == text[t..t + |tail|][i - t];
    }
    RunIsTail(text, t, |tail|);
  }

  lemma Within(text: string, k: nat, s: string, i: nat, j: nat)
    requires k + |s| <= |text| && text[k..k + |s|] == s && i <= j <= |s|
    ensures text[k + i..k + j] == s[i..j]
  {
    forall x | 0 <= x < j - i ensures text[k + i..k + j][x] == s[i..j][x] {
      assert text[k..k + |s|][i + x] == s[i + x];
    }
  }

  lemma PiecesOf(s: string, prefix: string, year: string, tail: string)
    requires s == prefix + "-" + year + "-" + tail && |year| == 4
    ensures |s| == |prefix| + 6 + |tail|
    ensures s[0..|prefix|] == prefix && s[|prefix|..|prefix| + 1] == "-" && s[|prefix| + 1..|prefix| + 5] == year
    ensures s[|prefix| + 5..|prefix| + 6] == "-" && s[|prefix| + 6..|s|] == tail
  {
  }

  lemma PartsJoin(s: string)
    requires Parts(s).Some?
    ensures var (prefix, year, tail) := Parts(s).value; s == prefix + "-" + year + "-" + tail
  {
  }

  lemma PiecesInText(text: string, k: nat, s: string, prefix: string, year: string, tail: string)
    requires s == prefix + "-" + year + "-" + tail && |year| == 4
    requires k + |s| <= |text| && text[k..k + |s|] == s
    ensures var p := k + |prefix|;
            && k + |s| == p + 6 + |tail|
            && text[k..p] == prefix && text[p] == '-' && text[p + 1..p + 5] == year && text[p + 5] == '-'
            && text[p + 6..p + 6 + |tail|] == tail
  {
    var p := |prefix|;
    PiecesOf(s, prefix, year, tail);
    Within(text, k, s, 0, p);
    Within(text, k, s, p, p + 1);
    Within(text, k, s, p + 1, p + 5);
    Within(text, k, s, p + 5, p + 6);
    Within(text, k, s, p + 6, |s|);
    assert text[k + p] == text[k + p..k + p + 1][0] && text[k + p + 5] == text[k + p + 5..k + p + 6][0];
  }

  lemma TicketIdIsMatched(text: string, k: nat, s: string)
    requires IsTicketId(s) && k + |s| <= |text| && text[k..k + |s|] == s
    requires k + |s| < |text| ==> !IsAlnum(text[k + |s|])
    ensures MatchEnd(text, k) == k + |s|
  {
    var (prefix, year, tail) := Parts(s).value;
    PartsJoin(s);
    PiecesInText(text, k, s, prefix, year, tail);
    SlicesMatch(text, k, prefix, year, tail);
  }

  /** No find reaches over a character that separates. */
  lemma {:induction false} SearchPasses(text: string, k: nat, m: nat)
    requires k <= m <= |text| && (k < m ==> !IsInside(text[m - 1]))
    ensures FindAll(text, m) <= FindAll(text, k)
    decreases |text| - k
  {
    if k < m {
      var e := MatchEnd(text, k);
      if e > k {
        if e >= m {
          MatchIsInside(text, k, m - 1);
        }
        SearchPasses(text, e, m);
      } else {
        SearchPasses(text, k + 1, m);
      }
    }
  }

  lemma Around(before: string, s: string, after: string)
    ensures var text, k := before + s + after, |before|;
            && text[k..k + |s|] == s && (after != "" ==> text[k + |s|] == after[0])
            && (before != "" ==> text[k - 1] == before[k - 1]) && (after == "" <==> k + |s| == |text|)
  {
  }

  lemma MatchIsFound(text: string, k: nat)
    requires k < |text| && MatchEnd(text, k) > k
    ensures text[k..MatchEnd(text, k)] in FindAll(text, k)
  {
  }

  /** An identifier the collector recognises is found wherever it stands by itself. */
  lemma WrittenIsCollected(s: string, text: string)
    requires IsTicketId(s) && WrittenIn(s, text)
    ensures s in Collected(text)
  {
    var before, after :| text == before + s + after && Separates(before, after);
    Around(before, s, after);
    TicketIdIsMatched(text, |before|, s);
    MatchIsFound(text, |before|);
    SearchPasses(text, 0, |before|);
  }

  lemma NoPrefixOfFour(s: string, prefix: string, rest: string)
    requires s == prefix + rest && |prefix| == 4 && AllUpper(prefix)
    ensures MatchEnd(s, 0) == 0
  {
    assert s[2] == prefix[2] && s[3] == prefix[3] && IsUpper(s[2]) && IsUpper(s[3]);
  }

  lemma OnlyFind(s: string)
    requires |s| > 1 && MatchEnd(s, 0) == 0 && MatchEnd(s, 1) == |s|
    ensures Collected(s) == {s[1..]}
  {
    assert FindAll(s, |s|) == {};
    assert FindAll(s, 1) == {s[1..|s|]} + FindAll(s, |s|);
    assert s[1..|s|] == s[1..];
    assert FindAll(s, 0) == FindAll(s, 1);
  }

  lemma ShortOfFour(s: string, prefix: string, year: string, tail: string)
    requires s == prefix + "-" + year + "-" + tail && |prefix| == 4 && AllUpper(prefix)
    requires |year| == 4 && AllDigits(year) && tail != "" && AllAlnum(tail)
    ensures IsTicketId(s[1..])
  {
    assert s[1..] == prefix[1..] + "-" + year + "-" + tail;
    PartsAreTicketId(prefix[1..], year, tail);
  }

  lemma CollectedOfFour(s: string, prefix: string, year: string, tail: string)
    requires s == prefix + "-" + year + "-" + tail && |prefix| == 4 && AllUpper(prefix)
    requires |year| == 4 && AllDigits(year) && tail != "" && AllAlnum(tail)
    ensures Collected(s) == {s[1..]}
  {
    assert s == prefix + ("-" + year + "-" + tail);
    NoPrefixOfFour(s, prefix, "-" + year + "-" + tail);
    ShortOfFour(s, prefix, year, tail);
    TicketIdIsMatched(s, 1, s[1..]);
    OnlyFind(s);
  }

  /** Of an identifier with a prefix of four letters the collector reads all but the first letter. */
  lemma FourLettersAreReadShort(s: string)
    requires Parse(s).Some? && |Parse(s).value.prefix| == 4
    ensures !IsTicketId(s) && Collected(s) == {s[1..]}
  {
    var (prefix, year, tail) := Parts(s).value;
    TailIsAlnum(tail, LetterOf(tail));
    PartsJoin(s);
    CollectedOfFour(s, prefix, year, tail);
  }

  // ----- allocation over the surfaces -----

  ghost predicate IsOn(s: string, surfaces: Surfaces) {
    WrittenIn(s, surfaces.backlog) || WrittenIn(s, surfaces.archive)
  }

  ghost predicate Answers(r: string, prefix: string, year: int, surfaces: Surfaces) {
    IsNext(r, prefix, year, Existing(surfaces))
  }

  lemma OnIsExisting(s: string, surfaces: Surfaces)
    requires IsTicketId(s) && IsOn(s, surfaces)
    ensures s in Existing(surfaces)
  {
    if WrittenIn(s, surfaces.backlog) {
      WrittenIsCollected(s, surfaces.backlog);
    } else {
      WrittenIsCollected(s, surfaces.archive);
    }
  }

  /** Whatever the texts, the prefix and the year, the answer is none of the identifiers found. */
  lemma AnswerIsNotFound(r: string, prefix: string, year: int, surfaces: Surfaces)
    requires Answers(r, prefix, year, surfaces)
    ensures r !in Existing(surfaces)
  {
    ExistingAreTicketIds(surfaces);
    NextIsFree(r, prefix, year, Existing(surfaces));
  }

  /** Without an identifier of that prefix and year to be found, the answer is the first one. */
  lemma UnrecognisedAnswersFirst(prefix: string, year: int, surfaces: Surfaces)
    requires !(CollectedPrefix(prefix) && InRange(year))
    ensures Answers(First(prefix, year), prefix, year, surfaces)
  {
    ExistingAreTicketIds(surfaces);
    forall s | s in Existing(surfaces) ensures !Matches(s, prefix, year) {
      NotCollectedNeverMatches(prefix, year, s);
    }
    assert IsMax(None, Matching(Existing(surfaces), prefix, year));
  }

  lemma StandsAlone(s: string)
    ensures WrittenIn(s, s)
  {
    assert s == "" + s + "" && Separates("", "");
  }

  /**
   The answer stands on neither surface, whatever is on them, exactly for the
   prefixes the collector recognises and years of four digits.
   */
  lemma AnswerIsNewIff(prefix: string, year: int)
    ensures (forall r, surfaces :: Answers(r, prefix, year, surfaces) ==> !IsOn(r, surfaces))
       <==> CollectedPrefix(prefix) && InRange(year)
  {
    if CollectedPrefix(prefix) && InRange(year) {
      forall r, surfaces | Answers(r, prefix, year, surfaces) ensures !IsOn(r, surfaces) {
        AnswerIsNotFound(r, prefix, year, surfaces);
        NextIsCollected(r, prefix, year, Existing(surfaces));
        if IsOn(r, surfaces) {
          OnIsExisting(r, surfaces);
          assert false;
        }
      }
    } else {
      var first := First(prefix, year);
      UnrecognisedAnswersFirst(prefix, year, Surfaces(first, ""));
      StandsAlone(first);
      assert Answers(first, prefix, year, Surfaces(first, "")) && IsOn(first, Surfaces(first, ""));
    }
  }

  /**
   Allocations one after the other: every answer is written to a surface, where
   others may write as well, and stays there.
   */
  ghost predicate Allocations(ids: seq<string>, prefix: string, year: int, surfaces: seq<Surfaces>) {
    && |surfaces| == |ids|
    && (forall i :: 0 <= i < |ids| ==> Answers(ids[i], prefix, year, surfaces[i]))
    && (forall i, j :: 0 <= i < j < |ids| ==> IsOn(ids[i], surfaces[j]))
  }

  ghost predicate AllDistinct(ids: seq<string>) {
    forall i, j :: 0 <= i < j < |ids| ==> ids[i] != ids[j]
  }

  /** For a prefix the collector recognises, successive answers only go up. */
  lemma AllocationsGoUp(ids: seq<string>, prefix: string, year: int, surfaces: seq<Surfaces>, i: nat, j: nat)
    requires CollectedPrefix(prefix) && InRange(year) && Allocations(ids, prefix, year, surfaces)
    requires i < j < |ids|
    ensures Matches(ids[i], prefix, year) && Matches(ids[j], prefix, year)
    ensures Above(Parse(ids[j]).value, Parse(ids[i]).value)
  {
    NextIsCollected(ids[i], prefix, year, Existing(surfaces[i]));
    NextIsAboveAll(ids[i], prefix, year, Existing(surfaces[i]));
    OnIsExisting(ids[i], surfaces[j]);
    NextIsAboveAll(ids[j], prefix, year, Existing(surfaces[j]));
  }

  lemma UnrecognisedRepeats(prefix: string, year: int) returns (ids: seq<string>, surfaces: seq<Surfaces>)
    requires !(CollectedPrefix(prefix) && InRange(year))
    ensures Allocations(ids, prefix, year, surfaces) && !AllDistinct(ids)
  {
    var first := First(prefix, year);
    ids, surfaces := [first, first], [Surfaces("", ""), Surfaces(first, "")];
    UnrecognisedAnswersFirst(prefix, year, surfaces[0]);
    UnrecognisedAnswersFirst(prefix, year, surfaces[1]);
    StandsAlone(first);
    assert ids[0] == ids[1];
  }

  /**
   Exactly for the prefixes the collector recognises, and years of four
   digits, repeated allocation never repeats an answer. For any other prefix,
   canonical ones of two or four letters among them, it repeats at once.
   */
  lemma AllocationNeverRepeatsIff(prefix: string, year: int)
    ensures (forall ids, surfaces :: Allocations(ids, prefix, year, surfaces) ==> AllDistinct(ids))
       <==> CollectedPrefix(prefix) && InRange(year)
  {
    if CollectedPrefix(prefix) && InRange(year) {
      forall ids, surfaces | Allocations(ids, prefix, year, surfaces) ensures AllDistinct(ids) {
        forall i, j | 0 <= i < j < |ids| ensures ids[i] != ids[j] {
          AllocationsGoUp(ids, prefix, year, surfaces, i, j);
        }
      }
    } else {
      var ids, surfaces := UnrecognisedRepeats(prefix, year);
    }
  }
}
