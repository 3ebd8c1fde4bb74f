/** Ticket identifiers: reading and writing them, and allocating the next free one. */
module TicketIds {
  import opened Texts
  import opened TicketStates

  /** What an identifier of the form PREFIX-YEAR-NNNx says; letter is empty or one lower-case letter. */
  datatype Id = Id(prefix: string, year: nat, number: nat, letter: string)

  predicate IsUpper(c: char) { 'A' <= c <= 'Z' }
  predicate IsLower(c: char) { 'a' <= c <= 'z' }
  predicate IsDigit(c: char) { '0' <= c <= '9' }
  predicate IsAlnum(c: char) { IsUpper(c) || IsLower(c) || IsDigit(c) }

  predicate AllUpper(s: string) { forall i :: 0 <= i < |s| ==> IsUpper(s[i]) }
  predicate AllDigits(s: string) { forall i :: 0 <= i < |s| ==> IsDigit(s[i]) }
  predicate AllAlnum(s: string) { forall i :: 0 <= i < |s| ==> IsAlnum(s[i]) }

  predicate CanonicalPrefix(p: string) { 2 <= |p| <= 4 && AllUpper(p) }

  /** The prefixes that the collector recognises in a text. */
  predicate CollectedPrefix(p: string) { p == "WP" || p == "WT" || (|p| == 3 && AllUpper(p)) }

  // ----- reading -----

  function DashAt(s: string): nat {
    IndexOf(s, '-', 0)
  }

  function Value(s: string): nat
    requires AllDigits(s)
  {
    if s == "" then 0 else 10 * Value(s[..|s| - 1]) + (s[|s| - 1] - '0') as nat
  }

  /** The three parts between the first two dashes. */
  function Parts(s: string): Option<(string, string, string)> {
    var i := DashAt(s);
    if i == |s| then None
    else
      var rest := s[i + 1..];
      var j := DashAt(rest);
      if j == |rest| then None else Some((s[..i], rest[..j], rest[j + 1..]))
  }

  function LetterOf(tail: string): string {
    if tail != "" && IsLower(tail[|tail| - 1]) then tail[|tail| - 1..] else ""
  }

  /** The whole of s read as two to four capitals, four digits, three or more digits, perhaps a letter. */
  function Parse(s: string): Option<Id> {
    match Parts(s)
    case None => None
    case Some((prefix, year, tail)) =>
      var letter := LetterOf(tail);
      var number := tail[..|tail| - |letter|];
      if CanonicalPrefix(prefix) && |year| == 4 && AllDigits(year) && |number| >= 3 && AllDigits(number)
      then Some(Id(prefix, Value(year), Value(number), letter))
      else None
  }

  /** What the collector extracts from the surfaces. */
  predicate IsTicketId(s: string) {
    match Parts(s)
    case None => false
    case Some((prefix, year, tail)) =>
      CollectedPrefix(prefix) && |year| == 4 && AllDigits(year) && tail != "" && AllAlnum(tail)
  }

  // ----- writing -----

  function Zeros(n: nat): (s: string)
    ensures |s| == n
  {
    if n == 0 then "" else "0" + Zeros(n - 1)
  }

  function PadLeft(digits: string, width: nat): (s: string)
    ensures |s| >= width && |s| >= |digits|
  {
    if |digits| >= width then digits else Zeros(width - |digits|) + digits
  }

  function Padded(n: nat, width: nat): string {
    PadLeft(NumberText(n), width)
  }

  /** A year as four digits; the sign of a negative one takes a place. */
  function YearText(year: int): string {
    if year < 0 then "-" + Padded(-year, 3) else Padded(year, 4)
  }

  function Format(prefix: string, year: int, number: nat, letter: string): string {
    prefix + "-" + YearText(year) + "-" + Padded(number, 3) + letter
  }

  predicate InRange(year: int) { 0 <= year <= 9999 }

  predicate IsLetter(s: string) { s == "" || (|s| == 1 && IsLower(s[0])) }

  lemma {:induction false} NumberTextIsRead(n: nat)
    ensures AllDigits(NumberText(n)) && Value(NumberText(n)) == n
  {
    var s := NumberText(n);
    if n < 10 {
      assert s[..0] == "";
    } else {
      NumberTextIsRead(n / 10);
      assert s[..|s| - 1] == NumberText(n / 10);
    }
  }

  lemma {:induction false} ZerosAreRead(k: nat, s: string)
    requires AllDigits(s)
    ensures AllDigits(Zeros(k) + s) && Value(Zeros(k) + s) == Value(s)
    decreases k, |s|
  {
    var t := Zeros(k) + s;
    if s != "" {
      ZerosAreRead(k, s[..|s| - 1]);
      assert t[..|t| - 1] == Zeros(k) + s[..|s| - 1];
    } else if k > 0 {
      assert t == Zeros(k - 1) + "0" by {
        ZerosShift(k - 1);
      }
      ZerosAreRead(k - 1, "");
      assert t[..|t| - 1] == Zeros(k - 1) + "";
    }
  }

  lemma {:induction false} ZerosShift(n: nat)
    ensures "0" + Zeros(n) == Zeros(n) + "0"
  {
    if n > 0 {
      ZerosShift(n - 1);
      assert "0" + Zeros(n) == "0" + (Zeros(n - 1) + "0");
    }
  }

  lemma PadLeftIsRead(digits: string, width: nat)
    requires AllDigits(digits)
    ensures AllDigits(PadLeft(digits, width)) && Value(PadLeft(digits, width)) == Value(digits)
  {
    if |digits| < width {
      ZerosAreRead(width - |digits|, digits);
    }
  }

  lemma PaddedIsRead(n: nat, width: nat)
    ensures AllDigits(Padded(n, width)) && Value(Padded(n, width)) == n && |Padded(n, width)| >= width
  {
    NumberTextIsRead(n);
    PadLeftIsRead(NumberText(n), width);
  }

  lemma DigitsOfYear(year: nat)
    requires year <= 9999
    ensures |Padded(year, 4)| == 4
  {
    if year >= 1000 {
      assert |NumberText(year / 1000)| == 1;
      assert |NumberText(year / 100)| == 2 by { assert year / 100 / 10 == year / 1000; }
      assert |NumberText(year / 10)| == 3 by { assert year / 10 / 10 == year / 100; }
    } else if year >= 100 {
      assert |NumberText(year / 100)| == 1;
      assert |NumberText(year / 10)| == 2 by { assert year / 10 / 10 == year / 100; }
    }
  }

  lemma {:induction false} DashAfter(p: string, rest: string)
    requires forall i :: 0 <= i < |p| ==> p[i] != '-'
    ensures DashAt(p + "-" + rest) == |p|
  {
    var s := p + "-" + rest;
    assert s[|p|] == '-';
    assert forall i :: 0 <= i < |p| ==> s[i] == p[i];
  }

  lemma PartsOf(prefix: string, year: string, tail: string)
    requires forall i :: 0 <= i < |prefix| ==> prefix[i] != '-'
    requires forall i :: 0 <= i < |year| ==> year[i] != '-'
    ensures Parts(prefix + "-" + year + "-" + tail) == Some((prefix, year, tail))
  {
    var rest := year + "-" + tail;
    var s := prefix + "-" + rest;
    assert prefix + "-" + year + "-" + tail == s;
    DashAfter(prefix, rest);
    DashAfter(year, tail);
    assert s[..|prefix|] == prefix && s[|prefix| + 1..] == rest;
    assert rest[..|year|] == year && rest[|year| + 1..] == tail;
  }

  /** The letter, if any, is the whole of what follows the digits. */
  predicate Splits(digits: string, letter: string) {
    if letter == "" then digits == "" || !('a' <= digits[|digits| - 1] <= 'z') else |letter| == 1 && 'a' <= letter[0] <= 'z'
  }

  lemma ParseOfParts(prefix: string, year: string, digits: string, letter: string)
    requires '-' !in prefix && '-' !in year && Splits(digits, letter)
    ensures Parse(prefix + "-" + year + "-" + (digits + letter)) ==
            if CanonicalPrefix(prefix) && |year| == 4 && AllDigits(year) && |digits| >= 3 && AllDigits(digits)
            then Some(Id(prefix, Value(year), Value(digits), letter)) else None
  {
    PartsOf(prefix, year, digits + letter);
    assert LetterOf(digits + letter) == letter;
    assert (digits + letter)[..|digits|] == digits;
  }

  /** Which texts of three parts are read: two to four capitals, four digits, three or more digits, perhaps a letter. */
  lemma ReadIff(prefix: string, year: string, digits: string, letter: string)
    requires '-' !in prefix && '-' !in year && Splits(digits, letter)
    ensures Parse(prefix + "-" + year + "-" + (digits + letter)).Some? <==>
            && 2 <= |prefix| <= 4 && (forall i :: 0 <= i < |prefix| ==> 65 <= prefix[i] as int <= 90)
            && |year| == 4 && (forall i :: 0 <= i < 4 ==> 48 <= year[i] as int <= 57)
            && |digits| >= 3 && (forall i :: 0 <= i < |digits| ==> 48 <= digits[i] as int <= 57)
  {
    ParseOfParts(prefix, year, digits, letter);
  }

  /** Which texts of three parts the collector takes: one of its prefixes, four digits, letters and digits. */
  lemma CollectedIff(prefix: string, year: string, tail: string)
    requires '-' !in prefix && '-' !in year
    ensures IsTicketId(prefix + "-" + year + "-" + tail) <==>
            && (prefix in {"WP", "WT"} || (|prefix| == 3 && forall i :: 0 <= i < 3 ==> 65 <= prefix[i] as int <= 90))
            && |year| == 4 && (forall i :: 0 <= i < 4 ==> 48 <= year[i] as int <= 57)
            && tail != "" && (forall i :: 0 <= i < |tail| ==>
                var c := tail[i] as int; 48 <= c <= 57 || 65 <= c <= 90 || 97 <= c <= 122)
  {
    PartsOf(prefix, year, tail);
  }

  /** Reading a written identifier gives back what was written. */
  lemma FormatIsRead(prefix: string, year: nat, number: nat, letter: string)
    requires CanonicalPrefix(prefix) && InRange(year) && IsLetter(letter)
    ensures Parse(Format(prefix, year, number, letter)) == Some(Id(prefix, year, number, letter))
  {
    var digits := Padded(number, 3);
    PaddedIsRead(year, 4);
    PaddedIsRead(number, 3);
    DigitsOfYear(year);
    assert Format(prefix, year, number, letter) == prefix + "-" + Padded(year, 4) + "-" + (digits + letter);
    ParseOfParts(prefix, Padded(year, 4), digits, letter);
  }

  // ----- the next free identifier -----

  /** Number first, then the letter; no letter comes before every letter. */
  predicate Above(a: Id, b: Id) {
    a.number > b.number || (a.number == b.number && Rank(a.letter) > Rank(b.letter))
  }

  function Rank(letter: string): nat {
    if letter == "" then 0 else letter[0] as nat
  }

  /** s reads as an identifier of this prefix and year. */
  predicate Matches(s: string, prefix: string, year: int) {
    Parse(s).Some? && Parse(s).value.prefix == prefix && Parse(s).value.year == year
  }

  /** The existing identifiers of this prefix and year, as they read. */
  function Matching(existing: set<string>, prefix: string, year: int): set<Id> {
    set s | s in existing && Matches(s, prefix, year) :: Parse(s).value
  }

  predicate IsMax(max: Option<Id>, ids: set<Id>) {
    match max
    case None => ids == {}
    case Some(m) => m in ids && forall i :: i in ids ==> !Above(i, m)
  }

  lemma OneMoreMatching(existing: set<string>, s: string, prefix: string, year: int)
    ensures Matching(existing + {s}, prefix, year)
         == Matching(existing, prefix, year) + if Matches(s, prefix, year) then {Parse(s).value} else {}
  {
  }

  function First(prefix: string, year: int): string {
    Format(prefix, year, 1, "a")
  }

  /** The next letter; after z, or where there is no letter, the next number. */
  function Successor(m: Id): (n: Id)
    requires IsLetter(m.letter)
    ensures Above(n, m) && IsLetter(n.letter) && n.letter != "" && n.prefix == m.prefix && n.year == m.year
  {
    if m.letter == "" || m.letter == "z" then m.(number := m.number + 1, letter := "a")
    else m.(letter := [m.letter[0] + 1 as char])
  }

  lemma ParsedLetter(s: string)
    requires Parse(s).Some?
    ensures var id := Parse(s).value; IsLetter(id.letter) && CanonicalPrefix(id.prefix) && InRange(id.year)
  {
    var year := Parts(s).value.1;
    FourDigits(year);
  }

  lemma FourDigits(s: string)
    requires |s| == 4 && AllDigits(s)
    ensures Value(s) <= 9999
  {
    var s3 := s[..3];
    var s2 := s3[..2];
    var s1 := s2[..1];
    assert s1[..0] == "";
    assert Value(s1) <= 9 && Value(s2) <= 99 && Value(s3) <= 999;
  }

  /** What allocation answers, given the greatest existing identifier. */
  function NextId(prefix: string, year: int, max: Option<Id>): string
    requires max.Some? ==> IsLetter(max.value.letter)
  {
    match max
    case None => First(prefix, year)
    case Some(m) => var n := Successor(m); Format(prefix, year, n.number, n.letter)
  }

  /** r is what allocation answers over the existing identifiers. */
  ghost predicate IsNext(r: string, prefix: string, year: int, existing: set<string>) {
    exists max: Option<Id> ::
      && IsMax(max, Matching(existing, prefix, year))
      && (max.Some? ==> IsLetter(max.value.letter))
      && r == NextId(prefix, year, max)
  }

  method NextFreeTicketId(prefix: string, year: int, existing: set<string>) returns (r: string)
    ensures IsNext(r, prefix, year, existing)
  {
    var max: Option<Id> := None;
    var left := existing;
    while left != {}
      invariant left <= existing
      invariant IsMax(max, Matching(existing - left, prefix, year))
      invariant max.Some? ==> IsLetter(max.value.letter)
      decreases |left|
    {
      var s :| s in left;
      OneMoreMatching(existing - left, s, prefix, year);
      assert existing - (left - {s}) == (existing - left) + {s};
      if Matches(s, prefix, year) {
        ParsedLetter(s);
        max := Raise(max, Matching(existing - left, prefix, year), Parse(s).value);
      }
      left := left - {s};
    }
    assert existing - left == existing;
    r := NextId(prefix, year, max);
  }

  /** One more identifier: the greatest so far stays, or gives way to it. */
  method Raise(max: Option<Id>, ghost ids: set<Id>, i: Id) returns (m: Option<Id>)
    requires IsMax(max, ids)
    ensures IsMax(m, ids + {i}) && m in {max, Some(i)}
  {
    if max.None? || Above(i, max.value) {
      m := Some(i);
    } else {
      m := max;
    }
  }

  lemma NextIdIsAbove(prefix: string, year: nat, max: Option<Id>, ids: set<Id>)
    requires CanonicalPrefix(prefix) && InRange(year) && IsMax(max, ids) && (max.Some? ==> IsLetter(max.value.letter))
    ensures var r := NextId(prefix, year, max);
            && Matches(r, prefix, year) && Parse(r).value.letter != ""
            && forall i :: i in ids ==> Above(Parse(r).value, i)
  {
    match max
    case None => FormatIsRead(prefix, year, 1, "a");
    case Some(m) =>
      var n := Successor(m);
      FormatIsRead(prefix, year, n.number, n.letter);
      assert forall i :: i in ids ==> Above(n, i);
  }

  /**
   For a canonical prefix and a year of four digits the answer reads as an
   identifier above every existing one of that prefix and year; so it is new.
   */
  lemma NextIsAboveAll(r: string, prefix: string, year: int, existing: set<string>)
    requires CanonicalPrefix(prefix) && InRange(year) && IsNext(r, prefix, year, existing)
    ensures Matches(r, prefix, year) && Parse(r).value.letter != ""
    ensures forall s :: s in existing && Matches(s, prefix, year) ==> Above(Parse(r).value, Parse(s).value)
    ensures r !in existing
  {
    var ids := Matching(existing, prefix, year);
    var max: Option<Id> :| IsMax(max, ids) && (max.Some? ==> IsLetter(max.value.letter)) && r == NextId(prefix, year, max);
    NextIdIsAbove(prefix, year, max, ids);
  }

  /** No collected identifier has a prefix that the collector does not recognise. */
  lemma NotCollectedNeverMatches(prefix: string, year: int, s: string)
    requires !(CollectedPrefix(prefix) && InRange(year)) && IsTicketId(s)
    ensures !Matches(s, prefix, year)
  {
    if Parse(s).Some? {
      ParsedLetter(s);
    }
  }

  /** The dashes of a collected identifier are the two around its year. */
  lemma DashesOfTicketId(s: string, k: nat)
    requires IsTicketId(s) && k < |s| && s[k] == '-'
    ensures var (p, y, _) := Parts(s).value; k == |p| || k == |p| + 1 + |y|
  {
    var (p, y, tail) := Parts(s).value;
    assert s == p + "-" + y + "-" + tail;
  }

  lemma DigitsOfLargeYear(year: nat)
    requires year > 9999
    ensures |NumberText(year)| > 4
  {
    assert |NumberText(year / 10000)| >= 1;
    assert |NumberText(year / 1000)| >= 2 by { assert year / 1000 / 10 == year / 10000; }
    assert |NumberText(year / 100)| >= 3 by { assert year / 100 / 10 == year / 1000; }
    assert |NumberText(year / 10)| >= 4 by { assert year / 10 / 10 == year / 100; }
  }

  lemma FirstHasShape(prefix: string, year: int)
    ensures First(prefix, year) == prefix + "-" + YearText(year) + "-" + "001a"
  {
    assert NumberText(1) == "1" && Zeros(2) == "00" && Padded(1, 3) == "001";
    assert prefix + "-" + YearText(year) + "-" + "001" + "a" == prefix + "-" + YearText(year) + "-" + "001a";
  }

  lemma PartsOfFirst(prefix: string, year: int)
    requires IsTicketId(First(prefix, year))
    ensures var (p, y, _) := Parts(First(prefix, year)).value; p == prefix && y == YearText(year)
  {
    var s := First(prefix, year);
    var k := |prefix| + 1 + |YearText(year)|;
    FirstHasShape(prefix, year);
    assert s[|prefix|] == '-' && s[k] == '-';
    DashesOfTicketId(s, |prefix|);
    DashesOfTicketId(s, k);
  }

  lemma SignIsNoDigit(year: int)
    ensures year < 0 ==> !AllDigits(YearText(year))
  {
    if year < 0 {
      assert YearText(year)[0] == '-';
    }
  }

  lemma FourDigitYear(year: int)
    requires |YearText(year)| == 4 && AllDigits(YearText(year))
    ensures InRange(year)
  {
    SignIsNoDigit(year);
    if year > 9999 {
      DigitsOfLargeYear(year);
    }
  }

  /** For any other prefix or year the collector does not recognise the first identifier. */
  lemma FirstIsNotCollected(prefix: string, year: int)
    requires IsTicketId(First(prefix, year))
    ensures CollectedPrefix(prefix) && InRange(year)
  {
    PartsOfFirst(prefix, year);
    FourDigitYear(year);
  }

  /** Whatever the prefix and the year, the answer is none of the identifiers the collector found. */
  lemma NextIsFree(r: string, prefix: string, year: int, existing: set<string>)
    requires forall s :: s in existing ==> IsTicketId(s)
    requires IsNext(r, prefix, year, existing)
    ensures r !in existing
  {
    if CollectedPrefix(prefix) && InRange(year) {
      NextIsAboveAll(r, prefix, year, existing);
    } else {
      forall s | s in existing ensures !Matches(s, prefix, year) {
        NotCollectedNeverMatches(prefix, year, s);
      }
      assert r == First(prefix, year);
      if r in existing {
        FirstIsNotCollected(prefix, year);
        assert false;
      }
    }
  }

  lemma TailIsAlnum(tail: string, letter: string)
    requires letter == LetterOf(tail) && AllDigits(tail[..|tail| - |letter|])
    ensures AllAlnum(tail)
  {
    forall i | 0 <= i < |tail| ensures IsAlnum(tail[i]) {
      if i < |tail| - |letter| {
        assert tail[i] == tail[..|tail| - |letter|][i];
      }
    }
  }

  lemma CollectsWhatParses(s: string)
    requires Parse(s).Some? && CollectedPrefix(Parse(s).value.prefix)
    ensures IsTicketId(s)
  {
    var tail := Parts(s).value.2;
    TailIsAlnum(tail, LetterOf(tail));
  }

  /** An answer for a collected prefix is recognised by the collector. */
  lemma NextIsCollected(r: string, prefix: string, year: int, existing: set<string>)
    requires CollectedPrefix(prefix) && InRange(year) && IsNext(r, prefix, year, existing)
    ensures IsTicketId(r)
  {
    NextIsAboveAll(r, prefix, year, existing);
    CollectsWhatParses(r);
  }

  /** Among the identifiers with a letter none lies between one with a letter and its successor. */
  lemma NothingBetween(m: Id, i: Id)
    requires IsLetter(m.letter) && IsLetter(i.letter) && i.letter != "" && Above(i, m)
    requires m.letter == "" ==> i.number > m.number
    ensures Above(i, Successor(m)) || (i.number == Successor(m).number && i.letter == Successor(m).letter)
  {
    assert |i.letter| == 1 && 'a' <= i.letter[0] <= 'z';
  }
}
