/** Lines of text, numbers as text, and cutting a block at a line boundary. */
module Texts {

  function Join(lines: seq<string>): string {
    if lines == [] then ""
    else if |lines| == 1 then lines[0]
    else lines[0] + "\n" + Join(lines[1..])
  }

  /** Characters of the lines, each with its line end. */
  function Cost(lines: seq<string>): nat {
    if lines == [] then 0 else |lines[0]| + 1 + Cost(lines[1..])
  }

  lemma {:induction false} JoinLength(lines: seq<string>)
    requires lines != []
    ensures |Join(lines)| + 1 == Cost(lines)
  {
    if |lines| > 1 {
      JoinLength(lines[1..]);
    } else {
      assert lines[1..] == [];
    }
  }

  lemma {:induction false} CostConcat(a: seq<string>, b: seq<string>)
    ensures Cost(a + b) == Cost(a) + Cost(b)
  {
    if a == [] {
      assert a + b == b;
    } else {
      assert (a + b)[1..] == a[1..] + b;
      CostConcat(a[1..], b);
    }
  }

  predicate EndsWith(text: string, suffix: string) {
    |suffix| <= |text| && text[|text| - |suffix|..] == suffix
  }

  lemma {:induction false} JoinEnds(lines: seq<string>)
    requires lines != []
    ensures lines[0] <= Join(lines)
    ensures EndsWith(Join(lines), lines[|lines| - 1])
  {
    if |lines| > 1 {
      JoinEnds(lines[1..]);
      var head, rest := lines[0] + "\n", Join(lines[1..]);
      assert Join(lines) == head + rest;
      var last := lines[|lines| - 1];
      assert (head + rest)[|head| + |rest| - |last|..] == rest[|rest| - |last|..];
    }
  }

  /** A text made of four runs of lines. */
  function Assemble(a: seq<string>, b: seq<string>, c: seq<string>, d: seq<string>): (text: string)
    requires a != [] && d != []
    ensures |text| + 1 == Cost(a) + Cost(b) + Cost(c) + Cost(d)
    ensures a[0] <= text && EndsWith(text, d[|d| - 1])
  {
    CostConcat(a, b);
    CostConcat(a + b, c);
    CostConcat(a + b + c, d);
    JoinLength(a + b + c + d);
    JoinEnds(a + b + c + d);
    Join(a + b + c + d)
  }

  // ----- numbers -----

  function NumberText(n: nat): (s: string)
    ensures |s| > 0
  {
    if n < 10 then ["0123456789"[n]] else NumberText(n / 10) + ["0123456789"[n % 10]]
  }

  /** One more can need one more digit, never two, and never fewer. */
  lemma {:induction false} NextNumberText(n: nat)
    ensures |NumberText(n)| <= |NumberText(n + 1)| <= |NumberText(n)| + 1
  {
    if n >= 10 {
      NextNumberText(n / 10);
      assert (n + 1) / 10 == n / 10 || (n + 1) / 10 == n / 10 + 1;
    }
  }

  // ----- lines of a text -----

  /** Where c is first met from a position on; the length if it is not. */
  function IndexOf(s: string, c: char, from: nat): (i: nat)
    requires from <= |s|
    ensures from <= i <= |s| && (i < |s| ==> s[i] == c)
    ensures forall k :: from <= k < i ==> s[k] != c
    decreases |s| - from
  {
    if from == |s| || s[from] == c then from else IndexOf(s, c, from + 1)
  }

  /** The lines of a text, without their ends. */
  function SplitLines(text: string): (lines: seq<string>)
    ensures lines == [] <==> text == ""
  {
    if text == "" then []
    else
      var rest := SplitLines(text[1..]);
      if text[0] == '\n' then [""] + rest
      else if rest == [] then [text]
      else [[text[0]] + rest[0]] + rest[1..]
  }

  function FinalLineEnd(text: string): string {
    if text != "" && text[|text| - 1] == '\n' then "\n" else ""
  }

  lemma LongerFirstLine(c: char, lines: seq<string>)
    requires lines != []
    ensures Join([[c] + lines[0]] + lines[1..]) == [c] + Join(lines)
  {
    var longer := [[c] + lines[0]] + lines[1..];
    assert longer[1..] == lines[1..];
    if |lines| > 1 {
      assert [c] + lines[0] + "\n" + Join(lines[1..]) == [c] + (lines[0] + "\n" + Join(lines[1..]));
    }
  }

  lemma EmptyFirstLine(lines: seq<string>)
    requires lines != []
    ensures Join([""] + lines) == "\n" + Join(lines)
  {
    assert ([""] + lines)[1..] == lines;
  }

  /** The lines, joined again, are the text; only a final line end has to be put back. */
  lemma {:induction false} SplitJoins(text: string)
    ensures Join(SplitLines(text)) + FinalLineEnd(text) == text
  {
    if |text| > 1 {
      var c, rest := text[0], text[1..];
      SplitJoins(rest);
      assert FinalLineEnd(text) == FinalLineEnd(rest);
      if c == '\n' {
        EmptyFirstLine(SplitLines(rest));
      } else {
        LongerFirstLine(c, SplitLines(rest));
      }
      assert Join(SplitLines(text)) == [c] + Join(SplitLines(rest));
      assert text == [c] + rest;
    } else if |text| == 1 {
      assert text[1..] == "";
    }
  }

  // ----- surrounding space -----

  predicate IsSpace(c: char) {
    c in {' ', '\t', '\n', '\r'}
  }

  function StripLeft(text: string): (r: string)
    ensures |r| <= |text| && (r == "" || !IsSpace(r[0]))
  {
    if text != "" && IsSpace(text[0]) then StripLeft(text[1..]) else text
  }

  function StripRight(text: string): (r: string)
    ensures r <= text && (r == "" || !IsSpace(r[|r| - 1]))
  {
    if text != "" && IsSpace(text[|text| - 1]) then StripRight(text[..|text| - 1]) else text
  }

  function Strip(text: string): string {
    StripRight(StripLeft(text))
  }

  predicate Blank(s: string) {
    forall i :: 0 <= i < |s| ==> IsSpace(s[i])
  }

  lemma {:induction false} StripLeftPadded(before: string, core: string)
    requires Blank(before) && core != "" && !IsSpace(core[0])
    ensures StripLeft(before + core) == core
  {
    if before == "" {
      assert before + core == core;
    } else {
      assert (before + core)[1..] == before[1..] + core;
      StripLeftPadded(before[1..], core);
    }
  }

  lemma {:induction false} StripRightPadded(core: string, after: string)
    requires Blank(after) && core != "" && !IsSpace(core[|core| - 1])
    ensures StripRight(core + after) == core
  {
    if after == "" {
      assert core + after == core;
    } else {
      var text, last := core + after, |after| - 1;
      assert text[..|text| - 1] == core + after[..last] && text[|text| - 1] == after[last];
      StripRightPadded(core, after[..last]);
    }
  }

  /** Space around a text is taken away, and nothing else. */
  lemma StripPadded(before: string, core: string, after: string)
    requires Blank(before) && Blank(after) && core != "" && !IsSpace(core[0]) && !IsSpace(core[|core| - 1])
    ensures Strip(before + core + after) == core
  {
    assert before + core + after == before + (core + after);
    StripLeftPadded(before, core + after);
    StripRightPadded(core, after);
  }

  /** Bytes of a text in UTF-8. */
  function Utf8Length(s: string): nat {
    if s == "" then 0
    else
      var c := s[|s| - 1] as int;
      Utf8Length(s[..|s| - 1]) + (if c < 0x80 then 1 else if c < 0x800 then 2 else if c < 0x10000 then 3 else 4)
  }

  ghost function FromCode(s: string, code: int): set<int> {
    set i | 0 <= i < |s| && s[i] as int >= code
  }

  lemma OneMoreFrom(s: string, code: int)
    requires s != ""
    ensures |FromCode(s, code)| == |FromCode(s[..|s| - 1], code)| + if s[|s| - 1] as int >= code then 1 else 0
  {
    var last := |s| - 1;
    assert FromCode(s, code) == FromCode(s[..last], code) + if s[last] as int >= code then {last} else {};
  }

  /** A byte for each character, and one more from 128, from 2048 and from 65536 on. */
  lemma {:induction false} BytesAreCounted(s: string)
    ensures Utf8Length(s) == |s| + |FromCode(s, 128)| + |FromCode(s, 2048)| + |FromCode(s, 65536)|
  {
    if s != "" {
      BytesAreCounted(s[..|s| - 1]);
      OneMoreFrom(s, 128);
      OneMoreFrom(s, 2048);
      OneMoreFrom(s, 65536);
    }
  }

  // ----- occurrences -----

  predicate Contains(s: string, part: string) {
    part <= s || (s != "" && Contains(s[1..], part))
  }

  /** The part stands somewhere in s. */
  ghost predicate Occurs(s: string, part: string) {
    exists i: nat :: OccursAt(s, part, i)
  }

  predicate OccursAt(s: string, part: string, i: nat) {
    i + |part| <= |s| && s[i..i + |part|] == part
  }

  lemma OccursLater(s: string, part: string, i: nat)
    requires s != ""
    ensures OccursAt(s[1..], part, i) <==> OccursAt(s, part, i + 1)
  {
    if i + 1 + |part| <= |s| {
      assert s[1..][i..i + |part|] == s[i + 1..i + 1 + |part|];
    }
  }

  lemma {:induction false} ContainsIffOccurs(s: string, part: string)
    ensures Contains(s, part) <==> Occurs(s, part)
  {
    if part <= s {
      assert OccursAt(s, part, 0);
    } else if s == "" {
      assert !OccursAt(s, part, 0);
    } else {
      ContainsIffOccurs(s[1..], part);
      if i: nat :| OccursAt(s[1..], part, i) {
        OccursLater(s, part, i);
      }
      if i: nat :| OccursAt(s, part, i) {
        assert i > 0;
        OccursLater(s, part, i - 1);
      }
    }
  }

  // ----- cutting -----

  function ClipNote(title: string, limit: nat): string {
    "[" + title + " recortado a " + NumberText(limit) + " chars: ver --full]"
  }

  /** The lines of text that leave room for the note. */
  predicate KeepsLines(lines: seq<string>, k: nat, limit: nat) {
    && k <= |lines|
    && (k == 0 || Cost(lines[..k]) <= limit - 60)
    && (k < |lines| ==> Cost(lines[..k]) + |lines[k]| + 1 > limit - 60)
  }

  /** A text over the limit keeps as many whole lines as leave 60 characters for a note that says so. */
  ghost predicate IsClipped(text: string, limit: nat, title: string, r: string) {
    if |text| <= limit then r == text
    else exists k: nat :: KeepsLines(SplitLines(text), k, limit)
                          && r == Join(SplitLines(text)[..k] + [ClipNote(title, limit)])
  }

  method ClipBlock(text: string, limit: nat, title: string) returns (r: string)
    ensures IsClipped(text, limit, title, r)
    ensures |ClipNote(title, limit)| <= 60 <= limit ==> |r| <= limit
  {
    if |text| <= limit {
      return text;
    }
    var lines := SplitLines(text);
    var kept, used: nat, i: nat := [], 0, 0;
    while i < |lines|
      invariant i <= |lines| && kept == lines[..i]
      invariant used == Cost(kept)
      invariant i == 0 || used <= limit - 60
    {
      if used + |lines[i]| + 1 > limit - 60 {
        break;
      }
      CostConcat(kept, [lines[i]]);
      assert lines[..i + 1] == lines[..i] + [lines[i]];
      kept, used := kept + [lines[i]], used + |lines[i]| + 1;
      i := i + 1;
    }
    ClippedLength(kept, ClipNote(title, limit));
    r := Join(kept + [ClipNote(title, limit)]);
    assert KeepsLines(lines, i, limit);
  }

  lemma ClippedLength(kept: seq<string>, note: string)
    ensures |Join(kept + [note])| == Cost(kept) + |note|
  {
    CostConcat(kept, [note]);
    JoinLength(kept + [note]);
    assert Cost([note]) == |note| + 1;
  }

  /** The two notes in use fit in the room left for them. */
  lemma ClipNotesAreShort()
    ensures |ClipNote("Tier local", 800)| <= 60
    ensures |ClipNote("Refutadas", 400)| <= 60
  {
    assert NumberText(8) == "8" && NumberText(80) == "80";
    assert NumberText(4) == "4" && NumberText(40) == "40";
  }
}
