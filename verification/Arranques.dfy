/** The markdown index of the archive: which file names its rows declare. */
module ArchiveIndex {
  import opened Texts
  import opened TicketStates

  const HEADING := RowOf("Archivo", " Fecha | SHA256 | Motivo |")

  const RULE := "|" + "---" + "|" + "---|---|---|"

  /** The table head; the prose above it has no table row and is left out. */
  const HEADER: seq<string> := [HEADING, RULE]

  /** A table row: its first cell, and the text from the second cell on. */
  function RowOf(name: string, rest: string): string {
    "|" + (" " + name + " ") + "|" + rest
  }

  // ----- cells of a table row -----

  function PipeAt(s: string): nat {
    IndexOf(s, '|', 0)
  }

  function DropPipes(s: string): string {
    if s != "" && s[0] == '|' then DropPipes(s[1..]) else s
  }

  function DropLastPipes(s: string): string {
    if s != "" && s[|s| - 1] == '|' then DropLastPipes(s[..|s| - 1]) else s
  }

  function Split(s: string): seq<string>
    decreases |s|
  {
    var i := PipeAt(s);
    if i == |s| then [s] else [s[..i]] + Split(s[i + 1..])
  }

  /** The first cell of a line that is a table row. */
  function FirstCell(line: string): Option<string> {
    var row := Strip(line);
    if row == "" || row[0] != '|' then None
    else
      var cells := DropPipes(row);
      Some(Strip(cells[..PipeAt(cells)]))
  }

  predicate IsRule(cell: string) {
    forall c :: c in cell ==> c in {'-', ':', ' '}
  }

  predicate NamesNothing(cell: string) {
    cell == "" || Lower(cell) == "archivo" || IsRule(cell)
  }

  /** The file name a line declares: its first cell, unless that is the heading or the rule. */
  function NameIn(line: string): Option<string> {
    match FirstCell(line)
    case None => None
    case Some(cell) => if NamesNothing(cell) then None else Some(cell)
  }

  predicate Digits(s: string) {
    forall i :: 0 <= i < |s| ==> '0' <= s[i] <= '9'
  }

  predicate IsPurgeMotive(cell: string) {
    && |cell| >= 20
    && cell[..8] == "PURGADO "
    && Digits(cell[8..12]) && cell[12] == '-'
    && Digits(cell[13..15]) && cell[15] == '-'
    && Digits(cell[16..18]) && cell[18..20] == ": "
  }

  /** The name in a row whose fourth and last cell says the file was purged. */
  function PurgedIn(line: string): Option<string> {
    var cells := Split(DropLastPipes(DropPipes(Strip(line))));
    if NameIn(line).Some? && |cells| == 4 && IsPurgeMotive(Strip(cells[3])) then NameIn(line) else None
  }

  function NamesOf(lines: seq<string>): set<string> {
    set line | line in lines && NameIn(line).Some? :: NameIn(line).value
  }

  function PurgedOf(lines: seq<string>): set<string> {
    set line | line in lines && PurgedIn(line).Some? :: PurgedIn(line).value
  }

  // ----- a row is read back -----

  /** The names that survive being written to a row and read again. */
  predicate IsPlain(name: string) {
    '|' !in name && Strip(name) == name && !NamesNothing(name)
  }

  lemma {:induction false} StripLeftTail(s: string)
    ensures exists k: nat :: k <= |s| && StripLeft(s) == s[k..]
  {
    if s != "" && IsSpace(s[0]) {
      StripLeftTail(s[1..]);
      var k: nat :| k <= |s[1..]| && StripLeft(s[1..]) == s[1..][k..];
      assert s[1..][k..] == s[k + 1..];
    } else {
      assert StripLeft(s) == s[0..];
    }
  }

  lemma StripIsStripped(s: string)
    ensures Strip(Strip(s)) == Strip(s)
    ensures forall c :: c in Strip(s) ==> c in s
  {
    var left := StripLeft(s);
    StripLeftTail(s);
    assert StripLeft(Strip(s)) == Strip(s) by {
      if Strip(s) != "" {
        assert Strip(s)[0] == left[0];
      }
    }
    forall c | c in Strip(s) ensures c in s {
      assert c in left;
    }
  }

  lemma {:induction false} StripRightKeeps(s: string, spaces: string)
    requires s == "" || !IsSpace(s[|s| - 1])
    requires forall c :: c in spaces ==> IsSpace(c)
    ensures StripRight(s + spaces) == s
    decreases |spaces|
  {
    if spaces == "" {
      assert s + spaces == s;
    } else {
      var t := s + spaces;
      assert t[|t| - 1] == spaces[|spaces| - 1];
      assert t[..|t| - 1] == s + spaces[..|spaces| - 1];
      StripRightKeeps(s, spaces[..|spaces| - 1]);
    }
  }

  /** Every name that is declared at all is plain. */
  lemma DeclaredIsPlain(line: string)
    ensures NameIn(line).Some? ==> IsPlain(NameIn(line).value)
  {
    if FirstCell(line).Some? {
      var cells := DropPipes(Strip(line));
      StripIsStripped(cells[..PipeAt(cells)]);
    }
  }

  lemma StrippedEnds(s: string)
    requires s != "" && Strip(s) == s
    ensures !IsSpace(s[0]) && !IsSpace(s[|s| - 1])
  {
  }

  lemma PaddedIsStripped(name: string)
    requires name != "" && !IsSpace(name[0]) && !IsSpace(name[|name| - 1])
    ensures Strip(" " + name + " ") == name
  {
    var cell := " " + name + " ";
    assert cell[1..] == name + " ";
    assert StripLeft(cell) == StripLeft(name + " ") == name + " ";
    StripRightKeeps(name, " ");
  }

  lemma {:induction false} PipeAfter(cell: string, rest: string)
    requires '|' !in cell
    ensures PipeAt(cell + "|" + rest) == |cell|
  {
    var s := cell + "|" + rest;
    assert s[|cell|] == '|';
    forall k | 0 <= k < |cell| ensures s[k] != '|' {
      assert s[k] == cell[k];
      assert cell[k] in cell;
    }
  }

  lemma FirstOfRow(cell: string, rest: string)
    requires '|' !in cell && cell != "" && rest != "" && rest[|rest| - 1] == '|'
    ensures FirstCell("|" + cell + "|" + rest) == Some(Strip(cell))
  {
    var row, cells := "|" + cell + "|" + rest, cell + "|" + rest;
    assert row == "|" + cells && row[|row| - 1] == '|';
    assert Strip(row) == row;
    assert row[1..] == cells;
    assert cells[0] == cell[0] && cell[0] in cell;
    assert DropPipes(row) == DropPipes(cells) == cells;
    PipeAfter(cell, rest);
    assert cells[..|cell|] == cell;
  }

  /** Writing a row for a name and reading it back gives the name exactly when the name is plain. */
  lemma RowIsReadBackIff(name: string, rest: string)
    requires rest != "" && rest[|rest| - 1] == '|'
    ensures NameIn(RowOf(name, rest)) == Some(name) <==> IsPlain(name)
  {
    DeclaredIsPlain(RowOf(name, rest));
    if IsPlain(name) {
      StrippedEnds(name);
      PaddedIsStripped(name);
      FirstOfRow(" " + name + " ", rest);
    }
  }

  lemma HeadingDeclaresNothing()
    ensures NameIn(HEADING).None?
  {
    PaddedIsStripped("Archivo");
    FirstOfRow(" " + "Archivo" + " ", " Fecha | SHA256 | Motivo |");
    assert Lower("Archivo") == "archivo";
  }

  lemma RuleDeclaresNothing()
    ensures NameIn(RULE).None?
  {
    FirstOfRow("---", "---|---|---|");
    assert Strip("---") == "---";
  }

  /** The text an index starts with declares no file. */
  lemma HeaderDeclaresNothing()
    ensures NamesOf(HEADER) == {}
  {
    HeadingDeclaresNothing();
    RuleDeclaresNothing();
  }
}

/** Moving uncited start-up files to the archive, all or nothing. */
module Arranques {
  import opened Texts
  import opened TicketStates
  import opened ArchiveIndex

  datatype File = File(content: string, mtime: int)

  /** The directory: files in its root, files in its archive, and the lines of the archive's index. */
  datatype Tree = Tree(root: map<string, File>, archived: map<string, File>, index: Option<seq<string>>)

  /**
   What one run sees: the root listing, the text of the citing surfaces, the
   names with uncommitted changes if they were asked for, and the clock.
   */
  datatype Input = Input(
    listing: seq<string>, blob: string, dirty: Option<set<string>>,
    now: int, minAge: int, dryRun: bool)

  // ----- classification -----

  /** The name a citation uses: without the extension of a markdown file. */
  function Stem(name: string): string {
    if |name| > 3 && EndsWith(name, ".md") then name[..|name| - 3] else name
  }

  predicate IsCited(name: string, run: Input) {
    Contains(run.blob, Stem(name))
  }

  /** Uncommitted or recent work, or work nobody checked. */
  predicate IsActive(name: string, file: File, run: Input) {
    run.dirty.None? || name in run.dirty.value || run.now - file.mtime < run.minAge
  }

  predicate IsArchivable(name: string, file: File, run: Input) {
    !IsCited(name, run) && !IsActive(name, file, run)
  }

  /**
   A file may move exactly if the uncommitted names were asked for and it is none
   of them, it is old enough, and no surface has its name, without the ending of a
   markdown file.
   */
  lemma MayMoveIff(name: string, key: string, file: File, run: Input)
    requires if EndsWith(name, ".md") && |name| > 3 then name == key + ".md" else key == name
    ensures IsArchivable(name, file, run) <==>
            && run.dirty.Some? && name !in run.dirty.value
            && run.now - file.mtime >= run.minAge
            && !Occurs(run.blob, key)
  {
    assert Stem(name) == key;
    ContainsIffOccurs(run.blob, key);
  }

  ghost predicate Once(s: seq<string>) {
    forall i, j :: 0 <= i < j < |s| ==> s[i] != s[j]
  }

  /** The listing names the root files once each, but for the two files that never move. */
  ghost predicate Lists(listing: seq<string>, root: map<string, File>) {
    && (forall n :: n in listing <==> n in root && n != "README.md" && n != "INDEX.md")
    && Once(listing)
  }

  datatype Class = Cited | Skipped | Free

  function ClassOf(name: string, file: File, run: Input): Class {
    if IsCited(name, run) then Cited else if IsActive(name, file, run) then Skipped else Free
  }

  /** The listed files of a class, in the order of the listing. */
  function OfClass(listing: seq<string>, root: map<string, File>, run: Input, class': Class): seq<string>
    requires forall n :: n in listing ==> n in root
  {
    if listing == [] then []
    else
      var n, before := listing[|listing| - 1], OfClass(listing[..|listing| - 1], root, run, class');
      if ClassOf(n, root[n], run) == class' then before + [n] else before
  }

  function Archivable(listing: seq<string>, root: map<string, File>, run: Input): seq<string>
    requires forall n :: n in listing ==> n in root
  {
    OfClass(listing, root, run, Free)
  }

  lemma {:induction false} OfClassAreThose(listing: seq<string>, root: map<string, File>, run: Input, class': Class)
    requires forall n :: n in listing ==> n in root
    ensures forall n :: n in OfClass(listing, root, run, class') <==> n in listing && ClassOf(n, root[n], run) == class'
  {
    if listing != [] {
      OfClassAreThose(listing[..|listing| - 1], root, run, class');
      assert listing == listing[..|listing| - 1] + [listing[|listing| - 1]];
    }
  }

  lemma ArchivableAreThose(listing: seq<string>, root: map<string, File>, run: Input)
    requires forall n :: n in listing ==> n in root
    ensures forall n :: n in Archivable(listing, root, run) <==> n in listing && IsArchivable(n, root[n], run)
  {
    OfClassAreThose(listing, root, run, Free);
  }

  method Classify(run: Input, root: map<string, File>)
    returns (cited: seq<string>, skipped: seq<string>, archivable: seq<string>)
    requires forall n :: n in run.listing ==> n in root
    ensures cited == OfClass(run.listing, root, run, Cited)
    ensures skipped == OfClass(run.listing, root, run, Skipped)
    ensures archivable == OfClass(run.listing, root, run, Free)
  {
    cited, skipped, archivable := [], [], [];
    for i := 0 to |run.listing|
      invariant cited == OfClass(run.listing[..i], root, run, Cited)
      invariant skipped == OfClass(run.listing[..i], root, run, Skipped)
      invariant archivable == OfClass(run.listing[..i], root, run, Free)
    {
      var n := run.listing[i];
      assert run.listing[..i + 1][..i] == run.listing[..i];
      if IsCited(n, run) {
        cited := cited + [n];
      } else if IsActive(n, root[n], run) {
        skipped := skipped + [n];
      } else {
        archivable := archivable + [n];
      }
    }
    assert run.listing[..|run.listing|] == run.listing;
  }

  // ----- one run -----

  /** Every archived file has a row, and every row a file or a purge note. */
  predicate IsConsistent(t: Tree) {
    var lines := if t.index.Some? then t.index.value else [];
    t.archived.Keys <= NamesOf(lines) && NamesOf(lines) <= t.archived.Keys + PurgedOf(lines)
  }

  datatype Result = Moved(names: seq<string>) | Collision | Inconsistent

  /**
   The rows of the moved files. cells gives, for a content, the text of a row
   from the second cell on: the date, the SHA-256 of the content, the reason.
   */
  function Rows(names: seq<string>, root: map<string, File>, cells: string -> string): seq<string>
    requires forall n :: n in names ==> n in root
  {
    if names == [] then []
    else
      var n := names[|names| - 1];
      Rows(names[..|names| - 1], root, cells) + [RowOf(n, cells(root[n].content))]
  }

  function LinesOf(index: Option<seq<string>>): seq<string> {
    if index.Some? then index.value else HEADER
  }

  function SetOf(names: seq<string>): set<string> {
    set n | n in names
  }

  function Left(root: map<string, File>, names: seq<string>): map<string, File> {
    root - SetOf(names)
  }

  function Joined(archived: map<string, File>, root: map<string, File>, names: seq<string>): map<string, File>
    requires forall n :: n in names ==> n in root
  {
    archived + (map n | n in names :: root[n])
  }

  lemma NextRow(names: seq<string>, i: nat, root: map<string, File>, cells: string -> string)
    requires i < |names| && forall n :: n in names ==> n in root
    ensures Rows(names[..i + 1], root, cells)
         == Rows(names[..i], root, cells) + [RowOf(names[i], cells(root[names[i]].content))]
  {
    assert names[..i + 1][..i] == names[..i];
  }

  lemma NextSet(names: seq<string>, i: nat)
    requires i < |names| && Once(names)
    ensures SetOf(names[..i + 1]) == SetOf(names[..i]) + {names[i]}
    ensures names[i] !in names[..i]
  {
    assert names[..i + 1] == names[..i] + [names[i]];
  }

  lemma NextMove(t: Tree, names: seq<string>, i: nat)
    requires i < |names| && Once(names) && forall n :: n in names ==> n in t.root
    ensures names[i] in Left(t.root, names[..i])
    ensures Left(t.root, names[..i + 1]) == Left(t.root, names[..i]) - {names[i]}
  {
    NextSet(names, i);
  }

  lemma NextJoined(t: Tree, names: seq<string>, i: nat)
    requires i < |names| && Once(names) && forall n :: n in names ==> n in t.root
    ensures Joined(t.archived, t.root, names[..i + 1]) == Joined(t.archived, t.root, names[..i])[names[i] := t.root[names[i]]]
  {
    NextSet(names, i);
    assert forall n :: n in names[..i + 1] <==> n in names[..i] || n == names[i];
  }

  lemma {:induction false} ArchivableOnce(listing: seq<string>, root: map<string, File>, run: Input)
    requires forall n :: n in listing ==> n in root
    requires Once(listing)
    ensures Once(Archivable(listing, root, run))
  {
    if listing != [] {
      var last := |listing| - 1;
      var before := Archivable(listing[..last], root, run);
      ArchivableOnce(listing[..last], root, run);
      ArchivableAreThose(listing[..last], root, run);
      forall i | 0 <= i < |before| ensures before[i] != listing[last] {
        assert before[i] in listing[..last];
        var k :| 0 <= k < last && listing[k] == before[i];
      }
    }
  }

  /** The directory after names have been moved and their rows added. */
  function After(t: Tree, names: seq<string>, cells: string -> string): Tree
    requires forall n :: n in names ==> n in t.root
  {
    Tree(
      Left(t.root, names),
      Joined(t.archived, t.root, names),
      Some(LinesOf(t.index) + Rows(names, t.root, cells)))
  }

  /** What a run leaves behind and answers. */
  function Archived(t: Tree, run: Input, cells: string -> string): (Tree, Result)
    requires forall n :: n in run.listing ==> n in t.root
  {
    var names := Archivable(run.listing, t.root, run);
    ArchivableAreThose(run.listing, t.root, run);
    if run.dryRun || names == [] then (t, Moved([]))
    else if exists n | n in names :: n in t.archived then (t, Collision)
    else
      var after := After(t, names, cells);
      (after, if IsConsistent(after) then Moved(names) else Inconsistent)
  }

  class ArranquesDir {
    var root: map<string, File>
    var archived: map<string, File>
    var index: Option<seq<string>>

    function Contents(): Tree
      reads this
    {
      Tree(root, archived, index)
    }

    /** Nothing moves before every destination is known to be free. */
    method Archive(run: Input, cells: string -> string) returns (result: Result)
      requires Lists(run.listing, root)
      modifies this
      ensures (Contents(), result) == old(Archived(Contents(), run, cells))
    {
      ArchivableAreThose(run.listing, root, run);
      ArchivableOnce(run.listing, root, run);
      var cited, skipped, archivable := Classify(run, root);
      if run.dryRun || archivable == [] {
        return Moved([]);
      }
      var collides := Collides(archivable);
      if collides {
        return Collision;
      }
      var rows := Move(archivable, cells);
      index := Some(LinesOf(index) + rows);
      result := if IsConsistent(Contents()) then Moved(archivable) else Inconsistent;
    }

    method Collides(names: seq<string>) returns (collides: bool)
      ensures collides <==> exists n :: n in names && n in archived
    {
      var collisions := [];
      for i := 0 to |names|
        invariant collisions == [] <==> forall n :: n in names[..i] ==> n !in archived
      {
        assert names[..i + 1] == names[..i] + [names[i]];
        if names[i] in archived {
          collisions := collisions + [names[i]];
        }
      }
      assert names[..|names|] == names;
      collides := collisions != [];
    }

    method Move(names: seq<string>, cells: string -> string) returns (rows: seq<string>)
      requires forall n :: n in names ==> n in root
      requires Once(names)
      modifies this`root, this`archived
      ensures root == Left(old(root), names)
      ensures archived == Joined(old(archived), old(root), names)
      ensures rows == Rows(names, old(root), cells)
    {
      rows := [];
      ghost var t := Contents();
      var i: nat := 0;
      while i < |names|
        invariant i <= |names|
        invariant root == Left(t.root, names[..i])
        invariant archived == Joined(t.archived, t.root, names[..i])
        invariant rows == Rows(names[..i], t.root, cells)
      {
        var n := names[i];
        NextMove(t, names, i);
        NextJoined(t, names, i);
        NextRow(names, i, t.root, cells);
        rows := rows + [RowOf(n, cells(root[n].content))];
        archived := archived[n := root[n]];
        root := root - {n};
        i := i + 1;
      }
      assert names[..|names|] == names;
    }
  }
}
