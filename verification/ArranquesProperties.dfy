/** What any sequence of archiving runs keeps. */
module ArranquesProperties {
  import opened Texts
  import opened TicketStates
  import opened ArchiveIndex
  import opened Arranques

  ghost predicate CellsAreRows(cells: string -> string) {
    forall content :: cells(content) != "" && cells(content)[|cells(content)| - 1] == '|'
  }

  /** Number of places that hold this file under this name. */
  function Copies(t: Tree, name: string, file: File): nat {
    (if name in t.root && t.root[name] == file then 1 else 0)
    + (if name in t.archived && t.archived[name] == file then 1 else 0)
  }

  // ----- the index -----

  /** What one row declares: the name if it is plain. */
  lemma RowDeclares(name: string, rest: string)
    requires rest != "" && rest[|rest| - 1] == '|'
    ensures IsPlain(name) <==> name in NamesOf([RowOf(name, rest)])
    ensures IsPlain(name) ==> NamesOf([RowOf(name, rest)]) == {name}
  {
    RowIsReadBackIff(name, rest);
    assert RowOf(name, rest) in [RowOf(name, rest)];
  }

  lemma SetOfMore(names: seq<string>, last: string)
    ensures SetOf(names + [last]) == SetOf(names) + {last}
  {
  }

  lemma {:induction false} RowsDeclare(names: seq<string>, root: map<string, File>, cells: string -> string)
    requires CellsAreRows(cells) && forall n :: n in names ==> n in root && IsPlain(n)
    ensures NamesOf(Rows(names, root, cells)) == SetOf(names)
  {
    if names != [] {
      var last := names[|names| - 1];
      var before := names[..|names| - 1];
      RowsDeclare(before, root, cells);
      OneMoreRow(before, last, root, cells);
      assert names == before + [last];
    }
  }

  lemma OneMoreRow(before: seq<string>, last: string, root: map<string, File>, cells: string -> string)
    requires CellsAreRows(cells) && IsPlain(last) && forall n :: n in before + [last] ==> n in root
    requires NamesOf(Rows(before, root, cells)) == SetOf(before)
    ensures NamesOf(Rows(before + [last], root, cells)) == SetOf(before + [last])
  {
    var row := RowOf(last, cells(root[last].content));
    assert (before + [last])[..|before|] == before;
    RowDeclares(last, cells(root[last].content));
    NamesOfConcat(Rows(before, root, cells), [row]);
    SetOfMore(before, last);
  }

  lemma NamesOfConcat(a: seq<string>, b: seq<string>)
    ensures NamesOf(a + b) == NamesOf(a) + NamesOf(b)
    ensures PurgedOf(a) <= PurgedOf(a + b)
  {
    forall n | n in NamesOf(a) + NamesOf(b) ensures n in NamesOf(a + b) {
      var line :| line in a + b && NameIn(line) == Some(n);
    }
    forall n | n in PurgedOf(a) ensures n in PurgedOf(a + b) {
      var line :| line in a && PurgedIn(line) == Some(n);
      assert line in a + b;
    }
  }

  /** An archive whose index matches holds plain names only. */
  lemma ConsistentArePlain(t: Tree)
    requires IsConsistent(t)
    ensures forall n :: n in t.archived ==> IsPlain(n)
  {
    var lines := if t.index.Some? then t.index.value else [];
    forall n | n in t.archived ensures IsPlain(n) {
      assert n in NamesOf(lines);
      var line :| line in lines && NameIn(line) == Some(n);
      DeclaredIsPlain(line);
    }
  }

  lemma LinesKeepConsistency(t: Tree)
    requires IsConsistent(t)
    ensures t.archived.Keys <= NamesOf(LinesOf(t.index)) <= t.archived.Keys + PurgedOf(LinesOf(t.index))
  {
    if t.index.None? {
      HeaderDeclaresNothing();
    }
  }

  /** From a matching index, a move leaves a matching one exactly when every moved name is plain. */
  lemma MoveKeepsIndexIff(t: Tree, names: seq<string>, cells: string -> string)
    requires CellsAreRows(cells) && IsConsistent(t) && forall n :: n in names ==> n in t.root
    ensures IsConsistent(After(t, names, cells)) <==> forall n :: n in names ==> IsPlain(n)
  {
    var after := After(t, names, cells);
    var lines, rows := LinesOf(t.index), Rows(names, t.root, cells);
    if forall n :: n in names ==> IsPlain(n) {
      LinesKeepConsistency(t);
      RowsDeclare(names, t.root, cells);
      NamesOfConcat(lines, rows);
    } else if IsConsistent(after) {
      ConsistentArePlain(after);
    }
  }

  // ----- one run -----

  /** Every file is still in one place, under its name and with its content. */
  lemma RunConserves(t: Tree, run: Input, cells: string -> string, name: string, file: File)
    requires forall n :: n in run.listing ==> n in t.root
    ensures Copies(Archived(t, run, cells).0, name, file) == Copies(t, name, file)
  {
    ArchivableAreThose(run.listing, t.root, run);
  }

  /** What is archived stays as it is, and what is cited, active or not listed stays in the root. */
  lemma RunMovesOnlyArchivable(t: Tree, run: Input, cells: string -> string, name: string)
    requires forall n :: n in run.listing ==> n in t.root
    ensures var after := Archived(t, run, cells).0;
            && (name in t.archived ==> name in after.archived && after.archived[name] == t.archived[name])
            && (name in t.root && (name !in run.listing || !IsArchivable(name, t.root[name], run)) ==>
                  name in after.root && after.root[name] == t.root[name])
  {
    ArchivableAreThose(run.listing, t.root, run);
  }

  /** The files a run would move. */
  function Movable(t: Tree, run: Input): set<string>
    requires forall n :: n in run.listing ==> n in t.root
  {
    set n | n in run.listing && IsArchivable(n, t.root[n], run)
  }

  lemma ArchivableIsMovable(t: Tree, run: Input)
    requires forall n :: n in run.listing ==> n in t.root
    ensures SetOf(Archivable(run.listing, t.root, run)) == Movable(t, run)
  {
    ArchivableAreThose(run.listing, t.root, run);
  }

  /** One occupied destination, and nothing at all moves. */
  lemma CollisionMovesNothing(t: Tree, run: Input, cells: string -> string)
    requires Lists(run.listing, t.root)
    ensures var (after, result) := Archived(t, run, cells);
            && (result == Collision <==> !run.dryRun && Movable(t, run) * t.archived.Keys != {})
            && (run.dryRun || result == Collision ==> after == t)
  {
    SomeDestinationIsTaken(t, run);
  }

  lemma SomeDestinationIsTaken(t: Tree, run: Input)
    requires Lists(run.listing, t.root)
    ensures Movable(t, run) * t.archived.Keys != {} <==> exists n | n in Archivable(run.listing, t.root, run) :: n in t.archived
  {
    ArchivableIsMovable(t, run);
    var names := Archivable(run.listing, t.root, run);
    if n :| n in names && n in t.archived {
      assert n in Movable(t, run) * t.archived.Keys;
    }
  }

  /** Without one, everything archivable moves, and nothing else. */
  lemma OtherwiseAllMove(t: Tree, run: Input, cells: string -> string)
    requires Lists(run.listing, t.root) && !run.dryRun && Archived(t, run, cells).1 != Collision
    ensures var after := Archived(t, run, cells).0;
            && after.root.Keys == t.root.Keys - Movable(t, run)
            && after.archived.Keys == t.archived.Keys + Movable(t, run)
  {
    ArchivableIsMovable(t, run);
  }

  lemma SomethingIn(names: seq<string>)
    requires names != []
    ensures exists n :: n in names
  {
    assert names[0] in names;
  }

  /** A run that moved has nothing left to move when it is repeated. */
  lemma RunTwiceMovesOnce(t: Tree, run: Input, cells: string -> string, again: seq<string>)
    requires Lists(run.listing, t.root) && !run.dryRun && Archived(t, run, cells).1 != Collision
    requires Lists(again, Archived(t, run, cells).0.root)
    ensures var after := Archived(t, run, cells).0; Archived(after, run.(listing := again), cells) == (after, Moved([]))
  {
    var after, repeated := Archived(t, run, cells).0, run.(listing := again);
    ArchivableAreThose(run.listing, t.root, run);
    ArchivableAreThose(again, after.root, repeated);
    forall n | n in again ensures !IsArchivable(n, after.root[n], repeated) {
      assert n in run.listing;
    }
    if Archivable(again, after.root, repeated) != [] {
      SomethingIn(Archivable(again, after.root, repeated));
      assert false;
    }
  }

  /** One run, and the index still matches, if it did and the root holds plain names. */
  lemma RunKeepsIndex(t: Tree, run: Input, cells: string -> string)
    requires CellsAreRows(cells) && forall n :: n in run.listing ==> n in t.root
    requires IsConsistent(t) && forall n :: n in t.root ==> IsPlain(n)
    ensures var after := Archived(t, run, cells).0; IsConsistent(after) && forall n :: n in after.root ==> IsPlain(n)
  {
    ArchivableAreThose(run.listing, t.root, run);
    MoveKeepsIndexIff(t, Archivable(run.listing, t.root, run), cells);
  }

  // ----- any sequence of runs -----

  /** States a sequence of runs goes through. */
  ghost predicate IsHistory(states: seq<Tree>, runs: seq<Input>, cells: string -> string) {
    && |states| == |runs| + 1
    && (forall i :: 0 <= i < |runs| ==> Lists(runs[i].listing, states[i].root))
    && (forall i :: 0 <= i < |runs| ==> Stepped(states, runs, cells, i))
  }

  ghost predicate Stepped(states: seq<Tree>, runs: seq<Input>, cells: string -> string, i: nat)
    requires i < |runs| && |states| == |runs| + 1
    requires forall n :: n in runs[i].listing ==> n in states[i].root
  {
    states[i + 1] == Archived(states[i], runs[i], cells).0
  }

  /** Whether a file is protected in a run: cited, or active work. */
  predicate IsProtected(name: string, file: File, run: Input) {
    IsCited(name, run) || IsActive(name, file, run)
  }

  /** No run loses, duplicates or changes a file, and archived files stay archived. */
  lemma {:induction false} HistoryConserves(states: seq<Tree>, runs: seq<Input>, cells: string -> string,
                                            k: nat, name: string, file: File)
    requires IsHistory(states, runs, cells) && k <= |runs|
    ensures Copies(states[k], name, file) == Copies(states[0], name, file)
    ensures name in states[0].archived ==>
              name in states[k].archived && states[k].archived[name] == states[0].archived[name]
  {
    if k > 0 {
      HistoryConserves(states, runs, cells, k - 1, name, file);
      assert Stepped(states, runs, cells, k - 1);
      RunConserves(states[k - 1], runs[k - 1], cells, name, file);
      RunMovesOnlyArchivable(states[k - 1], runs[k - 1], cells, name);
    }
  }

  /** A file that every run finds cited or active never leaves the root. */
  lemma {:induction false} ProtectedStay(states: seq<Tree>, runs: seq<Input>, cells: string -> string,
                                         k: nat, name: string)
    requires IsHistory(states, runs, cells) && k <= |runs| && name in states[0].root
    requires forall i :: 0 <= i < k ==> IsProtected(name, states[0].root[name], runs[i])
    ensures name in states[k].root && states[k].root[name] == states[0].root[name]
  {
    if k > 0 {
      ProtectedStay(states, runs, cells, k - 1, name);
      assert Stepped(states, runs, cells, k - 1);
      RunMovesOnlyArchivable(states[k - 1], runs[k - 1], cells, name);
    }
  }

  /** From a matching index, the index matches after every run as long as the root holds plain names. */
  lemma {:induction false} IndexMatchesThroughout(states: seq<Tree>, runs: seq<Input>, cells: string -> string, k: nat)
    requires IsHistory(states, runs, cells) && CellsAreRows(cells) && k <= |runs|
    requires IsConsistent(states[0]) && forall n :: n in states[0].root ==> IsPlain(n)
    ensures IsConsistent(states[k]) && forall n :: n in states[k].root ==> IsPlain(n)
  {
    if k > 0 {
      IndexMatchesThroughout(states, runs, cells, k - 1);
      assert Stepped(states, runs, cells, k - 1);
      RunKeepsIndex(states[k - 1], runs[k - 1], cells);
    }
  }
}
