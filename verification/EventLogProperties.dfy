/** What every run of emits and archivings keeps. */
module EventLogProperties {
  import opened TicketStates
  import opened EventLog

  // ----- history is only ever extended -----

  lemma {:induction false} OfTicketConcat(a: seq<Event>, b: seq<Event>, t: string)
    ensures OfTicket(a + b, t) == OfTicket(a, t) + OfTicket(b, t)
  {
    if b == [] {
      assert a + b == a;
    } else {
      assert (a + b)[..|a + b| - 1] == a + b[..|b| - 1];
      OfTicketConcat(a, b[..|b| - 1], t);
    }
  }

  lemma {:induction false} SplittingKeepsOthers(log: seq<Event>, u: string, t: string)
    ensures OfTicket(NotOfTicket(log, u), t) == if t == u then [] else OfTicket(log, t)
  {
    if log != [] {
      var init, e := log[..|log| - 1], log[|log| - 1];
      SplittingKeepsOthers(init, u, t);
      if e.ticket != u {
        OfTicketConcat(NotOfTicket(init, u), [e], t);
        assert [e][..0] == [];
      }
    }
  }

  lemma ArchivingKeepsHistory(s: Store, u: string, t: string)
    ensures History(ArchiveTicket(s, u), t) == History(s, t)
  {
    SplittingKeepsOthers(s.live, u, t);
  }

  lemma StepExtendsHistory(c: Config, s: Store, cmd: Command, t: string)
    ensures History(Apply(c, s, cmd), t) == History(s, t) + Added(c, s, cmd, t)
  {
    match cmd
    case Archive(u) => ArchivingKeepsHistory(s, u, t);
    case Emit(r) =>
      if Accepts(c, s.live, r) {
        var e := Stamped(c, s.live, r);
        OfTicketConcat(s.live, [e], t);
        assert [e][..0] == [];
      }
  }

  /** A run appends exactly the accepted events to each ticket's history. */
  lemma {:induction false} RunExtendsHistory(c: Config, s: Store, cmds: seq<Command>, t: string)
    ensures History(Run(c, s, cmds), t) == History(s, t) + AcceptedOf(c, s, cmds, t)
  {
    if cmds != [] {
      RunExtendsHistory(c, s, cmds[..|cmds| - 1], t);
      StepExtendsHistory(c, Run(c, s, cmds[..|cmds| - 1]), cmds[|cmds| - 1], t);
    }
  }

  // ----- sequence numbers -----

  ghost predicate Numbered(log: seq<Event>) {
    && (forall i :: 0 <= i < |log| ==> log[i].seqNo > 0)
    && (forall i, j :: 0 <= i < j < |log| ==> log[i].seqNo < log[j].seqNo)
  }

  lemma NumbersAppend(log: seq<Event>, e: Event)
    requires Numbered(log) && e.seqNo > 0 && forall x :: x in log ==> x.seqNo < e.seqNo
    ensures Numbered(log + [e]) && LastSeq(log + [e]) == e.seqNo
  {
  }

  lemma NumbersOfInit(log: seq<Event>)
    requires Numbered(log) && log != []
    ensures Numbered(log[..|log| - 1]) && LastSeq(log[..|log| - 1]) < LastSeq(log)
    ensures LastSeq(log) == log[|log| - 1].seqNo > 0
    ensures forall x :: x in log[..|log| - 1] ==> x.seqNo < log[|log| - 1].seqNo
  {
  }

  lemma {:induction false} SplittingKeepsNumbers(log: seq<Event>, u: string)
    requires Numbered(log)
    ensures Numbered(NotOfTicket(log, u))
    ensures LastSeq(NotOfTicket(log, u)) <= LastSeq(log)
  {
    if log != [] {
      var init, e := log[..|log| - 1], log[|log| - 1];
      NumbersOfInit(log);
      SplittingKeepsNumbers(init, u);
      NumbersAppend(NotOfTicket(init, u), e);
    }
  }

  /** The live log stays strictly increasing over any mix of commands. */
  lemma {:induction false} RunKeepsNumbers(c: Config, s: Store, cmds: seq<Command>)
    requires Numbered(s.live)
    ensures Numbered(Run(c, s, cmds).live)
  {
    if cmds != [] {
      RunKeepsNumbers(c, s, cmds[..|cmds| - 1]);
      var before := Run(c, s, cmds[..|cmds| - 1]);
      match cmds[|cmds| - 1]
      case Archive(u) => SplittingKeepsNumbers(before.live, u);
      case Emit(_) =>
    }
  }

  /** Every number ever given, in the live log or an archive, is at or below the last live one. */
  ghost predicate NumbersEndLive(s: Store) {
    forall t: string, e :: e in History(s, t) ==> e.seqNo <= LastSeq(s.live)
  }

  /** The ticket owns the last live record. */
  predicate OwnsLast(s: Store, u: string) {
    s.live != [] && s.live[|s.live| - 1].ticket == u
  }

  lemma {:induction false} LastStays(log: seq<Event>, u: string)
    requires log != [] && log[|log| - 1].ticket != u
    ensures NotOfTicket(log, u) != [] && LastSeq(NotOfTicket(log, u)) == LastSeq(log)
  {
  }

  lemma {:induction false} ShorterWithoutOwner(log: seq<Event>, u: string)
    requires Numbered(log) && log != [] && log[|log| - 1].ticket == u
    ensures LastSeq(NotOfTicket(log, u)) < LastSeq(log)
  {
    NumbersOfInit(log);
    SplittingKeepsNumbers(log[..|log| - 1], u);
  }

  /**
   Archiving u keeps the next number above all numbers given before exactly when
   u does not own the last live record; otherwise numbers are given again.
   */
  lemma ArchivingKeepsNumbersFreshIff(s: Store, u: string)
    requires Numbered(s.live) && NumbersEndLive(s)
    ensures NumbersEndLive(ArchiveTicket(s, u)) <==> !OwnsLast(s, u)
  {
    var after := ArchiveTicket(s, u);
    forall t: string ensures History(after, t) == History(s, t) {
      ArchivingKeepsHistory(s, u, t);
    }
    if OwnsLast(s, u) {
      var last := s.live[|s.live| - 1];
      assert last in OfTicket(s.live, u);
      assert last in History(after, u);
      ShorterWithoutOwner(s.live, u);
    } else if s.live != [] {
      LastStays(s.live, u);
    }
  }

  /** The next number after archiving the owner of the last record is not above that record, now archived. */
  lemma NumberIsGivenAgain(c: Config, s: Store, r: Request)
    requires Numbered(s.live) && OwnsLast(s, r.ticket)
    ensures var after := ArchiveTicket(s, r.ticket);
            && Stamped(c, after.live, r).seqNo <= LastSeq(s.live)
            && s.live[|s.live| - 1] in Archived(after, r.ticket)
  {
    assert s.live[|s.live| - 1] in OfTicket(s.live, r.ticket);
    ShorterWithoutOwner(s.live, r.ticket);
  }

  /** No ticket is archived while it owns the last live record. */
  ghost predicate NeverArchivesLast(c: Config, cmds: seq<Command>) {
    cmds == [] ||
    var init, cmd := cmds[..|cmds| - 1], cmds[|cmds| - 1];
    NeverArchivesLast(c, init) && (cmd.Archive? ==> !OwnsLast(Run(c, EMPTY_STORE, init), cmd.ticket))
  }

  lemma EmitKeepsHistoryNumbered(c: Config, s: Store, r: Request)
    requires Numbered(s.live) && NumbersEndLive(s) && forall t: string :: Numbered(History(s, t))
    ensures var after := Apply(c, s, Emit(r)); NumbersEndLive(after) && forall t: string :: Numbered(History(after, t))
  {
    var after := Apply(c, s, Emit(r));
    if Accepts(c, s.live, r) {
      var e := Stamped(c, s.live, r);
      assert after.live == s.live + [e] && LastSeq(after.live) == e.seqNo == LastSeq(s.live) + 1;
      assert LastSeq(s.live) >= 0;
      forall t: string ensures Numbered(History(after, t)) && forall x :: x in History(after, t) ==> x.seqNo <= e.seqNo {
        StepExtendsHistory(c, s, Emit(r), t);
        assert forall x :: x in History(s, t) ==> x.seqNo <= LastSeq(s.live);
        if r.ticket == t {
          NumbersAppend(History(s, t), e);
        }
      }
    } else {
      assert after == s;
    }
  }

  /**
   Over every run in which no ticket is archived while it owns the last live
   record, the numbers of a ticket's whole history strictly increase, and every
   next number is new.
   */
  lemma {:induction false} HistoriesStayNumbered(c: Config, cmds: seq<Command>)
    requires NeverArchivesLast(c, cmds)
    ensures var s := Run(c, EMPTY_STORE, cmds); NumbersEndLive(s) && forall t: string :: Numbered(History(s, t))
  {
    RunKeepsNumbers(c, EMPTY_STORE, cmds);
    if cmds != [] {
      var init := cmds[..|cmds| - 1];
      var s := Run(c, EMPTY_STORE, init);
      HistoriesStayNumbered(c, init);
      RunKeepsNumbers(c, EMPTY_STORE, init);
      match cmds[|cmds| - 1]
      case Emit(r) => EmitKeepsHistoryNumbered(c, s, r);
      case Archive(u) =>
        ArchivingKeepsNumbersFreshIff(s, u);
        forall t: string ensures Numbered(History(ArchiveTicket(s, u), t)) {
          ArchivingKeepsHistory(s, u, t);
        }
    }
  }

  /** Record i has number i + 1. */
  ghost predicate Consecutive(log: seq<Event>) {
    forall i :: 0 <= i < |log| ==> log[i].seqNo == i + 1
  }

  /** As long as nothing is archived, the live log is numbered from 1 without a gap. */
  lemma {:induction false} EmitsAreConsecutive(c: Config, cmds: seq<Command>)
    requires forall cmd :: cmd in cmds ==> cmd.Emit?
    ensures Consecutive(Run(c, EMPTY_STORE, cmds).live)
  {
    if cmds != [] {
      EmitsAreConsecutive(c, cmds[..|cmds| - 1]);
      assert cmds[|cmds| - 1] in cmds;
    }
  }
}
