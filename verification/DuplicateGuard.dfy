/** How many identical records the duplicate guard lets stand close together. */
module DuplicateGuard {
  import opened TicketStates
  import opened EventLog
  import opened EventLogProperties

  /** Every record of this kind was below the threshold in the window in front of it. */
  ghost predicate Thinned(c: Config, log: seq<Event>, f: Fingerprint) {
    forall i :: 0 <= i < |log| && PrintOf(log[i]) == f ==> CountSame(Recent(log[..i], c.windowSize), f) < c.maxDuplicates
  }

  /** An archiving, if it is one, of f's own ticket. */
  predicate Spares(cmd: Command, f: Fingerprint) {
    cmd.Archive? ==> cmd.ticket == f.ticket
  }

  lemma {:induction false} NoneSame(log: seq<Event>, f: Fingerprint)
    requires forall e :: e in log ==> PrintOf(e) != f
    ensures CountSame(log, f) == 0
  {
    if log != [] {
      NoneSame(log[..|log| - 1], f);
    }
  }

  lemma {:induction false} CountsAtMostLength(log: seq<Event>, f: Fingerprint)
    ensures CountSame(log, f) <= |log|
  {
    if log != [] {
      CountsAtMostLength(log[..|log| - 1], f);
    }
  }

  lemma {:induction false} SuffixCountsLess(log: seq<Event>, a: nat, b: nat, f: Fingerprint)
    requires a <= b <= |log|
    ensures CountSame(log[b..], f) <= CountSame(log[a..], f)
  {
    if b < |log| {
      var init := log[..|log| - 1];
      assert log[b..][..|log[b..]| - 1] == init[b..];
      assert log[a..][..|log[a..]| - 1] == init[a..];
      SuffixCountsLess(init, a, b, f);
    }
  }

  lemma {:induction false} PrefixCountsLess(log: seq<Event>, n: nat, f: Fingerprint)
    requires n <= |log|
    ensures CountSame(log[..n], f) <= CountSame(log, f)
  {
    if n < |log| {
      assert log[..|log| - 1][..n] == log[..n];
      PrefixCountsLess(log[..|log| - 1], n, f);
    } else {
      assert log[..n] == log;
    }
  }

  lemma AppendKeepsThinned(c: Config, log: seq<Event>, e: Event, f: Fingerprint)
    requires Thinned(c, log, f)
    requires PrintOf(e) == f ==> CountSame(Recent(log, c.windowSize), f) < c.maxDuplicates
    ensures Thinned(c, log + [e], f)
  {
    var after := log + [e];
    forall i | 0 <= i < |after| && PrintOf(after[i]) == f
      ensures CountSame(Recent(after[..i], c.windowSize), f) < c.maxDuplicates
    {
      assert after[..i] == log[..i];
      assert log[..|log|] == log;
    }
  }

  /** Runs that archive no ticket but f's own keep the records of f thin. */
  lemma {:induction false} RunKeepsThinned(c: Config, cmds: seq<Command>, f: Fingerprint)
    requires forall cmd :: cmd in cmds ==> Spares(cmd, f)
    ensures Thinned(c, Run(c, EMPTY_STORE, cmds).live, f)
  {
    if cmds != [] {
      var s := Run(c, EMPTY_STORE, cmds[..|cmds| - 1]);
      RunKeepsThinned(c, cmds[..|cmds| - 1], f);
      var last := cmds[|cmds| - 1];
      assert last in cmds;
      if last.Emit? && Accepts(c, s.live, last.request) {
        AppendKeepsThinned(c, s.live, Stamped(c, s.live, last.request), f);
      }
    }
  }

  /** Where a record is accepted, the records it is compared with include any shorter block before it. */
  lemma BlockIsCompared(c: Config, prior: seq<Event>, a: nat, f: Fingerprint)
    requires c.windowSize > 0 && a <= |prior| && |prior| - a <= c.windowSize
    ensures CountSame(prior[a..], f) <= CountSame(Recent(prior, c.windowSize), f)
  {
    var from := if |prior| > c.windowSize then |prior| - c.windowSize else 0;
    assert Recent(prior, c.windowSize) == prior[from..];
    SuffixCountsLess(prior, from, a, f);
  }

  lemma CountOfBlock(log: seq<Event>, a: nat, b: nat, f: Fingerprint)
    requires a < b <= |log|
    ensures CountSame(log[a..b], f) == CountSame(log[a..b - 1], f) + if PrintOf(log[b - 1]) == f then 1 else 0
    ensures log[a..b - 1] == log[..b - 1][a..]
  {
    assert log[a..b][..b - a - 1] == log[a..b - 1];
  }

  function Allowed(c: Config): nat {
    if c.maxDuplicates > 0 then c.maxDuplicates else 0
  }

  lemma {:induction false} ThinnedBoundsBlock(c: Config, log: seq<Event>, a: nat, b: nat, f: Fingerprint)
    requires Thinned(c, log, f) && c.windowSize > 0
    requires a <= b <= |log| && b - a <= c.windowSize + 1
    ensures CountSame(log[a..b], f) <= Allowed(c)
  {
    if a < b {
      CountOfBlock(log, a, b, f);
      if PrintOf(log[b - 1]) == f {
        BlockIsCompared(c, log[..b - 1], a, f);
      } else {
        ThinnedBoundsBlock(c, log, a, b - 1, f);
      }
    }
  }

  // ----- the whole log as the window -----

  lemma {:induction false} SplittingCountsLess(log: seq<Event>, u: string, f: Fingerprint)
    ensures CountSame(NotOfTicket(log, u), f) <= CountSame(log, f)
  {
    if log != [] {
      var init, e := log[..|log| - 1], log[|log| - 1];
      SplittingCountsLess(init, u, f);
      assert (NotOfTicket(init, u) + [e])[..|NotOfTicket(init, u)|] == NotOfTicket(init, u);
    }
  }

  /** With window 0 every record is compared with the whole log, so no run holds more than allowed. */
  lemma {:induction false} WholeLogIsBounded(c: Config, cmds: seq<Command>, f: Fingerprint)
    requires c.windowSize == 0
    ensures CountSame(Run(c, EMPTY_STORE, cmds).live, f) <= Allowed(c)
  {
    if cmds != [] {
      var s := Run(c, EMPTY_STORE, cmds[..|cmds| - 1]);
      WholeLogIsBounded(c, cmds[..|cmds| - 1], f);
      match cmds[|cmds| - 1]
      case Archive(u) => SplittingCountsLess(s.live, u, f);
      case Emit(r) =>
        var e := Stamped(c, s.live, r);
        assert (s.live + [e])[..|s.live|] == s.live;
    }
  }

  /** Where nothing may stand, nothing is accepted. */
  lemma {:induction false} NothingIsAccepted(c: Config, cmds: seq<Command>)
    requires c.maxDuplicates <= 0
    ensures Run(c, EMPTY_STORE, cmds).live == []
  {
    if cmds != [] {
      NothingIsAccepted(c, cmds[..|cmds| - 1]);
    }
  }

  /** The configurations under which no archiving matters. */
  predicate BoundsEveryRun(c: Config) {
    c.windowSize == 0 || c.maxDuplicates <= 0 || c.maxDuplicates > c.windowSize
  }

  /**
   Any windowSize + 1 consecutive live records (all of them, when the window is
   0) hold at most maxDuplicates identical ones: over every run that archives no
   ticket but theirs, and over every run at all when the window is 0, nothing is
   allowed, or the window is shorter than the allowance.
   */
  lemma DuplicatesAreBounded(c: Config, cmds: seq<Command>, a: nat, b: nat, f: Fingerprint)
    requires c.windowSize >= 0
    requires (forall cmd :: cmd in cmds ==> Spares(cmd, f)) || BoundsEveryRun(c)
    requires a <= b <= |Run(c, EMPTY_STORE, cmds).live|
    requires c.windowSize > 0 ==> b - a <= c.windowSize + 1
    ensures CountSame(Run(c, EMPTY_STORE, cmds).live[a..b], f) <= Allowed(c)
  {
    var log := Run(c, EMPTY_STORE, cmds).live;
    if c.windowSize == 0 {
      WholeLogIsBounded(c, cmds, f);
      PrefixCountsLess(log, b, f);
      SuffixCountsLess(log[..b], 0, a, f);
      assert log[..b][0..] == log[..b] && log[..b][a..] == log[a..b];
    } else if c.maxDuplicates <= 0 {
      NothingIsAccepted(c, cmds);
    } else if c.maxDuplicates > c.windowSize {
      CountsAtMostLength(log[a..b], f);
    } else {
      RunKeepsThinned(c, cmds, f);
      ThinnedBoundsBlock(c, log, a, b, f);
    }
  }

  // ----- archiving another ticket defeats the window -----

  /** The request that is repeated. */
  const SAME := Request(HandoffBlocked, "A", "SUPERVISOR", EMPTY_PAYLOAD, false, "", "")

  /** Requests for another ticket, no two of them alike. */
  function Filler(i: nat): Request {
    Request(HandoffBlocked, "B", seq(i, _ => 'x'), EMPTY_PAYLOAD, false, "", "")
  }

  function Sames(n: nat): seq<Command> {
    if n == 0 then [] else Sames(n - 1) + [Emit(SAME)]
  }

  function WithFillers(run: seq<Command>, n: nat): seq<Command> {
    if n == 0 then run else WithFillers(run, n - 1) + [Emit(Filler(n - 1))]
  }

  lemma OneMoreCommand(c: Config, cmds: seq<Command>, cmd: Command)
    ensures Run(c, EMPTY_STORE, cmds + [cmd]) == Apply(c, Run(c, EMPTY_STORE, cmds), cmd)
  {
    assert (cmds + [cmd])[..|cmds|] == cmds;
  }

  /** A request of this kind is refused only as a duplicate. */
  lemma FewAreAccepted(c: Config, log: seq<Event>, r: Request)
    requires r.kind == HandoffBlocked && CountSame(Recent(log, c.windowSize), RequestPrint(c, r)) < c.maxDuplicates
    ensures Emitted(c, log, r) == log + [Stamped(c, log, r)]
  {
  }

  ghost predicate AllOf(log: seq<Event>, f: Fingerprint) {
    forall i :: 0 <= i < |log| ==> PrintOf(log[i]) == f
  }

  /** n records of ticket B, each with the actor of its place. */
  ghost predicate AreFillers(log: seq<Event>, n: nat) {
    |log| == n && forall i :: 0 <= i < n ==> log[i].ticket == "B" && |log[i].actor| == i
  }

  lemma {:induction false} AllCount(log: seq<Event>, f: Fingerprint)
    requires AllOf(log, f)
    ensures CountSame(log, f) == |log|
  {
    if log != [] {
      AllCount(log[..|log| - 1], f);
    }
  }

  lemma SameIsAccepted(c: Config, log: seq<Event>)
    requires |log| < c.maxDuplicates && AllOf(log, RequestPrint(c, SAME))
    ensures |Emitted(c, log, SAME)| == |log| + 1 && AllOf(Emitted(c, log, SAME), RequestPrint(c, SAME))
  {
    CountsAtMostLength(Recent(log, c.windowSize), RequestPrint(c, SAME));
    FewAreAccepted(c, log, SAME);
  }

  lemma OneMoreSame(c: Config, n: nat)
    ensures Run(c, EMPTY_STORE, Sames(n + 1)).live == Emitted(c, Run(c, EMPTY_STORE, Sames(n)).live, SAME)
  {
    OneMoreCommand(c, Sames(n), Emit(SAME));
    assert Sames(n + 1) == Sames(n) + [Emit(SAME)];
  }

  lemma {:induction false} SamesAreAccepted(c: Config, n: nat)
    requires n <= c.maxDuplicates
    ensures var log := Run(c, EMPTY_STORE, Sames(n)).live; |log| == n && AllOf(log, RequestPrint(c, SAME))
  {
    if n > 0 {
      SamesAreAccepted(c, n - 1);
      OneMoreSame(c, n - 1);
      SameIsAccepted(c, Run(c, EMPTY_STORE, Sames(n - 1)).live);
    }
  }

  lemma FillerIsNew(c: Config, before: seq<Event>, fillers: seq<Event>, n: nat)
    requires (forall e :: e in before ==> e.ticket == "A") && AreFillers(fillers, n)
    ensures CountSame(Recent(before + fillers, c.windowSize), RequestPrint(c, Filler(n))) == 0
  {
    var r := Filler(n);
    forall e | e in before + fillers ensures PrintOf(e) != RequestPrint(c, r) {
      assert e in before || e in fillers;
    }
    NoneSame(Recent(before + fillers, c.windowSize), RequestPrint(c, r));
  }

  lemma FillersGrow(c: Config, log: seq<Event>, fillers: seq<Event>, n: nat)
    requires AreFillers(fillers, n)
    ensures AreFillers(fillers + [Stamped(c, log, Filler(n))], n + 1)
  {
  }

  lemma OneMoreFiller(c: Config, before: seq<Event>, fillers: seq<Event>, n: nat)
    requires c.maxDuplicates >= 1
    requires (forall e :: e in before ==> e.ticket == "A") && AreFillers(fillers, n)
    ensures var e := Stamped(c, before + fillers, Filler(n));
            Emitted(c, before + fillers, Filler(n)) == before + (fillers + [e]) && AreFillers(fillers + [e], n + 1)
  {
    FillerIsNew(c, before, fillers, n);
    FewAreAccepted(c, before + fillers, Filler(n));
    FillersGrow(c, before + fillers, fillers, n);
    var e := Stamped(c, before + fillers, Filler(n));
    assert before + fillers + [e] == before + (fillers + [e]);
  }

  lemma {:induction false} FillersAreAccepted(c: Config, run: seq<Command>, n: nat) returns (fillers: seq<Event>)
    requires c.maxDuplicates >= 1
    requires forall e :: e in Run(c, EMPTY_STORE, run).live ==> e.ticket == "A"
    ensures Run(c, EMPTY_STORE, WithFillers(run, n)).live == Run(c, EMPTY_STORE, run).live + fillers
    ensures AreFillers(fillers, n)
  {
    fillers := [];
    if n > 0 {
      fillers := FillersAreAccepted(c, run, n - 1);
      var before := Run(c, EMPTY_STORE, run).live;
      var r := Filler(n - 1);
      OneMoreCommand(c, WithFillers(run, n - 1), Emit(r));
      OneMoreFiller(c, before, fillers, n - 1);
      fillers := fillers + [Stamped(c, before + fillers, r)];
    }
  }

  lemma {:induction false} NotOfTicketConcat(a: seq<Event>, b: seq<Event>, u: string)
    ensures NotOfTicket(a + b, u) == NotOfTicket(a, u) + NotOfTicket(b, u)
  {
    if b == [] {
      assert a + b == a;
    } else {
      assert (a + b)[..|a + b| - 1] == a + b[..|b| - 1];
      NotOfTicketConcat(a, b[..|b| - 1], u);
    }
  }

  lemma {:induction false} OwnAreDropped(log: seq<Event>, u: string)
    requires forall e :: e in log ==> e.ticket == u
    ensures NotOfTicket(log, u) == []
  {
    if log != [] {
      OwnAreDropped(log[..|log| - 1], u);
    }
  }

  lemma {:induction false} OthersStay(log: seq<Event>, u: string)
    requires forall e :: e in log ==> e.ticket != u
    ensures NotOfTicket(log, u) == log
  {
    if log != [] {
      OthersStay(log[..|log| - 1], u);
    }
  }

  lemma WithoutFillers(sames: seq<Event>, fillers: seq<Event>, last: Event, u: string)
    requires forall e :: e in sames ==> e.ticket != u
    requires forall e :: e in fillers ==> e.ticket == u
    requires last.ticket != u
    ensures NotOfTicket(sames + fillers + [last], u) == sames + [last]
  {
    NotOfTicketConcat(sames + fillers, [last], u);
    OthersStay([last], u);
    assert NotOfTicket(sames + fillers, u) == sames by {
      NotOfTicketConcat(sames, fillers, u);
      OthersStay(sames, u);
      OwnAreDropped(fillers, u);
    }
  }

  lemma FillersAreThere(log: seq<Event>, fillers: seq<Event>, rest: seq<Event>)
    requires fillers != [] && forall e :: e in fillers ==> e.ticket == "B"
    ensures OfTicket(log + fillers + rest, "B") != []
  {
    assert fillers[0] in log + fillers + rest;
    assert fillers[0] in OfTicket(log + fillers + rest, "B");
  }

  /** maxDuplicates identical records, a window of other records, and one more. */
  function Interleaved(c: Config): seq<Command>
    requires 1 <= c.maxDuplicates <= c.windowSize
  {
    WithFillers(Sames(c.maxDuplicates), c.windowSize) + [Emit(SAME)]
  }

  lemma InterleavedIsAccepted(c: Config) returns (sames: seq<Event>, fillers: seq<Event>, last: Event)
    requires 1 <= c.maxDuplicates <= c.windowSize
    ensures Run(c, EMPTY_STORE, Interleaved(c)).live == sames + fillers + [last]
    ensures |sames| == c.maxDuplicates && AllOf(sames, RequestPrint(c, SAME))
    ensures AreFillers(fillers, c.windowSize) && PrintOf(last) == RequestPrint(c, SAME)
  {
    var m: nat, w: nat := c.maxDuplicates, c.windowSize;
    SamesAreAccepted(c, m);
    sames := Run(c, EMPTY_STORE, Sames(m)).live;
    fillers := FillersAreAccepted(c, Sames(m), w);
    var log := sames + fillers;
    assert Recent(log, w) == fillers;
    NoneSame(fillers, RequestPrint(c, SAME));
    FewAreAccepted(c, log, SAME);
    OneMoreCommand(c, WithFillers(Sames(m), w), Emit(SAME));
    last := Stamped(c, log, SAME);
  }

  /** Archiving the other ticket brings maxDuplicates + 1 identical records together, for every window that can hold them. */
  lemma ArchivingDefeatsTheWindow(c: Config) returns (run: seq<Command>)
    requires 1 <= c.maxDuplicates <= c.windowSize
    ensures var log := Run(c, EMPTY_STORE, run).live;
            |log| == c.maxDuplicates + 1 && CountSame(log, RequestPrint(c, SAME)) == c.maxDuplicates + 1
  {
    var sames, fillers, last := InterleavedIsAccepted(c);
    run := Interleaved(c) + [Archive("B")];
    OneMoreCommand(c, Interleaved(c), Archive("B"));
    WithoutFillers(sames, fillers, last, "B");
    FillersAreThere(sames, fillers, [last]);
    AllCount(sames + [last], RequestPrint(c, SAME));
  }

  /** No run puts more than allowed into one block. */
  ghost predicate BlocksAreBounded(c: Config) {
    forall cmds: seq<Command>, a: nat, b: nat, f: Fingerprint ::
      a <= b <= |Run(c, EMPTY_STORE, cmds).live| && (c.windowSize > 0 ==> b - a <= c.windowSize + 1) ==>
        CountSame(Run(c, EMPTY_STORE, cmds).live[a..b], f) <= Allowed(c)
  }

  /** The bound holds of every run, whatever it archives, exactly for those configurations. */
  lemma BlocksAreBoundedIff(c: Config)
    requires c.windowSize >= 0
    ensures BlocksAreBounded(c) <==> BoundsEveryRun(c)
  {
    if BoundsEveryRun(c) {
      forall cmds: seq<Command>, a: nat, b: nat, f: Fingerprint |
        a <= b <= |Run(c, EMPTY_STORE, cmds).live| && (c.windowSize > 0 ==> b - a <= c.windowSize + 1)
        ensures CountSame(Run(c, EMPTY_STORE, cmds).live[a..b], f) <= Allowed(c)
      {
        DuplicatesAreBounded(c, cmds, a, b, f);
      }
    } else {
      var run := ArchivingDefeatsTheWindow(c);
      var log := Run(c, EMPTY_STORE, run).live;
      assert log[0..|log|] == log;
    }
  }
}
