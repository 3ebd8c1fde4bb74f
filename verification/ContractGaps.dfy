/** Contract gaps: one record per ticket and kind of gap, as far as the live log remembers. */
module ContractGaps {
  import opened TicketStates
  import opened EventLog
  import opened Texts
  import EventLogProperties
  import TicketIds

  const GAP_TYPES: set<string> := {"premise_false", "forbidden_surface_needed", "missing_acceptance"}

  /** The arguments of one call, with the generated id and timestamp. */
  datatype Gap = Gap(ticket: string, gapType: string, path: string, actor: string, eventId: string, timestamp: string)

  function CanonicalPath(t: string): string {
    "contract_gaps/CG-" + t + ".md"
  }

  /** The path with slashes for backslashes, and without space around it. */
  function Normalized(path: string): string {
    Strip(seq(|path|, i requires 0 <= i < |path| => if path[i] == '\\' then '/' else path[i]))
  }

  predicate IsValid(g: Gap) {
    TicketIds.IsTicketId(g.ticket) && g.gapType in GAP_TYPES && Normalized(g.path) == CanonicalPath(g.ticket)
  }

  function GapRequest(g: Gap): Request {
    var fields := map["ticket_id" := Text(g.ticket), "gap_type" := Text(g.gapType), "cg_file_path" := Text(CanonicalPath(g.ticket))];
    Request(ContractGap, g.ticket, g.actor, EMPTY_PAYLOAD.(rest := fields), false, g.eventId, g.timestamp)
  }

  predicate HasGapType(p: Payload, gapType: string) {
    "gap_type" in p.rest && p.rest["gap_type"] == Text(gapType)
  }

  predicate IsGap(e: Event, t: string, gapType: string) {
    e.kind == ContractGap && e.ticket == t && HasGapType(e.payload, gapType)
  }

  /** Records of this gap in a log. */
  function Gaps(log: seq<Event>, t: string, gapType: string): nat {
    if log == [] then 0
    else Gaps(log[..|log| - 1], t, gapType) + (if IsGap(log[|log| - 1], t, gapType) then 1 else 0)
  }

  function WithGap(c: Config, log: seq<Event>, g: Gap): seq<Event> {
    if IsValid(g) && Gaps(log, g.ticket, g.gapType) == 0 then Emitted(c, log, GapRequest(g)) else log
  }

  method EmitContractGap(bus: EventBus, g: Gap) returns (event: Option<Event>)
    modifies bus
    ensures bus.live == WithGap(bus.config, old(bus.live), g) && bus.archives == old(bus.archives)
    ensures event.Some? <==> bus.live != old(bus.live)
    ensures event.Some? ==> bus.live == old(bus.live) + [event.value]
  {
    if !IsValid(g) {
      return None;
    }
    var known := KnowsGap(bus.live, g.ticket, g.gapType);
    if known {
      return None;
    }
    event := bus.Emit(GapRequest(g));
  }

  method KnowsGap(log: seq<Event>, t: string, gapType: string) returns (known: bool)
    ensures known <==> Gaps(log, t, gapType) > 0
  {
    for i := 0 to |log|
      invariant Gaps(log[..i], t, gapType) == 0
    {
      assert log[..i + 1][..i] == log[..i];
      if IsGap(log[i], t, gapType) {
        GapsGrow(log, i + 1, t, gapType);
        return true;
      }
    }
    assert log[..|log|] == log;
    return false;
  }

  lemma {:induction false} GapsGrow(log: seq<Event>, n: nat, t: string, gapType: string)
    requires n <= |log|
    ensures Gaps(log[..n], t, gapType) <= Gaps(log, t, gapType)
  {
    if n < |log| {
      var init := log[..|log| - 1];
      assert init[..n] == log[..n];
      GapsGrow(init, n, t, gapType);
    } else {
      assert log[..n] == log;
    }
  }

  // ----- runs -----

  /** The guarded call, any other emit but a bare CONTRACT_GAP, or the archiving of a ticket. */
  datatype Action = Report(gap: Gap) | Do(cmd: Command)

  predicate IsGuarded(a: Action) {
    a.Do? && a.cmd.Emit? ==> a.cmd.request.kind != ContractGap
  }

  function Next(c: Config, s: Store, a: Action): Store {
    match a
    case Report(g) => s.(live := WithGap(c, s.live, g))
    case Do(cmd) => Apply(c, s, cmd)
  }

  function RunAll(c: Config, s: Store, actions: seq<Action>): Store {
    if actions == [] then s
    else Next(c, RunAll(c, s, actions[..|actions| - 1]), actions[|actions| - 1])
  }

  function Archivings(actions: seq<Action>, t: string): nat {
    if actions == [] then 0
    else Archivings(actions[..|actions| - 1], t) + (if actions[|actions| - 1] == Do(Archive(t)) then 1 else 0)
  }

  lemma {:induction false} GapsConcat(a: seq<Event>, b: seq<Event>, t: string, gapType: string)
    ensures Gaps(a + b, t, gapType) == Gaps(a, t, gapType) + Gaps(b, t, gapType)
  {
    if b == [] {
      assert a + b == a;
    } else {
      assert (a + b)[..|a + b| - 1] == a + b[..|b| - 1];
      GapsConcat(a, b[..|b| - 1], t, gapType);
    }
  }

  lemma GapsSnoc(log: seq<Event>, e: Event, t: string, gapType: string)
    ensures Gaps(log + [e], t, gapType) == Gaps(log, t, gapType) + if IsGap(e, t, gapType) then 1 else 0
  {
    assert (log + [e])[..|log|] == log;
  }

  lemma {:induction false} GapsOfTicket(log: seq<Event>, t: string, gapType: string)
    ensures Gaps(OfTicket(log, t), t, gapType) == Gaps(log, t, gapType)
  {
    if log != [] {
      GapsOfTicket(log[..|log| - 1], t, gapType);
      GapsSnoc(OfTicket(log[..|log| - 1], t), log[|log| - 1], t, gapType);
    }
  }

  lemma {:induction false} GapsNotOfTicket(log: seq<Event>, u: string, t: string, gapType: string)
    ensures Gaps(NotOfTicket(log, u), t, gapType) == if u == t then 0 else Gaps(log, t, gapType)
  {
    if log != [] {
      var init, e := log[..|log| - 1], log[|log| - 1];
      GapsNotOfTicket(init, u, t, gapType);
      if e.ticket == u {
        assert NotOfTicket(log, u) == NotOfTicket(init, u);
      } else {
        assert NotOfTicket(log, u) == NotOfTicket(init, u) + [e];
        GapsSnoc(NotOfTicket(init, u), e, t, gapType);
      }
    }
  }

  /** Redaction leaves the kind of a gap alone. */
  ghost predicate KeepsGapTypes(redact: Payload -> Payload) {
    forall p: Payload, g: string :: HasGapType(redact(p), g) <==> HasGapType(p, g)
  }

  /** Records of this gap in the live log and in the ticket's archive. */
  function AllGaps(s: Store, t: string, gapType: string): nat {
    Gaps(History(s, t), t, gapType)
  }

  lemma GapsOfHistory(s: Store, t: string, gapType: string)
    ensures AllGaps(s, t, gapType) == Gaps(Archived(s, t), t, gapType) + Gaps(s.live, t, gapType)
  {
    GapsConcat(Archived(s, t), OfTicket(s.live, t), t, gapType);
    GapsOfTicket(s.live, t, gapType);
  }

  lemma EmitAddsGap(c: Config, log: seq<Event>, r: Request, t: string, gapType: string)
    requires KeepsGapTypes(c.redact)
    ensures Gaps(Emitted(c, log, r), t, gapType) == Gaps(log, t, gapType) +
              if Accepts(c, log, r) && r.kind == ContractGap && r.ticket == t && HasGapType(r.payload, gapType) then 1 else 0
  {
    GapsSnoc(log, Stamped(c, log, r), t, gapType);
    assert HasGapType(c.redact(r.payload), gapType) <==> HasGapType(r.payload, gapType);
  }

  /** The live log keeps to one record, and the archive to one for every time the ticket was archived. */
  ghost predicate Bounded(s: Store, t: string, gapType: string, archivings: nat) {
    Gaps(s.live, t, gapType) <= 1 && Gaps(Archived(s, t), t, gapType) <= archivings
  }

  lemma ReportKeepsBound(c: Config, s: Store, g: Gap, t: string, gapType: string, k: nat)
    requires KeepsGapTypes(c.redact) && Bounded(s, t, gapType, k)
    ensures Bounded(s.(live := WithGap(c, s.live, g)), t, gapType, k)
  {
    EmitAddsGap(c, s.live, GapRequest(g), t, gapType);
    assert HasGapType(GapRequest(g).payload, gapType) <==> g.gapType == gapType;
  }

  lemma ArchiveKeepsBound(s: Store, u: string, t: string, gapType: string, k: nat)
    requires Bounded(s, t, gapType, k)
    ensures Bounded(ArchiveTicket(s, u), t, gapType, if u == t then k + 1 else k)
  {
    GapsNotOfTicket(s.live, u, t, gapType);
    GapsConcat(Archived(s, t), OfTicket(s.live, t), t, gapType);
    GapsOfTicket(s.live, t, gapType);
  }

  lemma {:induction false} RunKeepsBound(c: Config, actions: seq<Action>, t: string, gapType: string)
    requires KeepsGapTypes(c.redact) && forall a :: a in actions ==> IsGuarded(a)
    ensures Bounded(RunAll(c, EMPTY_STORE, actions), t, gapType, Archivings(actions, t))
  {
    if actions != [] {
      var init, a := actions[..|actions| - 1], actions[|actions| - 1];
      RunKeepsBound(c, init, t, gapType);
      var s, k := RunAll(c, EMPTY_STORE, init), Archivings(init, t);
      assert a in actions;
      match a
      case Report(g) => ReportKeepsBound(c, s, g, t, gapType, k);
      case Do(Emit(r)) => EmitAddsGap(c, s.live, r, t, gapType);
      case Do(Archive(u)) => ArchiveKeepsBound(s, u, t, gapType, k);
    }
  }

  /** Over any run, a gap is recorded at most once more often than its ticket was archived. */
  lemma GapsAreBounded(c: Config, actions: seq<Action>, t: string, gapType: string)
    requires KeepsGapTypes(c.redact) && forall a :: a in actions ==> IsGuarded(a)
    ensures AllGaps(RunAll(c, EMPTY_STORE, actions), t, gapType) <= 1 + Archivings(actions, t)
  {
    RunKeepsBound(c, actions, t, gapType);
    GapsOfHistory(RunAll(c, EMPTY_STORE, actions), t, gapType);
  }

  lemma {:induction false} EqualGapsCount(log: seq<Event>, f: Fingerprint, t: string, gapType: string)
    requires f.kind == ContractGap && f.ticket == t && HasGapType(f.payload, gapType)
    ensures CountSame(log, f) <= Gaps(log, t, gapType)
  {
    if log != [] {
      EqualGapsCount(log[..|log| - 1], f, t, gapType);
    }
  }

  lemma RecentGaps(log: seq<Event>, window: int, t: string, gapType: string)
    ensures Gaps(Recent(log, window), t, gapType) <= Gaps(log, t, gapType)
  {
    var recent := Recent(log, window);
    var n := |log| - |recent|;
    assert log == log[..n] + recent;
    GapsConcat(log[..n], recent, t, gapType);
  }

  /** A gap the live log does not hold gets past both guards, so it is recorded exactly when it is valid and new there. */
  lemma GapIsRecordedIff(c: Config, log: seq<Event>, g: Gap)
    requires KeepsGapTypes(c.redact) && c.maxDuplicates >= 1
    ensures WithGap(c, log, g) != log <==> IsValid(g) && Gaps(log, g.ticket, g.gapType) == 0
  {
    var r := GapRequest(g);
    if IsValid(g) && Gaps(log, g.ticket, g.gapType) == 0 {
      assert HasGapType(r.payload, g.gapType);
      RecentGaps(log, c.windowSize, g.ticket, g.gapType);
      EqualGapsCount(Recent(log, c.windowSize), RequestPrint(c, r), g.ticket, g.gapType);
      assert Accepts(c, log, r);
    }
  }

  lemma NewGapCounts(c: Config, log: seq<Event>, g: Gap)
    requires KeepsGapTypes(c.redact) && c.maxDuplicates >= 1 && IsValid(g) && Gaps(log, g.ticket, g.gapType) == 0
    ensures Gaps(WithGap(c, log, g), g.ticket, g.gapType) == 1
  {
    GapIsRecordedIff(c, log, g);
    EmitAddsGap(c, log, GapRequest(g), g.ticket, g.gapType);
    assert HasGapType(GapRequest(g).payload, g.gapType);
  }

  lemma NoGapLeft(s: Store, t: string, gapType: string)
    ensures Gaps(ArchiveTicket(s, t).live, t, gapType) == 0
  {
    GapsNotOfTicket(s.live, t, t, gapType);
    GapsOfTicket(s.live, t, gapType);
  }

  lemma ReportedGapCounts(c: Config, s: Store, g: Gap)
    requires KeepsGapTypes(c.redact) && c.maxDuplicates >= 1 && IsValid(g) && Gaps(s.live, g.ticket, g.gapType) == 0
    ensures AllGaps(Next(c, s, Report(g)), g.ticket, g.gapType) == AllGaps(s, g.ticket, g.gapType) + 1
  {
    NewGapCounts(c, s.live, g);
    GapsOfHistory(s, g.ticket, g.gapType);
    GapsOfHistory(Next(c, s, Report(g)), g.ticket, g.gapType);
  }

  lemma ArchivingKeepsGaps(s: Store, t: string, gapType: string)
    ensures AllGaps(ArchiveTicket(s, t), t, gapType) == AllGaps(s, t, gapType)
  {
    EventLogProperties.ArchivingKeepsHistory(s, t, t);
  }

  /** The guard looks at the live log only: after archiving, the same gap is recorded again. */
  lemma ArchivedGapsAreForgotten(c: Config, s: Store, g: Gap)
    requires KeepsGapTypes(c.redact) && c.maxDuplicates >= 1 && IsValid(g)
    ensures var again := Next(c, Next(c, s, Do(Archive(g.ticket))), Report(g));
            AllGaps(again, g.ticket, g.gapType) == AllGaps(s, g.ticket, g.gapType) + 1
  {
    var archived := Next(c, s, Do(Archive(g.ticket)));
    assert archived == ArchiveTicket(s, g.ticket);
    NoGapLeft(s, g.ticket, g.gapType);
    ArchivingKeepsGaps(s, g.ticket, g.gapType);
    ReportedGapCounts(c, archived, g);
  }

  /** The path of a ticket's gap file, with slashes or backslashes, and with space around it. */
  ghost predicate IsPathOf(t: string, path: string) {
    exists before, core, after ::
      && path == before + core + after && Blank(before) && Blank(after) && SameButSlashes(core, "contract_gaps/CG-" + t + ".md")
  }

  predicate SameButSlashes(s: string, t: string) {
    |s| == |t| && forall i :: 0 <= i < |s| ==> s[i] == t[i] || (t[i] == '/' && s[i] == '\\')
  }

  lemma PaddedIsNormalized(t: string, before: string, core: string, after: string)
    requires Blank(before) && Blank(after) && SameButSlashes(core, CanonicalPath(t)) && TicketIds.IsTicketId(t)
    ensures Normalized(before + core + after) == CanonicalPath(t)
  {
    var path := before + core + after;
    var slashed := seq(|path|, i requires 0 <= i < |path| => if path[i] == '\\' then '/' else path[i]);
    NoBackslash(t);
    assert slashed == before + CanonicalPath(t) + after;
    StripPadded(before, CanonicalPath(t), after);
  }

  lemma NoBackslash(t: string)
    requires TicketIds.IsTicketId(t)
    ensures forall i :: 0 <= i < |CanonicalPath(t)| ==> CanonicalPath(t)[i] != '\\'
  {
    var (prefix, year, tail) := TicketIds.Parts(t).value;
    assert t == prefix + "-" + year + "-" + tail;
    forall i | 0 <= i < |t| ensures t[i] != '\\' {
      assert i < |prefix| ==> t[i] == prefix[i];
      assert |prefix| < i <= |prefix| + |year| ==> t[i] == year[i - |prefix| - 1];
      assert i >= |prefix| + |year| + 2 ==> t[i] == tail[i - |prefix| - |year| - 2];
    }
  }

  /** The three kinds of gap are taken, of a ticket the collector recognises, with the path of that ticket's file. */
  lemma GapsAreTaken(g: Gap)
    requires TicketIds.IsTicketId(g.ticket) && IsPathOf(g.ticket, g.path)
    ensures IsValid(g) <==> g.gapType == "premise_false" || g.gapType == "forbidden_surface_needed" || g.gapType == "missing_acceptance"
  {
    var before, core, after :|
      g.path == before + core + after && Blank(before) && Blank(after) && SameButSlashes(core, CanonicalPath(g.ticket));
    PaddedIsNormalized(g.ticket, before, core, after);
  }
}
