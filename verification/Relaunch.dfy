/** Reading and recording relaunch attempts on the bus. */
module Relaunching {
  import opened TicketStates
  import opened EventLog
  import EventLogProperties

  // ----- what the supervisor looks for in the log -----

  predicate IsAttemptFor(e: Event, t: string, trigger: int) {
    && e.ticket == t && e.kind == BuilderRelaunchAttempted
    && e.seqNo > trigger && e.payload.triggerSeq == Some(trigger)
  }

  ghost predicate HasRelaunched(log: seq<Event>, t: string, trigger: int) {
    exists e :: e in log && IsAttemptFor(e, t, trigger)
  }

  method HasRelaunchedForTrigger(log: seq<Event>, t: string, trigger: int) returns (found: bool)
    ensures found <==>
            exists e :: e in log && e.ticket == t && e.kind == BuilderRelaunchAttempted
                        && e.seqNo > trigger && e.payload.triggerSeq == Some(trigger)
    ensures found <==> HasRelaunched(log, t, trigger)
  {
    var events := OfTicket(log, t);
    var i := |events|;
    while i > 0
      invariant 0 <= i <= |events|
      invariant forall k :: i <= k < |events| ==> !IsAttemptFor(events[k], t, trigger)
    {
      i := i - 1;
      if IsAttemptFor(events[i], t, trigger) {
        assert events[i] in log;
        return true;
      }
    }
    forall e | e in log ensures !IsAttemptFor(e, t, trigger) {
      if e.ticket == t {
        assert e in events;
      }
    }
    return false;
  }

  predicate IsChanges(e: Event, t: string) {
    e.ticket == t && e.kind in {LoopDecision, ReviewDecision} && Upper(e.payload.decision) == "CHANGES"
  }

  ghost predicate IsLatestChanges(events: seq<Event>, t: string, latest: int) {
    && latest >= 0
    && (forall e :: e in events && IsChanges(e, t) ==> e.seqNo <= latest)
    && (latest > 0 ==> exists e :: e in events && IsChanges(e, t) && e.seqNo == latest)
  }

  lemma LatestChangesIsOne(events: seq<Event>, t: string, a: int, b: int)
    requires IsLatestChanges(events, t, a) && IsLatestChanges(events, t, b) && a > 0 && b > 0
    ensures a == b
  {
  }

  method LatestChangesTrigger(events: seq<Event>, t: string) returns (latest: int)
    ensures IsLatestChanges(events, t, latest)
  {
    latest := 0;
    for i := 0 to |events|
      invariant IsLatestChanges(events[..i], t, latest)
    {
      assert forall e :: e in events[..i + 1] <==> e in events[..i] || e == events[i];
      if IsChanges(events[i], t) && events[i].seqNo > latest {
        latest := events[i].seqNo;
      }
    }
    assert events[..|events|] == events;
  }

  predicate IsBlockAfter(e: Event, t: string, trigger: int) {
    e.ticket == t && e.kind == HandoffBlocked && e.seqNo > trigger
  }

  /** The greatest number of a HANDOFF_BLOCKED above the trigger, or 0. */
  method HandoffBlockedAfter(log: seq<Event>, t: string, trigger: int) returns (blocking: int)
    requires trigger >= 0
    ensures blocking >= 0
    ensures forall e :: e in log && IsBlockAfter(e, t, trigger) ==> e.seqNo <= blocking
    ensures blocking > 0 ==> exists e :: e in log && IsBlockAfter(e, t, trigger) && e.seqNo == blocking
    ensures blocking == 0 <==> forall e :: e in log && e.ticket == t && e.kind == HandoffBlocked ==> e.seqNo <= trigger
  {
    blocking := 0;
    for i := 0 to |log|
      invariant blocking >= 0
      invariant forall e :: e in log[..i] && IsBlockAfter(e, t, trigger) ==> e.seqNo <= blocking
      invariant blocking > 0 ==> exists e :: e in log[..i] && IsBlockAfter(e, t, trigger) && e.seqNo == blocking
    {
      assert forall e :: e in log[..i + 1] <==> e in log[..i] || e == log[i];
      if IsBlockAfter(log[i], t, trigger) && log[i].seqNo > blocking {
        blocking := log[i].seqNo;
      }
    }
    assert log[..|log|] == log;
  }

  // ----- the log that attempts are recorded in -----

  /** Redaction does not touch numbers. */
  ghost predicate KeepsTriggers(redact: Payload -> Payload) {
    forall p: Payload {:trigger redact(p)} :: redact(p).triggerSeq == p.triggerSeq
  }

  /** Every attempt was recorded after the trigger it names. */
  ghost predicate AttemptsFollowTriggers(log: seq<Event>) {
    forall i :: 0 <= i < |log| && log[i].kind == BuilderRelaunchAttempted && log[i].payload.triggerSeq.Some? ==>
      log[i].payload.triggerSeq.value < log[i].seqNo
  }

  /** A request for an attempt names a trigger that is in the log already. */
  predicate NamesPastTrigger(log: seq<Event>, r: Request) {
    r.kind == BuilderRelaunchAttempted && r.payload.triggerSeq.Some? ==> r.payload.triggerSeq.value <= LastSeq(log)
  }

  function EmittedAll(c: Config, log: seq<Event>, rs: seq<Request>): seq<Event> {
    if rs == [] then log else Emitted(c, EmittedAll(c, log, rs[..|rs| - 1]), rs[|rs| - 1])
  }

  lemma {:induction false} EmitsExtend(c: Config, log: seq<Event>, rs: seq<Request>)
    ensures log <= EmittedAll(c, log, rs)
    ensures LastSeq(log) <= LastSeq(EmittedAll(c, log, rs))
  {
    if rs != [] {
      EmitsExtend(c, log, rs[..|rs| - 1]);
    }
  }

  lemma {:induction false} EmitsKeepAttempts(c: Config, log: seq<Event>, rs: seq<Request>)
    requires KeepsTriggers(c.redact) && AttemptsFollowTriggers(log)
    requires forall r :: r in rs ==> NamesPastTrigger(log, r)
    ensures AttemptsFollowTriggers(EmittedAll(c, log, rs))
  {
    if rs != [] {
      var init, r := rs[..|rs| - 1], rs[|rs| - 1];
      EmitsKeepAttempts(c, log, init);
      EmitsExtend(c, log, init);
      assert NamesPastTrigger(log, r);
      assert c.redact(r.payload).triggerSeq == r.payload.triggerSeq;
    }
  }

  lemma {:induction false} CountedIsThere(log: seq<Event>, f: Fingerprint) returns (i: nat)
    requires CountSame(log, f) > 0
    ensures i < |log| && PrintOf(log[i]) == f
  {
    if PrintOf(log[|log| - 1]) == f {
      i := |log| - 1;
    } else {
      i := CountedIsThere(log[..|log| - 1], f);
    }
  }

  /**
   After an attempt for a trigger was sent to the bus, the trigger counts as
   relaunched exactly when it lies in the live log's numbers; that the duplicate
   guard may have dropped the event makes no difference.
   */
  lemma AttemptIsFound(c: Config, log: seq<Event>, r: Request, trigger: int)
    requires KeepsTriggers(c.redact) && c.maxDuplicates >= 1
    requires EventLogProperties.Numbered(log) && AttemptsFollowTriggers(log)
    requires r.kind == BuilderRelaunchAttempted && r.payload.triggerSeq == Some(trigger)
    ensures HasRelaunched(Emitted(c, log, r), r.ticket, trigger) <==> trigger <= LastSeq(log)
  {
    var after := Emitted(c, log, r);
    assert c.redact(r.payload).triggerSeq == r.payload.triggerSeq;
    if trigger <= LastSeq(log) {
      if Accepts(c, log, r) {
        assert Stamped(c, log, r) in after;
      } else {
        var recent := Recent(log, c.windowSize);
        var i := CountedIsThere(recent, RequestPrint(c, r));
        assert recent[i] in log;
        var k :| 0 <= k < |log| && log[k] == recent[i];
        assert IsAttemptFor(log[k], r.ticket, trigger);
      }
    } else {
      forall e | e in after ensures !IsAttemptFor(e, r.ticket, trigger) {
      }
    }
  }

  lemma StepKeepsRelaunched(c: Config, s: Store, cmd: Command, t: string, trigger: int)
    requires HasRelaunched(s.live, t, trigger) && cmd != Archive(t)
    ensures HasRelaunched(Apply(c, s, cmd).live, t, trigger)
  {
    var e :| e in s.live && IsAttemptFor(e, t, trigger);
    assert e in Apply(c, s, cmd).live;
  }

  /** A recorded relaunch stays recorded until the ticket itself is archived. */
  lemma {:induction false} RunKeepsRelaunched(c: Config, s: Store, cmds: seq<Command>, t: string, trigger: int)
    requires HasRelaunched(s.live, t, trigger) && Archive(t) !in cmds
    ensures HasRelaunched(Run(c, s, cmds).live, t, trigger)
  {
    if cmds != [] {
      assert forall x :: x in cmds[..|cmds| - 1] ==> x in cmds;
      assert cmds[|cmds| - 1] in cmds;
      RunKeepsRelaunched(c, s, cmds[..|cmds| - 1], t, trigger);
      StepKeepsRelaunched(c, Run(c, s, cmds[..|cmds| - 1]), cmds[|cmds| - 1], t, trigger);
    }
  }

  // ----- relaunching -----

  /** What the outside world answers during one relaunch, and what it writes to the bus meanwhile. */
  datatype Launch = Launch(
    alive: bool,
    topologyValid: bool,
    launcherFound: bool,
    shellFound: bool,
    exitCode: int,
    timedOut: bool,
    verified: bool,
    stderrTail: Scalar,
    meanwhile: seq<Request>)

  datatype Outcome =
    | SkippedAlive | TopologyInvalid | LauncherFailed | Timeout
    | StartedVerified | LaunchUnverified

  function OutcomeName(o: Outcome): string {
    match o
    case SkippedAlive => "skipped_alive"
    case TopologyInvalid => "topology_invalid"
    case LauncherFailed => "launcher_failed"
    case Timeout => "timeout"
    case StartedVerified => "builder_started_verified"
    case LaunchUnverified => "builder_launch_unverified"
  }

  function Attempt(t: string, trigger: int, round: int, o: Outcome, exitCode: Scalar, signal: string, tail: Scalar): Request {
    Request(BuilderRelaunchAttempted, t, "SUPERVISOR",
            Payload("", "", "", Some(trigger), None,
                    map["round" := Number(round), "outcome" := Text(OutcomeName(o)), "launcher_exit_code" := exitCode,
                        "verify_signal" := Text(signal), "stderr_tail" := tail]),
            false, "", "")
  }

  /** The first obstacle decides the outcome; a launch counts when its exit code is 0. */
  function OutcomeOf(launch: Launch): Outcome {
    if launch.alive then SkippedAlive
    else if !launch.topologyValid then TopologyInvalid
    else if launch.launcherFound && launch.shellFound && launch.exitCode == 0 then
      (if launch.verified then StartedVerified else LaunchUnverified)
    else if launch.launcherFound && launch.shellFound && launch.exitCode == -1 && launch.timedOut then Timeout
    else LauncherFailed
  }

  /** The launcher's exit code, where it was run; none for a living Builder. */
  function CodeOf(launch: Launch): Scalar {
    if launch.alive then Null
    else if launch.topologyValid && launch.launcherFound && launch.shellFound then Number(launch.exitCode)
    else Number(-1)
  }

  function SignalOf(launch: Launch): string {
    if OutcomeOf(launch) == StartedVerified then "builder_lock" else "none"
  }

  function TailOf(launch: Launch): Scalar {
    if launch.alive then Text("Builder alive, skipped") else launch.stderrTail
  }

  /** The attempt that the exit taken records. */
  function AttemptOf(t: string, trigger: int, round: int, launch: Launch): Request {
    Attempt(t, trigger, round, OutcomeOf(launch), CodeOf(launch), SignalOf(launch), TailOf(launch))
  }

  /** The launcher was run and came back with 0. */
  predicate Launched(launch: Launch) {
    !launch.alive && launch.topologyValid && launch.launcherFound && launch.shellFound && launch.exitCode == 0
  }

  lemma NamesDiffer(a: Outcome, b: Outcome)
    requires a != b
    ensures OutcomeName(a) != OutcomeName(b)
  {
    assert |OutcomeName(a)| != |OutcomeName(b)|;
  }

  lemma OutcomeIsRecorded(t: string, trigger: int, round: int, launch: Launch, o: Outcome)
    ensures AttemptOf(t, trigger, round, launch).payload.rest["outcome"] == Text(OutcomeName(o)) <==> OutcomeOf(launch) == o
  {
    if OutcomeOf(launch) != o {
      NamesDiffer(OutcomeOf(launch), o);
    }
  }

  /** The recorded outcome is one that a relaunch answers True with. */
  predicate TellsSuccess(recorded: map<string, Scalar>) {
    "outcome" in recorded &&
    recorded["outcome"] in {Text(OutcomeName(SkippedAlive)), Text(OutcomeName(StartedVerified)), Text(OutcomeName(LaunchUnverified))}
  }

  /** The log tells what the relaunch answered, and the exit code 0 stands exactly beside a launch. */
  lemma AttemptTellsAnswer(t: string, trigger: int, round: int, launch: Launch)
    ensures var recorded := AttemptOf(t, trigger, round, launch).payload.rest;
            && (TellsSuccess(recorded) <==> launch.alive || Launched(launch))
            && (recorded["launcher_exit_code"] == Number(0) <==> Launched(launch))
  {
    OutcomeIsRecorded(t, trigger, round, launch, SkippedAlive);
    OutcomeIsRecorded(t, trigger, round, launch, StartedVerified);
    OutcomeIsRecorded(t, trigger, round, launch, LaunchUnverified);
  }

  method EmitAll(bus: EventBus, rs: seq<Request>)
    modifies bus
    ensures bus.live == EmittedAll(bus.config, old(bus.live), rs) && bus.archives == old(bus.archives)
  {
    for i := 0 to |rs|
      invariant bus.live == EmittedAll(bus.config, old(bus.live), rs[..i]) && bus.archives == old(bus.archives)
    {
      assert rs[..i + 1][..i] == rs[..i];
      var _ := bus.Emit(rs[i]);
    }
    assert rs[..|rs|] == rs;
  }

  /** A live log in which attempts can be looked up. */
  ghost predicate Searchable(c: Config, log: seq<Event>) {
    && c.maxDuplicates >= 1 && KeepsTriggers(c.redact)
    && EventLogProperties.Numbered(log) && AttemptsFollowTriggers(log)
  }

  lemma MeanwhileKeepsLog(c: Config, log: seq<Event>, rs: seq<Request>)
    requires Searchable(c, log) && forall r :: r in rs ==> NamesPastTrigger(log, r)
    ensures Searchable(c, EmittedAll(c, log, rs))
    ensures log <= EmittedAll(c, log, rs) && LastSeq(log) <= LastSeq(EmittedAll(c, log, rs))
  {
    EmitsExtend(c, log, rs);
    EmitsKeepAttempts(c, log, rs);
    EmitsKeepNumbers(c, log, rs);
  }

  method LaunchOutcome(launch: Launch) returns (outcome: Outcome, code: Scalar, signal: string, tail: Scalar)
    ensures outcome == OutcomeOf(launch) && code == CodeOf(launch)
    ensures signal == SignalOf(launch) && tail == TailOf(launch)
  {
    outcome, code, signal, tail := LauncherFailed, Number(-1), "none", launch.stderrTail;
    if launch.alive {
      outcome, code, tail := SkippedAlive, Null, Text("Builder alive, skipped");
    } else if !launch.topologyValid {
      outcome := TopologyInvalid;
    } else if launch.launcherFound && launch.shellFound {
      code := Number(launch.exitCode);
      if launch.exitCode == 0 {
        outcome := LaunchUnverified;
        if launch.verified {
          outcome, signal := StartedVerified, "builder_lock";
        }
      } else if launch.exitCode == -1 && launch.timedOut {
        outcome := Timeout;
      }
    }
  }

  /** The bus after a relaunch: what others wrote meanwhile, and the attempt. */
  function Relaunched(c: Config, log: seq<Event>, t: string, trigger: int, round: int, launch: Launch): seq<Event> {
    Emitted(c, EmittedAll(c, log, launch.meanwhile), AttemptOf(t, trigger, round, launch))
  }

  /**
   Every exit records an attempt for the trigger. If the trigger is on the bus,
   it counts as relaunched afterwards, whatever the launcher did.
   */
  method RelaunchBuilder(bus: EventBus, t: string, trigger: int, round: int, launch: Launch) returns (ok: bool)
    requires Searchable(bus.config, bus.live) && trigger <= LastSeq(bus.live)
    requires forall r :: r in launch.meanwhile ==> NamesPastTrigger(bus.live, r)
    modifies bus
    ensures Searchable(bus.config, bus.live) && HasRelaunched(bus.live, t, trigger)
    ensures old(bus.live) <= bus.live && bus.archives == old(bus.archives)
    ensures ok <==> launch.alive || Launched(launch)
    ensures ok <==> TellsSuccess(AttemptOf(t, trigger, round, launch).payload.rest)
    ensures bus.live == Relaunched(bus.config, old(bus.live), t, trigger, round, launch)
  {
    MeanwhileKeepsLog(bus.config, bus.live, launch.meanwhile);
    EmitAll(bus, launch.meanwhile);
    var outcome, code, signal, tail := LaunchOutcome(launch);
    ok := outcome in {SkippedAlive, StartedVerified, LaunchUnverified};
    AttemptTellsAnswer(t, trigger, round, launch);
    var attempt := Attempt(t, trigger, round, outcome, code, signal, tail);
    RecordingKeepsLog(bus.config, bus.live, attempt, trigger);
    var _ := bus.Emit(attempt);
  }

  lemma RecordingKeepsLog(c: Config, log: seq<Event>, r: Request, trigger: int)
    requires Searchable(c, log) && trigger <= LastSeq(log)
    requires r.kind == BuilderRelaunchAttempted && r.payload.triggerSeq == Some(trigger)
    ensures Searchable(c, Emitted(c, log, r)) && log <= Emitted(c, log, r)
    ensures HasRelaunched(Emitted(c, log, r), r.ticket, trigger)
  {
    AttemptIsFound(c, log, r, trigger);
    EmitsKeepAttempts(c, log, [r]);
    EmitsKeepNumbers(c, log, [r]);
    assert [r][..0] == [];
    assert EmittedAll(c, log, [r]) == Emitted(c, log, r);
  }

  lemma {:induction false} EmitsKeepNumbers(c: Config, log: seq<Event>, rs: seq<Request>)
    requires EventLogProperties.Numbered(log)
    ensures EventLogProperties.Numbered(EmittedAll(c, log, rs))
  {
    if rs != [] {
      EmitsKeepNumbers(c, log, rs[..|rs| - 1]);
    }
  }
}
