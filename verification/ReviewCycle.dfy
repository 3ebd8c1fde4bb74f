/** One review cycle: attempts at a backend that may fail in any way, and the events it leaves. */
module ReviewCycle {
  import opened TicketStates
  import opened EventLog
  import opened Texts
  import opened DecisionParser
  import opened Relaunching
  import Reentry

  datatype Backend = OpenCode | Legacy

  /**
   What one call of the backend brings: its output, whether that output looks
   like a refused login or a help page, the decision artifact that was found
   fresh, and the review text with its blockers section, cut out of the output.
   notes holds the fields of the attempt event that decide nothing.
   */
  datatype Outcome = Outcome(
    transcript: Transcript, stderr: string, exitCode: int,
    authFailure: bool, help: bool,
    artifact: Option<Decision>,
    text: string, blockers: string,
    notes: map<string, Scalar>)

  /** The artifact is read only if it states a strong decision. */
  predicate IsOutcome(o: Outcome) {
    o.artifact.Some? ==> IsStrong(o.artifact.value)
  }

  predicate TransportOk(o: Outcome) {
    TimedOut(o.stderr) || (o.exitCode == 0 && !o.authFailure && !o.help)
  }

  function ReadLegacy(o: Outcome): Decision {
    var text := Upper(o.transcript.raw);
    if Contains(text, "CHANGES") then Changes
    else if Contains(text, "APPROVE") && o.exitCode == 0 then Approve
    else Inspect
  }

  /** What an attempt decides, before the structure of a CHANGES is looked at. */
  function Verdict(backend: Backend, o: Outcome): (Decision, Method) {
    if !TransportOk(o) then (TransportFailed, TransportFailure)
    else if backend == Legacy then (ReadLegacy(o), LegacyManager)
    else if o.artifact.Some? then (o.artifact.value, DecisionArtifact)
    else Parse(o.transcript)
  }

  predicate StructureValid(text: string) {
    var upper := Upper(text);
    && Contains(upper, "## SUMMARY") && Contains(upper, "## BLOCKERS")
    && Contains(upper, "## SUGGESTIONS") && Contains(upper, "DECISION: CHANGES")
  }

  /** A CHANGES without its sections, or without blockers, counts as INSPECT. */
  function Enforced(backend: Backend, o: Outcome): Decision {
    var decision := Verdict(backend, o).0;
    if decision == Changes && (!StructureValid(o.text) || Blank(o.blockers)) then Inspect else decision
  }

  /** Another attempt follows. */
  predicate Retries(backend: Backend, o: Outcome, attempt: nat, maxAttempts: int) {
    Enforced(backend, o) in {Inspect, Decision.Unknown} && TimedOut(o.stderr) && attempt < maxAttempts
  }

  /** What the cycle makes of its last attempt: an INSPECT after a time-out is a transport failure. */
  function Settled(backend: Backend, o: Outcome): Decision {
    var decision := if Enforced(backend, o) == Decision.Unknown then Inspect else Enforced(backend, o);
    if decision == Inspect && TimedOut(o.stderr) then TransportFailed else decision
  }

  function Word(d: Decision): string {
    match d
    case Approve => "approve"
    case Changes => "changes"
    case Inspect => "inspect"
    case Unknown => "unknown"
    case TransportFailed => "transport_failed"
  }

  // ----- events -----

  function AttemptRequest(t: string, backend: Backend, o: Outcome, attempt: nat): Request {
    var payload := EMPTY_PAYLOAD.(
      decision := Word(Enforced(backend, o)),
      rest := o.notes["attempt" := Number(attempt)]["exit_code" := Number(o.exitCode)]);
    Request(OtherKind("MANAGER_REVIEW_ATTEMPT"), t, "MANAGER", payload, false, "", "")
  }

  function AttemptRequests(t: string, backend: Backend, outcomes: seq<Outcome>): seq<Request> {
    if outcomes == [] then []
    else
      var last := |outcomes| - 1;
      AttemptRequests(t, backend, outcomes[..last]) + [AttemptRequest(t, backend, outcomes[last], |outcomes|)]
  }

  function FinalRequest(t: string, backend: Backend, o: Outcome): Request {
    var decision := Settled(backend, o);
    if decision == TransportFailed then
      Request(OtherKind("REVIEW_TRANSPORT_FAILED"), t, "MANAGER",
              EMPTY_PAYLOAD.(rest := o.notes["exit_code" := Number(o.exitCode)]), false, "", "")
    else
      var blockers := if decision == Changes then o.blockers else "";
      Request(ReviewDecision, t, "MANAGER",
              EMPTY_PAYLOAD.(decision := Word(decision), blockers := Some(blockers), rest := o.notes), false, "", "")
  }

  /** Every event a cycle with these attempts emits, in order. */
  function CycleRequests(t: string, backend: Backend, outcomes: seq<Outcome>): seq<Request> {
    if outcomes == [] then []
    else AttemptRequests(t, backend, outcomes) + [FinalRequest(t, backend, outcomes[|outcomes| - 1])]
  }

  predicate RetriedAt(backend: Backend, outcomes: seq<Outcome>, i: nat, maxAttempts: int) {
    i < |outcomes| && Retries(backend, outcomes[i], i + 1, maxAttempts)
  }

  /** The first n attempts were all retried. */
  ghost predicate AllRetried(backend: Backend, outcomes: seq<Outcome>, n: nat, maxAttempts: int) {
    n == 0 || (AllRetried(backend, outcomes, n - 1, maxAttempts) && RetriedAt(backend, outcomes, n - 1, maxAttempts))
  }

  /** n attempts make a cycle: all but the last were retried, the last was not. */
  ghost predicate IsCycle(backend: Backend, outcomes: seq<Outcome>, n: nat, maxAttempts: int) {
    && n <= |outcomes|
    && (n > 0 <==> maxAttempts > 0)
    && n <= (if maxAttempts < 0 then 0 else maxAttempts)
    && (n > 0 ==> AllRetried(backend, outcomes, n - 1, maxAttempts) && !AllRetried(backend, outcomes, n, maxAttempts))
  }

  lemma EmitOneMore(c: Config, log: seq<Event>, rs: seq<Request>, r: Request)
    ensures EmittedAll(c, log, rs + [r]) == Emitted(c, EmittedAll(c, log, rs), r)
  {
    assert (rs + [r])[..|rs|] == rs;
  }

  lemma AttemptsGrow(c: Config, log: seq<Event>, t: string, backend: Backend, outcomes: seq<Outcome>, n: nat)
    requires n < |outcomes|
    ensures EmittedAll(c, log, AttemptRequests(t, backend, outcomes[..n + 1]))
         == Emitted(c, EmittedAll(c, log, AttemptRequests(t, backend, outcomes[..n])), AttemptRequest(t, backend, outcomes[n], n + 1))
  {
    assert outcomes[..n + 1][..n] == outcomes[..n];
    EmitOneMore(c, log, AttemptRequests(t, backend, outcomes[..n]), AttemptRequest(t, backend, outcomes[n], n + 1));
  }

  /** The bus has gone from start to what these attempts make of it. */
  ghost predicate Logged(bus: EventBus, start: Store, rs: seq<Request>)
    reads bus
  {
    bus.live == EmittedAll(bus.config, start.live, rs) && bus.archives == start.archives
  }

  /** The attempt that number says: its decision, the event that records it, and whether another follows. */
  method Attempt(bus: EventBus, t: string, backend: Backend, maxAttempts: int, outcomes: seq<Outcome>, number: nat,
                 ghost before: nat, ghost start: Store)
    returns (again: bool)
    requires number == before + 1 <= |outcomes| && Logged(bus, start, AttemptRequests(t, backend, outcomes[..before]))
    modifies bus
    ensures AllRetried(backend, outcomes, number, maxAttempts) <==> AllRetried(backend, outcomes, before, maxAttempts) && again
    ensures again ==> number < maxAttempts
    ensures Logged(bus, start, AttemptRequests(t, backend, outcomes[..number]))
  {
    var o := outcomes[number - 1];
    var decision := Judge(backend, o);
    AttemptsGrow(bus.config, start.live, t, backend, outcomes, before);
    var _ := bus.Emit(AttemptRequest(t, backend, o, number));
    again := decision in {Inspect, Decision.Unknown} && TimedOut(o.stderr) && number < maxAttempts;
  }

  method Judge(backend: Backend, o: Outcome) returns (decision: Decision)
    ensures decision == Enforced(backend, o)
  {
    decision := Verdict(backend, o).0;
    if decision == Changes {
      if !StructureValid(o.text) {
        decision := Inspect;
      } else if Blank(o.blockers) {
        decision := Inspect;
      }
    }
  }

  /** Attempts until one is not retried. */
  method RunAttempts(bus: EventBus, t: string, backend: Backend, maxAttempts: int, outcomes: seq<Outcome>)
    returns (attempts: nat)
    requires |outcomes| >= maxAttempts
    modifies bus
    ensures IsCycle(backend, outcomes, attempts, maxAttempts)
    ensures Logged(bus, old(bus.Contents()), AttemptRequests(t, backend, outcomes[..attempts]))
  {
    attempts := 0;
    var again := true;
    ghost var retried: nat := 0;
    while attempts < maxAttempts && again
      invariant attempts <= |outcomes| && (attempts == 0 || attempts <= maxAttempts)
      invariant attempts == if again then retried else retried + 1
      invariant AllRetried(backend, outcomes, retried, maxAttempts)
      invariant again == AllRetried(backend, outcomes, attempts, maxAttempts)
      invariant again ==> attempts == 0 || attempts < maxAttempts
      invariant Logged(bus, old(bus.Contents()), AttemptRequests(t, backend, outcomes[..attempts]))
    {
      ghost var before := attempts;
      attempts := attempts + 1;
      again := Attempt(bus, t, backend, maxAttempts, outcomes, attempts, before, old(bus.Contents()));
      retried := if again then attempts else retried;
    }
  }

  /** The one event that closes a cycle with attempts. */
  method EmitFinal(bus: EventBus, t: string, backend: Backend, made: seq<Outcome>, ghost start: Store)
    requires made != [] && Logged(bus, start, AttemptRequests(t, backend, made))
    modifies bus
    ensures Logged(bus, start, CycleRequests(t, backend, made))
  {
    var last := made[|made| - 1];
    EmitOneMore(bus.config, start.live, AttemptRequests(t, backend, made), FinalRequest(t, backend, last));
    var _ := bus.Emit(FinalRequest(t, backend, last));
  }

  /**
   Without any attempt the cycle trips over variables that were never set, and
   its fail-safe returns INSPECT with no event.
   */
  method RunCycle(bus: EventBus, t: string, backend: Backend, maxAttempts: int, outcomes: seq<Outcome>)
    returns (decision: Decision, attempts: nat)
    requires |outcomes| >= maxAttempts
    modifies bus
    ensures IsCycle(backend, outcomes, attempts, maxAttempts)
    ensures decision == if attempts == 0 then Inspect else Settled(backend, outcomes[attempts - 1])
    ensures Logged(bus, old(bus.Contents()), CycleRequests(t, backend, outcomes[..attempts]))
    ensures CycleEarns(bus.config, bus.live, |old(bus.live)|, t, backend, outcomes[..attempts])
  {
    attempts := RunAttempts(bus, t, backend, maxAttempts, outcomes);
    if attempts == 0 {
      return Inspect, 0;
    }
    EmitFinal(bus, t, backend, outcomes[..attempts], old(bus.Contents()));
    decision := Settled(backend, outcomes[attempts - 1]);
    DecisionsAreEarned(bus.config, old(bus.live), t, backend, outcomes[..attempts]);
  }

  // ----- what the decisions mean -----

  /** The backend was reached: a time-out counts as reached, whatever else there is. */
  ghost predicate Reached(o: Outcome) {
    Occurs(o.stderr, "TimeoutExpired") || (o.exitCode == 0 && !o.authFailure && !o.help)
  }

  /**
   The output of the backend states d: by the artifact, or, without any, by the
   first final answer that states a decision. The legacy route looks for the bare
   words, and believes an approval only after exit code 0.
   */
  ghost predicate Says(backend: Backend, o: Outcome, d: Decision) {
    match backend
    case OpenCode =>
      (match o.artifact
       case Some(stated) => stated == d
       case None => exists i: nat :: DecidesFirst(o.transcript.events, i, d))
    case Legacy =>
      var changes := Marked(o.transcript.raw, "CHANGES");
      if d == Changes then changes else Marked(o.transcript.raw, "APPROVE") && !changes && o.exitCode == 0
  }

  /** All four marks stand in the review, and its blockers say something. */
  ghost predicate Structured(o: Outcome) {
    && Marked(o.text, "## SUMMARY") && Marked(o.text, "## BLOCKERS")
    && Marked(o.text, "## SUGGESTIONS") && Marked(o.text, "DECISION: CHANGES")
    && exists i :: 0 <= i < |o.blockers| && o.blockers[i] !in {' ', '\t', '\n', '\r'}
  }

  lemma TimedOutIff(o: Outcome)
    ensures TimedOut(o.stderr) <==> Occurs(o.stderr, "TimeoutExpired")
    ensures TransportOk(o) <==> Reached(o)
  {
    ContainsIffOccurs(o.stderr, "TimeoutExpired");
  }

  lemma LegacyIsSaid(o: Outcome, d: Decision)
    requires IsStrong(d)
    ensures ReadLegacy(o) == d <==> Says(Legacy, o, d)
  {
    MarkedIff(o.transcript.raw, "CHANGES");
    MarkedIff(o.transcript.raw, "APPROVE");
  }

  lemma VerdictIsSaid(backend: Backend, o: Outcome, d: Decision)
    requires IsStrong(d) && IsOutcome(o)
    ensures Verdict(backend, o).0 == d <==> Reached(o) && Says(backend, o, d)
  {
    TimedOutIff(o);
    if backend == Legacy {
      LegacyIsSaid(o, d);
    } else {
      StrongOnlyFromFinalAnswer(o.transcript, d);
    }
  }

  lemma StructuredIff(o: Outcome)
    ensures StructureValid(o.text) && !Blank(o.blockers) <==> Structured(o)
  {
    MarkedIff(o.text, "## SUMMARY");
    MarkedIff(o.text, "## BLOCKERS");
    MarkedIff(o.text, "## SUGGESTIONS");
    MarkedIff(o.text, "DECISION: CHANGES");
    BlankIff(o.blockers);
  }

  lemma BlankIff(s: string)
    ensures Blank(s) <==> forall i :: 0 <= i < |s| ==> s[i] in {' ', '\t', '\n', '\r'}
  {
  }

  /** A CHANGES that keeps its decision. */
  ghost predicate SaysValidChanges(backend: Backend, o: Outcome) {
    Says(backend, o, Changes) && Structured(o)
  }

  /** No backend and no parser answers UNKNOWN, so the branch for it is never taken. */
  lemma VerdictIsKnown(backend: Backend, o: Outcome)
    requires IsOutcome(o)
    ensures Verdict(backend, o).0 in {Approve, Changes, Inspect, TransportFailed}
    ensures Verdict(backend, o).0 == TransportFailed <==> !Reached(o)
  {
    TimedOutIff(o);
    WeakIsInspect(o.transcript);
  }

  lemma EnforcedIff(backend: Backend, o: Outcome)
    requires IsOutcome(o)
    ensures Enforced(backend, o) == Approve <==> Reached(o) && Says(backend, o, Approve)
    ensures Enforced(backend, o) == Changes <==> Reached(o) && SaysValidChanges(backend, o)
    ensures Enforced(backend, o) == TransportFailed <==> !Reached(o)
    ensures Enforced(backend, o) in {Approve, Changes, Inspect, TransportFailed}
  {
    VerdictIsSaid(backend, o, Approve);
    VerdictIsSaid(backend, o, Changes);
    VerdictIsKnown(backend, o);
    StructuredIff(o);
  }

  /**
   What a cycle makes of its last attempt, over what the attempt brought. CHANGES
   survives exactly with its four marks and with blockers that say something; a
   time-out without a decision is a transport failure, never an INSPECT.
   */
  lemma SettledIff(backend: Backend, o: Outcome)
    requires IsOutcome(o)
    ensures Settled(backend, o) == Approve <==> Reached(o) && Says(backend, o, Approve)
    ensures Settled(backend, o) == Changes <==> Reached(o) && SaysValidChanges(backend, o)
    ensures Settled(backend, o) == Inspect <==>
              && Reached(o) && !Says(backend, o, Approve) && !SaysValidChanges(backend, o)
              && !Occurs(o.stderr, "TimeoutExpired")
    ensures Settled(backend, o) in {Approve, Changes, Inspect, TransportFailed}
  {
    EnforcedIff(backend, o);
    TimedOutIff(o);
  }

  lemma RetriedIff(backend: Backend, o: Outcome, attempt: nat, maxAttempts: int)
    requires IsOutcome(o)
    ensures Retries(backend, o, attempt, maxAttempts) <==>
              && attempt < maxAttempts && Occurs(o.stderr, "TimeoutExpired")
              && !Says(backend, o, Approve) && !SaysValidChanges(backend, o)
  {
    EnforcedIff(backend, o);
    TimedOutIff(o);
  }

  /** Only a time-out that states no decision is ever retried. */
  lemma {:induction false} OnlyTimeoutsAreRetried(backend: Backend, outcomes: seq<Outcome>, n: nat, maxAttempts: int, i: nat)
    requires AllRetried(backend, outcomes, n, maxAttempts) && i < n
    requires forall o :: o in outcomes ==> IsOutcome(o)
    ensures i < |outcomes| && i + 1 < maxAttempts && Occurs(outcomes[i].stderr, "TimeoutExpired")
    ensures !Says(backend, outcomes[i], Approve) && !SaysValidChanges(backend, outcomes[i])
  {
    if i < n - 1 {
      OnlyTimeoutsAreRetried(backend, outcomes, n - 1, maxAttempts, i);
    } else {
      assert outcomes[i] in outcomes;
      RetriedIff(backend, outcomes[i], n, maxAttempts);
    }
  }

  /** Final answer i says "DECISION: APPROVE" and not "DECISION: CHANGES", and none before it states anything. */
  ghost predicate ApprovesAt(events: seq<TextEvent>, i: nat) {
    && i < |events| && events[i].phase == "final_answer"
    && Marked(events[i].text, "DECISION: APPROVE") && !Marked(events[i].text, "DECISION: CHANGES")
    && forall k :: 0 <= k < i ==> FinalSilent(events[k])
  }

  /**
   With OpenCode, an approval needs an artifact that approves, or, without any
   artifact, a first deciding final answer that says so.
   */
  lemma ApprovalIsExplicit(o: Outcome)
    requires IsOutcome(o)
    ensures Settled(OpenCode, o) == Approve <==>
            && Reached(o)
            && (match o.artifact
                case Some(d) => d == Approve
                case None => exists i: nat :: ApprovesAt(o.transcript.events, i))
  {
    SettledIff(OpenCode, o);
    forall i: nat ensures DecidesFirst(o.transcript.events, i, Approve) <==> ApprovesAt(o.transcript.events, i) {
    }
  }

  // ----- what the events mean -----

  function CountKind(log: seq<Event>, k: Kind): nat {
    if log == [] then 0 else CountKind(log[..|log| - 1], k) + (if log[|log| - 1].kind == k then 1 else 0)
  }

  function CountRequests(rs: seq<Request>, k: Kind): nat {
    if rs == [] then 0 else CountRequests(rs[..|rs| - 1], k) + (if rs[|rs| - 1].kind == k then 1 else 0)
  }

  lemma {:induction false} EmitsAddAtMost(c: Config, log: seq<Event>, rs: seq<Request>, k: Kind)
    ensures CountKind(log, k) <= CountKind(EmittedAll(c, log, rs), k) <= CountKind(log, k) + CountRequests(rs, k)
  {
    if rs != [] {
      var init, r := rs[..|rs| - 1], rs[|rs| - 1];
      EmitsAddAtMost(c, log, init, k);
      var before := EmittedAll(c, log, init);
      assert (before + [Stamped(c, before, r)])[..|before|] == before;
    }
  }

  lemma {:induction false} AttemptsDecideNothing(t: string, backend: Backend, outcomes: seq<Outcome>)
    ensures CountRequests(AttemptRequests(t, backend, outcomes), ReviewDecision) == 0
    ensures forall r :: r in AttemptRequests(t, backend, outcomes) ==> !DecidesState(r.kind)
  {
    if outcomes != [] {
      var init := outcomes[..|outcomes| - 1];
      AttemptsDecideNothing(t, backend, init);
      var rs := AttemptRequests(t, backend, outcomes);
      assert rs[..|rs| - 1] == AttemptRequests(t, backend, init);
    }
  }

  predicate Holds(fields: map<string, Scalar>, name: string, value: Scalar) {
    name in fields && fields[name] == value
  }

  /** Attempt i is recorded under its number, with its exit code and what it decided. */
  lemma {:induction false} AttemptsAreRecorded(t: string, backend: Backend, outcomes: seq<Outcome>, i: nat)
    requires i < |outcomes| && IsOutcome(outcomes[i])
    ensures |AttemptRequests(t, backend, outcomes)| == |outcomes|
    ensures var r := AttemptRequests(t, backend, outcomes)[i];
            && r.ticket == t && r.kind == OtherKind("MANAGER_REVIEW_ATTEMPT")
            && Holds(r.payload.rest, "attempt", Number(i + 1))
            && Holds(r.payload.rest, "exit_code", Number(outcomes[i].exitCode))
            && (r.payload.decision == "approve" <==> Reached(outcomes[i]) && Says(backend, outcomes[i], Approve))
            && (r.payload.decision == "changes" <==> Reached(outcomes[i]) && SaysValidChanges(backend, outcomes[i]))
  {
    if i == |outcomes| - 1 {
      AttemptCount(t, backend, outcomes);
      EnforcedIff(backend, outcomes[i]);
      WordsDiffer(Enforced(backend, outcomes[i]));
    } else {
      AttemptCount(t, backend, outcomes);
      AttemptsAreRecorded(t, backend, outcomes[..|outcomes| - 1], i);
    }
  }

  lemma {:induction false} AttemptCount(t: string, backend: Backend, outcomes: seq<Outcome>)
    ensures |AttemptRequests(t, backend, outcomes)| == |outcomes|
  {
    if outcomes != [] {
      AttemptCount(t, backend, outcomes[..|outcomes| - 1]);
    }
  }

  lemma WordsDiffer(d: Decision)
    ensures Word(d) == "approve" <==> d == Approve
    ensures Word(d) == "changes" <==> d == Changes
  {
    assert |Word(Decision.Unknown)| == |"changes"| && Word(Decision.Unknown)[0] != "changes"[0];
    assert |Word(Inspect)| == |"approve"| && Word(Inspect)[0] != "approve"[0];
  }

  /** Whatever stands behind the old log was asked for. */
  lemma {:induction false} AddedWasRequested(c: Config, log: seq<Event>, rs: seq<Request>, i: nat) returns (r: Request)
    requires |log| <= i < |EmittedAll(c, log, rs)|
    ensures r in rs
    ensures var e := EmittedAll(c, log, rs)[i];
            e.kind == r.kind && e.ticket == r.ticket && e.actor == r.actor && e.payload == c.redact(r.payload)
  {
    var init, last := rs[..|rs| - 1], rs[|rs| - 1];
    if i < |EmittedAll(c, log, init)| {
      r := AddedWasRequested(c, log, init, i);
    } else {
      r := last;
    }
  }

  /** The last attempt earned the decision that a REVIEW_DECISION of this ticket states. */
  ghost predicate Earned(c: Config, e: Event, t: string, backend: Backend, o: Outcome) {
    && e.ticket == t && e.actor == "MANAGER" && Reached(o)
    && var word := Lower(e.payload.decision);
       && (word == "changes" ==>
             && SaysValidChanges(backend, o)
             && e.payload == c.redact(EMPTY_PAYLOAD.(decision := "changes", blockers := Some(o.blockers), rest := o.notes)))
       && (word == "inspect" ==>
             !Says(backend, o, Approve) && !SaysValidChanges(backend, o) && !Occurs(o.stderr, "TimeoutExpired"))
       && (word == "approve" ==> Says(backend, o, Approve))
  }

  /** Every REVIEW_DECISION from before on was earned. */
  ghost predicate AllEarned(c: Config, log: seq<Event>, before: nat, t: string, backend: Backend, o: Outcome) {
    forall i :: before <= i < |log| && log[i].kind == ReviewDecision ==> Earned(c, log[i], t, backend, o)
  }

  lemma WordsTell(p: Payload)
    ensures Lower(p.decision) == "changes" ==> StateFromReviewDecision(p) == Some(InProgress)
    ensures Lower(p.decision) == "inspect" ==> StateFromReviewDecision(p) == Some(HumanGate)
    ensures Lower(p.decision) == "approve" ==> StateFromReviewDecision(p) == Some(ReadyToClose)
  {
  }

  lemma FinalIsEarned(c: Config, e: Event, t: string, backend: Backend, o: Outcome)
    requires Reentry.KeepsStateWords(c.redact) && IsOutcome(o)
    requires var r := FinalRequest(t, backend, o);
             r.kind == ReviewDecision && e.ticket == r.ticket && e.actor == r.actor && e.payload == c.redact(r.payload)
    ensures Earned(c, e, t, backend, o)
  {
    var r := FinalRequest(t, backend, o);
    SettledIff(backend, o);
    FinalDecides(t, backend, o);
    WordsTell(e.payload);
    assert StateFromReviewDecision(c.redact(r.payload)) == StateFromReviewDecision(r.payload);
  }

  /** Every REVIEW_DECISION that a cycle with these attempts added was earned by the last of them. */
  ghost predicate CycleEarns(c: Config, log: seq<Event>, before: nat, t: string, backend: Backend, made: seq<Outcome>) {
    Reentry.KeepsStateWords(c.redact) && made != [] && IsOutcome(made[|made| - 1]) ==>
      AllEarned(c, log, before, t, backend, made[|made| - 1])
  }

  /**
   Over the log: a CHANGES that reaches the bus has all four marks and the
   blockers of the last attempt, which say something; an INSPECT never stands
   for a time-out; nothing is decided without transport.
   */
  lemma DecisionsAreEarned(c: Config, log: seq<Event>, t: string, backend: Backend, made: seq<Outcome>)
    ensures CycleEarns(c, EmittedAll(c, log, CycleRequests(t, backend, made)), |log|, t, backend, made)
  {
    if Reentry.KeepsStateWords(c.redact) && made != [] && IsOutcome(made[|made| - 1]) {
      var rs, o := CycleRequests(t, backend, made), made[|made| - 1];
      var after := EmittedAll(c, log, rs);
      forall i | |log| <= i < |after| && after[i].kind == ReviewDecision ensures Earned(c, after[i], t, backend, o) {
        var r := AddedWasRequested(c, log, rs, i);
        AttemptsDecideNothing(t, backend, made);
        assert r == FinalRequest(t, backend, o);
        FinalIsEarned(c, after[i], t, backend, o);
      }
    }
  }

  /** However the backend behaves, a cycle adds at most one REVIEW_DECISION to the bus. */
  lemma AtMostOneDecision(c: Config, log: seq<Event>, t: string, backend: Backend, outcomes: seq<Outcome>)
    ensures var after := EmittedAll(c, log, CycleRequests(t, backend, outcomes));
            CountKind(after, ReviewDecision) <= CountKind(log, ReviewDecision) + 1
  {
    if outcomes != [] {
      var attempts, last := AttemptRequests(t, backend, outcomes), FinalRequest(t, backend, outcomes[|outcomes| - 1]);
      var rs := attempts + [last];
      AttemptsDecideNothing(t, backend, outcomes);
      assert rs[..|rs| - 1] == attempts;
      assert CountRequests(rs, ReviewDecision) <= 1;
      EmitsAddAtMost(c, log, rs, ReviewDecision);
    }
  }

  lemma {:induction false} QuietEmitsKeepState(c: Config, log: seq<Event>, rs: seq<Request>, u: string)
    requires Reentry.KeepsStateWords(c.redact)
    requires forall r :: r in rs ==> !DecidesState(r.kind)
    ensures CurrentState(EmittedAll(c, log, rs), u) == CurrentState(log, u)
  {
    if rs != [] {
      var init, r := rs[..|rs| - 1], rs[|rs| - 1];
      QuietEmitsKeepState(c, log, init, u);
      Reentry.EmitDecidesState(c, EmittedAll(c, log, init), r, u);
    }
  }

  /** A transport failure leaves the derived state of every ticket as it was. */
  lemma TransportFailureKeepsStates(c: Config, log: seq<Event>, t: string, backend: Backend, outcomes: seq<Outcome>, u: string)
    requires Reentry.KeepsStateWords(c.redact)
    requires outcomes != [] && Settled(backend, outcomes[|outcomes| - 1]) == TransportFailed
    ensures CurrentState(EmittedAll(c, log, CycleRequests(t, backend, outcomes)), u) == CurrentState(log, u)
  {
    AttemptsDecideNothing(t, backend, outcomes);
    QuietEmitsKeepState(c, log, CycleRequests(t, backend, outcomes), u);
  }

  function StateAfter(d: Decision): TicketState
    requires d in {Approve, Changes, Inspect}
  {
    match d
    case Approve => ReadyToClose
    case Changes => InProgress
    case _ => HumanGate
  }

  lemma WordsDecide(d: Decision, p: Payload)
    requires d in {Approve, Changes, Inspect} && p.decision == Word(d)
    ensures StateFromReviewDecision(p) == Some(StateAfter(d))
  {
    assert Lower("approve") == "approve" && Lower("changes") == "changes" && Lower("inspect") == "inspect";
  }

  lemma FinalDecides(t: string, backend: Backend, o: Outcome)
    requires Settled(backend, o) in {Approve, Changes, Inspect}
    ensures var r := FinalRequest(t, backend, o);
            r.ticket == t && r.kind == ReviewDecision && Reentry.Outcome(r) == Some(StateAfter(Settled(backend, o)))
  {
    var r := FinalRequest(t, backend, o);
    WordsDecide(Settled(backend, o), r.payload);
  }

  /** Any other outcome decides the reviewed ticket's state, and no other's, if the bus accepts the decision. */
  lemma DecisionDecidesState(c: Config, log: seq<Event>, t: string, backend: Backend, outcomes: seq<Outcome>, u: string)
    requires Reentry.KeepsStateWords(c.redact)
    requires outcomes != [] && Settled(backend, outcomes[|outcomes| - 1]) in {Approve, Changes, Inspect}
    ensures var before := EmittedAll(c, log, AttemptRequests(t, backend, outcomes));
            var r := FinalRequest(t, backend, outcomes[|outcomes| - 1]);
            CurrentState(EmittedAll(c, log, CycleRequests(t, backend, outcomes)), u) ==
            if u == t && Accepts(c, before, r) then Some(StateAfter(Settled(backend, outcomes[|outcomes| - 1])))
            else CurrentState(log, u)
  {
    var attempts, o := AttemptRequests(t, backend, outcomes), outcomes[|outcomes| - 1];
    var r := FinalRequest(t, backend, o);
    AttemptsDecideNothing(t, backend, outcomes);
    QuietEmitsKeepState(c, log, attempts, u);
    FinalDecides(t, backend, o);
    EmitOneMore(c, log, attempts, r);
    Reentry.EmitDecidesState(c, EmittedAll(c, log, attempts), r, u);
  }
}
