/** When a closed ticket can come back to work, over whole runs of the bus. */
module Reentry {
  import opened TicketStates
  import opened EventLog
  import DuplicateGuard
  import EventLogProperties

  /** Redaction leaves the words that name a state alone. */
  ghost predicate KeepsStateWords(redact: Payload -> Payload) {
    forall p: Payload {:trigger redact(p)} ::
      && StateFromStateChanged(redact(p)) == StateFromStateChanged(p)
      && StateFromReviewDecision(redact(p)) == StateFromReviewDecision(p)
      && StateFromApprovalResolved(redact(p)) == StateFromApprovalResolved(p)
  }

  /** A command under the guard of ticket t: no override, and t is not archived. */
  predicate Guarded(cmd: Command, t: string) {
    match cmd
    case Emit(r) => r.ticket == t ==> !r.allowReentry
    case Archive(u) => u != t
  }

  ghost predicate AllGuarded(cmds: seq<Command>, t: string) {
    forall cmd :: cmd in cmds ==> Guarded(cmd, t)
  }

  predicate Closed(state: Option<TicketState>) {
    state.Some? && IsApprovedOrTerminal(state.value)
  }

  predicate AtWork(state: Option<TicketState>) {
    state.Some? && IsWorkState(state.value)
  }

  function StateOf(s: Store, t: string): Option<TicketState> {
    CurrentState(s.live, t)
  }

  /** The state the bus derives from a request once its event is in the log. */
  function Outcome(r: Request): Option<TicketState>
    requires DecidesState(r.kind)
  {
    match r.kind
    case StateChanged => StateFromStateChanged(r.payload)
    case CloseConfirmed => Some(Completed)
    case ReviewDecision => StateFromReviewDecision(r.payload)
    case _ => StateFromApprovalResolved(r.payload)
  }

  /** An accepted event that takes t to neither a closed nor a work state. */
  predicate Escapes(c: Config, s: Store, cmd: Command, t: string) {
    && cmd.Emit? && cmd.request.ticket == t && DecidesState(cmd.request.kind)
    && Accepts(c, s.live, cmd.request)
    && !Closed(Outcome(cmd.request)) && !AtWork(Outcome(cmd.request))
  }

  lemma {:induction false} StateIsOfTicketEvents(log: seq<Event>, t: string)
    ensures CurrentState(log, t) == CurrentState(OfTicket(log, t), t)
  {
    if log != [] {
      var init, e := log[..|log| - 1], log[|log| - 1];
      StateIsOfTicketEvents(init, t);
      if e.ticket == t {
        var own := OfTicket(log, t);
        assert own[..|own| - 1] == OfTicket(init, t);
      }
    }
  }

  lemma ArchivingOthersKeepsState(s: Store, u: string, t: string)
    requires u != t
    ensures StateOf(ArchiveTicket(s, u), t) == StateOf(s, t)
  {
    StateIsOfTicketEvents(s.live, t);
    StateIsOfTicketEvents(NotOfTicket(s.live, u), t);
    EventLogProperties.SplittingKeepsOthers(s.live, u, t);
  }

  lemma EmitDecidesState(c: Config, log: seq<Event>, r: Request, t: string)
    requires KeepsStateWords(c.redact)
    ensures CurrentState(Emitted(c, log, r), t) ==
            if r.ticket == t && DecidesState(r.kind) && Accepts(c, log, r) then Outcome(r)
            else CurrentState(log, t)
  {
    if Accepts(c, log, r) {
      var log' := Emitted(c, log, r);
      assert log'[..|log'| - 1] == log;
      assert log'[|log'| - 1] == Stamped(c, log, r);
      assert c.redact(r.payload) == c.redact(r.payload);
    }
  }

  lemma EmptyPayloadNamesNoState()
    ensures StateFromStateChanged(EMPTY_PAYLOAD) == None
    ensures StateFromReviewDecision(EMPTY_PAYLOAD) == None
    ensures StateFromApprovalResolved(EMPTY_PAYLOAD) == None
  {
    assert Upper("") == "" && Lower("") == "";
  }

  /** One guarded step from a closed state stays closed, or escapes; it never reopens. */
  lemma StepFromClosed(c: Config, s: Store, cmd: Command, t: string)
    requires KeepsStateWords(c.redact) && Guarded(cmd, t) && Closed(StateOf(s, t))
    ensures !AtWork(StateOf(Apply(c, s, cmd), t))
    ensures Closed(StateOf(Apply(c, s, cmd), t)) <==> !Escapes(c, s, cmd, t)
  {
    match cmd
    case Archive(u) => ArchivingOthersKeepsState(s, u, t);
    case Emit(r) =>
      EmitDecidesState(c, s.live, r, t);
      EmptyPayloadNamesNoState();
      if r.ticket == t && DecidesState(r.kind) && Accepts(c, s.live, r) && r.kind != CloseConfirmed {
        assert ReentryTarget(r.kind, r.payload) == Outcome(r);
      }
  }

  ghost function StateAfter(c: Config, s: Store, cmds: seq<Command>, k: nat, t: string): Option<TicketState>
    requires k <= |cmds|
  {
    StateOf(Run(c, s, cmds[..k]), t)
  }

  lemma OneMore(c: Config, s: Store, cmds: seq<Command>, k: nat)
    requires k < |cmds|
    ensures Run(c, s, cmds[..k + 1]) == Apply(c, Run(c, s, cmds[..k]), cmds[k])
  {
    assert cmds[..k + 1][..k] == cmds[..k];
  }

  /** One step of a run from a closed state. */
  lemma StepAt(c: Config, s: Store, cmds: seq<Command>, t: string, k: nat)
    requires KeepsStateWords(c.redact) && AllGuarded(cmds, t) && k < |cmds|
    requires Closed(StateAfter(c, s, cmds, k, t))
    ensures !AtWork(StateAfter(c, s, cmds, k + 1, t))
    ensures Closed(StateAfter(c, s, cmds, k + 1, t)) <==> !EscapesAt(c, s, cmds, t, k)
  {
    OneMore(c, s, cmds, k);
    assert cmds[k] in cmds;
    StepFromClosed(c, Run(c, s, cmds[..k]), cmds[k], t);
  }

  /** What is left besides the closed states and the work states. */
  lemma NeitherClosedNorAtWork(state: Option<TicketState>)
    requires !Closed(state) && !AtWork(state)
    ensures state in {None, Some(Unknown), Some(ReadyToClose)}
  {
    if state.Some? {
      var x := state.value;
      assert x != Completed && x != Superseded && x != BlockedFinal;
      assert x == Unknown || x == ReadyToClose;
    }
  }

  /** Command k of the run is an escape of t. */
  ghost predicate EscapesAt(c: Config, s: Store, cmds: seq<Command>, t: string, k: nat) {
    k < |cmds| && Escapes(c, Run(c, s, cmds[..k]), cmds[k], t)
  }

  /** The states of t along the run, and which commands are escapes of t. */
  ghost function StatesOf(c: Config, s: Store, cmds: seq<Command>, t: string): (r: seq<Option<TicketState>>)
    ensures |r| == |cmds| + 1
  {
    seq(|cmds| + 1, k requires 0 <= k <= |cmds| => StateAfter(c, s, cmds, k, t))
  }

  ghost function EscapesOf(c: Config, s: Store, cmds: seq<Command>, t: string): (r: seq<bool>)
    ensures |r| == |cmds|
  {
    seq(|cmds|, k requires 0 <= k < |cmds| => EscapesAt(c, s, cmds, t, k))
  }

  /** From a closed state the next one is closed too, or the command escapes; it is never a work state. */
  ghost predicate StepsOut(states: seq<Option<TicketState>>, escapes: seq<bool>, k: nat)
    requires k < |escapes| < |states|
  {
    Closed(states[k]) ==> !AtWork(states[k + 1]) && (Closed(states[k + 1]) <==> !escapes[k])
  }

  lemma AllStepOut(c: Config, s: Store, cmds: seq<Command>, t: string)
    requires KeepsStateWords(c.redact) && AllGuarded(cmds, t)
    ensures forall k: nat :: k < |cmds| ==> StepsOut(StatesOf(c, s, cmds, t), EscapesOf(c, s, cmds, t), k)
  {
    forall k: nat | k < |cmds| ensures StepsOut(StatesOf(c, s, cmds, t), EscapesOf(c, s, cmds, t), k) {
      if Closed(StateAfter(c, s, cmds, k, t)) {
        StepAt(c, s, cmds, t, k);
      }
    }
  }

  lemma {:induction false} FirstWayOut(states: seq<Option<TicketState>>, escapes: seq<bool>, i: nat, j: nat) returns (k: nat)
    requires i < j < |states| == |escapes| + 1
    requires forall k: nat :: k < |escapes| ==> StepsOut(states, escapes, k)
    requires Closed(states[i]) && !Closed(states[j])
    ensures i <= k < j && escapes[k] && !Closed(states[k + 1]) && !AtWork(states[k + 1])
    decreases j - i
  {
    assert StepsOut(states, escapes, i);
    if Closed(states[i + 1]) {
      k := FirstWayOut(states, escapes, i + 1, j);
    } else {
      k := i;
    }
  }

  /** Between a closed state and a later work state the ticket was in neither. */
  lemma ReopeningPassesThroughEscape(
      c: Config, s: Store, cmds: seq<Command>, t: string, i: nat, j: nat) returns (k: nat)
    requires KeepsStateWords(c.redact) && AllGuarded(cmds, t)
    requires i < j <= |cmds|
    requires Closed(StateAfter(c, s, cmds, i, t)) && AtWork(StateAfter(c, s, cmds, j, t))
    ensures i <= k < j && EscapesAt(c, s, cmds, t, k)
    ensures !Closed(StateAfter(c, s, cmds, k + 1, t)) && !AtWork(StateAfter(c, s, cmds, k + 1, t))
  {
    AllStepOut(c, s, cmds, t);
    k := FirstWayOut(StatesOf(c, s, cmds, t), EscapesOf(c, s, cmds, t), i, j);
  }

  ghost predicate NeverEscapes(c: Config, s: Store, cmds: seq<Command>, t: string, i: nat) {
    forall k: nat :: i <= k < |cmds| ==> !EscapesAt(c, s, cmds, t, k)
  }

  /** Without an escaping event, a closed ticket stays closed to the end of the run. */
  lemma ClosedIsAbsorbing(c: Config, s: Store, cmds: seq<Command>, t: string, i: nat, k: nat)
    requires KeepsStateWords(c.redact) && AllGuarded(cmds, t) && i <= k <= |cmds|
    requires Closed(StateAfter(c, s, cmds, i, t)) && NeverEscapes(c, s, cmds, t, i)
    ensures Closed(StateAfter(c, s, cmds, k, t))
  {
    if i < k && !Closed(StateAfter(c, s, cmds, k, t)) {
      AllStepOut(c, s, cmds, t);
      var out := FirstWayOut(StatesOf(c, s, cmds, t), EscapesOf(c, s, cmds, t), i, k);
      assert false;
    }
  }

  /**
   Once a ticket has left the closed states the guard is silent: whether a request
   that names a work state reopens it is decided by the duplicate guard alone.
   */
  lemma EscapedTicketReopens(c: Config, s: Store, r: Request)
    requires KeepsStateWords(c.redact) && !Closed(StateOf(s, r.ticket))
    requires DecidesState(r.kind) && AtWork(Outcome(r)) && !AtWork(StateOf(s, r.ticket))
    ensures AtWork(StateOf(Apply(c, s, Emit(r)), r.ticket)) <==> !RefusedAsDuplicate(c, s.live, r)
  {
    EmitDecidesState(c, s.live, r, r.ticket);
  }

  // ----- what the events say -----

  /** The words of the three kinds that name a state, in whatever case. */
  lemma WordsOfEvents(p: Payload, s: TicketState)
    ensures StateFromStateChanged(p) == Some(s) <==> Upper(p.toState) == NameOf(s)
    ensures StateFromReviewDecision(p) == Some(s) <==>
              || (s == InProgress && Lower(p.decision) == "changes")
              || (s == ReadyToClose && Lower(p.decision) == "approve")
              || (s == HumanGate && Lower(p.decision) == "inspect")
    ensures StateFromApprovalResolved(p) == Some(s) <==>
              || (s == ReadyForReview && Lower(p.status) == "approved")
              || (s == Blocked && Lower(p.status) in {"expired", "rejected", "cancelled"})
  {
    NamesAreRead(Upper(p.toState), s);
  }

  /** The last deciding event of t. */
  ghost predicate DecidesLast(log: seq<Event>, t: string, i: nat) {
    && i < |log| && log[i].ticket == t && log[i].kind in {StateChanged, CloseConfirmed, ReviewDecision, ApprovalResolved}
    && forall k :: i < k < |log| && log[k].ticket == t ==>
         log[k].kind !in {StateChanged, CloseConfirmed, ReviewDecision, ApprovalResolved}
  }

  /** The bus takes a ticket's state from its last deciding event, and knows none without one. */
  lemma {:induction false} StateIsOfLast(log: seq<Event>, t: string, i: nat)
    ensures DecidesLast(log, t, i) ==> CurrentState(log, t) == StateOfEvent(log[i])
    ensures (forall k: nat :: !DecidesLast(log, t, k)) ==> CurrentState(log, t) == None
  {
    if log != [] {
      var init, e := log[..|log| - 1], log[|log| - 1];
      StateIsOfLast(init, t, i);
      if e.ticket == t && DecidesState(e.kind) {
        assert DecidesLast(log, t, |init|);
        assert DecidesLast(log, t, i) ==> i == |init|;
      } else {
        assert DecidesLast(log, t, i) ==> DecidesLast(init, t, i);
        if k: nat :| DecidesLast(init, t, k) {
          assert DecidesLast(log, t, k);
        }
      }
    }
  }

  // ----- what the bus accepts, exactly -----

  /** The records of the window that agree with the request in type, ticket, actor and payload. */
  ghost function Twins(c: Config, log: seq<Event>, r: Request): set<int> {
    set i | WindowStart(c, log) <= i < |log| && IsTwin(c, log[i], r)
  }

  predicate IsTwin(c: Config, e: Event, r: Request) {
    e.kind == r.kind && e.ticket == r.ticket && e.actor == r.actor && e.payload == c.redact(r.payload)
  }

  /** A window of 0 reaches back to the first record. */
  function WindowStart(c: Config, log: seq<Event>): nat
    ensures WindowStart(c, log) <= |log|
  {
    if 0 < c.windowSize <= |log| then |log| - c.windowSize else 0
  }

  ghost function TwinsFrom(c: Config, log: seq<Event>, r: Request, start: nat): set<int> {
    set i | start <= i < |log| && IsTwin(c, log[i], r)
  }

  lemma OneMoreTwin(c: Config, log: seq<Event>, r: Request, start: nat)
    requires start < |log|
    ensures |TwinsFrom(c, log, r, start)|
         == |TwinsFrom(c, log[..|log| - 1], r, start)| + (if IsTwin(c, log[|log| - 1], r) then 1 else 0)
  {
    var last := |log| - 1;
    assert TwinsFrom(c, log, r, start) == TwinsFrom(c, log[..last], r, start) + if IsTwin(c, log[last], r) then {last} else {};
  }

  lemma {:induction false} CountIsTwins(c: Config, log: seq<Event>, r: Request, start: nat)
    requires start <= |log|
    ensures CountSame(log[start..], RequestPrint(c, r)) == |TwinsFrom(c, log, r, start)|
  {
    if start == |log| {
      assert log[start..] == [] && TwinsFrom(c, log, r, start) == {};
    } else {
      var init, last := log[..|log| - 1], |log| - 1;
      CountIsTwins(c, init, r, start);
      assert log[start..][..|log[start..]| - 1] == init[start..];
      OneMoreTwin(c, log, r, start);
    }
  }

  lemma DuplicateIff(c: Config, log: seq<Event>, r: Request)
    requires c.windowSize >= 0
    ensures RefusedAsDuplicate(c, log, r) <==> |Twins(c, log, r)| >= c.maxDuplicates
  {
    CountIsTwins(c, log, r, WindowStart(c, log));
    assert log[0..] == log;
    assert Recent(log, c.windowSize) == log[WindowStart(c, log)..];
    assert Twins(c, log, r) == TwinsFrom(c, log, r, WindowStart(c, log));
  }

  /** A request for a work state while the bus has the ticket closed. */
  predicate AsksToReopen(log: seq<Event>, r: Request) {
    DecidesState(r.kind) && AtWork(Outcome(r)) && Closed(CurrentState(log, r.ticket))
  }

  lemma ReentryIff(log: seq<Event>, r: Request)
    ensures RefusedAsReentry(log, r) <==> !r.allowReentry && AsksToReopen(log, r)
  {
    EmptyPayloadNamesNoState();
    if DecidesState(r.kind) {
      TargetIsOutcome(r);
    }
  }

  /**
   A request is accepted exactly if the window holds fewer than max_duplicates
   records like it, and it does not ask to reopen a closed ticket or says that it may.
   */
  lemma AcceptsIff(c: Config, log: seq<Event>, r: Request)
    requires c.windowSize >= 0
    ensures Accepts(c, log, r) <==>
            |Twins(c, log, r)| < c.maxDuplicates && (r.allowReentry || !AsksToReopen(log, r))
  {
    DuplicateIff(c, log, r);
    ReentryIff(log, r);
  }

  /**
   With the override a closed ticket is reopened, if the duplicate guard lets the
   request through; without it the same request leaves the store as it is.
   */
  lemma OverrideReopens(c: Config, s: Store, r: Request)
    requires KeepsStateWords(c.redact) && c.windowSize >= 0 && AsksToReopen(s.live, r)
    ensures r.allowReentry && |Twins(c, s.live, r)| < c.maxDuplicates ==> StateOf(Apply(c, s, Emit(r)), r.ticket) == Outcome(r)
    ensures !r.allowReentry ==> Apply(c, s, Emit(r)) == s
    ensures AtWork(StateOf(Apply(c, s, Emit(r)), r.ticket)) <==> r.allowReentry && |Twins(c, s.live, r)| < c.maxDuplicates
  {
    AcceptsIff(c, s.live, r);
    EmitDecidesState(c, s.live, r, r.ticket);
  }

  function WithState(to: string): Request {
    Request(StateChanged, "T", "SUPERVISOR", EMPTY_PAYLOAD.(toState := to), false, "", "")
  }

  function WithDecision(d: string): Request {
    Request(ReviewDecision, "T", "MANAGER", EMPTY_PAYLOAD.(decision := d), false, "", "")
  }

  lemma ShortLogDecides(c: Config, s: Store, cmds: seq<Command>, k: nat)
    requires k < |cmds| && cmds[k].Emit? && KeepsStateWords(c.redact)
    requires |Run(c, s, cmds[..k]).live| < c.maxDuplicates
    requires DecidesState(cmds[k].request.kind)
    requires !RefusedAsReentry(Run(c, s, cmds[..k]).live, cmds[k].request)
    ensures |Run(c, s, cmds[..k + 1]).live| == |Run(c, s, cmds[..k]).live| + 1
    ensures StateAfter(c, s, cmds, k + 1, cmds[k].request.ticket) == Outcome(cmds[k].request)
  {
    OneMore(c, s, cmds, k);
    var log, r := Run(c, s, cmds[..k]).live, cmds[k].request;
    DuplicateGuard.CountsAtMostLength(Recent(log, c.windowSize), RequestPrint(c, r));
    EmitDecidesState(c, log, r, r.ticket);
  }

  /** Closed states are not absorbing in general: approve, then changes, reopens. */
  lemma ApprovalReopensCompletedTicket()
    ensures var c := Config(3, 20, p => p);
            var run := [Emit(WithState("COMPLETED")), Emit(WithDecision("approve")), Emit(WithDecision("changes"))];
            && AllGuarded(run, "T")
            && StateAfter(c, EMPTY_STORE, run, 1, "T") == Some(Completed)
            && StateAfter(c, EMPTY_STORE, run, 2, "T") == Some(ReadyToClose)
            && StateAfter(c, EMPTY_STORE, run, 3, "T") == Some(InProgress)
  {
    var closing, approving, changing := WithState("COMPLETED"), WithDecision("approve"), WithDecision("changes");
    WordsOfReopening();
    ThreeAccepted(Config(3, 20, p => p), closing, approving, changing);
  }

  lemma WordsOfReopening()
    ensures Outcome(WithState("COMPLETED")) == Some(Completed)
    ensures Outcome(WithDecision("approve")) == Some(ReadyToClose)
    ensures Outcome(WithDecision("changes")) == Some(InProgress)
  {
    assert Upper("COMPLETED") == "COMPLETED" && Lower("approve") == "approve" && Lower("changes") == "changes";
  }

  /** Three requests for one ticket, none of which asks for work while it is closed. */
  lemma ThreeAccepted(c: Config, r1: Request, r2: Request, r3: Request)
    requires KeepsStateWords(c.redact) && c.maxDuplicates >= 3
    requires r1.ticket == r2.ticket == r3.ticket
    requires DecidesState(r1.kind) && DecidesState(r2.kind) && DecidesState(r3.kind)
    requires !AtWork(Outcome(r2)) && !Closed(Outcome(r2))
    ensures var run := [Emit(r1), Emit(r2), Emit(r3)];
            && StateAfter(c, EMPTY_STORE, run, 1, r1.ticket) == Outcome(r1)
            && StateAfter(c, EMPTY_STORE, run, 2, r1.ticket) == Outcome(r2)
            && StateAfter(c, EMPTY_STORE, run, 3, r1.ticket) == Outcome(r3)
  {
    var run := [Emit(r1), Emit(r2), Emit(r3)];
    assert run[..0] == [];
    ShortLogDecides(c, EMPTY_STORE, run, 0);
    TargetIsOutcome(r2);
    ShortLogDecides(c, EMPTY_STORE, run, 1);
    ShortLogDecides(c, EMPTY_STORE, run, 2);
  }

  lemma TargetIsOutcome(r: Request)
    requires DecidesState(r.kind)
    ensures ReentryTarget(r.kind, r.payload).Some? ==> ReentryTarget(r.kind, r.payload) == Outcome(r)
  {
  }
}

/** The supervisor's own derivation of a ticket's state, and when it agrees with the bus. */
module StateMachine {
  import opened TicketStates
  import opened EventLog
  import DuplicateGuard
  import EventLogProperties
  import Reentry

  function OrUnknown(s: Option<TicketState>): TicketState {
    match s
    case None => Unknown
    case Some(state) => state
  }

  /** The state machine's derivation, on the events of one ticket. */
  function DeriveState(events: seq<Event>): TicketState {
    if events == [] then Unknown
    else
      var e := events[|events| - 1];
      match e.kind
      case StateChanged => OrUnknown(StateFromStateChanged(e.payload))
      case CloseConfirmed => Completed
      case SupervisorClosed => Completed
      case ReviewDecision => OrUnknown(StateFromReviewDecision(e.payload))
      case ApprovalResolved => OrUnknown(StateFromApprovalResolved(e.payload))
      case ContractGap => ContractBlocked
      case _ => DeriveState(events[..|events| - 1])
  }

  /**
   The state of the last event that only the state machine reads, if no event
   that both derivations read comes after it.
   */
  function Override(events: seq<Event>): Option<TicketState> {
    if events == [] then None
    else
      var e := events[|events| - 1];
      if DecidesState(e.kind) then None
      else if e.kind == SupervisorClosed then Some(Completed)
      else if e.kind == ContractGap then Some(ContractBlocked)
      else Override(events[..|events| - 1])
  }

  lemma {:induction false} DerivationsDifferByOverride(events: seq<Event>, t: string)
    requires forall e :: e in events ==> e.ticket == t
    ensures DeriveState(events) ==
            (match Override(events) case Some(s) => s case None => OrUnknown(CurrentState(events, t)))
  {
    if events != [] {
      assert events[|events| - 1] in events;
      DerivationsDifferByOverride(events[..|events| - 1], t);
    }
  }

  /** The two derivations agree exactly when no override stands, or it says the same. */
  lemma DerivationsAgree(log: seq<Event>, t: string)
    ensures DeriveState(OfTicket(log, t)) == OrUnknown(CurrentState(log, t))
            <==> (match Override(OfTicket(log, t))
                  case None => true
                  case Some(s) => CurrentState(log, t) == Some(s))
  {
    DerivationsDifferByOverride(OfTicket(log, t), t);
    Reentry.StateIsOfTicketEvents(log, t);
  }

  lemma {:induction false} NoOverride(events: seq<Event>)
    requires forall e :: e in events ==> e.kind !in {SupervisorClosed, ContractGap}
    ensures Override(events) == None
  {
    if events != [] {
      assert events[|events| - 1] in events;
      NoOverride(events[..|events| - 1]);
    }
  }

  lemma DerivationsAgreeOnSharedKinds(log: seq<Event>, t: string)
    requires forall e :: e in log && e.ticket == t ==> e.kind !in {SupervisorClosed, ContractGap}
    ensures DeriveState(OfTicket(log, t)) == OrUnknown(CurrentState(log, t))
  {
    NoOverride(OfTicket(log, t));
    DerivationsAgree(log, t);
  }

  // ----- the guard under the supervisor's own derivation -----

  function Derived(s: Store, t: string): TicketState {
    DeriveState(OfTicket(s.live, t))
  }

  /** The state the state machine derives from a request once its event is in the log, if that decides one. */
  function DerivedOutcome(r: Request): Option<TicketState> {
    if DecidesState(r.kind) then Some(OrUnknown(Reentry.Outcome(r)))
    else if r.kind == SupervisorClosed then Some(Completed)
    else if r.kind == ContractGap then Some(ContractBlocked)
    else None
  }

  lemma LastEventDerives(c: Config, events: seq<Event>, r: Request, e: Event)
    requires Reentry.KeepsStateWords(c.redact) && e.kind == r.kind && e.payload == c.redact(r.payload)
    ensures DeriveState(events + [e]) ==
            (match DerivedOutcome(r) case Some(state) => state case None => DeriveState(events))
  {
    assert (events + [e])[..|events|] == events;
    assert c.redact(r.payload) == e.payload;
  }

  lemma EmitDecidesDerived(c: Config, log: seq<Event>, r: Request, t: string)
    requires Reentry.KeepsStateWords(c.redact)
    ensures DeriveState(OfTicket(Emitted(c, log, r), t)) ==
            if r.ticket == t && Accepts(c, log, r) && DerivedOutcome(r).Some? then DerivedOutcome(r).value
            else DeriveState(OfTicket(log, t))
  {
    if Accepts(c, log, r) {
      var e := Stamped(c, log, r);
      assert (log + [e])[..|log|] == log;
      LastEventDerives(c, OfTicket(log, t), r, e);
    }
  }

  /**
   A request that takes t to a work state although the state machine has it
   closed: a contract gap, which the guard does not read, or a work state asked
   for while the bus itself does not see t as closed.
   */
  predicate Reopens(c: Config, s: Store, cmd: Command, t: string) {
    && cmd.Emit? && cmd.request.ticket == t && !RefusedAsDuplicate(c, s.live, cmd.request)
    && (|| cmd.request.kind == ContractGap
        || (DecidesState(cmd.request.kind) && Reentry.AtWork(Reentry.Outcome(cmd.request))
            && !Reentry.Closed(Reentry.StateOf(s, t))))
  }

  /** Where the guard is on, a request for work is accepted exactly where the bus sees t as not closed. */
  lemma WorkIsAcceptedIff(c: Config, log: seq<Event>, r: Request)
    requires DecidesState(r.kind) && Reentry.AtWork(Reentry.Outcome(r)) && !r.allowReentry
    ensures Accepts(c, log, r) <==> !Reentry.Closed(CurrentState(log, r.ticket)) && !RefusedAsDuplicate(c, log, r)
  {
    Reentry.EmptyPayloadNamesNoState();
    assert ReentryTarget(r.kind, r.payload) == Reentry.Outcome(r);
  }

  /** The guard reads no target out of these kinds. */
  lemma QuietKindsPassGuard(c: Config, log: seq<Event>, r: Request)
    requires !DecidesState(r.kind)
    ensures Accepts(c, log, r) <==> !RefusedAsDuplicate(c, log, r)
  {
  }

  lemma WorkOutcomes(r: Request)
    ensures DerivedOutcome(r).Some? && IsWorkState(DerivedOutcome(r).value)
       <==> r.kind == ContractGap || (DecidesState(r.kind) && Reentry.AtWork(Reentry.Outcome(r)))
  {
  }

  lemma DerivedEmitFromClosed(c: Config, s: Store, r: Request, t: string)
    requires Reentry.KeepsStateWords(c.redact) && (r.ticket == t ==> !r.allowReentry)
    requires IsApprovedOrTerminal(Derived(s, t))
    ensures IsWorkState(Derived(Apply(c, s, Emit(r)), t)) <==> Reopens(c, s, Emit(r), t)
  {
    EmitDecidesDerived(c, s.live, r, t);
    WorkOutcomes(r);
    if r.ticket == t {
      if r.kind == ContractGap {
        QuietKindsPassGuard(c, s.live, r);
      } else if DecidesState(r.kind) && Reentry.AtWork(Reentry.Outcome(r)) {
        WorkIsAcceptedIff(c, s.live, r);
      }
    }
  }

  /** One guarded step from a state the state machine takes for closed: exactly when it leads back to work. */
  lemma DerivedStepFromClosed(c: Config, s: Store, cmd: Command, t: string)
    requires Reentry.KeepsStateWords(c.redact) && Reentry.Guarded(cmd, t) && IsApprovedOrTerminal(Derived(s, t))
    ensures IsWorkState(Derived(Apply(c, s, cmd), t)) <==> Reopens(c, s, cmd, t)
  {
    match cmd
    case Archive(u) => EventLogProperties.SplittingKeepsOthers(s.live, u, t);
    case Emit(r) => DerivedEmitFromClosed(c, s, r, t);
  }

  function Closing(t: string): Request {
    Request(SupervisorClosed, t, "SUPERVISOR", EMPTY_PAYLOAD, false, "", "")
  }

  lemma ClosingIsInvisible(c: Config, t: string)
    requires Reentry.KeepsStateWords(c.redact) && c.maxDuplicates >= 1
    ensures var closed := Apply(c, EMPTY_STORE, Emit(Closing(t)));
            |closed.live| == 1 && Derived(closed, t) == Completed && Reentry.StateOf(closed, t) == None
  {
    var r := Closing(t);
    QuietKindsPassGuard(c, [], r);
    EmitDecidesDerived(c, [], r, t);
    Reentry.EmitDecidesState(c, [], r, t);
  }

  /** Both ways back are taken: a gap after a close, and a work state after a close that the bus does not see. */
  lemma GuardMissesDerivedClose(c: Config, r: Request)
    requires Reentry.KeepsStateWords(c.redact) && c.maxDuplicates >= 2 && !r.allowReentry
    requires r.kind == ContractGap || (DecidesState(r.kind) && Reentry.AtWork(Reentry.Outcome(r)))
    ensures var closed := Apply(c, EMPTY_STORE, Emit(Closing(r.ticket)));
            && Derived(closed, r.ticket) == Completed
            && IsWorkState(Derived(Apply(c, closed, Emit(r)), r.ticket))
  {
    var closed := Apply(c, EMPTY_STORE, Emit(Closing(r.ticket)));
    ClosingIsInvisible(c, r.ticket);
    DuplicateGuard.CountsAtMostLength(Recent(closed.live, c.windowSize), RequestPrint(c, r));
    DerivedStepFromClosed(c, closed, Emit(r), r.ticket);
  }
}
