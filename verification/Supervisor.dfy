/** One supervisor over whole runs: what it relaunches, and in which order. */
module Supervision {
  import opened TicketStates
  import opened EventLog
  import opened Relaunching
  import opened Texts
  import EventLogProperties
  import StateMachine
  import Reentry

  const RELAUNCH_BLOCKED_STATES: set<TicketState> :=
    {HumanGate, ReadyToClose, Completed} + NON_SUCCESS_TERMINAL_STATES

  datatype SupervisorState = SupervisorState(
    activeTicket: Option<string>,
    completedTickets: seq<string>,
    lastProcessedSequence: int,
    loopCurrentRound: int,
    lastRequeueTrigger: int)

  const NEW_STATE := SupervisorState(None, [], 0, 0, 0)

  /** A relaunch, with the bus as it was when a later HANDOFF_BLOCKED was looked for. */
  datatype Relaunch = Relaunch(ticket: string, trigger: int, round: int, seen: seq<Event>, derived: TicketState)

  /** The outside world during one pass: what others append, and what it answers. */
  datatype Pass = Pass(
    before: seq<Request>,             // expired approvals, and other events on entry
    whileProcessing: seq<Request>,
    claimGranted: bool,
    builderAlive: bool,
    launch: Launch,
    nextTicket: Option<string>)

  /**
   A pass over the new events, a bootstrap that first recovers a ticket and a
   round, or the archiving of a ticket by somebody else.
   */
  datatype Input =
    | Once(pass: Pass)
    | Bootstrap(recovered: Option<string>, busRound: Option<int>, logCompleted: bool, pass: Pass)
    | Archiving(ticket: string)

  /** The live log as it was when this ticket was archived. */
  datatype Cut = Cut(log: seq<Event>, ticket: string)

  ghost predicate Justified(r: Relaunch) {
    && r.trigger > 0
    && (exists e :: e in r.seen && IsChanges(e, r.ticket) && e.seqNo == r.trigger)
    && (forall e :: e in r.seen ==> !IsBlockAfter(e, r.ticket, r.trigger))
    && !HeldBack(r.seen, r.ticket)
  }

  ghost predicate TriggersRise(rs: seq<Relaunch>) {
    forall i, j :: 0 <= i < j < |rs| ==> rs[i].trigger < rs[j].trigger
  }

  /** Justified relaunches, each for a later trigger than the one before. */
  ghost predicate Sound(rs: seq<Relaunch>) {
    && (forall i :: 0 <= i < |rs| ==> Justified(rs[i]))
    && TriggersRise(rs)
  }

  // ----- relaunches on a bus that is archived from time to time -----

  /** Every log goes on from what the archiving before it left. */
  ghost predicate Continues(past: seq<Cut>, log: seq<Event>) {
    past == [] ||
    var last := past[|past| - 1];
    NotOfTicket(last.log, last.ticket) <= log && Continues(past[..|past| - 1], last.log)
  }

  /** This is how the live log began, or one of those before an archiving. */
  ghost predicate WasLive(past: seq<Cut>, log: seq<Event>, seen: seq<Event>) {
    seen <= log || exists k :: 0 <= k < |past| && seen <= past[k].log
  }

  /** The bus of a relaunch was live once, and its state is the one derived there. */
  ghost predicate IsGrounded(c: Config, past: seq<Cut>, log: seq<Event>, r: Relaunch) {
    && WasLive(past, log, r.seen)
    && r.derived == StateMachine.DeriveState(OfTicket(WithBlockers(c, r.seen, r.ticket), r.ticket))
  }

  ghost predicate Grounded(c: Config, past: seq<Cut>, log: seq<Event>, rs: seq<Relaunch>) {
    forall i :: 0 <= i < |rs| ==> IsGrounded(c, past, log, rs[i])
  }

  /** No archiving took the owner of the last record. */
  ghost predicate SparesLast(past: seq<Cut>) {
    forall k :: 0 <= k < |past| ==> past[k].log == [] || past[k].log[|past[k].log| - 1].ticket != past[k].ticket
  }

  /** What a supervisor keeps: its relaunches, the watermark above them, and the logs they were justified by. */
  ghost predicate Kept(c: Config, past: seq<Cut>, log: seq<Event>, rs: seq<Relaunch>, watermark: int) {
    && Searchable(c, log) && Continues(past, log)
    && Sound(rs) && Grounded(c, past, log, rs)
    && watermark == LastTrigger(rs)
    && (SparesLast(past) ==> watermark <= LastSeq(log))
  }

  lemma GroundedStays(c: Config, past: seq<Cut>, log: seq<Event>, longer: seq<Event>, rs: seq<Relaunch>)
    requires Grounded(c, past, log, rs) && log <= longer
    ensures Grounded(c, past, longer, rs)
  {
    forall i | 0 <= i < |rs| ensures IsGrounded(c, past, longer, rs[i]) {
      assert IsGrounded(c, past, log, rs[i]);
    }
  }

  lemma NumbersGrow(log: seq<Event>, longer: seq<Event>)
    requires EventLogProperties.Numbered(longer) && log <= longer
    ensures LastSeq(log) <= LastSeq(longer)
  {
    if log != [] && |log| < |longer| {
      assert longer[|log| - 1].seqNo < longer[|longer| - 1].seqNo;
    }
  }

  lemma KeptLonger(c: Config, past: seq<Cut>, log: seq<Event>, longer: seq<Event>, rs: seq<Relaunch>, watermark: int)
    requires Kept(c, past, log, rs, watermark) && Searchable(c, longer)
    requires log <= longer
    ensures Kept(c, past, longer, rs, watermark)
  {
    GroundedStays(c, past, log, longer, rs);
    NumbersGrow(log, longer);
  }

  lemma OneMoreGrounded(c: Config, past: seq<Cut>, log: seq<Event>, rs: seq<Relaunch>, r: Relaunch)
    requires Grounded(c, past, log, rs) && IsGrounded(c, past, log, r)
    ensures Grounded(c, past, log, rs + [r])
  {
    var more := rs + [r];
    forall i | 0 <= i < |more| ensures IsGrounded(c, past, log, more[i]) {
      if i < |rs| {
        assert IsGrounded(c, past, log, rs[i]);
      }
    }
  }

  lemma TriggersRiseOn(rs: seq<Relaunch>, r: Relaunch)
    requires TriggersRise(rs) && LastTrigger(rs) < r.trigger
    ensures TriggersRise(rs + [r]) && LastTrigger(rs + [r]) == r.trigger
  {
  }

  lemma LaterTriggerIsSound(rs: seq<Relaunch>, r: Relaunch)
    requires Sound(rs) && Justified(r) && LastTrigger(rs) < r.trigger
    ensures Sound(rs + [r]) && LastTrigger(rs + [r]) == r.trigger
  {
    var more := rs + [r];
    TriggersRiseOn(rs, r);
    forall i | 0 <= i < |more| ensures Justified(more[i]) {
      assert i < |rs| ==> more[i] == rs[i];
    }
  }

  lemma KeptWithRelaunch(c: Config, past: seq<Cut>, log: seq<Event>, rs: seq<Relaunch>, watermark: int, r: Relaunch)
    requires Kept(c, past, log, rs, watermark) && Justified(r) && IsGrounded(c, past, log, r)
    requires watermark < r.trigger <= LastSeq(log)
    ensures Kept(c, past, log, rs + [r], r.trigger)
  {
    LaterTriggerIsSound(rs, r);
    OneMoreGrounded(c, past, log, rs, r);
  }

  lemma KeptThroughRelaunch(c: Config, past: seq<Cut>, log: seq<Event>, longer: seq<Event>, rs: seq<Relaunch>, watermark: int, r: Relaunch)
    requires Kept(c, past, log, rs, watermark) && Justified(r) && IsGrounded(c, past, log, r)
    requires watermark < r.trigger <= LastSeq(log)
    requires Searchable(c, longer) && log <= longer
    ensures Kept(c, past, longer, rs + [r], r.trigger)
  {
    KeptWithRelaunch(c, past, log, rs, watermark, r);
    KeptLonger(c, past, log, longer, rs + [r], r.trigger);
  }

  lemma {:induction false} NothingToSplit(log: seq<Event>, u: string)
    requires OfTicket(log, u) == []
    ensures NotOfTicket(log, u) == log
  {
    if log != [] {
      NothingToSplit(log[..|log| - 1], u);
    }
  }

  lemma LiveAfterArchiving(s: Store, u: string)
    ensures ArchiveTicket(s, u).live == NotOfTicket(s.live, u)
  {
    if OfTicket(s.live, u) == [] {
      NothingToSplit(s.live, u);
    }
  }

  lemma SplitKeepsSearchable(c: Config, log: seq<Event>, u: string)
    requires Searchable(c, log)
    ensures Searchable(c, NotOfTicket(log, u))
  {
    EventLogProperties.SplittingKeepsNumbers(log, u);
    var rest := NotOfTicket(log, u);
    forall i | 0 <= i < |rest| && rest[i].kind == BuilderRelaunchAttempted && rest[i].payload.triggerSeq.Some?
      ensures rest[i].payload.triggerSeq.value < rest[i].seqNo
    {
      assert rest[i] in log;
    }
  }

  lemma CutKeepsGrounded(c: Config, past: seq<Cut>, log: seq<Event>, rest: seq<Event>, rs: seq<Relaunch>, u: string)
    requires Grounded(c, past, log, rs)
    ensures Grounded(c, past + [Cut(log, u)], rest, rs)
  {
    var more := past + [Cut(log, u)];
    forall i | 0 <= i < |rs| ensures IsGrounded(c, more, rest, rs[i]) {
      assert IsGrounded(c, past, log, rs[i]);
      if rs[i].seen <= log {
        assert more[|past|].log == log;
      } else {
        var k :| 0 <= k < |past| && rs[i].seen <= past[k].log;
        assert more[k] == past[k];
      }
    }
  }

  lemma CutKeepsWatermark(past: seq<Cut>, log: seq<Event>, u: string, watermark: int)
    requires (SparesLast(past) ==> watermark <= LastSeq(log)) && SparesLast(past + [Cut(log, u)])
    ensures watermark <= LastSeq(NotOfTicket(log, u))
  {
    var more := past + [Cut(log, u)];
    forall k | 0 <= k < |past| ensures past[k].log == [] || past[k].log[|past[k].log| - 1].ticket != past[k].ticket {
      assert more[k] == past[k];
    }
    assert more[|past|] == Cut(log, u);
    if log != [] {
      EventLogProperties.LastStays(log, u);
    }
  }

  lemma KeptAfterCut(c: Config, past: seq<Cut>, log: seq<Event>, rs: seq<Relaunch>, watermark: int, u: string)
    requires Kept(c, past, log, rs, watermark)
    ensures Kept(c, past + [Cut(log, u)], NotOfTicket(log, u), rs, watermark)
  {
    var more := past + [Cut(log, u)];
    SplitKeepsSearchable(c, log, u);
    CutKeepsGrounded(c, past, log, NotOfTicket(log, u), rs, u);
    assert more[..|past|] == past;
    if SparesLast(more) {
      CutKeepsWatermark(past, log, u, watermark);
    }
  }

  function LastTrigger(rs: seq<Relaunch>): int {
    if rs == [] then 0 else rs[|rs| - 1].trigger
  }

  function NewEvents(log: seq<Event>, after: int): (r: seq<Event>)
    ensures forall e :: e in r <==> e in log && e.seqNo > after
  {
    if log == [] then [] else
      var init := NewEvents(log[..|log| - 1], after);
      if log[|log| - 1].seqNo > after then init + [log[|log| - 1]] else init
  }

  /** Events from others that keep the log searchable: attempts name past triggers. */
  ghost predicate Honest(log: seq<Event>, p: Pass) {
    forall r :: r in p.before || r in p.whileProcessing || r in p.launch.meanwhile ==> NamesPastTrigger(log, r)
  }

  /** At most one relaunch was added, and then the round went up by exactly one. */
  ghost predicate AddsAtMostOne(before: seq<Relaunch>, round: int, after: seq<Relaunch>, round': int) {
    || (after == before && round' == round)
    || (&& |after| == |before| + 1 && before <= after
        && round' == round + 1 && after[|before|].round == round')
  }

  lemma NumbersEndWithLast(log: seq<Event>, e: Event)
    requires EventLogProperties.Numbered(log) && e in log
    ensures 0 < e.seqNo <= LastSeq(log)
  {
    var i :| 0 <= i < |log| && log[i] == e;
    assert i < |log| - 1 ==> log[i].seqNo < log[|log| - 1].seqNo;
  }

  lemma TriggerIsPast(log: seq<Event>, t: string, trigger: int)
    requires EventLogProperties.Numbered(log)
    requires exists e :: e in log && IsChanges(e, t) && e.seqNo == trigger
    ensures trigger <= LastSeq(log)
  {
    var e :| e in log && IsChanges(e, t) && e.seqNo == trigger;
    NumbersEndWithLast(log, e);
  }

  // ----- blockers of a CHANGES review -----

  const MAX_BLOCKER_BYTES: nat := 15 * 1024

  /** Why blockers cannot be handed to the Builder, if they cannot, and how large they are where that is why. */
  function BlockerProblem(blockers: string): Option<(string, Scalar)> {
    if Blank(blockers) then Some(("empty_blockers", Null))
    else if Utf8Length(blockers) >= MAX_BLOCKER_BYTES then Some(("blockers_too_large", Number(Utf8Length(blockers))))
    else if Contains(blockers, "{\"type\":") || Contains(blockers, "sessionID") then
      Some(("blockers_contain_raw_jsonl", Null))
    else None
  }

  function HandoffBlock(t: string, problem: (string, Scalar)): Request {
    var reason := map["reason" := Text(problem.0)];
    var fields := if problem.1 == Null then reason else reason["size_bytes" := problem.1];
    Request(HandoffBlocked, t, "SUPERVISOR", EMPTY_PAYLOAD.(rest := fields), false, "", "")
  }

  function LatestReview(log: seq<Event>, t: string): Option<Event> {
    if log == [] then None
    else
      var e := log[|log| - 1];
      if e.ticket == t && e.kind == ReviewDecision then Some(e) else LatestReview(log[..|log| - 1], t)
  }

  /** The event that writing down the blockers of t emits, if any. */
  function BlockersRequest(log: seq<Event>, t: string): Option<Request> {
    var review := LatestReview(log, t);
    if review.None? || review.value.payload.blockers.None? then None
    else
      var problem := BlockerProblem(review.value.payload.blockers.value);
      if problem.None? then None else Some(HandoffBlock(t, problem.value))
  }

  function WithBlockers(c: Config, log: seq<Event>, t: string): seq<Event> {
    var r := BlockersRequest(log, t);
    if r.None? then log else Emitted(c, log, r.value)
  }

  /** Blockers that are empty, too large, or raw output of the reviewer. */
  ghost predicate Unusable(blockers: string) {
    || (forall i :: 0 <= i < |blockers| ==> blockers[i] in {' ', '\t', '\n', '\r'})
    || Utf8Length(blockers) >= 15360
    || Occurs(blockers, "{\"type\":") || Occurs(blockers, "sessionID")
  }

  lemma ProblemIff(blockers: string)
    ensures BlockerProblem(blockers).Some? <==> Unusable(blockers)
  {
    ContainsIffOccurs(blockers, "{\"type\":");
    ContainsIffOccurs(blockers, "sessionID");
  }

  lemma {:induction false} LatestReviewIsLast(log: seq<Event>, t: string, i: nat)
    ensures LastOfKind(log, t, ReviewDecision, i) ==> LatestReview(log, t) == Some(log[i])
    ensures LatestReview(log, t).Some? ==> exists k: nat :: LastOfKind(log, t, ReviewDecision, k)
  {
    if log != [] {
      var init, e := log[..|log| - 1], log[|log| - 1];
      assert init + [e] == log;
      LatestReviewIsLast(init, t, i);
      if e.ticket == t && e.kind == ReviewDecision {
        assert LastOfKind(log, t, ReviewDecision, |init|);
        assert LastOfKind(log, t, ReviewDecision, i) ==> i == |init|;
      } else {
        LastOfKindInit(init, e, t, ReviewDecision, i);
        if k: nat :| LastOfKind(init, t, ReviewDecision, k) {
          LastOfKindInit(init, e, t, ReviewDecision, k);
        }
      }
    }
  }

  /** A HANDOFF_BLOCKED of t is called for exactly by unusable blockers of its last review. */
  lemma BlockIsCalledForIff(log: seq<Event>, t: string)
    ensures BlockersRequest(log, t).Some? <==>
            exists i: nat ::
              && LastOfKind(log, t, ReviewDecision, i) && log[i].payload.blockers.Some?
              && Unusable(log[i].payload.blockers.value)
    ensures BlockersRequest(log, t).Some? ==>
              BlockersRequest(log, t).value.kind == HandoffBlocked && BlockersRequest(log, t).value.ticket == t
  {
    if i: nat :| LastOfKind(log, t, ReviewDecision, i) {
      LatestReviewIsLast(log, t, i);
      if log[i].payload.blockers.Some? {
        ProblemIff(log[i].payload.blockers.value);
      }
      forall k: nat | LastOfKind(log, t, ReviewDecision, k) ensures k == i {
      }
    } else {
      LatestReviewIsLast(log, t, 0);
    }
  }

  /** The event names the first reason there is, and the size where that is the reason. */
  lemma BlockSaysWhy(log: seq<Event>, t: string, i: nat)
    requires LastOfKind(log, t, ReviewDecision, i) && log[i].payload.blockers.Some?
    requires Unusable(log[i].payload.blockers.value)
    ensures BlockersRequest(log, t).Some?
    ensures var blockers := log[i].payload.blockers.value;
            BlockersRequest(log, t).value.payload.rest ==
            if forall i :: 0 <= i < |blockers| ==> blockers[i] in {' ', '\t', '\n', '\r'} then map["reason" := Text("empty_blockers")]
            else if Utf8Length(blockers) >= 15360
              then map["reason" := Text("blockers_too_large"), "size_bytes" := Number(Utf8Length(blockers))]
            else map["reason" := Text("blockers_contain_raw_jsonl")]
  {
    LatestReviewIsLast(log, t, i);
    ProblemIff(log[i].payload.blockers.value);
  }

  /**
   Unusable blockers are noticed only after the look for a block: the relaunch
   goes ahead although its own HANDOFF_BLOCKED is on the bus by then, unless the
   duplicate guard drops that event.
   */
  lemma OwnBlockComesTooLate(c: Config, log: seq<Event>, t: string, trigger: int)
    requires EventLogProperties.Numbered(log) && trigger <= LastSeq(log)
    requires forall e :: e in log ==> !IsBlockAfter(e, t, trigger)
    ensures (exists e :: e in WithBlockers(c, log, t) && IsBlockAfter(e, t, trigger))
            <==> BlockersRequest(log, t).Some? && !RefusedAsDuplicate(c, log, BlockersRequest(log, t).value)
  {
    var r := BlockersRequest(log, t);
    if r.Some? && !RefusedAsDuplicate(c, log, r.value) {
      assert Stamped(c, log, r.value) in WithBlockers(c, log, t);
    }
  }

  // ----- closing a ticket -----

  function CloseState(t: string): Request {
    Request(StateChanged, t, "SUPERVISOR",
            EMPTY_PAYLOAD.(toState := "COMPLETED",
                           rest := map["from_state" := Text("READY_TO_CLOSE"), "reason" := Text("Closeout confirmed"),
                                       "source" := Text("supervisor")]),
            false, "", "")
  }

  function CloseMark(t: string): Request {
    Request(SupervisorClosed, t, "SUPERVISOR",
            EMPTY_PAYLOAD.(rest := map["action" := Text("close_active_ticket")]), false, "", "")
  }

  function LastStateChanged(log: seq<Event>, t: string): string {
    if log == [] then ""
    else
      var e := log[|log| - 1];
      if e.ticket == t && e.kind == StateChanged then Upper(e.payload.toState)
      else LastStateChanged(log[..|log| - 1], t)
  }

  predicate CanClose(log: seq<Event>, t: string) {
    LastStateChanged(log, t) == "READY_TO_CLOSE" && exists e :: e in log && e.ticket == t && e.kind == CloseConfirmed
  }

  /** Event i is the last of this kind of t. */
  ghost predicate LastOfKind(log: seq<Event>, t: string, kind: Kind, i: nat) {
    && i < |log| && log[i].ticket == t && log[i].kind == kind
    && forall k :: i < k < |log| ==> !(log[k].ticket == t && log[k].kind == kind)
  }

  lemma LastOfKindInit(init: seq<Event>, e: Event, t: string, kind: Kind, i: nat)
    requires !(e.ticket == t && e.kind == kind)
    ensures LastOfKind(init + [e], t, kind, i) <==> LastOfKind(init, t, kind, i)
  {
    if LastOfKind(init + [e], t, kind, i) {
      forall k | i < k < |init| ensures !(init[k].ticket == t && init[k].kind == kind) {
        assert init[k] == (init + [e])[k];
      }
    }
  }

  lemma {:induction false} LastStateIsRead(log: seq<Event>, t: string, i: nat)
    ensures LastOfKind(log, t, StateChanged, i) ==> LastStateChanged(log, t) == Upper(log[i].payload.toState)
    ensures LastStateChanged(log, t) != "" ==> exists k: nat :: LastOfKind(log, t, StateChanged, k)
  {
    if log != [] {
      var init, e := log[..|log| - 1], log[|log| - 1];
      assert init + [e] == log;
      LastStateIsRead(init, t, i);
      if e.ticket == t && e.kind == StateChanged {
        assert LastOfKind(log, t, StateChanged, |init|);
        assert LastOfKind(log, t, StateChanged, i) ==> i == |init|;
      } else {
        LastOfKindInit(init, e, t, StateChanged, i);
        if k: nat :| LastOfKind(init, t, StateChanged, k) {
          LastOfKindInit(init, e, t, StateChanged, k);
        }
      }
    }
  }

  /** A ticket can be closed exactly if its last STATE_CHANGED names READY_TO_CLOSE and its close was confirmed. */
  lemma CanCloseIff(log: seq<Event>, t: string)
    ensures CanClose(log, t) <==>
            && (exists i: nat :: LastOfKind(log, t, StateChanged, i) && Upper(log[i].payload.toState) == "READY_TO_CLOSE")
            && exists e :: e in log && e.ticket == t && e.kind == CloseConfirmed
  {
    if i: nat :| LastOfKind(log, t, StateChanged, i) {
      LastStateIsRead(log, t, i);
    } else {
      LastStateIsRead(log, t, 0);
    }
  }

  function Closed(c: Config, log: seq<Event>, t: string): seq<Event> {
    Emitted(c, Emitted(c, log, CloseState(t)), CloseMark(t))
  }

  /**
   Closing leaves both derivations at COMPLETED when its STATE_CHANGED gets past
   the duplicate guard. When it does not, the bus keeps the state it had, and the
   supervisor's own derivation sees COMPLETED only through SUPERVISOR_CLOSED.
   */
  lemma ClosingDecides(c: Config, log: seq<Event>, t: string)
    requires Reentry.KeepsStateWords(c.redact)
    ensures var stateIn := Accepts(c, log, CloseState(t));
            var markIn := Accepts(c, Emitted(c, log, CloseState(t)), CloseMark(t));
            && (stateIn <==> !RefusedAsDuplicate(c, log, CloseState(t)))
            && CurrentState(Closed(c, log, t), t) == (if stateIn then Some(Completed) else CurrentState(log, t))
            && StateMachine.DeriveState(OfTicket(Closed(c, log, t), t)) ==
               (if stateIn || markIn then Completed else StateMachine.DeriveState(OfTicket(log, t)))
  {
    ClosingWords(t);
    var mid := Emitted(c, log, CloseState(t));
    Reentry.EmitDecidesState(c, log, CloseState(t), t);
    Reentry.EmitDecidesState(c, mid, CloseMark(t), t);
    StateMachine.EmitDecidesDerived(c, log, CloseState(t), t);
    StateMachine.EmitDecidesDerived(c, mid, CloseMark(t), t);
    ClosingPassesGuard(c, log, t);
  }

  lemma ClosingWords(t: string)
    ensures Reentry.Outcome(CloseState(t)) == Some(Completed)
    ensures StateMachine.DerivedOutcome(CloseState(t)) == StateMachine.DerivedOutcome(CloseMark(t)) == Some(Completed)
  {
    assert Upper("COMPLETED") == "COMPLETED";
  }

  lemma ClosingPassesGuard(c: Config, log: seq<Event>, t: string)
    ensures Accepts(c, log, CloseState(t)) <==> !RefusedAsDuplicate(c, log, CloseState(t))
  {
    ClosingWords(t);
  }

  // ----- other events of the supervisor -----

  function Suppressed(t: string, trigger: int, blocking: int): Request {
    Request(OtherKind("RELAUNCH_SUPPRESSED"), t, "SUPERVISOR",
            EMPTY_PAYLOAD.(rest := map["reason" := Text("handoff_blocked"), "trigger_sequence" := Number(trigger),
                                       "blocking_sequence" := Number(blocking)]),
            false, "", "")
  }

  function Deferred(t: string, trigger: int, watermark: int): Request {
    Request(OtherKind("SUPERVISOR_REQUEUE_DEFERRED"), t, "SUPERVISOR",
            EMPTY_PAYLOAD.(rest := map["trigger_sequence" := Number(trigger), "reason" := Text("builder_lock_fresh"),
                                       "watermark" := Number(watermark)]),
            false, "", "")
  }

  function HandoffRequested(t: string): Request {
    Request(OtherKind("HANDOFF_REQUESTED"), t, "SUPERVISOR",
            EMPTY_PAYLOAD.(rest := map["target_role" := Text("BUILDER")]), false, "", "")
  }

  function Activation(t: string): Request {
    Request(StateChanged, t, "SUPERVISOR",
            EMPTY_PAYLOAD.(toState := "IN_PROGRESS",
                           rest := map["from_state" := Text("N/A"), "reason" := Text("Next ticket activated"),
                                       "source" := Text("supervisor")]),
            false, "", "")
  }

  function Activated(c: Config, log: seq<Event>, t: string): seq<Event> {
    Emitted(c, Emitted(c, log, HandoffRequested(t)), Activation(t))
  }

  /**
   Activating a ticket puts it to work on the bus, unless the bus has it closed
   or the duplicate guard drops the event; then its state stays what it was.
   */
  lemma ActivationDecides(c: Config, log: seq<Event>, t: string)
    requires Reentry.KeepsStateWords(c.redact)
    ensures var dropped := RefusedAsDuplicate(c, Emitted(c, log, HandoffRequested(t)), Activation(t));
            CurrentState(Activated(c, log, t), t) ==
            if Reentry.Closed(CurrentState(log, t)) || dropped then CurrentState(log, t) else Some(InProgress)
    ensures forall u :: u != t ==> CurrentState(Activated(c, log, t), u) == CurrentState(log, u)
  {
    var mid := Emitted(c, log, HandoffRequested(t));
    assert Upper("IN_PROGRESS") == "IN_PROGRESS";
    Reentry.ReentryIff(mid, Activation(t));
    forall u ensures CurrentState(mid, u) == CurrentState(log, u) {
      Reentry.EmitDecidesState(c, log, HandoffRequested(t), u);
    }
    forall u ensures CurrentState(Activated(c, log, t), u) ==
                     if u == t && Accepts(c, mid, Activation(t)) then Some(InProgress) else CurrentState(mid, u)
    {
      Reentry.EmitDecidesState(c, mid, Activation(t), u);
    }
  }

  /** The bus after t was closed and next, if any, made active. */
  function Advanced(c: Config, log: seq<Event>, t: string, next: Option<string>): seq<Event> {
    var closed := Closed(c, log, t);
    if next.None? then closed else Activated(c, closed, next.value)
  }

  // ----- when a relaunch is due -----

  /** What stands between a trigger and the relaunch, on the bus as it is when it is looked at. */
  ghost predicate CanRelaunch(log: seq<Event>, active: Option<string>, t: string, trigger: int, granted: bool) {
    granted && active == Some(t) && !BlockedPast(log, t, trigger) && !HeldBack(log, t)
  }

  /** One pass relaunches for this trigger. */
  ghost predicate DueInPass(c: Config, s: SupervisorState, log: seq<Event>, p: Pass, trigger: int) {
    var read := EmittedAll(c, log, p.before);
    && s.activeTicket.Some? && trigger > 0 && trigger > s.lastRequeueTrigger
    && IsLatestChanges(NewEvents(read, s.lastProcessedSequence), s.activeTicket.value, trigger)
    && CanRelaunch(EmittedAll(c, read, p.whileProcessing), s.activeTicket, s.activeTicket.value, trigger, p.claimGranted)
  }

  /** A CHANGES that was never relaunched, of a ticket that should be at work. */
  ghost predicate Stranded(s: SupervisorState, log: seq<Event>, t: string, trigger: int) {
    var derived := StateMachine.DeriveState(OfTicket(log, t));
    && trigger > 0 && trigger > s.lastRequeueTrigger && IsLatestChanges(OfTicket(log, t), t, trigger)
    && (derived == InProgress || (derived == ReadyForReview && trigger > s.lastProcessedSequence))
  }

  /** A bootstrap relaunches t for this trigger. */
  ghost predicate DueAtBootstrap(c: Config, s: SupervisorState, log: seq<Event>, t: string, p: Pass, trigger: int) {
    Stranded(s, log, t, trigger) && !p.builderAlive && CanRelaunch(log, s.activeTicket, t, trigger, p.claimGranted)
  }

  // ----- which events hold a ticket back -----

  /** An event that decides a ticket's state for the supervisor. */
  predicate IsDeciding(e: Event, t: string) {
    && e.ticket == t
    && e.kind in {StateChanged, CloseConfirmed, SupervisorClosed, ReviewDecision, ApprovalResolved, ContractGap}
  }

  /** The last deciding event of t on this log. */
  ghost predicate DecidesLast(log: seq<Event>, t: string, i: nat) {
    i < |log| && IsDeciding(log[i], t) && forall k :: i < k < |log| ==> !IsDeciding(log[k], t)
  }

  /** A gate for a human, an approval, or a close of any kind. */
  predicate HoldsBack(e: Event) {
    match e.kind
    case ReviewDecision => Lower(e.payload.decision) in {"inspect", "approve"}
    case CloseConfirmed => true
    case SupervisorClosed => true
    case StateChanged => Upper(e.payload.toState) in {"HUMAN_GATE", "READY_TO_CLOSE", "COMPLETED", "SUPERSEDED", "BLOCKED_FINAL"}
    case _ => false
  }

  ghost predicate LastIs(log: seq<Event>, t: string, what: Event -> bool) {
    exists i: nat :: DecidesLast(log, t, i) && what(log[i])
  }

  ghost predicate HeldBack(log: seq<Event>, t: string) {
    LastIs(log, t, HoldsBack)
  }

  /** The event puts its ticket to work, or up for review. */
  predicate PutsToWork(e: Event) {
    match e.kind
    case StateChanged => Upper(e.payload.toState) == "IN_PROGRESS"
    case ReviewDecision => Lower(e.payload.decision) == "changes"
    case _ => false
  }

  predicate PutsUpForReview(e: Event) {
    match e.kind
    case StateChanged => Upper(e.payload.toState) == "READY_FOR_REVIEW"
    case ApprovalResolved => Lower(e.payload.status) == "approved"
    case _ => false
  }

  lemma LastEventTells(events: seq<Event>, e: Event, t: string)
    requires IsDeciding(e, t)
    ensures StateMachine.DeriveState(events + [e]) in RELAUNCH_BLOCKED_STATES <==> HoldsBack(e)
    ensures StateMachine.DeriveState(events + [e]) == InProgress <==> PutsToWork(e)
    ensures StateMachine.DeriveState(events + [e]) == ReadyForReview <==> PutsUpForReview(e)
  {
    assert (events + [e])[..|events|] == events;
  }

  lemma QuietIsSkipped(events: seq<Event>, e: Event, t: string)
    requires e.ticket == t && !IsDeciding(e, t)
    ensures StateMachine.DeriveState(events + [e]) == StateMachine.DeriveState(events)
  {
    assert (events + [e])[..|events|] == events;
  }

  lemma LastOfInit(init: seq<Event>, e: Event, t: string, what: Event -> bool)
    requires !IsDeciding(e, t)
    ensures LastIs(init + [e], t, what) <==> LastIs(init, t, what)
  {
    var log := init + [e];
    if i: nat :| DecidesLast(init, t, i) && what(init[i]) {
      assert DecidesLast(log, t, i) && log[i] == init[i];
    }
    if i: nat :| DecidesLast(log, t, i) && what(log[i]) {
      assert i < |init|;
      forall k | i < k < |init| ensures !IsDeciding(init[k], t) {
        assert init[k] == log[k];
      }
      assert DecidesLast(init, t, i) && log[i] == init[i];
    }
  }

  lemma NoneBehindLast(log: seq<Event>, t: string, i: nat, k: nat)
    requires DecidesLast(log, t, i) && k < |log| && IsDeciding(log[k], t)
    ensures k <= i
  {
  }

  lemma LastIsLast(init: seq<Event>, e: Event, t: string, what: Event -> bool)
    requires IsDeciding(e, t)
    ensures LastIs(init + [e], t, what) <==> what(e)
  {
    var log := init + [e];
    assert DecidesLast(log, t, |init|) && log[|init|] == e;
    if i: nat :| DecidesLast(log, t, i) && what(log[i]) {
      NoneBehindLast(log, t, i, |init|);
    }
  }

  /** The derived state, as far as a relaunch asks for it, is told by the last deciding event. */
  lemma {:induction false} DerivedIsTold(log: seq<Event>, t: string)
    ensures var derived := StateMachine.DeriveState(OfTicket(log, t));
            && (derived in RELAUNCH_BLOCKED_STATES <==> HeldBack(log, t))
            && (derived == InProgress <==> LastIs(log, t, PutsToWork))
            && (derived == ReadyForReview <==> LastIs(log, t, PutsUpForReview))
  {
    if log != [] {
      var init, e := log[..|log| - 1], log[|log| - 1];
      assert init + [e] == log;
      DerivedIsTold(init, t);
      if IsDeciding(e, t) {
        LastIsLast(init, e, t, HoldsBack);
        LastIsLast(init, e, t, PutsToWork);
        LastIsLast(init, e, t, PutsUpForReview);
        LastEventTells(OfTicket(init, t), e, t);
      } else {
        LastOfInit(init, e, t, HoldsBack);
        LastOfInit(init, e, t, PutsToWork);
        LastOfInit(init, e, t, PutsUpForReview);
        if e.ticket == t {
          QuietIsSkipped(OfTicket(init, t), e, t);
        }
      }
    }
  }

  /** A HANDOFF_BLOCKED of t past this number is on the log. */
  ghost predicate BlockedPast(log: seq<Event>, t: string, number: int) {
    exists e :: e in log && e.ticket == t && e.kind == HandoffBlocked && e.seqNo > number
  }

  /** Writing the blockers down holds nothing back. */
  lemma WithBlockersDerives(c: Config, log: seq<Event>, t: string)
    ensures StateMachine.DeriveState(OfTicket(WithBlockers(c, log, t), t)) == StateMachine.DeriveState(OfTicket(log, t))
  {
    var request := BlockersRequest(log, t);
    if request.Some? {
      QuietKeepsDerived(c, log, request.value, t);
    }
  }

  /** A CHANGES of t, by a review or a loop, in whatever case. */
  predicate SaysChanges(e: Event, t: string) {
    && e.ticket == t && (e.kind == ReviewDecision || e.kind == LoopDecision) && Lower(e.payload.decision) == "changes"
  }

  /** The greatest number of a CHANGES of t past this one. */
  ghost predicate IsNewest(log: seq<Event>, t: string, past: int, number: int) {
    && (exists e :: e in log && SaysChanges(e, t) && e.seqNo == number && e.seqNo > past)
    && (forall e :: e in log && SaysChanges(e, t) && e.seqNo > past ==> e.seqNo <= number)
  }

  lemma SaysChangesIff(e: Event, t: string)
    ensures IsChanges(e, t) <==> SaysChanges(e, t)
  {
    CaseOfChanges(e.payload.decision);
  }

  lemma CaseOfChanges(word: string)
    ensures Upper(word) == "CHANGES" <==> Lower(word) == "changes"
  {
    if |word| == 7 {
      forall k | 0 <= k < 7 ensures UpperChar(word[k]) == "CHANGES"[k] <==> LowerChar(word[k]) == "changes"[k] {
        assert LowerChar("CHANGES"[k]) == "changes"[k] && UpperChar("changes"[k]) == "CHANGES"[k];
      }
    }
  }

  lemma LatestIsNewest(log: seq<Event>, t: string, past: int, number: int)
    requires number > 0
    ensures IsLatestChanges(NewEvents(log, past), t, number) <==> IsNewest(log, t, past, number)
  {
    forall e | e in log ensures IsChanges(e, t) <==> SaysChanges(e, t) {
      SaysChangesIff(e, t);
    }
  }

  /**
   A pass relaunches the active ticket exactly for the newest CHANGES that is
   past the processed sequence and the watermark, if the claim is granted, no
   later HANDOFF_BLOCKED is on the bus and its last deciding event does not hold
   it back.
   */
  lemma DueInPassIff(c: Config, s: SupervisorState, log: seq<Event>, p: Pass, t: string, n: int)
    requires s.activeTicket == Some(t)
    ensures var read := EmittedAll(c, log, p.before);
            var now := EmittedAll(c, read, p.whileProcessing);
            DueInPass(c, s, log, p, n) <==>
            && n > 0 && n > s.lastRequeueTrigger && IsNewest(read, t, s.lastProcessedSequence, n)
            && p.claimGranted && !BlockedPast(now, t, n) && !HeldBack(now, t)
  {
    var read := EmittedAll(c, log, p.before);
    if n > 0 {
      LatestIsNewest(read, t, s.lastProcessedSequence, n);
    }
  }

  lemma LatestOfTicketIsNewest(log: seq<Event>, t: string, number: int)
    requires number > 0
    ensures IsLatestChanges(OfTicket(log, t), t, number) <==> IsNewestOfAll(log, t, number)
  {
    forall e | e in log ensures IsChanges(e, t) <==> SaysChanges(e, t) {
      SaysChangesIff(e, t);
    }
  }

  /** The newest CHANGES of t has this number. */
  ghost predicate IsNewestOfAll(log: seq<Event>, t: string, number: int) {
    && (exists e :: e in log && SaysChanges(e, t) && e.seqNo == number)
    && (forall e :: e in log && SaysChanges(e, t) ==> e.seqNo <= number)
  }

  lemma StrandedIff(s: SupervisorState, log: seq<Event>, t: string, n: int)
    ensures Stranded(s, log, t, n) <==>
            && n > 0 && n > s.lastRequeueTrigger && IsNewestOfAll(log, t, n)
            && (LastIs(log, t, PutsToWork) || (LastIs(log, t, PutsUpForReview) && n > s.lastProcessedSequence))
  {
    DerivedIsTold(log, t);
    if n > 0 {
      LatestOfTicketIsNewest(log, t, n);
    }
  }

  lemma WorkIsNotHeldBack(log: seq<Event>, t: string)
    requires LastIs(log, t, PutsToWork) || LastIs(log, t, PutsUpForReview)
    ensures !HeldBack(log, t)
  {
    DerivedIsTold(log, t);
  }

  /**
   A bootstrap relaunches the active ticket exactly for its newest CHANGES, if
   that is past the watermark, the Builder is dead, the claim is granted, no later
   HANDOFF_BLOCKED is on the bus, and the last deciding event put the ticket to
   work, or up for review while the CHANGES is past the processed sequence.
   */
  lemma DueAtBootstrapIff(c: Config, s: SupervisorState, log: seq<Event>, t: string, p: Pass, n: int)
    requires s.activeTicket == Some(t)
    ensures DueAtBootstrap(c, s, log, t, p, n) <==>
            && n > 0 && n > s.lastRequeueTrigger && IsNewestOfAll(log, t, n)
            && (LastIs(log, t, PutsToWork) || (LastIs(log, t, PutsUpForReview) && n > s.lastProcessedSequence))
            && !p.builderAlive && p.claimGranted && !BlockedPast(log, t, n)
  {
    StrandedIff(s, log, t, n);
    if LastIs(log, t, PutsToWork) || LastIs(log, t, PutsUpForReview) {
      WorkIsNotHeldBack(log, t);
    }
  }

  /** A ticket whose last deciding event holds it back is relaunched by neither a pass nor a bootstrap. */
  lemma HeldBackIsNeverDue(c: Config, s: SupervisorState, log: seq<Event>, p: Pass, t: string, n: int)
    requires s.activeTicket == Some(t)
    ensures HeldBack(EmittedAll(c, EmittedAll(c, log, p.before), p.whileProcessing), t) ==> !DueInPass(c, s, log, p, n)
    ensures HeldBack(log, t) ==> !DueAtBootstrap(c, s, log, t, p, n)
  {
    DueInPassIff(c, s, log, p, t, n);
  }

  // ----- triggers that arrive between the read and the processing -----

  /** Where a pass leaves the processed sequence: at the end of the log as it is read a second time. */
  function ProcessedAfter(c: Config, s: SupervisorState, log: seq<Event>, p: Pass): int {
    var now := EmittedAll(c, EmittedAll(c, log, p.before), p.whileProcessing);
    if now == [] then s.lastProcessedSequence else LastSeq(now)
  }

  /** A pass only ever relaunches for a trigger past the processed sequence. */
  lemma DueIsUnprocessed(c: Config, s: SupervisorState, log: seq<Event>, p: Pass, trigger: int)
    requires DueInPass(c, s, log, p, trigger)
    ensures trigger > s.lastProcessedSequence
  {
    var events := NewEvents(EmittedAll(c, log, p.before), s.lastProcessedSequence);
    var e :| e in events && IsChanges(e, s.activeTicket.value) && e.seqNo == trigger;
  }

  /**
   An event on the bus at the end of a pass is new neither to that pass nor to
   any later one exactly when it was processed before, or when it arrived after
   the pass had read its new events and before it moved the processed sequence.
   A CHANGES lost that way is left to a bootstrap.
   */
  lemma LostBetweenReads(c: Config, s: SupervisorState, log: seq<Event>, p: Pass, e: Event, later: seq<Event>, after: int)
    requires EventLogProperties.Numbered(log)
    requires var now := EmittedAll(c, EmittedAll(c, log, p.before), p.whileProcessing);
             e in now && now <= later && after >= ProcessedAfter(c, s, log, p)
    ensures e !in NewEvents(EmittedAll(c, log, p.before), s.lastProcessedSequence) && e !in NewEvents(later, after)
       <==> e.seqNo <= s.lastProcessedSequence || e !in EmittedAll(c, log, p.before)
  {
    var read := EmittedAll(c, log, p.before);
    EmitsKeepNumbers(c, log, p.before);
    EmitsKeepNumbers(c, read, p.whileProcessing);
    NumbersEndWithLast(EmittedAll(c, read, p.whileProcessing), e);
  }

  lemma NumbersAreUnique(log: seq<Event>, a: Event, b: Event)
    requires EventLogProperties.Numbered(log) && a in log && b in log && a.seqNo == b.seqNo
    ensures a == b
  {
  }

  /**
   What arrives between the two reads of a pass leads to a relaunch neither in
   that pass nor in any pass that starts from a sequence at least as high.
   */
  lemma LostIsNeverDue(c: Config, s: SupervisorState, log: seq<Event>, p: Pass, e: Event,
                       s': SupervisorState, log': seq<Event>, p': Pass)
    requires EventLogProperties.Numbered(log) && s'.lastProcessedSequence >= ProcessedAfter(c, s, log, p)
    requires e in EmittedAll(c, EmittedAll(c, log, p.before), p.whileProcessing) && e !in EmittedAll(c, log, p.before)
    ensures !DueInPass(c, s, log, p, e.seqNo) && !DueInPass(c, s', log', p', e.seqNo)
  {
    var read := EmittedAll(c, log, p.before);
    var now := EmittedAll(c, read, p.whileProcessing);
    EmitsKeepNumbers(c, log, p.before);
    EmitsKeepNumbers(c, read, p.whileProcessing);
    EmitsExtend(c, read, p.whileProcessing);
    NumbersEndWithLast(now, e);
    if DueInPass(c, s', log', p', e.seqNo) {
      DueIsUnprocessed(c, s', log', p', e.seqNo);
      assert false;
    }
    if DueInPass(c, s, log, p, e.seqNo) {
      var found :| found in NewEvents(read, s.lastProcessedSequence) && found.seqNo == e.seqNo;
      assert found in now;
      NumbersAreUnique(now, found, e);
      assert false;
    }
  }

  // ----- triggers numbered below the watermark -----

  /** Some other ticket's record stands at or above this number. */
  ghost predicate HeldByOthers(log: seq<Event>, u: string, number: int) {
    exists e :: e in log && e.ticket != u && e.seqNo >= number
  }

  /** Archiving u restarts the numbers below this one exactly when no other ticket holds a record there. */
  lemma NumbersStayAboveIff(log: seq<Event>, u: string, number: int)
    requires EventLogProperties.Numbered(log) && number > 0
    ensures LastSeq(NotOfTicket(log, u)) >= number <==> HeldByOthers(log, u, number)
  {
    var rest := NotOfTicket(log, u);
    EventLogProperties.SplittingKeepsNumbers(log, u);
    if HeldByOthers(log, u, number) {
      var e :| e in log && e.ticket != u && e.seqNo >= number;
      NumbersEndWithLast(rest, e);
    } else if rest != [] {
      var last := rest[|rest| - 1];
      assert last in rest && last in log;
    }
  }

  /** Neither a pass nor a bootstrap relaunches for this number, whatever the log; neither lowers the watermark. */
  ghost predicate NeverDue(c: Config, s: SupervisorState, n: int) {
    && (forall log, p :: !DueInPass(c, s, log, p, n))
    && (forall log, t: string, p :: !DueAtBootstrap(c, s, log, t, p, n))
  }

  /**
   The next event after the archiving of u is numbered above the watermark
   exactly when another ticket holds a record there. Otherwise a CHANGES that
   gets the number is due in no pass and in no bootstrap.
   */
  lemma RestartHidesTriggers(c: Config, s: SupervisorState, log: seq<Event>, u: string, r: Request)
    requires EventLogProperties.Numbered(log) && s.lastRequeueTrigger > 0
    ensures var n := Stamped(c, NotOfTicket(log, u), r).seqNo;
            && (HeldByOthers(log, u, s.lastRequeueTrigger) <==> n > s.lastRequeueTrigger)
            && (!HeldByOthers(log, u, s.lastRequeueTrigger) ==> NeverDue(c, s, n))
  {
    NumbersStayAboveIff(log, u, s.lastRequeueTrigger);
    if !HeldByOthers(log, u, s.lastRequeueTrigger) {
      BelowIsNeverDue(c, s, Stamped(c, NotOfTicket(log, u), r).seqNo);
    }
  }

  lemma BelowIsNeverDue(c: Config, s: SupervisorState, n: int)
    requires n <= s.lastRequeueTrigger
    ensures NeverDue(c, s, n)
  {
  }

  /** The latest CHANGES of the active ticket among the events not processed before, or 0. */
  ghost predicate IsNext(c: Config, s: SupervisorState, log: seq<Event>, p: Pass, trigger: int) {
    if s.activeTicket.None? then trigger == 0
    else IsLatestChanges(NewEvents(EmittedAll(c, log, p.before), s.lastProcessedSequence), s.activeTicket.value, trigger)
  }

  lemma FoundIsOnBus(events: seq<Event>, read: seq<Event>, now: seq<Event>, t: string, trigger: int)
    requires (forall e :: e in events ==> e in read) && read <= now && IsLatestChanges(events, t, trigger)
    ensures trigger > 0 ==> exists e :: e in now && IsChanges(e, t) && e.seqNo == trigger
  {
    if trigger > 0 {
      var e :| e in events && IsChanges(e, t) && e.seqNo == trigger;
      assert e in read && e in now;
    }
  }

  lemma OnlyNextIsDue(c: Config, s: SupervisorState, log: seq<Event>, p: Pass, trigger: int, n: int)
    requires IsNext(c, s, log, p, trigger) && DueInPass(c, s, log, p, n)
    ensures n == trigger
  {
    var events := NewEvents(EmittedAll(c, log, p.before), s.lastProcessedSequence);
    LatestChangesIsOne(events, s.activeTicket.value, n, trigger);
  }

  /** One relaunch was added for a trigger that was due, or none was added and none was due. */
  ghost predicate AddsDue(c: Config, s: SupervisorState, log: seq<Event>, p: Pass, before: seq<Relaunch>, after: seq<Relaunch>) {
    if after == before then forall n :: !DueInPass(c, s, log, p, n)
    else
      && after != []
      && s.activeTicket == Some(after[|after| - 1].ticket) && DueInPass(c, s, log, p, after[|after| - 1].trigger)
  }

  /** The next trigger, once it was found, leads to a relaunch. */
  ghost predicate Fires(c: Config, s: SupervisorState, log: seq<Event>, trigger: int, granted: bool) {
    && trigger > 0 && trigger > s.lastRequeueTrigger && s.activeTicket.Some?
    && CanRelaunch(log, s.activeTicket, s.activeTicket.value, trigger, granted)
  }

  /** Nothing was added, or one relaunch for this trigger of the active ticket. */
  ghost predicate AddsFor(active: Option<string>, trigger: int, before: seq<Relaunch>, after: seq<Relaunch>) {
    after != before ==> after != [] && active == Some(after[|after| - 1].ticket) && after[|after| - 1].trigger == trigger
  }

  /** It is enough to look at the next trigger, on the bus as it is after the pass has processed it. */
  lemma LooksAtNext(c: Config, s: SupervisorState, log: seq<Event>, p: Pass, trigger: int,
                    before: seq<Relaunch>, after: seq<Relaunch>)
    requires IsNext(c, s, log, p, trigger) && AddsFor(s.activeTicket, trigger, before, after)
    requires after != before <==>
             Fires(c, s, EmittedAll(c, EmittedAll(c, log, p.before), p.whileProcessing), trigger, p.claimGranted)
    ensures AddsDue(c, s, log, p, before, after)
  {
    if after == before {
      forall n ensures !DueInPass(c, s, log, p, n) {
        if DueInPass(c, s, log, p, n) {
          OnlyNextIsDue(c, s, log, p, trigger, n);
        }
      }
    }
  }

  lemma StrandedIsLatest(s: SupervisorState, log: seq<Event>, t: string, trigger: int)
    requires IsLatestChanges(OfTicket(log, t), t, trigger)
    ensures forall n :: Stranded(s, log, t, n) ==> n == trigger
  {
    forall n | Stranded(s, log, t, n) ensures n == trigger {
      var e :| e in OfTicket(log, t) && IsChanges(e, t) && e.seqNo == n;
      LatestChangesIsOne(OfTicket(log, t), t, n, trigger);
    }
  }

  // ----- a relaunched ticket stays active -----

  /** Neither a block nor an attempt decides a ticket's state. */
  lemma QuietEventDecidesNothing(events: seq<Event>, e: Event)
    requires e.kind in {HandoffBlocked, BuilderRelaunchAttempted}
    ensures StateMachine.DeriveState(events + [e]) == StateMachine.DeriveState(events)
  {
    assert (events + [e])[..|events|] == events;
  }

  lemma QuietKeepsDerived(c: Config, log: seq<Event>, r: Request, t: string)
    requires r.kind in {HandoffBlocked, BuilderRelaunchAttempted}
    ensures StateMachine.DeriveState(OfTicket(Emitted(c, log, r), t)) == StateMachine.DeriveState(OfTicket(log, t))
  {
    if Accepts(c, log, r) {
      var e := Stamped(c, log, r);
      assert (log + [e])[..|log|] == log;
      QuietEventDecidesNothing(OfTicket(log, t), e);
    }
  }

  lemma RelaunchKeepsDerived(c: Config, log: seq<Event>, t: string, trigger: int, round: int, launch: Launch)
    requires launch.meanwhile == []
    ensures StateMachine.DeriveState(OfTicket(Relaunched(c, WithBlockers(c, log, t), t, trigger, round, launch), t))
         == StateMachine.DeriveState(OfTicket(log, t))
  {
    var request := BlockersRequest(log, t);
    if request.Some? {
      QuietKeepsDerived(c, log, request.value, t);
    }
    QuietKeepsDerived(c, WithBlockers(c, log, t), AttemptOf(t, trigger, round, launch), t);
  }

  /** What a bootstrap recovers: the active ticket, the round and the end of the log. */
  function Recovered(s: SupervisorState, log: seq<Event>, recovered: Option<string>, busRound: Option<int>): SupervisorState {
    var active := if recovered.Some? then recovered else s.activeTicket;
    s.(activeTicket := active,
       loopCurrentRound := if active.Some? && busRound.Some? then busRound.value else s.loopCurrentRound,
       lastProcessedSequence := if log == [] then s.lastProcessedSequence else LastSeq(log))
  }

  /** One relaunch of t was added for a trigger left behind, or none was added and none was left behind. */
  ghost predicate AddsStranded(c: Config, s: SupervisorState, log: seq<Event>, t: string, p: Pass,
                               before: seq<Relaunch>, after: seq<Relaunch>) {
    if after == before then forall n :: !DueAtBootstrap(c, s, log, t, p, n)
    else
      && after != [] && after[|after| - 1].ticket == t && after[|after| - 1].trigger <= LastSeq(log)
      && DueAtBootstrap(c, s, log, t, p, after[|after| - 1].trigger)
  }

  ghost predicate AddsRecovered(c: Config, s: SupervisorState, log: seq<Event>, p: Pass,
                                before: seq<Relaunch>, after: seq<Relaunch>) {
    if s.activeTicket.Some? then AddsStranded(c, s, log, s.activeTicket.value, p, before, after) else after == before
  }

  lemma StrandedIsNotTerminal(c: Config, s: SupervisorState, log: seq<Event>, t: string, p: Pass, trigger: int, round: int)
    requires Stranded(s, log, t, trigger) && p.launch.meanwhile == []
    ensures StateMachine.DeriveState(OfTicket(Relaunched(c, WithBlockers(c, log, t), t, trigger, round, p.launch), t))
         in NON_TERMINAL_STATES
  {
    RelaunchKeepsDerived(c, log, t, trigger, round, p.launch);
  }

  /** Right after the sequence was moved to the end of the log, no trigger is past it. */
  lemma RecoveredIsAtWork(s: SupervisorState, log: seq<Event>, recovered: Option<string>, busRound: Option<int>, trigger: int)
    requires EventLogProperties.Numbered(log) && Recovered(s, log, recovered, busRound).activeTicket.Some?
    requires var after := Recovered(s, log, recovered, busRound); Stranded(after, log, after.activeTicket.value, trigger)
    ensures StateMachine.DeriveState(OfTicket(log, Recovered(s, log, recovered, busRound).activeTicket.value)) == InProgress
  {
    var t := Recovered(s, log, recovered, busRound).activeTicket.value;
    var e :| e in OfTicket(log, t) && IsChanges(e, t) && e.seqNo == trigger;
    NumbersEndWithLast(log, e);
  }

  // ----- the supervisor -----

  class Supervisor {
    var state: SupervisorState
    const bus: EventBus
    ghost var relaunches: seq<Relaunch>
    ghost var past: seq<Cut>

    ghost predicate Valid()
      reads this, bus
    {
      Kept(bus.config, past, bus.live, relaunches, state.lastRequeueTrigger)
    }

    constructor (b: EventBus)
      requires Searchable(b.config, b.live)
      ensures Valid() && bus == b && relaunches == [] && past == [] && state == SupervisorState(None, [], 0, 0, 0)
    {
      bus, state, relaunches, past := b, NEW_STATE, [], [];
    }

    method Append(rs: seq<Request>)
      requires Valid() && forall r :: r in rs ==> NamesPastTrigger(bus.live, r)
      modifies bus
      ensures Valid() && old(bus.live) <= bus.live && LastSeq(old(bus.live)) <= LastSeq(bus.live)
      ensures bus.live == EmittedAll(bus.config, old(bus.live), rs)
    {
      MeanwhileKeepsLog(bus.config, bus.live, rs);
      EmitAll(bus, rs);
      KeptLonger(bus.config, past, old(bus.live), bus.live, relaunches, state.lastRequeueTrigger);
    }

    /** One event of the supervisor itself that is not an attempt. */
    method Note(r: Request)
      requires Valid() && r.kind != BuilderRelaunchAttempted
      modifies bus
      ensures Valid() && old(bus.live) <= bus.live && LastSeq(old(bus.live)) <= LastSeq(bus.live)
      ensures bus.live == Emitted(bus.config, old(bus.live), r)
    {
      MeanwhileKeepsLog(bus.config, bus.live, [r]);
      assert [r][..0] == [];
      assert EmittedAll(bus.config, bus.live, [r]) == Emitted(bus.config, bus.live, r);
      var _ := bus.Emit(r);
      KeptLonger(bus.config, past, old(bus.live), bus.live, relaunches, state.lastRequeueTrigger);
    }

    method ProcessNewEvents() returns (changed: bool)
      modifies this`state
      ensures state == old(state).(lastProcessedSequence := state.lastProcessedSequence)
      ensures state.lastProcessedSequence == if bus.live == [] then old(state).lastProcessedSequence else LastSeq(bus.live)
      ensures changed <==> state != old(state)
    {
      if bus.live == [] {
        return false;
      }
      changed := LastSeq(bus.live) != state.lastProcessedSequence;
      state := state.(lastProcessedSequence := LastSeq(bus.live));
    }

    /** Raises the watermark and the round, and relaunches the Builder. */
    method RelaunchFor(t: string, trigger: int, launch: Launch, ghost record: Relaunch) returns (ok: bool)
      requires Valid() && state.lastRequeueTrigger < trigger <= LastSeq(bus.live)
      requires forall r :: r in launch.meanwhile ==> NamesPastTrigger(bus.live, r)
      requires Justified(record) && IsGrounded(bus.config, past, bus.live, record)
      requires record.ticket == t && record.trigger == trigger && record.round == state.loopCurrentRound + 1
      modifies this`state, this`relaunches, bus
      ensures Valid() && relaunches == old(relaunches) + [record] && HasRelaunched(bus.live, t, trigger)
      ensures state == old(state).(lastRequeueTrigger := trigger, loopCurrentRound := record.round)
      ensures ok <==> launch.alive || Launched(launch)
      ensures old(bus.live) <= bus.live
      ensures bus.live == Relaunched(bus.config, old(bus.live), t, trigger, record.round, launch)
    {
      var round := state.loopCurrentRound + 1;
      state := state.(lastRequeueTrigger := trigger, loopCurrentRound := round);
      ok := RelaunchBuilder(bus, t, trigger, round, launch);
      KeptThroughRelaunch(bus.config, past, old(bus.live), bus.live, relaunches, old(state.lastRequeueTrigger), record);
      relaunches := relaunches + [record];
    }

    method RequeueTicket(t: string, trigger: int, claimGranted: bool, launch: Launch, ghost seen: seq<Event>)
        returns (ok: bool)
      requires Valid() && state.lastRequeueTrigger < trigger <= LastSeq(bus.live)
      requires forall r :: r in launch.meanwhile ==> NamesPastTrigger(bus.live, r)
      requires trigger > 0 ==> exists e :: e in seen && IsChanges(e, t) && e.seqNo == trigger
      requires forall e :: e in seen ==> !IsBlockAfter(e, t, trigger)
      requires seen <= bus.live == WithBlockers(bus.config, seen, t)
      modifies this`state, this`relaunches, bus
      ensures Valid() && AddsAtMostOne(old(relaunches), old(state.loopCurrentRound), relaunches, state.loopCurrentRound)
      ensures relaunches != old(relaunches) <==>
              && claimGranted && trigger > 0 && old(state.activeTicket) == Some(t)
              && !HeldBack(seen, t)
      ensures relaunches != old(relaunches) ==>
              && HasRelaunched(bus.live, t, trigger)
              && relaunches[|relaunches| - 1] ==
                 Relaunch(t, trigger, state.loopCurrentRound, seen, old(StateMachine.DeriveState(OfTicket(bus.live, t))))
      ensures ok <==> relaunches != old(relaunches) && (launch.alive || Launched(launch))
      ensures state == if relaunches == old(relaunches) then old(state)
                       else old(state).(lastRequeueTrigger := trigger, loopCurrentRound := old(state.loopCurrentRound) + 1)
      ensures old(bus.live) <= bus.live
      ensures bus.live == if relaunches == old(relaunches) then old(bus.live)
                          else Relaunched(bus.config, old(bus.live), t, trigger, state.loopCurrentRound, launch)
    {
      DerivedIsTold(seen, t);
      WithBlockersDerives(bus.config, seen, t);
      if trigger <= 0 || !claimGranted || state.activeTicket != Some(t) {
        return false;
      }
      var current := StateMachine.DeriveState(OfTicket(bus.live, t));
      if current in RELAUNCH_BLOCKED_STATES {
        return false;
      }
      ghost var record := Relaunch(t, trigger, state.loopCurrentRound + 1, seen, current);
      ok := RelaunchFor(t, trigger, launch, record);
    }

    /** Writes down the blockers of the latest review, or notes why it cannot. */
    method MaterializeBlockers(t: string)
      requires Valid()
      modifies bus
      ensures Valid() && old(bus.live) <= bus.live && LastSeq(old(bus.live)) <= LastSeq(bus.live)
      ensures bus.live == WithBlockers(bus.config, old(bus.live), t)
    {
      var request := BlockersRequest(bus.live, t);
      if request.Some? {
        Note(request.value);
      }
    }

    method SuppressRelaunch(t: string, trigger: int, blocking: int)
      requires Valid()
      modifies bus
      ensures Valid() && old(bus.live) <= bus.live && LastSeq(old(bus.live)) <= LastSeq(bus.live)
      ensures bus.live == Emitted(bus.config, old(bus.live),
                                  Request(OtherKind("RELAUNCH_SUPPRESSED"), t, "SUPERVISOR",
                                          EMPTY_PAYLOAD.(rest := map["reason" := Text("handoff_blocked"),
                                                                     "trigger_sequence" := Number(trigger),
                                                                     "blocking_sequence" := Number(blocking)]),
                                          false, "", ""))
    {
      Note(Suppressed(t, trigger, blocking));
    }

    /** Looks for a block after the trigger, writes the blockers down, and requeues. */
    method CheckAndRequeue(t: string, trigger: int, p: Pass) returns (ok: bool)
      requires Valid() && trigger > state.lastRequeueTrigger && trigger > 0
      requires exists e :: e in bus.live && IsChanges(e, t) && e.seqNo == trigger
      requires forall r :: r in p.launch.meanwhile ==> NamesPastTrigger(bus.live, r)
      modifies this`state, this`relaunches, bus
      ensures Valid() && AddsAtMostOne(old(relaunches), old(state.loopCurrentRound), relaunches, state.loopCurrentRound)
      ensures ok ==> relaunches != old(relaunches)
      ensures old(bus.live) <= bus.live && state.activeTicket == old(state.activeTicket)
      ensures state.lastProcessedSequence == old(state.lastProcessedSequence)
      ensures relaunches != old(relaunches) <==>
              CanRelaunch(old(bus.live), old(state.activeTicket), t, trigger, p.claimGranted)
      ensures relaunches != old(relaunches) ==>
              && bus.live == Relaunched(bus.config, WithBlockers(bus.config, old(bus.live), t), t, trigger,
                                        state.loopCurrentRound, p.launch)
              && HasRelaunched(bus.live, t, trigger)
              && relaunches[|relaunches| - 1].ticket == t && relaunches[|relaunches| - 1].trigger == trigger
              && relaunches[|relaunches| - 1].seen == old(bus.live)
    {
      ghost var seen := bus.live;
      var blocking := HandoffBlockedAfter(bus.live, t, trigger);
      if blocking > 0 {
        SuppressRelaunch(t, trigger, blocking);
        return false;
      }
      assert forall e :: e in seen ==> !IsBlockAfter(e, t, trigger);
      TriggerIsPast(seen, t, trigger);
      MaterializeBlockers(t);
      ok := RequeueTicket(t, trigger, p.claimGranted, p.launch, seen);
    }

    /** The latest CHANGES of the active ticket among the events not processed before, or 0. */
    method NextTrigger(p: Pass) returns (trigger: int)
      requires Valid() && Honest(bus.live, p)
      modifies this`state, bus
      ensures Valid() && old(bus.live) <= bus.live && LastSeq(old(bus.live)) <= LastSeq(bus.live)
      ensures state == old(state).(lastProcessedSequence := state.lastProcessedSequence)
      ensures bus.live == EmittedAll(bus.config, EmittedAll(bus.config, old(bus.live), p.before), p.whileProcessing)
      ensures state.lastProcessedSequence == ProcessedAfter(bus.config, old(state), old(bus.live), p)
      ensures IsNext(bus.config, old(state), old(bus.live), p, trigger)
      ensures trigger > 0 ==>
                && state.activeTicket.Some?
                && exists e :: e in bus.live && IsChanges(e, state.activeTicket.value) && e.seqNo == trigger
    {
      Append(p.before);
      var newEvents := NewEvents(bus.live, state.lastProcessedSequence);
      ghost var read := bus.live;
      Append(p.whileProcessing);
      var _ := ProcessNewEvents();
      trigger := 0;
      if state.activeTicket.Some? {
        trigger := LatestChangesTrigger(newEvents, state.activeTicket.value);
        FoundIsOnBus(newEvents, read, bus.live, state.activeTicket.value, trigger);
      }
    }

    /** Requeues for a trigger above the watermark. */
    method RequeueAbove(trigger: int, p: Pass) returns (requeued: bool)
      requires Valid()
      requires forall r :: r in p.launch.meanwhile ==> NamesPastTrigger(bus.live, r)
      requires trigger > 0 ==>
                 && state.activeTicket.Some?
                 && exists e :: e in bus.live && IsChanges(e, state.activeTicket.value) && e.seqNo == trigger
      modifies this`state, this`relaunches, bus
      ensures Valid() && AddsAtMostOne(old(relaunches), old(state.loopCurrentRound), relaunches, state.loopCurrentRound)
      ensures relaunches != old(relaunches) <==> Fires(bus.config, old(state), old(bus.live), trigger, p.claimGranted)
      ensures AddsFor(old(state.activeTicket), trigger, old(relaunches), relaunches)
      ensures (requeued ==> relaunches != old(relaunches)) && old(bus.live) <= bus.live
      ensures state.lastProcessedSequence == old(state.lastProcessedSequence)
    {
      if trigger <= 0 || trigger <= state.lastRequeueTrigger {
        return false;
      }
      requeued := CheckAndRequeue(state.activeTicket.value, trigger, p);
    }

    /** Processes the new events and requeues at most once. */
    method RequeueOnce(p: Pass) returns (requeued: bool)
      requires Valid() && Honest(bus.live, p)
      modifies this`state, this`relaunches, bus
      ensures Valid() && AddsAtMostOne(old(relaunches), old(state.loopCurrentRound), relaunches, state.loopCurrentRound)
      ensures AddsDue(bus.config, old(state), old(bus.live), p, old(relaunches), relaunches)
      ensures (requeued ==> relaunches != old(relaunches)) && old(bus.live) <= bus.live
      ensures state.lastProcessedSequence == ProcessedAfter(bus.config, old(state), old(bus.live), p)
    {
      var trigger := NextTrigger(p);
      requeued := RequeueAbove(trigger, p);
      LooksAtNext(bus.config, old(state), old(bus.live), p, trigger, old(relaunches), relaunches);
    }

    /** One pass over the new events: process them, requeue at most once, and advance. */
    method RunOnce(p: Pass) returns (requeued: bool)
      requires Valid() && Honest(bus.live, p)
      modifies this`state, this`relaunches, bus
      ensures Valid() && AddsAtMostOne(old(relaunches), old(state.loopCurrentRound), relaunches, state.loopCurrentRound)
      ensures AddsDue(bus.config, old(state), old(bus.live), p, old(relaunches), relaunches)
      ensures (requeued ==> relaunches != old(relaunches)) && old(bus.live) <= bus.live
      ensures state.lastProcessedSequence == ProcessedAfter(bus.config, old(state), old(bus.live), p)
    {
      requeued := RequeueOnce(p);
      var _ := AdvanceIfReviewReady(p.nextTicket);
    }

    /** Closes the active ticket if it is ready and its close is confirmed. */
    method CloseActiveTicket() returns (closed: bool)
      requires Valid()
      modifies this`state, this`relaunches, bus
      ensures Valid() && relaunches == old(relaunches) && old(bus.live) <= bus.live
      ensures closed <==> old(state.activeTicket).Some? && CanClose(old(bus.live), old(state.activeTicket).value)
      ensures closed ==>
              && bus.live == Closed(bus.config, old(bus.live), old(state.activeTicket).value)
              && state == old(state).(activeTicket := None,
                                      completedTickets := old(state.completedTickets) + [old(state.activeTicket).value])
      ensures !closed ==> bus.live == old(bus.live) && state == old(state)
    {
      if state.activeTicket.None? || !CanClose(bus.live, state.activeTicket.value) {
        return false;
      }
      var t := state.activeTicket.value;
      Note(CloseState(t));
      Note(CloseMark(t));
      state := state.(activeTicket := None, completedTickets := state.completedTickets + [t]);
      return true;
    }

    method Activate(t: string)
      requires Valid()
      modifies this`state, bus
      ensures Valid() && old(bus.live) <= bus.live
      ensures state == old(state).(activeTicket := Some(t))
      ensures bus.live == Activated(bus.config, old(bus.live), t)
    {
      state := state.(activeTicket := Some(t));
      Note(HandoffRequested(t));
      Note(Activation(t));
    }

    method AdvanceIfReviewReady(next: Option<string>) returns (advanced: bool)
      requires Valid()
      modifies this`state, this`relaunches, bus
      ensures Valid() && relaunches == old(relaunches) && old(bus.live) <= bus.live
      ensures state.loopCurrentRound == old(state.loopCurrentRound)
      ensures state.lastProcessedSequence == old(state.lastProcessedSequence)
      ensures advanced <==> old(state.activeTicket).Some? && CanClose(old(bus.live), old(state.activeTicket).value)
      ensures state.activeTicket == if advanced then next else old(state.activeTicket)
      ensures bus.live == if advanced then Advanced(bus.config, old(bus.live), old(state.activeTicket).value, next) else old(bus.live)
    {
      advanced := CloseActiveTicket();
      if advanced && next.Some? {
        Activate(next.value);
      }
    }

    method DeferRequeue(t: string, trigger: int)
      requires Valid()
      modifies bus
      ensures Valid() && old(bus.live) <= bus.live
      ensures bus.live == Emitted(bus.config, old(bus.live),
                                  Request(OtherKind("SUPERVISOR_REQUEUE_DEFERRED"), t, "SUPERVISOR",
                                          EMPTY_PAYLOAD.(rest := map["trigger_sequence" := Number(trigger),
                                                                     "reason" := Text("builder_lock_fresh"),
                                                                     "watermark" := Number(state.lastRequeueTrigger)]),
                                          false, "", ""))
    {
      Note(Deferred(t, trigger, state.lastRequeueTrigger));
    }

    /** The stranded trigger of t, or 0. */
    method StrandedTrigger(t: string) returns (trigger: int)
      requires Valid()
      ensures trigger == 0 || Stranded(state, bus.live, t, trigger)
      ensures forall n :: Stranded(state, bus.live, t, n) ==> n == trigger
      ensures trigger > 0 ==> trigger <= LastSeq(bus.live) && exists e :: e in bus.live && IsChanges(e, t) && e.seqNo == trigger
    {
      var latest := LatestChangesTrigger(OfTicket(bus.live, t), t);
      StrandedIsLatest(state, bus.live, t, latest);
      var current := StateMachine.DeriveState(OfTicket(bus.live, t));
      if latest <= 0 || latest <= state.lastRequeueTrigger {
        return 0;
      }
      if current != InProgress && !(current == ReadyForReview && latest > state.lastProcessedSequence) {
        return 0;
      }
      TriggerIsPast(bus.live, t, latest);
      return latest;
    }

    /** Requeues a CHANGES trigger that was never relaunched, unless the Builder is alive. */
    method BootstrapRequeue(t: string, p: Pass) returns (ok: bool)
      requires Valid()
      requires forall r :: r in p.launch.meanwhile ==> NamesPastTrigger(bus.live, r)
      modifies this`state, this`relaunches, bus
      ensures Valid() && AddsAtMostOne(old(relaunches), old(state.loopCurrentRound), relaunches, state.loopCurrentRound)
      ensures AddsStranded(bus.config, old(state), old(bus.live), t, p, old(relaunches), relaunches)
      ensures relaunches != old(relaunches) ==>
              bus.live == Relaunched(bus.config, WithBlockers(bus.config, old(bus.live), t), t,
                                     relaunches[|relaunches| - 1].trigger, state.loopCurrentRound, p.launch)
      ensures old(bus.live) <= bus.live && state.activeTicket == old(state.activeTicket)
    {
      var trigger := StrandedTrigger(t);
      if trigger == 0 {
        return false;
      }
      if p.builderAlive {
        DeferRequeue(t, trigger);
        return false;
      }
      ok := CheckAndRequeue(t, trigger, p);
    }

    /** Recovers the active ticket, the round and the sequence; the bus has the last word. */
    method Recover(recovered: Option<string>, busRound: Option<int>)
      requires Valid()
      modifies this`state
      ensures Valid()
      ensures state == Recovered(old(state), bus.live, recovered, busRound)
    {
      if recovered.Some? {
        state := state.(activeTicket := recovered);
      }
      if state.activeTicket.Some? && busRound.Some? {
        state := state.(loopCurrentRound := busRound.value);
      }
      if bus.live != [] {
        state := state.(lastProcessedSequence := LastSeq(bus.live));
      }
    }

    /** Reads the bus and moves the recovered state to the end of what was read. */
    method CatchUp(recovered: Option<string>, busRound: Option<int>, p: Pass)
      requires Valid() && Honest(bus.live, p)
      modifies this`state, bus
      ensures Valid() && old(bus.live) <= bus.live && LastSeq(old(bus.live)) <= LastSeq(bus.live)
      ensures relaunches == old(relaunches)
      ensures state == Recovered(old(state), EmittedAll(bus.config, old(bus.live), p.before), recovered, busRound)
      ensures bus.live == EmittedAll(bus.config, EmittedAll(bus.config, old(bus.live), p.before), p.whileProcessing)
    {
      Append(p.before);
      Recover(recovered, busRound);
      Append(p.whileProcessing);
    }

    method ClearTerminalTicket(t: string, logCompleted: bool)
      requires Valid()
      modifies this`state
      ensures Valid()
      ensures state == if logCompleted && StateMachine.DeriveState(OfTicket(bus.live, t)) !in NON_TERMINAL_STATES
                       then old(state).(activeTicket := None) else old(state)
    {
      if logCompleted && StateMachine.DeriveState(OfTicket(bus.live, t)) !in NON_TERMINAL_STATES {
        state := state.(activeTicket := None);
      }
    }

    /** Requeues the recovered ticket if it was left behind, and drops it if it is closed; never both. */
    method RequeueRecovered(logCompleted: bool, p: Pass)
      requires Valid()
      requires forall r :: r in p.launch.meanwhile ==> NamesPastTrigger(bus.live, r)
      modifies this`state, this`relaunches, bus
      ensures Valid() && AddsAtMostOne(old(relaunches), old(state.loopCurrentRound), relaunches, state.loopCurrentRound)
      ensures AddsRecovered(bus.config, old(state), old(bus.live), p, old(relaunches), relaunches)
      ensures relaunches != old(relaunches) && p.launch.meanwhile == [] ==> state.activeTicket == old(state.activeTicket)
      ensures old(bus.live) <= bus.live
    {
      if state.activeTicket.Some? {
        var t := state.activeTicket.value;
        var _ := BootstrapRequeue(t, p);
        if relaunches != old(relaunches) && p.launch.meanwhile == [] {
          var trigger := relaunches[|relaunches| - 1].trigger;
          StrandedIsNotTerminal(bus.config, old(state), old(bus.live), t, p, trigger, state.loopCurrentRound);
        }
        ClearTerminalTicket(t, logCompleted);
      }
    }

    /**
     A bootstrap. Since the sequence has just been moved to the end of the log, a
     ticket that is not in progress is requeued only for a CHANGES that arrived
     after that.
     */
    method Reconcile(recovered: Option<string>, busRound: Option<int>, logCompleted: bool, p: Pass)
      requires Valid() && Honest(bus.live, p)
      modifies this`state, this`relaunches, bus
      ensures Valid() && old(bus.live) <= bus.live
      ensures var read := EmittedAll(bus.config, old(bus.live), p.before);
              var s, now := Recovered(old(state), read, recovered, busRound), EmittedAll(bus.config, read, p.whileProcessing);
              && AddsAtMostOne(old(relaunches), s.loopCurrentRound, relaunches, state.loopCurrentRound)
              && AddsRecovered(bus.config, s, now, p, old(relaunches), relaunches)
              && (relaunches != old(relaunches) && p.whileProcessing == [] ==>
                    StateMachine.DeriveState(OfTicket(read, s.activeTicket.value)) == InProgress)
    {
      CatchUp(recovered, busRound, p);
      RequeueRecovered(logCompleted, p);
      if relaunches != old(relaunches) && p.whileProcessing == [] {
        ghost var read := EmittedAll(bus.config, old(bus.live), p.before);
        EmitsKeepNumbers(bus.config, old(bus.live), p.before);
        RecoveredIsAtWork(old(state), read, recovered, busRound, relaunches[|relaunches| - 1].trigger);
      }
    }

    /** Somebody archives a ticket between two passes. */
    method ArchiveBetween(t: string)
      requires Valid()
      modifies this`past, bus
      ensures Valid() && past == old(past) + [Cut(old(bus.live), t)]
      ensures bus.Contents() == ArchiveTicket(old(bus.Contents()), t)
    {
      KeptAfterCut(bus.config, past, bus.live, relaunches, state.lastRequeueTrigger, t);
      LiveAfterArchiving(bus.Contents(), t);
      past := past + [Cut(bus.live, t)];
      var archivedCount, keptCount := bus.ArchiveTicketEvents(t);
    }

    method Take(input: Input)
      requires Valid() && NoForeignAttempts(input)
      modifies this, bus
      ensures Valid() && old(relaunches) <= relaunches
      ensures GoesOn(old(past), old(bus.live), past, bus.live, ArchivedBy(input))
    {
      match input
      case Once(p) =>
        var _ := RunOnce(p);
        NothingCut(past, old(bus.live), bus.live);
      case Bootstrap(recovered, busRound, logCompleted, p) =>
        Reconcile(recovered, busRound, logCompleted, p);
        NothingCut(past, old(bus.live), bus.live);
      case Archiving(t) =>
        ArchiveBetween(t);
        OneCut(old(past), old(bus.live), bus.live, t);
    }

    /**
     Any sequence of passes, bootstraps and archivings relaunches soundly: each
     trigger once, in order, justified by a log that was live at the time. As long
     as no archiving takes the owner of the last record, the watermark stays within
     the live numbers.
     */
    method RunAll(inputs: seq<Input>)
      requires Valid() && forall i :: 0 <= i < |inputs| ==> NoForeignAttempts(inputs[i])
      modifies this, bus
      ensures Valid() && old(relaunches) <= relaunches
      ensures Sound(relaunches) && Grounded(bus.config, past, bus.live, relaunches) && Continues(past, bus.live)
      ensures GoesOn(old(past), old(bus.live), past, bus.live, ArchivedByAll(inputs))
      ensures SparesLast(past) ==> state.lastRequeueTrigger <= LastSeq(bus.live)
    {
      RunInputs(inputs);
    }

    method RunInputs(inputs: seq<Input>)
      requires Valid() && forall i :: 0 <= i < |inputs| ==> NoForeignAttempts(inputs[i])
      modifies this, bus
      ensures Valid() && old(relaunches) <= relaunches
      ensures GoesOn(old(past), old(bus.live), past, bus.live, ArchivedByAll(inputs))
    {
      NothingCut(past, bus.live, bus.live);
      for i := 0 to |inputs|
        invariant Valid() && old(relaunches) <= relaunches
        invariant GoesOn(old(past), old(bus.live), past, bus.live, ArchivedByAll(inputs[..i]))
      {
        ghost var past0, live0 := past, bus.live;
        assert inputs[..i + 1][..i] == inputs[..i];
        Take(inputs[i]);
        GoesOnFurther(old(past), old(bus.live), past0, live0, past, bus.live, ArchivedByAll(inputs[..i]), ArchivedBy(inputs[i]));
      }
      assert inputs[..|inputs|] == inputs;
    }
  }

  /** Only this supervisor records relaunch attempts. */
  ghost predicate NoForeignAttempts(input: Input) {
    !input.Archiving? ==>
      var p := input.pass;
      forall r :: r in p.before || r in p.whileProcessing || r in p.launch.meanwhile ==> r.kind != BuilderRelaunchAttempted
  }

  // ----- logs and archivings along a run -----

  /** The tickets that were archived, in order. */
  function TicketsOf(past: seq<Cut>): seq<string> {
    if past == [] then [] else TicketsOf(past[..|past| - 1]) + [past[|past| - 1].ticket]
  }

  function ArchivedBy(input: Input): seq<string> {
    if input.Archiving? then [input.ticket] else []
  }

  function ArchivedByAll(inputs: seq<Input>): seq<string> {
    if inputs == [] then [] else ArchivedByAll(inputs[..|inputs| - 1]) + ArchivedBy(inputs[|inputs| - 1])
  }

  /** The live log up to the archiving with this number, or the present one. */
  function LogAt(past: seq<Cut>, log: seq<Event>, k: nat): seq<Event> {
    if k < |past| then past[k].log else log
  }

  /** From one point of a run to a later one: which tickets were archived, and how the live log went on before the first. */
  ghost predicate GoesOn(past0: seq<Cut>, log0: seq<Event>, past: seq<Cut>, log: seq<Event>, archived: seq<string>) {
    past0 <= past && TicketsOf(past) == TicketsOf(past0) + archived && log0 <= LogAt(past, log, |past0|)
  }

  lemma NothingCut(past: seq<Cut>, log0: seq<Event>, log: seq<Event>)
    requires log0 <= log
    ensures GoesOn(past, log0, past, log, [])
  {
  }

  lemma OneCut(past: seq<Cut>, log0: seq<Event>, log: seq<Event>, t: string)
    ensures GoesOn(past, log0, past + [Cut(log0, t)], log, [t])
  {
    assert (past + [Cut(log0, t)])[..|past|] == past;
  }

  lemma GoesOnFurther(past0: seq<Cut>, log0: seq<Event>, past1: seq<Cut>, log1: seq<Event>,
                      past2: seq<Cut>, log2: seq<Event>, first: seq<string>, second: seq<string>)
    requires GoesOn(past0, log0, past1, log1, first) && GoesOn(past1, log1, past2, log2, second)
    ensures GoesOn(past0, log0, past2, log2, first + second)
  {
  }
}
