/**
 The event log: an append-only sequence of records per bus, with a duplicate
 guard over a sliding window, a guard against reopening closed tickets, and
 archiving that moves the records of one ticket out of the live log.

 Records are already decoded: the file of JSON lines is a sequence of events.
 */
module EventLog {
  import opened TicketStates

  datatype Kind =
    | StateChanged
    | CloseConfirmed
    | SupervisorClosed
    | ReviewDecision
    | LoopDecision
    | LoopInitialized
    | ApprovalResolved
    | ContractGap
    | BuilderRelaunchAttempted
    | HandoffBlocked
    | OtherKind(name: string)

  datatype Scalar = Null | Number(n: int) | Text(s: string)

  /**
   A payload with the fields the bus reads singled out. An absent text field is
   the empty string, as a lookup with an empty default reads it.
   */
  datatype Payload = Payload(
    toState: string,
    decision: string,
    status: string,
    triggerSeq: Option<int>,
    blockers: Option<string>,
    rest: map<string, Scalar>)

  const EMPTY_PAYLOAD := Payload("", "", "", None, None, map[])

  datatype Event = Event(
    eventId: string,
    kind: Kind,
    ticket: string,
    actor: string,
    timestamp: string,
    payload: Payload,
    seqNo: int)

  /** The arguments of one call of emit, with the generated id and timestamp. */
  datatype Request = Request(
    kind: Kind,
    ticket: string,
    actor: string,
    payload: Payload,
    allowReentry: bool,
    eventId: string,
    timestamp: string)

  /** What a bus is constructed with. The redaction of payloads is a parameter. */
  datatype Config = Config(maxDuplicates: int, windowSize: int, redact: Payload -> Payload)

  /** What two records share when the duplicate guard calls them identical. */
  datatype Fingerprint = Fingerprint(kind: Kind, ticket: string, actor: string, payload: Payload)

  function PrintOf(e: Event): Fingerprint {
    Fingerprint(e.kind, e.ticket, e.actor, e.payload)
  }

  function RequestPrint(c: Config, r: Request): Fingerprint {
    Fingerprint(r.kind, r.ticket, r.actor, c.redact(r.payload))
  }

  // ----- reading the log -----

  function OfTicket(log: seq<Event>, t: string): (r: seq<Event>)
    ensures forall e :: e in r <==> e in log && e.ticket == t
  {
    if log == [] then [] else
      var init := OfTicket(log[..|log| - 1], t);
      if log[|log| - 1].ticket == t then init + [log[|log| - 1]] else init
  }

  function NotOfTicket(log: seq<Event>, t: string): (r: seq<Event>)
    ensures forall e :: e in r <==> e in log && e.ticket != t
  {
    if log == [] then [] else
      var init := NotOfTicket(log[..|log| - 1], t);
      if log[|log| - 1].ticket != t then init + [log[|log| - 1]] else init
  }

  function LastSeq(log: seq<Event>): int {
    if log == [] then 0 else log[|log| - 1].seqNo
  }

  /** The last window records; a window of 0 takes them all, a negative one drops that many from the front. */
  function Recent(log: seq<Event>, window: int): seq<Event> {
    if window > 0 then (if |log| <= window then log else log[|log| - window..])
    else if window == 0 then log
    else if -window <= |log| then log[-window..] else []
  }

  function CountSame(log: seq<Event>, f: Fingerprint): nat {
    if log == [] then 0
    else (if PrintOf(log[|log| - 1]) == f then 1 else 0) + CountSame(log[..|log| - 1], f)
  }

  // ----- the state an event stands for -----

  function StateFromStateChanged(p: Payload): Option<TicketState> {
    StateNamed(Upper(p.toState))
  }

  function StateFromReviewDecision(p: Payload): Option<TicketState> {
    match Lower(p.decision)
    case "changes" => Some(InProgress)
    case "approve" => Some(ReadyToClose)
    case "inspect" => Some(HumanGate)
    case _ => None
  }

  function StateFromApprovalResolved(p: Payload): Option<TicketState> {
    match Lower(p.status)
    case "expired" => Some(Blocked)
    case "approved" => Some(ReadyForReview)
    case "rejected" => Some(Blocked)
    case "cancelled" => Some(Blocked)
    case _ => None
  }

  /** True of the four kinds that decide a ticket's state on the bus. */
  predicate DecidesState(k: Kind) {
    k in {StateChanged, CloseConfirmed, ReviewDecision, ApprovalResolved}
  }

  function StateOfEvent(e: Event): Option<TicketState>
    requires DecidesState(e.kind)
  {
    match e.kind
    case StateChanged => StateFromStateChanged(e.payload)
    case CloseConfirmed => Some(Completed)
    case ReviewDecision => StateFromReviewDecision(e.payload)
    case _ => StateFromApprovalResolved(e.payload)
  }

  /** The state of a ticket as the bus derives it: the last deciding event wins. */
  function CurrentState(log: seq<Event>, t: string): Option<TicketState> {
    if log == [] then None
    else
      var e := log[|log| - 1];
      if e.ticket == t && DecidesState(e.kind) then StateOfEvent(e)
      else CurrentState(log[..|log| - 1], t)
  }

  function ReentryTarget(k: Kind, p: Payload): Option<TicketState> {
    if p == EMPTY_PAYLOAD then None
    else match k
      case StateChanged => StateFromStateChanged(p)
      case ReviewDecision => StateFromReviewDecision(p)
      case ApprovalResolved => StateFromApprovalResolved(p)
      case _ => None
  }

  predicate ReentryBlocked(log: seq<Event>, t: string, target: TicketState) {
    match CurrentState(log, t)
    case None => false
    case Some(s) => IsApprovedOrTerminal(s) && IsWorkState(target)
  }

  // ----- emitting -----

  predicate RefusedAsReentry(log: seq<Event>, r: Request) {
    && !r.allowReentry
    && var target := ReentryTarget(r.kind, r.payload);
       target.Some? && ReentryBlocked(log, r.ticket, target.value)
  }

  predicate RefusedAsDuplicate(c: Config, log: seq<Event>, r: Request) {
    CountSame(Recent(log, c.windowSize), RequestPrint(c, r)) >= c.maxDuplicates
  }

  predicate Accepts(c: Config, log: seq<Event>, r: Request) {
    !RefusedAsReentry(log, r) && !RefusedAsDuplicate(c, log, r)
  }

  function Stamped(c: Config, log: seq<Event>, r: Request): Event {
    Event(r.eventId, r.kind, r.ticket, r.actor, r.timestamp, c.redact(r.payload), LastSeq(log) + 1)
  }

  function Emitted(c: Config, log: seq<Event>, r: Request): seq<Event> {
    if Accepts(c, log, r) then log + [Stamped(c, log, r)] else log
  }

  // ----- the store: live log and archives -----

  datatype Store = Store(live: seq<Event>, archives: map<string, seq<Event>>)

  const EMPTY_STORE := Store([], map[])

  function Archived(s: Store, t: string): seq<Event> {
    if t in s.archives then s.archives[t] else []
  }

  /** A ticket's archived events, then its live ones. */
  function History(s: Store, t: string): seq<Event> {
    Archived(s, t) + OfTicket(s.live, t)
  }

  function ArchiveTicket(s: Store, t: string): Store {
    if OfTicket(s.live, t) == [] then s
    else Store(NotOfTicket(s.live, t),
               s.archives[t := Archived(s, t) + OfTicket(s.live, t)])
  }

  datatype Command = Emit(request: Request) | Archive(ticket: string)

  function Apply(c: Config, s: Store, cmd: Command): Store {
    match cmd
    case Emit(r) => s.(live := Emitted(c, s.live, r))
    case Archive(t) => ArchiveTicket(s, t)
  }

  function Run(c: Config, s: Store, cmds: seq<Command>): Store {
    if cmds == [] then s
    else Apply(c, Run(c, s, cmds[..|cmds| - 1]), cmds[|cmds| - 1])
  }

  /** The event of ticket t that one command adds, if it adds one. */
  function Added(c: Config, s: Store, cmd: Command, t: string): seq<Event> {
    if cmd.Emit? && cmd.request.ticket == t && Accepts(c, s.live, cmd.request)
    then [Stamped(c, s.live, cmd.request)] else []
  }

  /** The events of ticket t that a run accepts, in the order of acceptance. */
  function AcceptedOf(c: Config, s: Store, cmds: seq<Command>, t: string): seq<Event> {
    if cmds == [] then []
    else AcceptedOf(c, s, cmds[..|cmds| - 1], t)
         + Added(c, Run(c, s, cmds[..|cmds| - 1]), cmds[|cmds| - 1], t)
  }

  // ----- the bus object -----

  class EventBus {
    var live: seq<Event>
    var archives: map<string, seq<Event>>
    var sessionBlockCount: nat
    const config: Config

    /** Opens the directory a bus lives in, with what earlier sessions left there. */
    constructor (c: Config, found: Store)
      ensures config == c && Contents() == found && sessionBlockCount == 0
    {
      config := c;
      live, archives, sessionBlockCount := found.live, found.archives, 0;
    }

    function Contents(): Store
      reads this
    {
      Store(live, archives)
    }

    method CountRecentDuplicates(f: Fingerprint) returns (count: nat)
      ensures count == CountSame(Recent(live, config.windowSize), f)
    {
      count := 0;
      var recent := Recent(live, config.windowSize);
      var i := |recent|;
      assert recent[..i] == recent;
      while i > 0
        invariant 0 <= i <= |recent|
        invariant count + CountSame(recent[..i], f) == CountSame(recent, f)
      {
        i := i - 1;
        assert recent[..i + 1][..i] == recent[..i];
        if PrintOf(recent[i]) == f {
          count := count + 1;
        }
      }
    }

    method GetCurrentState(t: string) returns (state: Option<TicketState>)
      ensures state == CurrentState(live, t)
    {
      var i := |live|;
      assert live[..i] == live;
      while i > 0
        invariant 0 <= i <= |live|
        invariant CurrentState(live[..i], t) == CurrentState(live, t)
      {
        i := i - 1;
        assert live[..i + 1][..i] == live[..i];
        if live[i].ticket == t && DecidesState(live[i].kind) {
          return StateOfEvent(live[i]);
        }
      }
      return None;
    }

    /** Appends the event, or returns None and leaves the log alone. */
    method Emit(r: Request) returns (event: Option<Event>)
      modifies this
      ensures live == Emitted(config, old(live), r)
      ensures archives == old(archives)
      ensures event.Some? <==> Accepts(config, old(live), r)
      ensures event.Some? ==>
                && live == old(live) + [event.value]
                && event.value == Event(r.eventId, r.kind, r.ticket, r.actor, r.timestamp, config.redact(r.payload),
                                        LastSeq(old(live)) + 1)
      ensures sessionBlockCount == old(sessionBlockCount) +
              if !RefusedAsReentry(old(live), r) && RefusedAsDuplicate(config, old(live), r) then 1 else 0
    {
      var target := ReentryTarget(r.kind, r.payload);
      if !r.allowReentry && target.Some? {
        var current := GetCurrentState(r.ticket);
        if current.Some? && IsApprovedOrTerminal(current.value) && IsWorkState(target.value) {
          return None;
        }
      }
      var duplicates := CountRecentDuplicates(RequestPrint(config, r));
      if duplicates >= config.maxDuplicates {
        sessionBlockCount := sessionBlockCount + 1;
        return None;
      }
      var record := Stamped(config, live, r);
      live := live + [record];
      return Some(record);
    }

    /** Moves every live event of t behind the events archived for t before. */
    method ArchiveTicketEvents(t: string) returns (archivedCount: nat, keptCount: nat)
      modifies this
      ensures Contents() == ArchiveTicket(old(Contents()), t)
      ensures sessionBlockCount == old(sessionBlockCount)
      ensures archivedCount == |OfTicket(old(live), t)| && keptCount == |NotOfTicket(old(live), t)|
    {
      var ticketEvents, remaining := OfTicket(live, t), NotOfTicket(live, t);
      archivedCount, keptCount := |ticketEvents|, |remaining|;
      if ticketEvents == [] {
        return;
      }
      var existing := if t in archives then archives[t] else [];
      archives := archives[t := existing + ticketEvents];
      live := remaining;
    }
  }
}
