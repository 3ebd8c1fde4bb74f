/** Ticket states and the authority on which of them are closed for good. */
module TicketStates {

  datatype Option<+T> = None | Some(value: T)

  datatype TicketState =
    | InProgress
    | ReadyForReview
    | Blocked
    | HumanGate
    | ReadyToClose
    | Completed
    | Paused
    | ContractBlocked
    | Superseded
    | BlockedFinal
    | Unknown

  const IRREVERSIBLE_TERMINAL_STATES: set<TicketState> := {Completed, Superseded, BlockedFinal}

  const NON_SUCCESS_TERMINAL_STATES: set<TicketState> := {Superseded, BlockedFinal}

  const NON_TERMINAL_STATES: set<TicketState> :=
    {InProgress, ReadyForReview, Blocked, HumanGate, ReadyToClose, ContractBlocked, Paused}

  predicate IsApprovedOrTerminal(s: TicketState) {
    s in IRREVERSIBLE_TERMINAL_STATES
  }

  predicate IsWorkState(s: TicketState) {
    s in {InProgress, ReadyForReview, Blocked, HumanGate, ContractBlocked, Paused}
  }

  function UpperChar(c: char): char {
    if 'a' <= c <= 'z' then (c as int - 32) as char else c
  }

  /** Upper case, for the ASCII letters. */
  function Upper(s: string): string {
    seq(|s|, i requires 0 <= i < |s| => UpperChar(s[i]))
  }

  function LowerChar(c: char): char {
    if 'A' <= c <= 'Z' then (c as int + 32) as char else c
  }

  /** Lower case, for the ASCII letters. */
  function Lower(s: string): string {
    seq(|s|, i requires 0 <= i < |s| => LowerChar(s[i]))
  }

  /** The state a name stands for, if it names one. */
  function StateNamed(name: string): Option<TicketState> {
    match name
    case "IN_PROGRESS" => Some(InProgress)
    case "READY_FOR_REVIEW" => Some(ReadyForReview)
    case "BLOCKED" => Some(Blocked)
    case "HUMAN_GATE" => Some(HumanGate)
    case "READY_TO_CLOSE" => Some(ReadyToClose)
    case "COMPLETED" => Some(Completed)
    case "PAUSED" => Some(Paused)
    case "CONTRACT_BLOCKED" => Some(ContractBlocked)
    case "SUPERSEDED" => Some(Superseded)
    case "BLOCKED_FINAL" => Some(BlockedFinal)
    case "UNKNOWN" => Some(Unknown)
    case _ => None
  }

  /** How a state is written in an event. */
  function NameOf(s: TicketState): string {
    match s
    case InProgress => "IN_PROGRESS"
    case ReadyForReview => "READY_FOR_REVIEW"
    case Blocked => "BLOCKED"
    case HumanGate => "HUMAN_GATE"
    case ReadyToClose => "READY_TO_CLOSE"
    case Completed => "COMPLETED"
    case Paused => "PAUSED"
    case ContractBlocked => "CONTRACT_BLOCKED"
    case Superseded => "SUPERSEDED"
    case BlockedFinal => "BLOCKED_FINAL"
    case Unknown => "UNKNOWN"
  }

  /** Every state is read back from its name, and no other text names it. */
  lemma NamesAreRead(name: string, s: TicketState)
    ensures StateNamed(name) == Some(s) <==> name == NameOf(s)
  {
  }

  /** Every state is open, closed for good or unknown, and the open ones but READY_TO_CLOSE are at work. */
  lemma EveryStateHasItsPlace(s: TicketState)
    ensures s == Unknown <==> s !in NON_TERMINAL_STATES && !IsApprovedOrTerminal(s)
    ensures s in NON_TERMINAL_STATES ==> !IsApprovedOrTerminal(s)
    ensures IsWorkState(s) <==> s in NON_TERMINAL_STATES && s != ReadyToClose
    ensures IsApprovedOrTerminal(s) <==> s == Completed || s in NON_SUCCESS_TERMINAL_STATES
    ensures s in NON_SUCCESS_TERMINAL_STATES <==> s == Superseded || s == BlockedFinal
  {
  }

  /** Changing the case and back leaves capitals as they were. */
  lemma CaseChangesBack(s: string)
    requires forall i :: 0 <= i < |s| ==> !('a' <= s[i] <= 'z')
    ensures Upper(Lower(s)) == s && Lower(Upper(Lower(s))) == Lower(s)
    ensures forall i :: 0 <= i < |s| ==> !('A' <= Lower(s)[i] <= 'Z')
  {
    assert forall i :: 0 <= i < |s| ==> UpperChar(LowerChar(s[i])) == s[i];
  }
}
