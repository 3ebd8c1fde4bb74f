/**
 The race of several supervisors for one requeue claim.

 Every supervisor runs the same steps on two shared files: the claim itself and
 the takeover file that guards the recovery of a stale claim. One action is one
 atomic file operation of one supervisor, a step of the clock, or an unlink by
 the cleanup of a terminal ticket. A run is any sequence of actions, so the
 lemmas below hold of every interleaving.
 */
module ClaimProtocol {
  import opened Counting
  import opened TicketStates

  /** Where a supervisor stands while it claims a requeue. */
  datatype Pc =
    | Idle
    | Opening                // about to create the claim exclusively
    | Writing(id: nat)       // created claim number id, about to write it
    | Statting               // the claim existed
    | Checking               // the claim was too old when it was looked at
    | Taking                 // no relaunch was on the bus
    | Unlinking              // holds the takeover file
    | Recreating
    | Rewriting(id: nat)
    | Leaving                // the finally block: drop the takeover file

  datatype ClaimFile = ClaimFile(id: nat, mtime: nat)

  /** What the supervisors share, with counters of what happened to the claim. */
  datatype Files = Files(
    now: nat,
    claim: Option<ClaimFile>,
    takeover: bool,
    relaunched: bool,        // the bus holds a relaunch attempt for the trigger
    creations: nat,
    deletions: nat,
    wins: nat)               // calls that return True

  datatype State = State(files: Files, pcs: seq<Pc>)

  datatype Action =
    | Call(p: nat)
    /** io: the file operation succeeds; rollback: a failed write removes the claim. */
    | Step(p: nat, io: bool, rollback: bool)
    | Crash(p: nat)
    | Tick(dt: nat)
    | Relaunch
    | CleanClaim
    | CleanTakeover

  function Initial(supervisors: nat): State {
    State(Files(0, None, false, false, 0, 0, 0), seq(supervisors, _ => Idle))
  }

  function CreateClaim(f: Files): Files {
    f.(claim := Some(ClaimFile(f.creations, f.now)), creations := f.creations + 1)
  }

  function DeleteClaim(f: Files): Files {
    if f.claim.Some? then f.(claim := None, deletions := f.deletions + 1) else f
  }

  /** The creator of claim id answers True. Its write refreshes the file's time,
      unless the name now belongs to another file. */
  function Win(f: Files, id: nat): Files {
    var g := f.(wins := f.wins + 1);
    if f.claim.Some? && f.claim.value.id == id then g.(claim := Some(ClaimFile(id, f.now))) else g
  }

  predicate Stale(f: Files, ttl: nat) {
    f.claim.Some? && f.now - f.claim.value.mtime > ttl
  }

  /** One operation of a supervisor at pc: the files afterwards, and where it goes. */
  function Effect(f: Files, ttl: nat, pc: Pc, io: bool, rollback: bool): (Files, Pc) {
    match pc
    case Idle => (f, Idle)
    case Opening =>
      if !io then (f, Idle)
      else if f.claim.Some? then (f, Statting)
      else (CreateClaim(f), Writing(f.creations))
    case Writing(id) =>
      if io then (Win(f, id), Idle) else (if rollback then DeleteClaim(f) else f, Idle)
    case Statting => (f, if io && Stale(f, ttl) then Checking else Idle)
    case Checking => (f, if f.relaunched then Idle else Taking)
    case Taking => if !io || f.takeover then (f, Idle) else (f.(takeover := true), Unlinking)
    case Unlinking => if !io || f.claim.None? then (f, Leaving) else (DeleteClaim(f), Recreating)
    case Recreating =>
      if !io || f.claim.Some? then (f, Leaving) else (CreateClaim(f), Rewriting(f.creations))
    case Rewriting(id) =>
      if io then (Win(f, id), Leaving) else (if rollback then DeleteClaim(f) else f, Leaving)
    case Leaving => (if io then f.(takeover := false) else f, Idle)
  }

  function Next(s: State, ttl: nat, a: Action): State {
    match a
    case Call(p) => if p < |s.pcs| && s.pcs[p] == Idle then s.(pcs := s.pcs[p := Opening]) else s
    case Step(p, io, rollback) =>
      if p < |s.pcs| then
        var (files, pc) := Effect(s.files, ttl, s.pcs[p], io, rollback);
        State(files, s.pcs[p := pc])
      else s
    case Crash(p) => if p < |s.pcs| then s.(pcs := s.pcs[p := Idle]) else s
    case Tick(dt) => s.(files := s.files.(now := s.files.now + dt))
    case Relaunch => s.(files := s.files.(relaunched := true))
    case CleanClaim => s.(files := DeleteClaim(s.files))
    case CleanTakeover => s.(files := s.files.(takeover := false))
  }

  function Run(s: State, ttl: nat, actions: seq<Action>): State {
    if actions == [] then s
    else Next(Run(s, ttl, actions[..|actions| - 1]), ttl, actions[|actions| - 1])
  }

  // ----- counting supervisors -----

  /** A claim was created and its creator has not answered yet. */
  predicate Creator(pc: Pc) { pc.Writing? || pc.Rewriting? }

  predicate InTakeover(pc: Pc) {
    pc.Unlinking? || pc.Recreating? || pc.Rewriting? || pc.Leaving?
  }

  /** Past the check of the bus, and not yet past the unlink. */
  predicate PastCheck(pc: Pc) { pc.Taking? || pc.Unlinking? }

  lemma {:induction false} CountIdle(n: nat, f: Pc -> bool)
    requires !f(Idle)
    ensures Count(seq(n, _ => Idle), f) == 0
  {
    if n > 0 {
      var s := seq(n, _ => Idle);
      assert s[1..] == seq(n - 1, _ => Idle);
      CountIdle(n - 1, f);
    }
  }

  // ----- creations, deletions and wins -----

  predicate Balanced(s: State) {
    && s.files.creations == s.files.deletions + One(s.files.claim.Some?)
    && s.files.wins + Count(s.pcs, Creator) <= s.files.creations
  }

  /** What a supervisor's step does to a count over the supervisors. */
  lemma StepCount(s: State, ttl: nat, a: Action, f: Pc -> bool)
    requires a.Step? && a.p < |s.pcs|
    ensures var (_, pc) := Effect(s.files, ttl, s.pcs[a.p], a.io, a.rollback);
            Count(Next(s, ttl, a).pcs, f) + One(f(s.pcs[a.p])) == Count(s.pcs, f) + One(f(pc))
  {
    var (_, pc) := Effect(s.files, ttl, s.pcs[a.p], a.io, a.rollback);
    CountUpdate(s.pcs, f, a.p, pc);
  }

  /** A supervisor's step creates one claim for every creator it adds and every win it counts. */
  lemma EffectKeepsBalance(f: Files, ttl: nat, pc: Pc, io: bool, rollback: bool)
    requires f.creations == f.deletions + One(f.claim.Some?)
    ensures var (f', pc') := Effect(f, ttl, pc, io, rollback);
            && f'.creations == f'.deletions + One(f'.claim.Some?)
            && f'.wins + One(Creator(pc')) - f.wins - One(Creator(pc)) <= f'.creations - f.creations
  {
  }

  lemma StepKeepsBalance(s: State, ttl: nat, a: Action)
    requires Balanced(s)
    ensures Balanced(Next(s, ttl, a))
  {
    match a
    case Step(p, io, rollback) =>
      if p < |s.pcs| {
        StepCount(s, ttl, a, Creator);
        EffectKeepsBalance(s.files, ttl, s.pcs[p], io, rollback);
      }
    case Call(p) => if p < |s.pcs| { CountUpdate(s.pcs, Creator, p, Opening); }
    case Crash(p) => if p < |s.pcs| { CountUpdate(s.pcs, Creator, p, Idle); }
    case _ =>
  }

  lemma {:induction false} RunIsBalanced(n: nat, ttl: nat, actions: seq<Action>)
    ensures Balanced(Run(Initial(n), ttl, actions))
  {
    if actions == [] {
      CountIdle(n, Creator);
    } else {
      RunIsBalanced(n, ttl, actions[..|actions| - 1]);
      StepKeepsBalance(Run(Initial(n), ttl, actions[..|actions| - 1]), ttl, actions[|actions| - 1]);
    }
  }

  /** In every interleaving, at most one more call wins than claims were deleted. */
  lemma WinsAreBounded(n: nat, ttl: nat, actions: seq<Action>)
    ensures var s := Run(Initial(n), ttl, actions);
            && s.files.creations - s.files.deletions == One(s.files.claim.Some?)
            && s.files.wins <= 1 + s.files.deletions
  {
    RunIsBalanced(n, ttl, actions);
  }

  // ----- without deletions there is one winner -----

  function Duration(a: Action): nat {
    match a case Tick(dt) => dt case _ => 0
  }

  function Elapsed(actions: seq<Action>): nat {
    Total(actions, Duration)
  }

  predicate NoRemoval(a: Action) {
    a != CleanClaim && !(a.Step? && a.rollback)
  }

  ghost predicate NoRemovals(actions: seq<Action>) {
    forall a :: a in actions ==> NoRemoval(a)
  }

  /** Nobody has got beyond the age check. */
  predicate Fresh(s: State) {
    && s.files.deletions == 0
    && forall p :: 0 <= p < |s.pcs| ==> s.pcs[p].Idle? || s.pcs[p].Opening? || s.pcs[p].Writing? || s.pcs[p].Statting?
  }

  /** At no point of the run is there a claim past its time to live. */
  ghost predicate NeverStale(n: nat, ttl: nat, actions: seq<Action>) {
    forall k :: 0 <= k <= |actions| ==> !Stale(Run(Initial(n), ttl, actions[..k]).files, ttl)
  }

  lemma NeverStaleBefore(n: nat, ttl: nat, actions: seq<Action>)
    requires actions != [] && NeverStale(n, ttl, actions)
    ensures NeverStale(n, ttl, actions[..|actions| - 1])
    ensures !Stale(Run(Initial(n), ttl, actions[..|actions| - 1]).files, ttl)
  {
    var init := actions[..|actions| - 1];
    forall k | 0 <= k <= |init| ensures !Stale(Run(Initial(n), ttl, init[..k]).files, ttl) {
      assert init[..k] == actions[..k];
    }
    assert init[..|init|] == init;
  }

  lemma StepKeepsFresh(s: State, ttl: nat, a: Action)
    requires Fresh(s) && !Stale(s.files, ttl) && NoRemoval(a)
    ensures Fresh(Next(s, ttl, a))
  {
  }

  lemma {:induction false} UnstaleRunIsFresh(n: nat, ttl: nat, actions: seq<Action>)
    requires NoRemovals(actions) && NeverStale(n, ttl, actions)
    ensures Fresh(Run(Initial(n), ttl, actions))
  {
    if actions != [] {
      var init, a := actions[..|actions| - 1], actions[|actions| - 1];
      NeverStaleBefore(n, ttl, actions);
      UnstaleRunIsFresh(n, ttl, init);
      assert a in actions;
      StepKeepsFresh(Run(Initial(n), ttl, init), ttl, a);
    }
  }

  /**
   If no claim ages past the time to live and none is removed, one call wins at
   most, however long the run goes on.
   */
  lemma OneWinnerUnlessStale(n: nat, ttl: nat, actions: seq<Action>)
    requires NoRemovals(actions) && NeverStale(n, ttl, actions)
    ensures Run(Initial(n), ttl, actions).files.wins <= 1
  {
    UnstaleRunIsFresh(n, ttl, actions);
    WinsAreBounded(n, ttl, actions);
  }

  lemma {:induction false} ClockIsElapsed(n: nat, ttl: nat, actions: seq<Action>)
    ensures Run(Initial(n), ttl, actions).files.now == Elapsed(actions)
  {
    if actions != [] {
      ClockIsElapsed(n, ttl, actions[..|actions| - 1]);
    }
  }

  /** A run within the time to live has no time for a claim to go stale. */
  lemma OneWinnerWithinTtl(n: nat, ttl: nat, actions: seq<Action>)
    requires NoRemovals(actions) && Elapsed(actions) <= ttl
    ensures Run(Initial(n), ttl, actions).files.wins <= 1
  {
    forall k | 0 <= k <= |actions| ensures !Stale(Run(Initial(n), ttl, actions[..k]).files, ttl) {
      ClockIsElapsed(n, ttl, actions[..k]);
      assert actions == actions[..k] + actions[k..];
      TotalConcat(actions[..k], actions[k..], Duration);
    }
    OneWinnerUnlessStale(n, ttl, actions);
  }

  // ----- the takeover section -----

  function Cleanup(a: Action): nat {
    One(a == CleanTakeover)
  }

  function Cleanups(actions: seq<Action>): nat {
    Total(actions, Cleanup)
  }

  lemma StepKeepsSection(s: State, ttl: nat, a: Action)
    ensures Count(Next(s, ttl, a).pcs, InTakeover) - One(Next(s, ttl, a).files.takeover)
         <= Count(s.pcs, InTakeover) - One(s.files.takeover) + One(a == CleanTakeover)
  {
    match a
    case Step(p, _, _) => if p < |s.pcs| { StepCount(s, ttl, a, InTakeover); }
    case Call(p) => if p < |s.pcs| { CountUpdate(s.pcs, InTakeover, p, Opening); }
    case Crash(p) => if p < |s.pcs| { CountUpdate(s.pcs, InTakeover, p, Idle); }
    case _ =>
  }

  /** Each cleanup of the takeover file lets one more supervisor into the section, and nothing else does. */
  lemma {:induction false} TakeoverIsBounded(n: nat, ttl: nat, actions: seq<Action>)
    ensures var s := Run(Initial(n), ttl, actions);
            Count(s.pcs, InTakeover) <= One(s.files.takeover) + Cleanups(actions)
  {
    if actions == [] {
      CountIdle(n, InTakeover);
    } else {
      var init, a := actions[..|actions| - 1], actions[|actions| - 1];
      TakeoverIsBounded(n, ttl, init);
      StepKeepsSection(Run(Initial(n), ttl, init), ttl, a);
    }
  }

  lemma {:induction false} NoCleanups(actions: seq<Action>)
    requires CleanTakeover !in actions
    ensures Cleanups(actions) == 0
  {
    if actions != [] {
      assert actions[|actions| - 1] in actions;
      NoCleanups(actions[..|actions| - 1]);
    }
  }

  /** Unless a cleanup removes the takeover file, one supervisor at a time is in the section. */
  lemma TakeoverIsExclusive(n: nat, ttl: nat, actions: seq<Action>)
    requires CleanTakeover !in actions
    ensures Count(Run(Initial(n), ttl, actions).pcs, InTakeover) <= 1
  {
    TakeoverIsBounded(n, ttl, actions);
    NoCleanups(actions);
  }

  // ----- after the relaunch is on the bus -----

  /** How many claims can still be created once no further supervisor passes the check. */
  function Pending(s: State): nat {
    s.files.creations + Count(s.pcs, PastCheck) + One(s.files.claim.None?)
  }

  lemma StepKeepsPending(s: State, ttl: nat, a: Action)
    requires s.files.relaunched && NoRemoval(a)
    ensures Next(s, ttl, a).files.relaunched && Pending(Next(s, ttl, a)) <= Pending(s)
  {
    match a
    case Step(p, _, _) => if p < |s.pcs| { StepCount(s, ttl, a, PastCheck); }
    case Call(p) => if p < |s.pcs| { CountUpdate(s.pcs, PastCheck, p, Opening); }
    case Crash(p) => if p < |s.pcs| { CountUpdate(s.pcs, PastCheck, p, Idle); }
    case _ =>
  }

  lemma {:induction false} RunKeepsPending(s: State, ttl: nat, actions: seq<Action>)
    requires s.files.relaunched && NoRemovals(actions)
    ensures Run(s, ttl, actions).files.relaunched && Pending(Run(s, ttl, actions)) <= Pending(s)
  {
    if actions != [] {
      var init, a := actions[..|actions| - 1], actions[|actions| - 1];
      assert forall x :: x in init ==> x in actions;
      assert a in actions;
      RunKeepsPending(s, ttl, init);
      StepKeepsPending(Run(s, ttl, init), ttl, a);
    }
  }

  lemma {:induction false} RunKeepsBalance(s: State, ttl: nat, actions: seq<Action>)
    requires Balanced(s)
    ensures Balanced(Run(s, ttl, actions))
  {
    if actions != [] {
      RunKeepsBalance(s, ttl, actions[..|actions| - 1]);
      StepKeepsBalance(Run(s, ttl, actions[..|actions| - 1]), ttl, actions[|actions| - 1]);
    }
  }

  /**
   Once the relaunch of the trigger is on the bus, only supervisors that were
   already past the check (or a claim slot that was empty) can add claims, no
   matter how long the run goes on and how old the claim becomes.
   */
  lemma LateClaimsAreBounded(s: State, ttl: nat, actions: seq<Action>)
    requires Balanced(s) && s.files.relaunched && NoRemovals(actions)
    ensures Run(s, ttl, actions).files.creations <= s.files.creations + Count(s.pcs, PastCheck) + One(s.files.claim.None?)
    ensures Run(s, ttl, actions).files.wins <= s.files.creations + Count(s.pcs, PastCheck) + One(s.files.claim.None?)
  {
    RunKeepsPending(s, ttl, actions);
    RunKeepsBalance(s, ttl, actions);
  }

  // ----- the bounds are reached -----

  function Solo(p: nat): Action { Step(p, true, false) }

  lemma {:induction false} RunConcat(s: State, ttl: nat, a: seq<Action>, b: seq<Action>)
    ensures Run(s, ttl, a + b) == Run(Run(s, ttl, a), ttl, b)
  {
    if b == [] {
      assert a + b == a;
    } else {
      assert (a + b)[..|a + b| - 1] == a + b[..|b| - 1];
      RunConcat(s, ttl, a, b[..|b| - 1]);
    }
  }

  function Repeat(a: Action, n: nat): seq<Action> {
    seq(n, _ => a)
  }

  /** What k operations of one supervisor in a row do. */
  function Uninterrupted(f: Files, ttl: nat, pc: Pc, k: nat): (Files, Pc) {
    if k == 0 then (f, pc)
    else var (f', pc') := Uninterrupted(f, ttl, pc, k - 1); Effect(f', ttl, pc', true, false)
  }

  lemma {:induction false} SoloRun(s: State, ttl: nat, p: nat, k: nat)
    requires p < |s.pcs|
    ensures var (f, pc) := Uninterrupted(s.files, ttl, s.pcs[p], k);
            Run(s, ttl, Repeat(Solo(p), k)) == State(f, s.pcs[p := pc])
  {
    if k > 0 {
      assert Repeat(Solo(p), k)[..k - 1] == Repeat(Solo(p), k - 1);
      SoloRun(s, ttl, p, k - 1);
    } else {
      assert s.pcs[p := s.pcs[p]] == s.pcs;
    }
  }

  lemma {:induction false} SoloTakesNoTime(p: nat, n: nat)
    ensures Elapsed(Repeat(Solo(p), n)) == 0
  {
    if n > 0 {
      assert Repeat(Solo(p), n)[..n - 1] == Repeat(Solo(p), n - 1);
      SoloTakesNoTime(p, n - 1);
    }
  }

  /** Nothing is cleaned up or rolled back, and the clock moves by this much. */
  ghost predicate Takes(actions: seq<Action>, time: nat) {
    NoRemovals(actions) && CleanTakeover !in actions && Elapsed(actions) == time
  }

  /** Supervisor p calls and then takes steps alone. */
  function CallAlone(p: nat, steps: nat): seq<Action> {
    [Call(p)] + Repeat(Solo(p), steps)
  }

  lemma SoloSteps(actions: seq<Action>, time: nat, p: nat, steps: nat)
    requires Takes(actions, time)
    ensures Takes(actions + Repeat(Solo(p), steps), time)
  {
    SoloTakesNoTime(p, steps);
    TotalConcat(actions, Repeat(Solo(p), steps), Duration);
  }

  lemma CallSteps(actions: seq<Action>, time: nat, p: nat, steps: nat)
    requires Takes(actions, time)
    ensures Takes(actions + CallAlone(p, steps), time)
  {
    assert [Call(p)][..0] == [];
    TotalConcat(actions, [Call(p)], Duration);
    SoloSteps(actions + [Call(p)], time, p, steps);
    assert actions + CallAlone(p, steps) == actions + [Call(p)] + Repeat(Solo(p), steps);
  }

  lemma CallRun(s: State, ttl: nat, p: nat, steps: nat)
    ensures Run(s, ttl, CallAlone(p, steps)) == Run(Next(s, ttl, Call(p)), ttl, Repeat(Solo(p), steps))
  {
    assert [Call(p)][..0] == [];
    RunConcat(s, ttl, [Call(p)], Repeat(Solo(p), steps));
  }

  /** From Idle past both checks, when the claim in the way is stale. */
  lemma ReadyRun(s: State, ttl: nat, p: nat)
    requires p < |s.pcs| && s.pcs[p] == Idle && !s.files.relaunched && Stale(s.files, ttl)
    ensures Run(s, ttl, CallAlone(p, 3)) == s.(pcs := s.pcs[p := Taking])
  {
    var called := Next(s, ttl, Call(p));
    CallRun(s, ttl, p, 3);
    SoloRun(called, ttl, p, 3);
    var f := s.files;
    assert Uninterrupted(f, ttl, Opening, 1) == (f, Statting);
    assert Uninterrupted(f, ttl, Opening, 2) == (f, Checking);
    assert Uninterrupted(f, ttl, Opening, 3) == (f, Taking);
  }

  /** A takeover that nobody disturbs replaces the claim and wins. */
  lemma RecoverRun(s: State, ttl: nat, p: nat)
    requires p < |s.pcs| && s.pcs[p] == Taking && !s.files.takeover && s.files.claim.Some?
    ensures var after := Run(s, ttl, Repeat(Solo(p), 5));
            && after.pcs == s.pcs[p := Idle]
            && after.files == s.files.(claim := Some(ClaimFile(s.files.creations, s.files.now)),
                                       creations := s.files.creations + 1,
                                       deletions := s.files.deletions + 1, wins := s.files.wins + 1)
  {
    SoloRun(s, ttl, p, 5);
    var f, id := s.files.(takeover := true), s.files.creations;
    assert Uninterrupted(s.files, ttl, Taking, 1) == (f, Unlinking);
    assert Uninterrupted(s.files, ttl, Taking, 2) == (DeleteClaim(f), Recreating);
    var g := CreateClaim(DeleteClaim(f));
    assert Uninterrupted(s.files, ttl, Taking, 3) == (g, Rewriting(id));
    assert Uninterrupted(s.files, ttl, Taking, 4) == (Win(g, id), Leaving);
    assert Uninterrupted(s.files, ttl, Taking, 5) == (Win(g, id).(takeover := false), Idle);
  }

  /** Before anything was taken over: one claim, too old, and these supervisors. */
  predicate OneStale(s: State, ttl: nat, pcs: seq<Pc>) {
    && s.pcs == pcs && !s.files.takeover && !s.files.relaunched && Stale(s.files, ttl)
    && s.files.creations == 1 && s.files.deletions == 0 && s.files.wins == 1
  }

  function Racing(k: nat, n: nat): seq<Pc> {
    seq(k, i => if i < n then Taking else Idle)
  }

  /** Supervisor 0 wins, and its claim goes stale. */
  lemma StaleClaim(k: nat, ttl: nat) returns (actions: seq<Action>)
    requires k >= 1
    ensures OneStale(Run(Initial(k), ttl, actions), ttl, Racing(k, 0)) && Takes(actions, ttl + 1)
  {
    var s0, called := Initial(k), Next(Initial(k), ttl, Call(0));
    CallRun(s0, ttl, 0, 2);
    SoloRun(called, ttl, 0, 2);
    var claimed := CreateClaim(s0.files);
    assert Uninterrupted(s0.files, ttl, Opening, 1) == (claimed, Writing(0));
    assert Uninterrupted(s0.files, ttl, Opening, 2) == (Win(claimed, 0), Idle);
    CallSteps([], 0, 0, 2);
    assert [] + CallAlone(0, 2) == CallAlone(0, 2);
    var tick := [Tick(ttl + 1)];
    assert tick[..0] == [];
    RunConcat(s0, ttl, CallAlone(0, 2), tick);
    TotalConcat(CallAlone(0, 2), tick, Duration);
    actions := CallAlone(0, 2) + tick;
    assert Run(s0, ttl, actions).pcs == Racing(k, 0);
  }

  /** All k supervisors pass both checks on the one stale claim. */
  lemma Racers(k: nat, ttl: nat) returns (actions: seq<Action>)
    requires k >= 1
    ensures OneStale(Run(Initial(k), ttl, actions), ttl, Racing(k, k)) && Takes(actions, ttl + 1)
  {
    actions := StaleClaim(k, ttl);
    var n := 0;
    while n < k
      invariant n <= k
      invariant OneStale(Run(Initial(k), ttl, actions), ttl, Racing(k, n)) && Takes(actions, ttl + 1)
    {
      ReadyRun(Run(Initial(k), ttl, actions), ttl, n);
      RunConcat(Initial(k), ttl, actions, CallAlone(n, 3));
      CallSteps(actions, ttl + 1, n, 3);
      actions := actions + CallAlone(n, 3);
      assert Racing(k, n)[n := Taking] == Racing(k, n + 1);
      n := n + 1;
    }
  }

  /**
   The age check is not repeated under the takeover file, so k supervisors that
   saw the same stale claim can all win: the bound on wins is reached for every
   k, one second after the time to live.
   */
  lemma WinsReachTheBound(k: nat, ttl: nat) returns (actions: seq<Action>)
    requires k >= 1
    ensures Takes(actions, ttl + 1)
    ensures var s := Run(Initial(k), ttl, actions);
            s.files.wins == 1 + k && s.files.deletions == k
  {
    var s0 := Initial(k);
    actions := Racers(k, ttl);
    var n := 0;
    while n < k
      invariant n <= k && Takes(actions, ttl + 1)
      invariant var s := Run(s0, ttl, actions);
                && |s.pcs| == k && (forall i :: n <= i < k ==> s.pcs[i] == Taking)
                && !s.files.takeover && s.files.claim.Some?
                && s.files.wins == 1 + n && s.files.deletions == n
    {
      RecoverRun(Run(s0, ttl, actions), ttl, n);
      RunConcat(s0, ttl, actions, Repeat(Solo(n), 5));
      SoloSteps(actions, ttl + 1, n, 5);
      actions := actions + Repeat(Solo(n), 5);
      n := n + 1;
    }
  }

  /** No run of n supervisors within this time, without removals, has two winners. */
  ghost predicate OneWinner(n: nat, ttl: nat, time: nat) {
    forall actions :: NoRemovals(actions) && Elapsed(actions) <= time ==> Run(Initial(n), ttl, actions).files.wins <= 1
  }

  /** There is one winner exactly as long as no claim can outlive the time to live. */
  lemma OneWinnerIffWithinTtl(n: nat, ttl: nat, time: nat)
    requires n >= 1
    ensures OneWinner(n, ttl, time) <==> time <= ttl
  {
    if time <= ttl {
      forall actions | NoRemovals(actions) && Elapsed(actions) <= time
        ensures Run(Initial(n), ttl, actions).files.wins <= 1
      {
        OneWinnerWithinTtl(n, ttl, actions);
      }
    } else {
      var actions := WinsReachTheBound(n, ttl);
      assert Run(Initial(n), ttl, actions).files.wins > 1;
    }
  }

  /** The first n of these supervisors are inside the takeover section, the others before it. */
  function Inside(k: nat, n: nat): seq<Pc> {
    seq(k, i => if i < n then Unlinking else Taking)
  }

  lemma {:induction false} CountInside(k: nat)
    ensures Count(Inside(k, k), InTakeover) == k
  {
    if k > 0 {
      assert Inside(k, k)[1..] == Inside(k - 1, k - 1);
      CountInside(k - 1);
    }
  }

  lemma Enter(k: nat, ttl: nat, actions: seq<Action>, n: nat)
    requires n < k && Run(Initial(k), ttl, actions).pcs == Inside(k, n) && !Run(Initial(k), ttl, actions).files.takeover
    requires NoRemovals(actions)
    ensures NoRemovals(actions + [Solo(n)]) && Cleanups(actions + [Solo(n)]) == Cleanups(actions)
    ensures Run(Initial(k), ttl, actions + [Solo(n)]).pcs == Inside(k, n + 1)
  {
    assert (actions + [Solo(n)])[..|actions|] == actions;
    assert Inside(k, n)[n := Unlinking] == Inside(k, n + 1);
  }

  /**
   The cleanup of a terminal ticket also unlinks takeover files: the bound on the
   section is reached for every number of cleanups.
   */
  lemma CleanupBreaksTakeover(cleanups: nat, ttl: nat) returns (actions: seq<Action>)
    ensures NoRemovals(actions) && Cleanups(actions) == cleanups
    ensures Count(Run(Initial(cleanups + 1), ttl, actions).pcs, InTakeover) == cleanups + 1
  {
    var k := cleanups + 1;
    actions := Racers(k, ttl);
    NoCleanups(actions);
    assert Racing(k, k) == Inside(k, 0);
    var n := 0;
    while n < cleanups
      invariant n <= cleanups && NoRemovals(actions) && Cleanups(actions) == n
      invariant Run(Initial(k), ttl, actions).pcs == Inside(k, n) && !Run(Initial(k), ttl, actions).files.takeover
    {
      Enter(k, ttl, actions, n);
      var entered := actions + [Solo(n)];
      assert (entered + [CleanTakeover])[..|entered|] == entered;
      actions := entered + [CleanTakeover];
      n := n + 1;
    }
    Enter(k, ttl, actions, cleanups);
    CountInside(k);
    actions := actions + [Solo(cleanups)];
  }

  // ----- a takeover file that nobody holds -----

  /** A supervisor crashed inside the section, or could not drop the file. */
  predicate Abandoned(s: State) {
    s.files.takeover && Count(s.pcs, InTakeover) == 0
  }

  lemma StepKeepsAbandoned(s: State, ttl: nat, a: Action)
    requires Abandoned(s) && a != CleanTakeover
    ensures Abandoned(Next(s, ttl, a))
    ensures NoRemoval(a) ==> Next(s, ttl, a).files.deletions == s.files.deletions
  {
    match a
    case Step(p, _, _) =>
      if p < |s.pcs| {
        if InTakeover(s.pcs[p]) {
          CountsOne(s.pcs, InTakeover, p);
          assert false;
        }
        StepCount(s, ttl, a, InTakeover);
      }
    case Call(p) => if p < |s.pcs| { CountUpdate(s.pcs, InTakeover, p, Opening); }
    case Crash(p) => if p < |s.pcs| { CountUpdate(s.pcs, InTakeover, p, Idle); }
    case _ =>
  }

  /** Only a cleanup removes it: until then no claim is recovered, and at most an empty slot is filled. */
  lemma {:induction false} AbandonedBlocksRecovery(s: State, ttl: nat, actions: seq<Action>)
    requires Balanced(s) && Abandoned(s) && NoRemovals(actions) && CleanTakeover !in actions
    ensures var after := Run(s, ttl, actions);
            && Abandoned(after) && Balanced(after) && after.files.deletions == s.files.deletions
            && after.files.creations <= s.files.creations + One(s.files.claim.None?)
  {
    if actions != [] {
      var init, a := actions[..|actions| - 1], actions[|actions| - 1];
      assert forall x :: x in init ==> x in actions;
      assert a in actions;
      AbandonedBlocksRecovery(s, ttl, init);
      StepKeepsAbandoned(Run(s, ttl, init), ttl, a);
      StepKeepsBalance(Run(s, ttl, init), ttl, a);
    }
  }

  /** Supervisors at rest around a claim past its time to live. */
  ghost predicate RestsOnStale(s: State, ttl: nat) {
    && s.pcs != [] && (forall i :: 0 <= i < |s.pcs| ==> s.pcs[i] == Idle)
    && Stale(s.files, ttl) && Balanced(s)
  }

  lemma {:induction false} NoneAt(pcs: seq<Pc>, f: Pc -> bool)
    requires !f(Idle) && forall i :: 0 <= i < |pcs| ==> pcs[i] == Idle
    ensures Count(pcs, f) == 0
  {
    if pcs != [] {
      NoneAt(pcs[1..], f);
    }
  }

  /** What a supervisor does to recover a stale claim. */
  const RECOVERY := CallAlone(0, 3) + Repeat(Solo(0), 5)

  lemma RecoveryCreates(s: State, ttl: nat)
    requires s.pcs != [] && s.pcs[0] == Idle && Stale(s.files, ttl) && !s.files.takeover && !s.files.relaunched
    ensures Run(s, ttl, RECOVERY).files.creations == s.files.creations + 1
  {
    ReadyRun(s, ttl, 0);
    RecoverRun(Run(s, ttl, CallAlone(0, 3)), ttl, 0);
    RunConcat(s, ttl, CallAlone(0, 3), Repeat(Solo(0), 5));
  }

  lemma RecoveryIsOrderly()
    ensures NoRemovals(RECOVERY) && Relaunch !in RECOVERY && CleanTakeover !in RECOVERY
  {
  }

  /** Some run without removals, of takeover files either, creates another claim. */
  ghost predicate CanRecover(s: State, ttl: nat) {
    exists actions ::
      && NoRemovals(actions) && CleanTakeover !in actions
      && Run(s, ttl, actions).files.creations > s.files.creations
  }

  /** A stale claim can be recovered exactly when nobody left a takeover file and no relaunch is on the bus. */
  lemma StaleIsRecoverableIff(s: State, ttl: nat)
    requires RestsOnStale(s, ttl)
    ensures CanRecover(s, ttl) <==> !s.files.takeover && !s.files.relaunched
  {
    if !s.files.takeover && !s.files.relaunched {
      RecoveryCreates(s, ttl);
      RecoveryIsOrderly();
    } else {
      NoneAt(s.pcs, InTakeover);
      NoneAt(s.pcs, PastCheck);
      forall actions | NoRemovals(actions) && CleanTakeover !in actions
        ensures Run(s, ttl, actions).files.creations <= s.files.creations
      {
        if s.files.takeover {
          AbandonedBlocksRecovery(s, ttl, actions);
        } else {
          LateClaimsAreBounded(s, ttl, actions);
        }
      }
    }
  }

  lemma RunOne(s: State, ttl: nat, actions: seq<Action>, a: Action)
    ensures Run(s, ttl, actions + [a]) == Next(Run(s, ttl, actions), ttl, a)
  {
    assert (actions + [a])[..|actions|] == actions;
  }

  /** Taking over and crashing at once. */
  lemma CrashAbandons(s: State, ttl: nat)
    requires s.pcs == [Taking] && !s.files.takeover
    ensures var after := Next(Next(s, ttl, Solo(0)), ttl, Crash(0));
            after.pcs == [Idle] && after.files == s.files.(takeover := true)
  {
    assert Next(s, ttl, Solo(0)).pcs == [Unlinking];
  }

  lemma QuietStep(actions: seq<Action>, time: nat, a: Action)
    requires Takes(actions, time) && NoRemoval(a) && a != CleanTakeover && !a.Tick?
    ensures Takes(actions + [a], time)
  {
    assert (actions + [a])[..|actions|] == actions;
  }

  /** A crash inside the section leads there: a stale claim that only a cleanup frees. */
  lemma CrashBlocksRecovery(ttl: nat) returns (actions: seq<Action>)
    ensures Takes(actions, ttl + 1)
    ensures var s := Run(Initial(1), ttl, actions);
            RestsOnStale(s, ttl) && Abandoned(s) && !s.files.relaunched && !CanRecover(s, ttl)
  {
    var before := Racers(1, ttl);
    var entered := before + [Solo(0)];
    actions := entered + [Crash(0)];
    QuietStep(before, ttl + 1, Solo(0));
    QuietStep(entered, ttl + 1, Crash(0));
    RunOne(Initial(1), ttl, before, Solo(0));
    RunOne(Initial(1), ttl, entered, Crash(0));
    assert Racing(1, 1) == [Taking];
    CrashAbandons(Run(Initial(1), ttl, before), ttl);
    var s := Run(Initial(1), ttl, actions);
    RunIsBalanced(1, ttl, actions);
    NoneAt(s.pcs, InTakeover);
    StaleIsRecoverableIff(s, ttl);
  }
}
