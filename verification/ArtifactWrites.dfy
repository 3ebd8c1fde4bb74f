/**
 Optimistic writes of one shared artifact by several processes: load the file,
 compute an update, and replace the file under a lock file if its revision is
 still the one that was loaded. A lock older than 30 seconds is broken.

 One action is one atomic file operation of one process, so the lemmas hold of
 every interleaving of any number of processes.
 */
module ArtifactWrites {
  import opened Counting
  import opened TicketStates

  const STALE_LOCK_SECONDS: nat := 30

  datatype Pc =
    | Ready
    | Trying(attempt: nat)
    | Contended(attempt: nat)    // the lock file existed
    | Breaking(attempt: nat)     // the lock was too old when it was looked at
    | Locked
    | Replacing                  // the revision check passed
    | Releasing

  /** What a process last read: nothing yet, no file, or a file with this content. */
  datatype Base = Unread | Absent | Present(content: string)

  datatype Proc = Proc(pc: Pc, base: Base, update: string -> string, wanted: string)

  /** One replacement of the file. */
  datatype Write = Write(base: Base, update: string -> string, replaced: Option<string>, written: string)

  datatype Files = Files(
    now: nat,
    file: Option<string>,
    lock: Option<nat>,           // the time it was created
    history: seq<Write>,
    breaks: nat,                 // locks removed as stale
    used: set<string>)           // contents that were on file or were to be written

  datatype State = State(files: Files, procs: seq<Proc>)

  datatype Action =
    | Load(p: nat)
    /** Compute the new content from what was loaded and start to write it. */
    | Save(p: nat, update: string -> string)
    | Step(p: nat, io: bool)
    | Crash(p: nat)
    | Tick(dt: nat)

  /** The parameters of a run: the hash that gives revisions, and the retries. */
  datatype Config = Config(revision: string -> int, maxRetries: nat)

  function Initial(file: Option<string>, processes: nat): State {
    State(Files(0, file, None, [], 0, if file.Some? then {file.value} else {}),
          seq(processes, _ => Proc(Ready, Unread, c => c, "")))
  }

  function TextOf(b: Base): string {
    if b.Present? then b.content else ""
  }

  /** A save compares revisions only if its state was loaded from a file. */
  predicate RevisionMatches(c: Config, f: Files, b: Base) {
    b.Present? ==> f.file.Some? && c.revision(f.file.value) == c.revision(b.content)
  }

  function Retry(c: Config, attempt: nat): Pc {
    if attempt + 1 < c.maxRetries then Trying(attempt + 1) else Ready
  }

  function Effect(c: Config, f: Files, p: Proc, io: bool): (Files, Proc) {
    match p.pc
    case Ready => (f, p)
    case Trying(n) =>
      if n >= c.maxRetries then (f, p.(pc := Ready))
      else if f.lock.Some? then (f, p.(pc := Contended(n)))
      else (f.(lock := Some(f.now)), p.(pc := Locked))
    case Contended(n) =>
      if io && StaleLock(f) then (f, p.(pc := Breaking(n)))
      else (f, p.(pc := Retry(c, n)))
    case Breaking(n) =>
      if io && f.lock.Some? then (f.(lock := None, breaks := f.breaks + 1), p.(pc := Trying(n + 1)))
      else (f, p.(pc := Retry(c, n)))
    case Locked => (f, p.(pc := if RevisionMatches(c, f, p.base) then Replacing else Releasing))
    case Replacing =>
      if io then
        (f.(file := Some(p.wanted), history := f.history + [Write(p.base, p.update, f.file, p.wanted)]),
         p.(pc := Releasing, base := Present(p.wanted)))
      else (f, p.(pc := Releasing))
    case Releasing => (if io then f.(lock := None) else f, p.(pc := Ready))
  }

  function Next(c: Config, s: State, a: Action): State {
    match a
    case Tick(dt) => s.(files := s.files.(now := s.files.now + dt))
    case Load(p) =>
      if p < |s.procs| && s.procs[p].pc == Ready then
        var base := if s.files.file.Some? then Present(s.files.file.value) else Absent;
        s.(procs := s.procs[p := s.procs[p].(base := base)])
      else s
    case Save(p, update) =>
      if p < |s.procs| && s.procs[p].pc == Ready && s.procs[p].base != Unread then
        var wanted := update(TextOf(s.procs[p].base));
        State(s.files.(used := s.files.used + {wanted}),
              s.procs[p := s.procs[p].(pc := Trying(0), update := update, wanted := wanted)])
      else s
    case Step(p, io) =>
      if p < |s.procs| then
        var (files, proc) := Effect(c, s.files, s.procs[p], io);
        State(files, s.procs[p := proc])
      else s
    case Crash(p) =>
      if p < |s.procs| then s.(procs := s.procs[p := s.procs[p].(pc := Ready, base := Unread)]) else s
  }

  function Run(c: Config, s: State, actions: seq<Action>): State {
    if actions == [] then s
    else Next(c, Run(c, s, actions[..|actions| - 1]), actions[|actions| - 1])
  }

  // ----- what every run keeps -----

  /** Between taking the lock and dropping it. */
  predicate Holding(p: Proc) {
    p.pc.Locked? || p.pc.Replacing? || p.pc.Releasing?
  }

  predicate Exclusive(s: State) {
    s.files.breaks == 0 ==> Count(s.procs, Holding) <= One(s.files.lock.Some?)
  }

  lemma StepKeepsExclusive(c: Config, s: State, a: Action)
    requires Exclusive(s)
    ensures Exclusive(Next(c, s, a))
  {
    if !a.Tick? && a.p < |s.procs| {
      CountUpdate(s.procs, Holding, a.p, Next(c, s, a).procs[a.p]);
      assert Next(c, s, a).procs == s.procs[a.p := Next(c, s, a).procs[a.p]];
    }
  }

  /** What is on file after these writes. */
  function Latest(initial: Option<string>, history: seq<Write>): Option<string> {
    if history == [] then initial else Some(history[|history| - 1].written)
  }

  /** Every write replaces what the previous one wrote. */
  ghost predicate Chained(initial: Option<string>, history: seq<Write>) {
    history == [] ||
    var before := history[..|history| - 1];
    Chained(initial, before) && history[|history| - 1].replaced == Latest(initial, before)
  }

  /** A write that carried a revision replaced content of exactly that revision. */
  predicate Compared(c: Config, w: Write) {
    w.base.Present? ==> w.replaced.Some? && c.revision(w.replaced.value) == c.revision(w.base.content)
  }

  predicate Computed(p: Proc) {
    !p.pc.Ready? && !p.pc.Releasing? ==>
      p.wanted == p.update(TextOf(p.base)) && p.base != Unread
  }

  predicate IsComputed(w: Write) {
    w.base != Unread && w.written == w.update(TextOf(w.base))
  }

  /** The history leads from the initial file to the present one, each write computed from what was read. */
  ghost predicate LinearFiles(initial: Option<string>, f: Files) {
    && Chained(initial, f.history)
    && f.file == Latest(initial, f.history)
    && forall i :: 0 <= i < |f.history| ==> IsComputed(f.history[i])
  }

  ghost predicate Linear(c: Config, initial: Option<string>, s: State) {
    && LinearFiles(initial, s.files)
    && forall i :: 0 <= i < |s.procs| ==> Computed(s.procs[i])
  }

  /** While nothing broke a lock, the check of the revision still holds when the file is replaced. */
  ghost predicate Guarded(c: Config, s: State) {
    s.files.breaks == 0 ==>
      && (forall i :: 0 <= i < |s.procs| && s.procs[i].pc.Replacing? ==>
            RevisionMatches(c, s.files, s.procs[i].base))
      && (forall i :: 0 <= i < |s.files.history| ==> Compared(c, s.files.history[i]))
  }

  lemma WriteKeepsLinear(initial: Option<string>, f: Files, f': Files, w: Write)
    requires LinearFiles(initial, f) && w.replaced == f.file && IsComputed(w)
    requires f'.file == Some(w.written) && f'.history == f.history + [w]
    ensures LinearFiles(initial, f')
  {
    assert f'.history[..|f.history|] == f.history;
  }

  lemma EffectKeepsLinear(c: Config, initial: Option<string>, f: Files, p: Proc, io: bool)
    requires LinearFiles(initial, f) && Computed(p)
    ensures LinearFiles(initial, Effect(c, f, p, io).0) && Computed(Effect(c, f, p, io).1)
  {
    if p.pc.Replacing? && io {
      WriteKeepsLinear(initial, f, Effect(c, f, p, io).0, Write(p.base, p.update, f.file, p.wanted));
    }
  }

  lemma StepKeepsLinear(c: Config, initial: Option<string>, s: State, a: Action)
    requires Linear(c, initial, s)
    ensures Linear(c, initial, Next(c, s, a))
  {
    if !a.Tick? && a.p < |s.procs| {
      var s', proc := Next(c, s, a), s.procs[a.p];
      assert Computed(proc);
      if a.Step? {
        EffectKeepsLinear(c, initial, s.files, proc, a.io);
      }
      assert Computed(s'.procs[a.p]);
      assert s'.procs == s.procs[a.p := s'.procs[a.p]];
    }
  }

  lemma StepKeepsGuarded(c: Config, s: State, a: Action)
    requires Exclusive(s) && Guarded(c, s)
    ensures Guarded(c, Next(c, s, a))
  {
    var s' := Next(c, s, a);
    if s'.files.breaks == 0 && a.Step? && a.p < |s.procs| && s.procs[a.p].pc.Replacing? && a.io {
      forall i | 0 <= i < |s.procs| && i != a.p ensures !s.procs[i].pc.Replacing? {
        if s.procs[i].pc.Replacing? {
          CountsTwo(s.procs, Holding, if i < a.p then i else a.p, if i < a.p then a.p else i);
        }
      }
    }
  }

  lemma {:induction false} CountReady(n: nat)
    ensures Count(seq(n, _ => Proc(Ready, Unread, c => c, "")), Holding) == 0
  {
    if n > 0 {
      var procs := seq(n, _ => Proc(Ready, Unread, c => c, ""));
      assert procs[1..] == seq(n - 1, _ => Proc(Ready, Unread, c => c, ""));
      CountReady(n - 1);
    }
  }

  lemma {:induction false} RunKeepsAll(c: Config, file: Option<string>, n: nat, actions: seq<Action>)
    ensures var s := Run(c, Initial(file, n), actions);
            Exclusive(s) && Linear(c, file, s) && Guarded(c, s)
  {
    if actions == [] {
      CountReady(n);
    } else {
      RunKeepsAll(c, file, n, actions[..|actions| - 1]);
      var s := Run(c, Initial(file, n), actions[..|actions| - 1]);
      StepKeepsExclusive(c, s, actions[|actions| - 1]);
      StepKeepsLinear(c, file, s, actions[|actions| - 1]);
      StepKeepsGuarded(c, s, actions[|actions| - 1]);
    }
  }

  /**
   Compare-and-swap, over every interleaving in which no lock was broken: one
   process at a time holds the lock, the writes form one chain that ends in the
   file, and each write that carried a revision replaced exactly that revision.
   */
  lemma WritesAreCompareAndSwap(c: Config, file: Option<string>, n: nat, actions: seq<Action>)
    requires Run(c, Initial(file, n), actions).files.breaks == 0
    ensures var s := Run(c, Initial(file, n), actions);
            && Count(s.procs, Holding) <= 1
            && Chained(file, s.files.history) && s.files.file == Latest(file, s.files.history)
            && forall i :: 0 <= i < |s.files.history| ==> Compared(c, s.files.history[i])
  {
    RunKeepsAll(c, file, n, actions);
  }

  // ----- when no lock is broken -----

  function Duration(a: Action): nat {
    match a case Tick(dt) => dt case _ => 0
  }

  function Elapsed(actions: seq<Action>): nat {
    Total(actions, Duration)
  }

  /** The lock is older than its lifetime. */
  predicate StaleLock(f: Files) {
    f.lock.Some? && f.now - f.lock.value > STALE_LOCK_SECONDS
  }

  /** At no point of the run is a lock older than its lifetime. */
  ghost predicate NeverStale(c: Config, file: Option<string>, n: nat, actions: seq<Action>) {
    forall k :: 0 <= k <= |actions| ==> !StaleLock(Run(c, Initial(file, n), actions[..k]).files)
  }

  /** Nobody has found a lock too old, and none was broken. */
  predicate Unbroken(s: State) {
    s.files.breaks == 0 && forall i :: 0 <= i < |s.procs| ==> !s.procs[i].pc.Breaking?
  }

  lemma NeverStaleBefore(c: Config, file: Option<string>, n: nat, actions: seq<Action>)
    requires actions != [] && NeverStale(c, file, n, actions)
    ensures NeverStale(c, file, n, actions[..|actions| - 1])
    ensures !StaleLock(Run(c, Initial(file, n), actions[..|actions| - 1]).files)
  {
    var init := actions[..|actions| - 1];
    forall k | 0 <= k <= |init| ensures !StaleLock(Run(c, Initial(file, n), init[..k]).files) {
      assert init[..k] == actions[..k];
    }
    assert init[..|init|] == init;
  }

  lemma StepKeepsUnbroken(c: Config, s: State, a: Action)
    requires Unbroken(s) && !StaleLock(s.files)
    ensures Unbroken(Next(c, s, a))
  {
    if a.Step? && a.p < |s.procs| {
      var proc := s.procs[a.p];
      assert !proc.pc.Breaking?;
      assert !Effect(c, s.files, proc, a.io).1.pc.Breaking?;
    }
  }

  /** As long as no holder keeps the lock past its lifetime, no lock is broken, however long the run goes on. */
  lemma {:induction false} FreshLocksAreNotBroken(c: Config, file: Option<string>, n: nat, actions: seq<Action>)
    requires NeverStale(c, file, n, actions)
    ensures Unbroken(Run(c, Initial(file, n), actions))
  {
    if actions != [] {
      var init := actions[..|actions| - 1];
      NeverStaleBefore(c, file, n, actions);
      FreshLocksAreNotBroken(c, file, n, init);
      StepKeepsUnbroken(c, Run(c, Initial(file, n), init), actions[|actions| - 1]);
    }
  }

  lemma {:induction false} ClockIsElapsed(c: Config, file: Option<string>, n: nat, actions: seq<Action>)
    ensures Run(c, Initial(file, n), actions).files.now == Elapsed(actions)
  {
    if actions != [] {
      ClockIsElapsed(c, file, n, actions[..|actions| - 1]);
    }
  }

  /** A run within the lifetime of a lock has no time for one to go stale. */
  lemma ShortRunsAreNeverStale(c: Config, file: Option<string>, n: nat, actions: seq<Action>)
    requires Elapsed(actions) <= STALE_LOCK_SECONDS
    ensures NeverStale(c, file, n, actions)
  {
    forall k | 0 <= k <= |actions| ensures !StaleLock(Run(c, Initial(file, n), actions[..k]).files) {
      ClockIsElapsed(c, file, n, actions[..k]);
      assert actions == actions[..k] + actions[k..];
      TotalConcat(actions[..k], actions[k..], Duration);
    }
  }

  // ----- no lost updates -----

  ghost predicate InjectiveOn(revision: string -> int, contents: set<string>) {
    forall a, b :: a in contents && b in contents && revision(a) == revision(b) ==> a == b
  }

  predicate Known(f: Files, p: Proc) {
    && (p.base.Present? ==> p.base.content in f.used)
    && (!p.pc.Ready? && !p.pc.Releasing? ==> p.wanted in f.used)
  }

  ghost predicate AllKnown(s: State) {
    && (s.files.file.Some? ==> s.files.file.value in s.files.used)
    && (forall i :: 0 <= i < |s.procs| ==> Known(s.files, s.procs[i]))
    && (forall i :: 0 <= i < |s.files.history| ==>
          var w := s.files.history[i];
          && (w.base.Present? ==> w.base.content in s.files.used)
          && (w.replaced.Some? ==> w.replaced.value in s.files.used))
  }

  /** Every process works on a file that exists. */
  ghost predicate NeverAbsent(s: State) {
    && s.files.file.Some?
    && (forall i :: 0 <= i < |s.procs| ==> s.procs[i].base != Absent)
    && (forall i :: 0 <= i < |s.files.history| ==> s.files.history[i].base != Absent)
  }

  lemma StepKeepsKnown(c: Config, s: State, a: Action)
    requires AllKnown(s)
    ensures AllKnown(Next(c, s, a))
  {
    if !a.Tick? && a.p < |s.procs| {
      var s' := Next(c, s, a);
      assert Known(s.files, s.procs[a.p]);
      assert s'.procs == s.procs[a.p := s'.procs[a.p]];
      assert Known(s'.files, s'.procs[a.p]);
    }
  }

  lemma StepKeepsPresent(c: Config, s: State, a: Action)
    requires NeverAbsent(s)
    ensures NeverAbsent(Next(c, s, a))
  {
    if !a.Tick? && a.p < |s.procs| {
      var s' := Next(c, s, a);
      assert s'.procs == s.procs[a.p := s'.procs[a.p]];
      assert s'.procs[a.p].base != Absent;
    }
  }

  lemma {:induction false} RunIsKnown(c: Config, content: string, n: nat, actions: seq<Action>)
    ensures var s := Run(c, Initial(Some(content), n), actions);
            AllKnown(s) && NeverAbsent(s)
  {
    if actions != [] {
      RunIsKnown(c, content, n, actions[..|actions| - 1]);
      var s := Run(c, Initial(Some(content), n), actions[..|actions| - 1]);
      StepKeepsKnown(c, s, actions[|actions| - 1]);
      StepKeepsPresent(c, s, actions[|actions| - 1]);
    }
  }

  /** The content after a sequence of updates, one after the other. */
  function Replay(content: string, history: seq<Write>): string {
    if history == [] then content
    else history[|history| - 1].update(Replay(content, history[..|history| - 1]))
  }

  lemma {:induction false} ChainReplays(content: string, history: seq<Write>)
    requires Chained(Some(content), history)
    requires forall i :: 0 <= i < |history| ==>
               && history[i].base.Present? && history[i].replaced == Some(history[i].base.content)
               && history[i].written == history[i].update(history[i].base.content)
    ensures Latest(Some(content), history) == Some(Replay(content, history))
  {
    if history != [] {
      var init := history[..|history| - 1];
      ChainReplays(content, init);
      assert history[|init|].replaced == Latest(Some(content), init);
    }
  }

  /**
   If the file exists from the start, no lock was broken, and revisions tell the
   contents of the run apart, then the file is what the successful updates give
   when they are applied one after the other: none was lost.
   */
  lemma NoUpdateIsLost(c: Config, content: string, n: nat, actions: seq<Action>)
    requires var s := Run(c, Initial(Some(content), n), actions);
             s.files.breaks == 0 && InjectiveOn(c.revision, s.files.used)
    ensures var s := Run(c, Initial(Some(content), n), actions);
            && s.files.file == Some(Replay(content, s.files.history))
            && forall i :: 0 <= i < |s.files.history| ==>
                 s.files.history[i].base.Present? &&
                 s.files.history[i].replaced == Some(s.files.history[i].base.content)
  {
    RunKeepsAll(c, Some(content), n, actions);
    RunIsKnown(c, content, n, actions);
    ChainReplays(content, Run(c, Initial(Some(content), n), actions).files.history);
  }

  /** The same in terms a caller controls: nobody holds the lock past its lifetime. */
  lemma FreshLocksKeepUpdates(c: Config, content: string, n: nat, actions: seq<Action>)
    requires NeverStale(c, Some(content), n, actions)
    requires InjectiveOn(c.revision, Run(c, Initial(Some(content), n), actions).files.used)
    ensures var f := Run(c, Initial(Some(content), n), actions).files;
            f.file == Some(Replay(content, f.history)) && !LosesUpdate(f.history)
  {
    FreshLocksAreNotBroken(c, Some(content), n, actions);
    NoUpdateIsLost(c, content, n, actions);
  }

  // ----- each condition of NoUpdateIsLost is needed -----

  /** Some write replaced content other than what its update was computed from. */
  ghost predicate LosesUpdate(history: seq<Write>) {
    exists i :: 0 <= i < |history| && history[i].replaced.Some? && history[i].base != Present(history[i].replaced.value)
  }

  lemma {:induction false} RunConcat(c: Config, s: State, a: seq<Action>, b: seq<Action>)
    ensures Run(c, s, a + b) == Run(c, Run(c, s, a), b)
  {
    if b == [] {
      assert a + b == a;
    } else {
      assert (a + b)[..|a + b| - 1] == a + b[..|b| - 1];
      RunConcat(c, s, a, b[..|b| - 1]);
    }
  }

  lemma RunOne(c: Config, s: State, actions: seq<Action>, a: Action)
    ensures Run(c, s, actions + [a]) == Next(c, Run(c, s, actions), a)
  {
    assert (actions + [a])[..|actions|] == actions;
  }

  function Go(p: nat): Action { Step(p, true) }

  /** A save that nobody disturbs. */
  function Alone(p: nat, update: string -> string): seq<Action> {
    [Save(p, update), Go(p), Go(p), Go(p), Go(p)]
  }

  lemma SaveAlone(c: Config, s: State, p: nat, update: string -> string)
    requires c.maxRetries > 0 && p < |s.procs| && s.procs[p].pc == Ready && s.procs[p].base != Unread
    requires s.files.lock == None && RevisionMatches(c, s.files, s.procs[p].base)
    ensures var s' := Run(c, s, Alone(p, update));
            var base := s.procs[p].base;
            var wanted := update(TextOf(base));
            && s'.procs == s.procs[p := Proc(Ready, Present(wanted), update, wanted)]
            && s'.files == s.files.(file := Some(wanted), used := s.files.used + {wanted},
                                    history := s.files.history + [Write(base, update, s.files.file, wanted)])
  {
    var a1 := [Save(p, update)];
    var a2 := a1 + [Go(p)];
    var a3 := a2 + [Go(p)];
    var a4 := a3 + [Go(p)];
    assert a1[..0] == [];
    var s1 := Next(c, s, Save(p, update));
    assert Run(c, s, a1) == s1;
    RunOne(c, s, a1, Go(p));
    RunOne(c, s, a2, Go(p));
    RunOne(c, s, a3, Go(p));
    RunOne(c, s, a4, Go(p));
    assert a4 + [Go(p)] == Alone(p, update);
  }

  /** Two processes load the same file, or its absence. */
  lemma BothLoad(c: Config, file: Option<string>, n: nat)
    requires n >= 2
    ensures var s := Run(c, Initial(file, n), [Load(0), Load(1)]);
            && s.files == Initial(file, n).files && |s.procs| == n
            && s.procs[0].pc == Ready && s.procs[1].pc == Ready
            && s.procs[0].base == s.procs[1].base == if file.Some? then Present(file.value) else Absent
  {
    assert [Load(0)][..0] == [];
    RunOne(c, Initial(file, n), [Load(0)], Load(1));
    assert [Load(0)] + [Load(1)] == [Load(0), Load(1)];
  }

  /** Saves of states loaded before the file existed are blind: the second one wins. */
  lemma FirstSavesOverwrite(c: Config, first: string -> string, second: string -> string)
      returns (actions: seq<Action>)
    requires c.maxRetries > 0
    ensures var s := Run(c, Initial(None, 2), actions);
            && s.files.breaks == 0 && LosesUpdate(s.files.history)
            && s.files.file == Some(second("")) && |s.files.history| == 2
  {
    var s0 := Initial(None, 2);
    var loads := [Load(0), Load(1)];
    BothLoad(c, None, 2);
    RunConcat(c, s0, loads, Alone(0, first));
    var s1 := Run(c, s0, loads);
    SaveAlone(c, s1, 0, first);
    RunConcat(c, s0, loads + Alone(0, first), Alone(1, second));
    SaveAlone(c, Run(c, s1, Alone(0, first)), 1, second);
    actions := loads + Alone(0, first) + Alone(1, second);
    assert Run(c, s0, actions).files.history[1].replaced == Some(first(""));
  }

  /** Two contents with one revision are enough to lose an update. */
  lemma CollisionsLoseUpdates(c: Config, a: string, b: string, update: string -> string)
      returns (actions: seq<Action>)
    requires c.maxRetries > 0 && a != b && c.revision(a) == c.revision(b)
    ensures var s := Run(c, Initial(Some(a), 2), actions);
            && s.files.breaks == 0 && LosesUpdate(s.files.history) && s.files.file == Some(update(a))
  {
    var s0 := Initial(Some(a), 2);
    var loads := [Load(0), Load(1)];
    var other := _ => b;
    BothLoad(c, Some(a), 2);
    RunConcat(c, s0, loads, Alone(0, other));
    var s1 := Run(c, s0, loads);
    SaveAlone(c, s1, 0, other);
    RunConcat(c, s0, loads + Alone(0, other), Alone(1, update));
    SaveAlone(c, Run(c, s1, Alone(0, other)), 1, update);
    actions := loads + Alone(0, other) + Alone(1, update);
    assert Run(c, s0, actions).files.history[1].replaced == Some(b);
  }

  function GoTimes(p: nat, k: nat): seq<Action> {
    seq(k, _ => Go(p))
  }

  /** k operations of one process in a row. */
  function Uninterrupted(c: Config, f: Files, p: Proc, k: nat): (Files, Proc) {
    if k == 0 then (f, p)
    else var (f', p') := Uninterrupted(c, f, p, k - 1); Effect(c, f', p', true)
  }

  lemma {:induction false} GoTimesRun(c: Config, s: State, p: nat, k: nat)
    requires p < |s.procs|
    ensures var (f, proc) := Uninterrupted(c, s.files, s.procs[p], k);
            Run(c, s, GoTimes(p, k)) == State(f, s.procs[p := proc])
  {
    if k > 0 {
      assert GoTimes(p, k)[..k - 1] == GoTimes(p, k - 1);
      GoTimesRun(c, s, p, k - 1);
    } else {
      assert s.procs[p := s.procs[p]] == s.procs;
    }
  }

  /** A process that is stopped while it holds the lock, and a second one that breaks in. */
  lemma BreakIn(c: Config, s: State, update: string -> string)
    requires c.maxRetries > 1 && |s.procs| >= 2
    requires s.procs[1].pc == Ready && s.procs[1].base.Present?
    requires StaleLock(s.files)
    requires s.files.file == Some(s.procs[1].base.content)
    ensures var wanted := update(s.procs[1].base.content);
            var s' := Run(c, Next(c, s, Save(1, update)), GoTimes(1, 6));
            && |s'.procs| == |s.procs| && s'.procs[0] == s.procs[0] && s'.files.file == Some(wanted)
            && s'.files.history == s.files.history + [Write(s.procs[1].base, update, s.files.file, wanted)]
            && s'.files.used == s.files.used + {wanted}
  {
    var s0 := Next(c, s, Save(1, update));
    GoTimesRun(c, s0, 1, 6);
    var f, p := s0.files, s0.procs[1];
    assert Uninterrupted(c, f, p, 0) == (f, p) && p.pc == Trying(0);
    var (f1, p1) := Uninterrupted(c, f, p, 1);
    assert f1 == f && p1 == p.(pc := Contended(0));
    var (f2, p2) := Uninterrupted(c, f, p, 2);
    assert f2 == f && p2 == p.(pc := Breaking(0));
    var (f3, p3) := Uninterrupted(c, f, p, 3);
    assert f3 == f.(lock := None, breaks := f.breaks + 1) && p3 == p.(pc := Trying(1));
    var (f4, p4) := Uninterrupted(c, f, p, 4);
    assert f4 == f3.(lock := Some(f.now)) && p4 == p.(pc := Locked);
    var (f5, p5) := Uninterrupted(c, f, p, 5);
    assert f5 == f4 && p5 == p.(pc := Replacing);
  }

  /** Both have loaded a, and process 0 is stopped between its check and the replacement. */
  function Stopped(slow: string -> string): seq<Action> {
    [Load(0), Load(1)] + [Save(0, slow)] + [Go(0)] + [Go(0)]
  }

  lemma StoppedRun(c: Config, a: string, n: nat, slow: string -> string)
    requires c.maxRetries > 1 && n >= 2
    ensures var s := Run(c, Initial(Some(a), n), Stopped(slow));
            && |s.procs| == n && s.procs[0] == Proc(Replacing, Present(a), slow, slow(a))
            && s.procs[1].pc == Ready && s.procs[1].base == Present(a)
            && s.files == Files(0, Some(a), Some(0), [], 0, {a, slow(a)})
    ensures Elapsed(Stopped(slow)) == 0
  {
    var s0 := Initial(Some(a), n);
    var loads := [Load(0), Load(1)];
    BothLoad(c, Some(a), n);
    var held := loads + [Save(0, slow)];
    RunOne(c, s0, loads, Save(0, slow));
    RunOne(c, s0, held, Go(0));
    RunOne(c, s0, held + [Go(0)], Go(0));
    QuietTakesNoTime(Stopped(slow));
  }

  lemma {:induction false} QuietTakesNoTime(actions: seq<Action>)
    requires forall a :: a in actions ==> !a.Tick?
    ensures Elapsed(actions) == 0
  {
    if actions != [] {
      assert actions[|actions| - 1] in actions;
      QuietTakesNoTime(actions[..|actions| - 1]);
    }
  }

  /** What follows the stop: the lock ages, process 1 breaks in, and process 0 goes on. */
  function BrokenIn(fast: string -> string): seq<Action> {
    [Save(1, fast)] + GoTimes(1, 6) + [Go(0)]
  }

  /**
   A lock that is broken while its holder is between the check and the
   replacement loses an update, however good the revisions are, one second after
   the lock's lifetime.
   */
  lemma BrokenLocksLoseUpdates(c: Config, a: string, n: nat, slow: string -> string, fast: string -> string)
      returns (actions: seq<Action>)
    requires c.maxRetries > 1 && n >= 2 && fast(a) != a
    ensures Elapsed(actions) == 31
    ensures var s := Run(c, Initial(Some(a), n), actions);
            && LosesUpdate(s.files.history) && s.files.file == Some(slow(a))
            && s.files.used == {a, slow(a), fast(a)}
  {
    var s0 := Initial(Some(a), n);
    StoppedRun(c, a, n, slow);
    var tick := [Tick(STALE_LOCK_SECONDS + 1)];
    var waited := Stopped(slow) + tick;
    RunOne(c, s0, Stopped(slow), tick[0]);
    var s := Run(c, s0, waited);
    BreakIn(c, s, fast);
    assert [Save(1, fast)][..0] == [];
    RunConcat(c, s, [Save(1, fast)], GoTimes(1, 6));
    RunOne(c, s, [Save(1, fast)] + GoTimes(1, 6), Go(0));
    RunConcat(c, s0, waited, BrokenIn(fast));
    actions := waited + BrokenIn(fast);
    assert Run(c, s0, actions).files.history[1].replaced == Some(fast(a));
    QuietTakesNoTime(BrokenIn(fast));
    TotalConcat(Stopped(slow), tick, Duration);
    TotalConcat(waited, BrokenIn(fast), Duration);
  }

  /** Within this time no run of n processes loses an update, as long as revisions tell its contents apart. */
  ghost predicate KeepsUpdates(c: Config, content: string, n: nat, time: nat) {
    forall actions :: Elapsed(actions) <= time ==> KeptBy(c, content, n, actions)
  }

  ghost predicate KeptBy(c: Config, content: string, n: nat, actions: seq<Action>) {
    var f := Run(c, Initial(Some(content), n), actions).files;
    InjectiveOn(c.revision, f.used) ==> !LosesUpdate(f.history)
  }

  /** Updates are safe exactly as long as no lock can outlive its 30 seconds. */
  lemma UpdatesAreKeptIff(c: Config, a: string, b: string, n: nat, time: nat)
    requires c.maxRetries > 1 && n >= 2 && c.revision(a) != c.revision(b)
    ensures KeepsUpdates(c, a, n, time) <==> time <= 30
  {
    if time <= STALE_LOCK_SECONDS {
      forall actions | Elapsed(actions) <= time ensures KeptBy(c, a, n, actions) {
        ShortRunsAreNeverStale(c, Some(a), n, actions);
        if InjectiveOn(c.revision, Run(c, Initial(Some(a), n), actions).files.used) {
          FreshLocksKeepUpdates(c, a, n, actions);
        }
      }
    } else {
      var actions := BrokenLocksLoseUpdates(c, a, n, x => x, _ => b);
      assert !KeptBy(c, a, n, actions);
    }
  }

  // ----- every save gets its attempts -----

  /** The state of a run after its first k actions. */
  function After(c: Config, s: State, actions: seq<Action>, k: nat): State
    requires k <= |actions|
  {
    Run(c, s, actions[..k])
  }

  /** Action k is an operation of p, from this place. */
  predicate StepsAt(c: Config, s: State, actions: seq<Action>, p: nat, k: nat) {
    k < |actions| && actions[k].Step? && actions[k].p == p && p < |After(c, s, actions, k).procs|
  }

  /** Action k replaces the file by what p wants to write. */
  predicate WritesAt(c: Config, s: State, actions: seq<Action>, p: nat, k: nat)
    requires p < |s.procs|
  {
    && StepsAt(c, s, actions, p, k) && After(c, s, actions, k).procs[p].pc == Replacing && actions[k].io
    && After(c, s, actions, k + 1).files.file == Some(s.procs[p].wanted)
  }

  /** Action k is a crash of p, or finds another revision than the one p loaded, or is a replacement that fails. */
  predicate FailsAt(c: Config, s: State, actions: seq<Action>, p: nat, k: nat) {
    && k < |actions|
    && (|| actions[k] == Crash(p)
        || (&& StepsAt(c, s, actions, p, k)
            && var (f, proc) := (After(c, s, actions, k).files, After(c, s, actions, k).procs[p]);
               || (&& proc.pc == Locked && proc.base.Present?
                   && (f.file.None? || c.revision(f.file.value) != c.revision(proc.base.content)))
               || (proc.pc == Replacing && !actions[k].io)))
  }

  /** Action k is an attempt of p that meets a lock. */
  predicate MeetsLockAt(c: Config, s: State, actions: seq<Action>, p: nat, k: nat) {
    StepsAt(c, s, actions, p, k) && After(c, s, actions, k).procs[p].pc.Trying? && After(c, s, actions, k).files.lock.Some?
  }

  /** How many of the first k actions are attempts that meet a lock. */
  function LocksMet(c: Config, s: State, actions: seq<Action>, p: nat, k: nat): nat
    requires k <= |actions|
  {
    if k == 0 then 0 else LocksMet(c, s, actions, p, k - 1) + One(MeetsLockAt(c, s, actions, p, k - 1))
  }

  function StepsTaken(c: Config, s: State, actions: seq<Action>, p: nat, k: nat): nat
    requires k <= |actions|
  {
    if k == 0 then 0 else StepsTaken(c, s, actions, p, k - 1) + One(StepsAt(c, s, actions, p, k - 1))
  }

  /** p is still saving before every action but perhaps the last. */
  ghost predicate SavesUntil(c: Config, s: State, actions: seq<Action>, p: nat, k: nat) {
    k <= |actions| && p < |s.procs| && forall j :: 0 <= j < k ==> Saving(After(c, s, actions, j), p)
  }

  predicate Saving(s: State, p: nat) {
    p < |s.procs| && s.procs[p].pc != Ready
  }

  ghost predicate Decided(c: Config, s: State, actions: seq<Action>, p: nat, k: nat)
    requires p < |s.procs| && k <= |actions|
  {
    exists j: nat :: j < k && (WritesAt(c, s, actions, p, j) || FailsAt(c, s, actions, p, j))
  }

  /** Where a save stands that has neither written nor failed, after this many locks. */
  predicate AttemptsUsed(c: Config, pc: Pc, met: nat) {
    match pc
    case Trying(n) => met == n
    case Contended(n) => met == n + 1 && n < c.maxRetries
    case Breaking(n) => met == n + 1 && n < c.maxRetries
    case Locked => true
    case Replacing => true
    case Releasing => false
    case Ready => met >= c.maxRetries
  }

  lemma OneMoreAction(c: Config, s: State, actions: seq<Action>, k: nat)
    requires k < |actions|
    ensures After(c, s, actions, k + 1) == Next(c, After(c, s, actions, k), actions[k])
  {
    assert actions[..k + 1][..k] == actions[..k];
  }

  /** An operation of p itself keeps the count of its attempts, unless it writes or fails. */
  lemma OwnStepUsesAttempt(c: Config, f: Files, proc: Proc, io: bool, met: nat)
    requires AttemptsUsed(c, proc.pc, met) && proc.pc != Ready && proc.pc != Replacing
    requires proc.pc == Locked ==> RevisionMatches(c, f, proc.base)
    ensures var (_, after) := Effect(c, f, proc, io);
            AttemptsUsed(c, after.pc, met + One(proc.pc.Trying? && f.lock.Some?)) && after.wanted == proc.wanted
  {
  }

  lemma OthersLeaveProc(c: Config, s: State, a: Action, p: nat)
    requires Saving(s, p) && !(a.Step? && a.p == p) && a != Crash(p)
    ensures p < |Next(c, s, a).procs| && Next(c, s, a).procs[p] == s.procs[p]
  {
  }

  lemma {:induction false} SaveCounts(c: Config, s: State, actions: seq<Action>, p: nat, k: nat)
    requires SavesUntil(c, s, actions, p, k) && s.procs[p].pc == Trying(0) && !Decided(c, s, actions, p, k)
    ensures p < |After(c, s, actions, k).procs|
    ensures var proc := After(c, s, actions, k).procs[p];
            AttemptsUsed(c, proc.pc, LocksMet(c, s, actions, p, k)) && proc.wanted == s.procs[p].wanted
  {
    if k > 0 {
      var j: nat := k - 1;
      SaveCounts(c, s, actions, p, j);
      OneMoreAction(c, s, actions, j);
      var before, a := After(c, s, actions, j), actions[j];
      assert Saving(before, p);
      assert !WritesAt(c, s, actions, p, j) && !FailsAt(c, s, actions, p, j);
      if a.Step? && a.p == p {
        assert before.procs[p].pc != Replacing;
        OwnStepUsesAttempt(c, before.files, before.procs[p], a.io, LocksMet(c, s, actions, p, j));
      } else {
        OthersLeaveProc(c, before, a, p);
      }
    }
  }

  /**
   A save ends without writing only after a crash, another revision, a failed
   replacement, or maxRetries attempts that each met a lock.
   */
  lemma SaveEnds(c: Config, s: State, actions: seq<Action>, p: nat, k: nat)
    requires SavesUntil(c, s, actions, p, k) && s.procs[p].pc == Trying(0) && !Saving(After(c, s, actions, k), p)
    ensures Decided(c, s, actions, p, k) || LocksMet(c, s, actions, p, k) >= c.maxRetries
  {
    if !Decided(c, s, actions, p, k) {
      SaveCounts(c, s, actions, p, k);
    }
  }

  /** How many operations of its own a save still has at most. */
  function Left(c: Config, pc: Pc): nat {
    match pc
    case Trying(n) => LeftAt(c, n)
    case Contended(n) => LeftAt(c, n + 1) + 2
    case Breaking(n) => LeftAt(c, n + 1) + 1
    case Locked => 3
    case Replacing => 2
    case Releasing => 1
    case Ready => 0
  }

  function LeftAt(c: Config, n: nat): nat {
    if n >= c.maxRetries then 4 else 4 + 3 * (c.maxRetries - n)
  }

  lemma OwnStepCounts(c: Config, f: Files, proc: Proc, io: bool)
    requires proc.pc != Ready
    ensures Left(c, Effect(c, f, proc, io).1.pc) + 1 <= Left(c, proc.pc)
  {
  }

  lemma {:induction false} SaveIsShort(c: Config, s: State, actions: seq<Action>, p: nat, k: nat)
    requires SavesUntil(c, s, actions, p, k)
    ensures p < |After(c, s, actions, k).procs|
    ensures StepsTaken(c, s, actions, p, k) + Left(c, After(c, s, actions, k).procs[p].pc) <= Left(c, s.procs[p].pc)
  {
    if k > 0 {
      var j: nat := k - 1;
      SaveIsShort(c, s, actions, p, j);
      OneMoreAction(c, s, actions, j);
      var before, a := After(c, s, actions, j), actions[j];
      assert Saving(before, p);
      if a.Step? && a.p == p {
        OwnStepCounts(c, before.files, before.procs[p], a.io);
      } else if a != Crash(p) {
        OthersLeaveProc(c, before, a, p);
      }
    }
  }

  lemma {:induction false} MoreLocksMet(c: Config, s: State, actions: seq<Action>, p: nat, j: nat, k: nat)
    requires j <= k <= |actions|
    ensures LocksMet(c, s, actions, p, j) <= LocksMet(c, s, actions, p, k)
    decreases k
  {
    if j < k {
      MoreLocksMet(c, s, actions, p, j, k - 1);
    }
  }

  lemma {:induction false} FirstEnd(c: Config, s: State, actions: seq<Action>, p: nat, k: nat) returns (end: nat)
    requires k <= |actions| && Saving(s, p) && !SavesUntil(c, s, actions, p, k)
    ensures end < k && SavesUntil(c, s, actions, p, end) && !Saving(After(c, s, actions, end), p)
    decreases k
  {
    assert k > 0;
    if SavesUntil(c, s, actions, p, k - 1) {
      end := k - 1;
    } else {
      end := FirstEnd(c, s, actions, p, k - 1);
    }
  }

  /**
   A save that takes its operations, fails at none of them and meets a lock at
   fewer than maxRetries of its attempts puts its content on file.
   */
  lemma SaveSucceeds(c: Config, s: State, actions: seq<Action>, p: nat)
    requires p < |s.procs| && s.procs[p].pc == Trying(0)
    requires StepsTaken(c, s, actions, p, |actions|) > 3 * c.maxRetries + 4
    requires LocksMet(c, s, actions, p, |actions|) < c.maxRetries
    requires forall k: nat :: !FailsAt(c, s, actions, p, k)
    ensures exists k: nat :: WritesAt(c, s, actions, p, k)
  {
    if SavesUntil(c, s, actions, p, |actions|) {
      SaveIsShort(c, s, actions, p, |actions|);
      assert false;
    } else {
      var end := FirstEnd(c, s, actions, p, |actions|);
      SaveEnds(c, s, actions, p, end);
      MoreLocksMet(c, s, actions, p, end, |actions|);
    }
  }

  /** A save that met a lock, and has an attempt left, writes once the lock is gone. */
  lemma ReleasedLockIsTaken(c: Config, s: State, p: nat, n: nat)
    requires p < |s.procs| && s.procs[p].pc == Contended(n) && n + 1 < c.maxRetries && s.files.lock.None?
    requires s.procs[p].base.Present? ==>
               s.files.file.Some? && c.revision(s.files.file.value) == c.revision(s.procs[p].base.content)
    ensures var after := Run(c, s, GoTimes(p, 5));
            && after.files.file == Some(s.procs[p].wanted) && after.files.lock.None?
            && after.procs == s.procs[p := s.procs[p].(pc := Ready, base := Present(s.procs[p].wanted))]
  {
    GoTimesRun(c, s, p, 5);
    var f, proc := s.files, s.procs[p];
    assert Uninterrupted(c, f, proc, 0) == (f, proc);
    assert Uninterrupted(c, f, proc, 1) == (f, proc.(pc := Trying(n + 1)));
    var held := f.(lock := Some(f.now));
    assert Uninterrupted(c, f, proc, 2) == (held, proc.(pc := Locked));
    assert Uninterrupted(c, f, proc, 3) == (held, proc.(pc := Replacing));
    var (f4, p4) := Uninterrupted(c, f, proc, 4);
    assert f4.file == Some(proc.wanted) && p4 == proc.(pc := Releasing, base := Present(proc.wanted));
  }
}
