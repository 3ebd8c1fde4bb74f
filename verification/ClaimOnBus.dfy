/**
 The claim protocol beside the live log that its check of the bus reads: actions
 on the claim files interleave in any order with emits and archivings.
 */
module ClaimOnBus {
  import opened ClaimProtocol
  import opened Counting
  import EventLog
  import Relaunching

  /** One claim, for one trigger of one ticket. */
  datatype Setting = Setting(config: EventLog.Config, ttl: nat, ticket: string, trigger: int)

  datatype Joint = Joint(claims: State, store: EventLog.Store)

  datatype JointAction = OnFiles(action: Action) | OnBus(command: EventLog.Command)

  /** The live log holds an attempt for the trigger. */
  ghost predicate Recorded(g: Setting, j: Joint) {
    Relaunching.HasRelaunched(j.store.live, g.ticket, g.trigger)
  }

  /** The claims with what a look at the bus would show. */
  ghost function Looking(g: Setting, j: Joint): State {
    j.claims.(files := j.claims.files.(relaunched := Recorded(g, j)))
  }

  ghost function Next(g: Setting, j: Joint, a: JointAction): Joint {
    match a
    case OnFiles(action) => j.(claims := ClaimProtocol.Next(Looking(g, j), g.ttl, action))
    case OnBus(command) => j.(store := EventLog.Apply(g.config, j.store, command))
  }

  ghost function Run(g: Setting, j: Joint, actions: seq<JointAction>): Joint {
    if actions == [] then j
    else Next(g, Run(g, j, actions[..|actions| - 1]), actions[|actions| - 1])
  }

  /** The actions on the claim files, in order. */
  function FileActions(actions: seq<JointAction>): seq<Action> {
    if actions == [] then []
    else
      var init, last := FileActions(actions[..|actions| - 1]), actions[|actions| - 1];
      if last.OnFiles? then init + [last.action] else init
  }

  /** The supervisors on the bus alone: only what happens to the files counts. */
  lemma FileStep(g: Setting, j: Joint, a: Action)
    requires Recorded(g, j) || a != Relaunch
    ensures Looking(g, Next(g, j, OnFiles(a))) == ClaimProtocol.Next(Looking(g, j), g.ttl, a)
  {
  }

  /** While the attempt is on the bus, the claims run as if the bus stood still. */
  lemma {:induction false} RecordedRun(g: Setting, j: Joint, actions: seq<JointAction>)
    requires Recorded(g, j) && OnBus(EventLog.Archive(g.ticket)) !in actions
    ensures Recorded(g, Run(g, j, actions))
    ensures Looking(g, Run(g, j, actions)) == ClaimProtocol.Run(Looking(g, j), g.ttl, FileActions(actions))
  {
    if actions != [] {
      var init, last := actions[..|actions| - 1], actions[|actions| - 1];
      assert forall a :: a in init ==> a in actions;
      assert last in actions;
      RecordedRun(g, j, init);
      var before := Run(g, j, init);
      match last
      case OnFiles(a) =>
        FileStep(g, before, a);
        assert (FileActions(init) + [a])[..|FileActions(init)|] == FileActions(init);
      case OnBus(command) =>
        Relaunching.StepKeepsRelaunched(g.config, before.store, command, g.ticket, g.trigger);
    }
  }

  /**
   Once the live log holds the attempt and until the ticket is archived, further
   claims come only from supervisors that were past the check already, or fill
   the empty slot, whatever else is emitted or archived in between.
   */
  lemma LateClaimsAreBounded(g: Setting, j: Joint, actions: seq<JointAction>)
    requires Balanced(j.claims) && Recorded(g, j) && OnBus(EventLog.Archive(g.ticket)) !in actions
    requires NoRemovals(FileActions(actions))
    ensures var files, after := j.claims.files, Run(g, j, actions).claims.files;
            && after.creations <= files.creations + Count(j.claims.pcs, PastCheck) + One(files.claim.None?)
            && after.wins <= files.creations + Count(j.claims.pcs, PastCheck) + One(files.claim.None?)
  {
    RecordedRun(g, j, actions);
    ClaimProtocol.LateClaimsAreBounded(Looking(g, j), g.ttl, FileActions(actions));
  }

  // ----- exactly when a stale claim is refused -----

  function OnlyFiles(actions: seq<Action>): seq<JointAction> {
    if actions == [] then [] else OnlyFiles(actions[..|actions| - 1]) + [OnFiles(actions[|actions| - 1])]
  }

  lemma OneMoreFileAction(g: Setting, j: Joint, actions: seq<JointAction>, a: Action)
    ensures FileActions(actions + [OnFiles(a)]) == FileActions(actions) + [a]
    ensures Run(g, j, actions + [OnFiles(a)]) == Next(g, Run(g, j, actions), OnFiles(a))
  {
    assert (actions + [OnFiles(a)])[..|actions|] == actions;
  }

  /** Without a word on the bus the claims run by themselves. */
  lemma {:induction false} FilesRun(g: Setting, j: Joint, actions: seq<Action>)
    requires Relaunch !in actions
    ensures var after := Run(g, j, OnlyFiles(actions));
            after.store == j.store && Looking(g, after) == ClaimProtocol.Run(Looking(g, j), g.ttl, actions)
    ensures FileActions(OnlyFiles(actions)) == actions
    ensures forall a :: a in OnlyFiles(actions) ==> a.OnFiles?
  {
    if actions != [] {
      var init, last := actions[..|actions| - 1], actions[|actions| - 1];
      FilesRun(g, j, init);
      OneMoreFileAction(g, j, OnlyFiles(init), last);
      assert last in actions;
      FileStep(g, Run(g, j, OnlyFiles(init)), last);
    }
  }

  /** Some run that neither removes claims nor archives the ticket creates another claim. */
  ghost predicate CanBeClaimed(g: Setting, j: Joint) {
    exists actions ::
      && NoRemovals(FileActions(actions)) && OnBus(EventLog.Archive(g.ticket)) !in actions
      && Run(g, j, actions).claims.files.creations > j.claims.files.creations
  }

  lemma UnrecordedIsClaimed(g: Setting, j: Joint)
    requires RestsOnStale(j.claims, g.ttl) && !j.claims.files.takeover && !Recorded(g, j)
    ensures CanBeClaimed(g, j)
  {
    RecoveryCreates(Looking(g, j), g.ttl);
    RecoveryIsOrderly();
    FilesRun(g, j, RECOVERY);
    var actions := OnlyFiles(RECOVERY);
    assert Looking(g, Run(g, j, actions)).files.creations == j.claims.files.creations + 1;
  }

  /** A later stale claim is refused exactly when the live log holds the attempt. */
  lemma StaleIsRefusedIff(g: Setting, j: Joint)
    requires RestsOnStale(j.claims, g.ttl) && !j.claims.files.takeover
    ensures !CanBeClaimed(g, j) <==> Recorded(g, j)
  {
    if !Recorded(g, j) {
      UnrecordedIsClaimed(g, j);
    } else {
      NoneAt(j.claims.pcs, PastCheck);
      forall actions | NoRemovals(FileActions(actions)) && OnBus(EventLog.Archive(g.ticket)) !in actions
        ensures Run(g, j, actions).claims.files.creations <= j.claims.files.creations
      {
        LateClaimsAreBounded(g, j, actions);
      }
    }
  }

  /** Archiving the ticket takes the attempt out of the live log, and its stale claim is up again. */
  lemma ArchivingReopensClaim(g: Setting, j: Joint)
    requires RestsOnStale(j.claims, g.ttl) && !j.claims.files.takeover
    ensures CanBeClaimed(g, Next(g, j, OnBus(EventLog.Archive(g.ticket))))
  {
    UnrecordedIsClaimed(g, Next(g, j, OnBus(EventLog.Archive(g.ticket))));
  }
}
