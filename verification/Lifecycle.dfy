/** The runtime's lifecycle gate, and when it lets commands through, told by the whole history. */
module Lifecycle {
  import opened Domain

  datatype Phase =
    | Opening
    | CompatibilityChecking
    | AcquiringOwnership
    | Migrating
    | Recovering
    | Ready
    | Degraded(problem: Problem)
    | Blocked(problem: Problem)
    | ShuttingDown
    | Closed
    | Fatal(problem: Problem)

  datatype CommandClass = Observe | MutateLocalState | UseCredential | UseRelay | RetryOpening | Shutdown

  predicate Allows(phase: Phase, command: CommandClass) {
    match phase
    case Opening | CompatibilityChecking | AcquiringOwnership | Migrating | Recovering =>
      command.Observe? || command.Shutdown?
    case Ready => !command.RetryOpening?
    case Degraded(_) => !(command.UseRelay? || command.RetryOpening?)
    case Blocked(_) => command.Observe? || command.RetryOpening? || command.Shutdown?
    case ShuttingDown => command.Observe?
    case Fatal(_) => command.Shutdown?
    case Closed => false
  }

  datatype Event =
    | BeginCompatibilityCheck
    | CompatibilityAccepted
    | OwnershipAcquired
    | MigrationComplete
    | RecoveryComplete
    | Block(problem: Problem)
    | Fail(problem: Problem)
    | Degrade(problem: Problem)
    | RestoreReady
    | BeginShutdown
    | FinishShutdown

  /** What an event does; `None` is the refusal of an event that is out of order. */
  function Outcome(phase: Phase, e: Event): Option<Phase> {
    match e
    case BeginCompatibilityCheck => if phase.Opening? then Some(CompatibilityChecking) else None
    case CompatibilityAccepted => if phase.CompatibilityChecking? then Some(AcquiringOwnership) else None
    case OwnershipAcquired => if phase.AcquiringOwnership? then Some(Migrating) else None
    case MigrationComplete => if phase.Migrating? then Some(Recovering) else None
    case RecoveryComplete => if phase.Recovering? then Some(Ready) else None
    case Block(problem) => Some(Blocked(problem))
    case Fail(problem) => Some(Fatal(problem))
    case Degrade(problem) => if phase.Ready? then Some(Degraded(problem)) else None
    case RestoreReady => if phase.Degraded? then Some(Ready) else None
    case BeginShutdown => if phase.ShuttingDown? || phase.Closed? then None else Some(ShuttingDown)
    case FinishShutdown => if phase.ShuttingDown? then Some(Closed) else None
  }

  function Next(phase: Phase, e: Event): Phase {
    match Outcome(phase, e)
    case None => phase
    case Some(next) => next
  }

  function After(events: seq<Event>): Phase {
    if events == [] then Opening else Next(After(events[..|events| - 1]), events[|events| - 1])
  }

  class LifecycleGate {
    var lifecycle: Phase

    constructor ()
      ensures lifecycle == Opening
    {
      lifecycle := Opening;
    }

    method Advance(expected: Phase, next: Phase) returns (ok: bool)
      modifies this
      ensures ok == (old(lifecycle) == expected)
      ensures lifecycle == if ok then next else old(lifecycle)
    {
      if lifecycle != expected { return false; }
      lifecycle := next;
      return true;
    }

    /** The eleven transition methods of the gate, by their event. */
    method Apply(e: Event) returns (ok: bool)
      modifies this
      ensures ok == Outcome(old(lifecycle), e).Some?
      ensures lifecycle == Next(old(lifecycle), e)
    {
      match e {
        case BeginCompatibilityCheck => ok := Advance(Opening, CompatibilityChecking);
        case CompatibilityAccepted => ok := Advance(CompatibilityChecking, AcquiringOwnership);
        case OwnershipAcquired => ok := Advance(AcquiringOwnership, Migrating);
        case MigrationComplete => ok := Advance(Migrating, Recovering);
        case RecoveryComplete => ok := Advance(Recovering, Ready);
        case Block(problem) =>
          lifecycle := Blocked(problem);
          ok := true;
        case Fail(problem) =>
          lifecycle := Fatal(problem);
          ok := true;
        case Degrade(problem) => ok := Advance(Ready, Degraded(problem));
        case RestoreReady =>
          ok := lifecycle.Degraded?;
          if ok { lifecycle := Ready; }
        case BeginShutdown =>
          ok := !(lifecycle.ShuttingDown? || lifecycle.Closed?);
          if ok { lifecycle := ShuttingDown; }
        case FinishShutdown => ok := Advance(ShuttingDown, Closed);
      }
    }
  }

  // ---- History ----

  /** The reports that open the runtime, in order. */
  function StageReport(k: nat): Event
    requires k < 5
  {
    match k
    case 0 => BeginCompatibilityCheck
    case 1 => CompatibilityAccepted
    case 2 => OwnershipAcquired
    case 3 => MigrationComplete
    case 4 => RecoveryComplete
  }

  predicate Disturbs(e: Event) {
    e.Block? || e.Fail? || e.BeginShutdown?
  }

  ghost predicate Undisturbed(events: seq<Event>) {
    forall i :: 0 <= i < |events| ==> !Disturbs(events[i])
  }

  /** The first `k` opening stages were reported at the increasing positions `at`. */
  ghost predicate Reported(events: seq<Event>, at: seq<nat>, k: nat) {
    && k <= 5 && |at| == k
    && (forall j :: 0 <= j < k ==> at[j] < |events| && events[at[j]] == StageReport(j))
    && (forall i, j :: 0 <= i < j < k ==> at[i] < at[j])
  }

  ghost predicate Opened(events: seq<Event>, k: nat) {
    exists at: seq<nat> :: Reported(events, at, k)
  }

  /** How many stages the gate has taken, reporting out of order being refused. */
  function Taken(events: seq<Event>): (k: nat)
    ensures k <= 5
  {
    if events == [] then 0
    else
      var k := Taken(events[..|events| - 1]);
      if k < 5 && events[|events| - 1] == StageReport(k) then k + 1 else k
  }

  /** Taking stages greedily takes as many as any choice of reports in order. */
  lemma {:induction false} TakenIsMost(events: seq<Event>, k: nat)
    requires k <= 5
    ensures k <= Taken(events) <==> Opened(events, k)
  {
    hide StageReport;
    if k == 0 {
      assert Reported(events, [], 0);
    } else if events == [] {
      forall at: seq<nat> ensures !Reported(events, at, k) { if |at| > 0 { assert !(at[0] < |events|); } }
    } else {
      TakenIsMost(events[..|events| - 1], k);
      TakenIsMost(events[..|events| - 1], k - 1);
      OpenedStep(events, k);
    }
  }

  /** The last event adds a stage exactly if it is the report that was missing. */
  lemma OpenedStep(events: seq<Event>, k: nat)
    requires events != [] && 1 <= k <= 5
    ensures var front, last := events[..|events| - 1], events[|events| - 1];
            Opened(events, k) <==> Opened(front, k) || (Opened(front, k - 1) && last == StageReport(k - 1))
  {
    hide StageReport;
    var front, last := events[..|events| - 1], events[|events| - 1];
    if Opened(front, k) {
      var at: seq<nat> :| Reported(front, at, k);
      assert Reported(events, at, k);
    } else if Opened(front, k - 1) && last == StageReport(k - 1) {
      var at: seq<nat> :| Reported(front, at, k - 1);
      var more: seq<nat> := at + [|front|];
      assert Reported(events, more, k);
    }
    if Opened(events, k) {
      var at: seq<nat> :| Reported(events, at, k);
      assert forall j :: 0 <= j < k - 1 ==> at[j] < at[k - 1];
      if at[k - 1] < |front| {
        assert Reported(front, at, k);
      } else {
        assert Reported(front, at[..k - 1], k - 1);
      }
    }
  }

  function StagePhase(k: nat): Phase
    requires k <= 5
  {
    match k
    case 0 => Opening
    case 1 => CompatibilityChecking
    case 2 => AcquiringOwnership
    case 3 => Migrating
    case 4 => Recovering
    case 5 => Ready
  }

  predicate Stopped(phase: Phase) {
    phase.Blocked? || phase.Fatal? || phase.ShuttingDown? || phase.Closed?
  }

  lemma UndisturbedStep(events: seq<Event>)
    requires events != []
    ensures Undisturbed(events) <==> Undisturbed(events[..|events| - 1]) && !Disturbs(events[|events| - 1])
  {}

  /** An undisturbed gate is at the stage it has taken, or degraded after the last; a disturbed one is stopped. */
  lemma {:induction false} PhaseOfHistory(events: seq<Event>)
    ensures if Undisturbed(events) then
              After(events) == StagePhase(Taken(events)) || (Taken(events) == 5 && After(events).Degraded?)
            else Stopped(After(events))
  {
    if events != [] {
      var front, last := events[..|events| - 1], events[|events| - 1];
      PhaseOfHistory(front);
      UndisturbedStep(events);
    }
  }

  /** Local mutation is allowed if and only if all five opening stages were reported in order and
      nothing blocked, failed or shut the runtime down so far. */
  lemma MutationAllowedIff(events: seq<Event>)
    ensures Allows(After(events), MutateLocalState) <==> Undisturbed(events) && Opened(events, 5)
    ensures Allows(After(events), UseCredential) <==> Allows(After(events), MutateLocalState)
    ensures Allows(After(events), UseRelay) <==> After(events).Ready?
  {
    PhaseOfHistory(events);
    TakenIsMost(events, 5);
  }

  /** Once stopped, the gate never allows local mutation again. */
  lemma StoppedForGood(events: seq<Event>, n: nat)
    requires n <= |events| && Stopped(After(events[..n]))
    ensures Stopped(After(events)) && !Allows(After(events), MutateLocalState)
  {
    hide Taken; hide After;
    PhaseOfHistory(events[..n]);
    PhaseOfHistory(events);
    var i :| 0 <= i < n && Disturbs(events[..n][i]);
    assert Disturbs(events[i]);
  }

  // ---- What each history ends in ----

  /** What each command class needs of the phase. */
  lemma AllowedIff(phase: Phase)
    ensures Allows(phase, Observe) <==> !phase.Fatal? && !phase.Closed?
    ensures Allows(phase, Shutdown) <==> !phase.ShuttingDown? && !phase.Closed?
    ensures Allows(phase, RetryOpening) <==> phase.Blocked?
    ensures Allows(phase, MutateLocalState) <==> phase.Ready? || phase.Degraded?
    ensures Allows(phase, UseCredential) <==> phase.Ready? || phase.Degraded?
    ensures Allows(phase, UseRelay) <==> phase.Ready?
  {}

  /** Nothing was blocked or failed from position `n` on. */
  ghost predicate Unreported(events: seq<Event>, n: nat) {
    forall i :: n <= i < |events| ==> !events[i].Block? && !events[i].Fail?
  }

  /** Event `e` was the last to disturb the gate, at position `n`. */
  ghost predicate LastDisturbed(events: seq<Event>, n: nat, e: Event) {
    n < |events| && events[n] == e && forall i :: n < i < |events| ==> !Disturbs(events[i])
  }

  ghost predicate Disturbed(events: seq<Event>, e: Event) {
    exists n: nat :: LastDisturbed(events, n, e)
  }

  /** A shutdown began at `n` and no report came after it. */
  ghost predicate ShutAt(events: seq<Event>, n: nat) {
    n < |events| && events[n].BeginShutdown? && Unreported(events, n)
  }

  ghost predicate ShutDown(events: seq<Event>) {
    exists n: nat :: ShutAt(events, n)
  }

  /** The shutdown was also finished. */
  ghost predicate FinishedAt(events: seq<Event>, n: nat, m: nat) {
    ShutAt(events, n) && n < m < |events| && events[m].FinishShutdown?
  }

  ghost predicate Finished(events: seq<Event>) {
    exists n: nat, m: nat :: FinishedAt(events, n, m)
  }

  lemma DisturbedStep(events: seq<Event>, e: Event)
    requires events != [] && Disturbs(e)
    ensures var front, last := events[..|events| - 1], events[|events| - 1];
            Disturbed(events, e) <==> last == e || (!Disturbs(last) && Disturbed(front, e))
  {
    var front, last := events[..|events| - 1], events[|events| - 1];
    if last == e { assert LastDisturbed(events, |front|, e); }
    if !Disturbs(last) && Disturbed(front, e) {
      var n: nat :| LastDisturbed(front, n, e);
      assert LastDisturbed(events, n, e);
    }
    if Disturbed(events, e) && last != e {
      var n: nat :| LastDisturbed(events, n, e);
      assert LastDisturbed(front, n, e);
    }
  }

  lemma ShutDownStep(events: seq<Event>)
    requires events != []
    ensures var front, last := events[..|events| - 1], events[|events| - 1];
            ShutDown(events) <==> last.BeginShutdown? || (!last.Block? && !last.Fail? && ShutDown(front))
  {
    var front, last := events[..|events| - 1], events[|events| - 1];
    if last.BeginShutdown? { assert ShutAt(events, |front|); }
    if !last.Block? && !last.Fail? && ShutDown(front) {
      var n: nat :| ShutAt(front, n);
      assert ShutAt(events, n);
    }
    if ShutDown(events) && !last.BeginShutdown? {
      var n: nat :| ShutAt(events, n);
      assert ShutAt(front, n);
    }
  }

  lemma FinishedStep(events: seq<Event>)
    requires events != []
    ensures var front, last := events[..|events| - 1], events[|events| - 1];
            Finished(events) <==> !last.Block? && !last.Fail?
                                  && (Finished(front) || (last.FinishShutdown? && ShutDown(front)))
  {
    var front, last := events[..|events| - 1], events[|events| - 1];
    if !last.Block? && !last.Fail? && Finished(front) {
      var n: nat, m: nat :| FinishedAt(front, n, m);
      assert FinishedAt(events, n, m);
    }
    if last.FinishShutdown? && ShutDown(front) {
      var n: nat :| ShutAt(front, n);
      assert FinishedAt(events, n, |front|);
    }
    if Finished(events) {
      var n: nat, m: nat :| FinishedAt(events, n, m);
      assert ShutAt(front, n);
      assert m < |front| ==> FinishedAt(front, n, m);
    }
  }

  /** Which stop a history ends in. It is blocked or fatal with exactly the problem of the last event that
      disturbed the gate; a shutdown is under way or over if it began and nothing was reported since, and
      over if it was also finished. */
  lemma {:induction false} StopOfHistory(events: seq<Event>, problem: Problem)
    ensures After(events) == Blocked(problem) <==> Disturbed(events, Block(problem))
    ensures After(events) == Fatal(problem) <==> Disturbed(events, Fail(problem))
    ensures After(events) == ShuttingDown <==> ShutDown(events) && !Finished(events)
    ensures After(events) == Closed <==> Finished(events)
  {
    if events != [] {
      var front, last := events[..|events| - 1], events[|events| - 1];
      StopOfHistory(front, problem);
      DisturbedStep(events, Block(problem));
      DisturbedStep(events, Fail(problem));
      ShutDownStep(events);
      FinishedStep(events);
      hide Disturbed; hide ShutDown; hide Finished;
    }
  }

  /** Every degradation of the opened gate was followed by its restoration. */
  ghost predicate Restored(events: seq<Event>) {
    forall j :: 0 <= j < |events| && events[j].Degrade? && Taken(events[..j]) == 5 ==>
      exists k :: j < k < |events| && events[k].RestoreReady?
  }

  lemma RestoredStep(events: seq<Event>)
    requires events != []
    ensures var front, last := events[..|events| - 1], events[|events| - 1];
            Restored(events) <==>
            last.RestoreReady? || (Restored(front) && !(last.Degrade? && Taken(front) == 5))
  {
    var front, last := events[..|events| - 1], events[|events| - 1];
    hide Taken;
    if !last.RestoreReady? && Restored(front) && !(last.Degrade? && Taken(front) == 5) {
      forall j | 0 <= j < |events| && events[j].Degrade? && Taken(events[..j]) == 5
        ensures exists k :: j < k < |events| && events[k].RestoreReady?
      {
        if j < |front| {
          assert events[..j] == front[..j] && front[j] == events[j];
          var k :| j < k < |front| && front[k].RestoreReady?;
          assert events[k].RestoreReady?;
        }
      }
    }
    if Restored(events) && !last.RestoreReady? {
      assert events[..|front|] == front;
      forall j | 0 <= j < |front| && front[j].Degrade? && Taken(front[..j]) == 5
        ensures exists k :: j < k < |front| && front[k].RestoreReady?
      {
        assert events[..j] == front[..j] && events[j] == front[j];
        var k :| j < k < |events| && events[k].RestoreReady?;
        assert front[k] == events[k];
      }
    }
  }

  /** Before it is opened the gate has no degradation to restore. */
  lemma {:induction false} UnopenedIsRestored(events: seq<Event>)
    ensures Taken(events) < 5 ==> Restored(events)
  {
    if events != [] && Taken(events) < 5 {
      UnopenedIsRestored(events[..|events| - 1]);
      RestoredStep(events);
    }
  }

  /** Relays may be used if and only if the gate was opened, never disturbed, and every degradation since
      it opened was restored. */
  lemma {:induction false} RelayAllowedIff(events: seq<Event>)
    ensures Allows(After(events), UseRelay) <==> Undisturbed(events) && Opened(events, 5) && Restored(events)
  {
    TakenIsMost(events, 5);
    PhaseOfHistory(events);
    if events != [] {
      var front := events[..|events| - 1];
      RelayAllowedIff(front);
      TakenIsMost(front, 5);
      PhaseOfHistory(front);
      UndisturbedStep(events);
      RestoredStep(events);
      UnopenedIsRestored(front);
      hide Opened; hide Restored; hide Undisturbed;
    }
  }

  /** A report at `n` found the gate open and restored, and was not restored since. */
  ghost predicate DegradedAt(events: seq<Event>, n: nat, problem: Problem) {
    && n < |events| && events[n] == Degrade(problem) && Taken(events[..n]) == 5 && Restored(events[..n])
    && forall k :: n < k < |events| ==> !events[k].RestoreReady?
  }

  ghost predicate DegradedBy(events: seq<Event>, problem: Problem) {
    exists n: nat :: DegradedAt(events, n, problem)
  }

  lemma DegradedEarlier(events: seq<Event>, n: nat, problem: Problem)
    requires n + 1 < |events|
    ensures var front, last := events[..|events| - 1], events[|events| - 1];
            DegradedAt(events, n, problem) <==> DegradedAt(front, n, problem) && !last.RestoreReady?
  {
    hide Taken; hide Restored;
    assert events[..|events| - 1][..n] == events[..n];
  }

  lemma DegradedLast(events: seq<Event>, problem: Problem)
    requires events != []
    ensures var front, last := events[..|events| - 1], events[|events| - 1];
            DegradedAt(events, |front|, problem) <==>
            last == Degrade(problem) && Taken(front) == 5 && Restored(front)
  {
    hide Taken; hide Restored;
  }

  lemma DegradedStep(events: seq<Event>, problem: Problem)
    requires events != []
    ensures var front, last := events[..|events| - 1], events[|events| - 1];
            DegradedBy(events, problem) <==>
            || (last == Degrade(problem) && Taken(front) == 5 && Restored(front))
            || (!last.RestoreReady? && DegradedBy(front, problem))
  {
    var front := events[..|events| - 1];
    DegradedLast(events, problem);
    assert forall n: nat | DegradedAt(events, n, problem) :: n <= |front|;
    assert forall n: nat | DegradedAt(front, n, problem) :: n < |front|;
    hide Taken; hide Restored; hide DegradedAt;
    forall n: nat | n < |front|
      ensures DegradedAt(events, n, problem) <==> DegradedAt(front, n, problem) && !events[|front|].RestoreReady?
    {
      DegradedEarlier(events, n, problem);
    }
  }

  /** The gate is degraded exactly if it was never disturbed, and with the problem of the first report
      since it was opened or last restored. */
  lemma {:induction false} DegradedIff(events: seq<Event>, problem: Problem)
    ensures After(events) == Degraded(problem) <==> Undisturbed(events) && DegradedBy(events, problem)
  {
    if events != [] {
      var front := events[..|events| - 1];
      DegradedIff(front, problem);
      DegradedStep(events, problem);
      UndisturbedStep(events);
      PhaseOfHistory(front);
      TakenIsMost(front, 5);
      RelayAllowedIff(front);
      hide Opened; hide Restored; hide Undisturbed; hide DegradedBy;
    }
  }
}
