/** The application state machine: twelve transitions over one snapshot and one pending activation. */
module StateMachine {
  import opened Domain
  import opened Registry
  import opened Snapshot

  datatype Transition =
    | Bootstrap
    | BootstrapRegistry(identities: Records, selected: Option<PublicKey>)
    | FailFatally(problem: Problem)
    | ReplaceRegistry(identities: Records, selected: Option<PublicKey>)
    | ReplaceRegistryPreservingSession(identities: Records, selected: Option<PublicKey>)
    | SelectKey(key: PublicKey)
    | BeginActivation(key: PublicKey)
    | ActivationSucceeded(active: ActiveIdentity)
    | ActivationFailed(problem: Problem)
    | UpdateActiveIdentity(expected: PublicKey, active: ActiveIdentity, update: Option<Problem>)
    | SignOut
    | SetProblem(report: Option<Problem>)

  /** The target of an activation and the session to restore if it fails. */
  datatype Pending = Pending(target: PublicKey, session: SessionState, active: Option<ActiveIdentity>)

  datatype Machine = Machine(snapshot: AppSnapshot, pending: Option<Pending>)

  const BOOT: Machine := Machine(BOOTING, None)

  // ---- Specification ----

  /** A ready snapshot with the current registry. */
  function CopyReady(s: AppSnapshot, revision: nat, selected: Option<PublicKey>, session: SessionState,
                     active: Option<ActiveIdentity>, problem: Option<Problem>): Result<AppSnapshot> {
    ReadySnapshot(revision, s.relays, s.identities, selected, session, active, problem)
  }

  /** The snapshot a transition leads to. */
  function Target(m: Machine, t: Transition, revision: nat, relays: Relays): Result<AppSnapshot> {
    var s := m.snapshot;
    match t
    case Bootstrap =>
      if !s.lifecycle.Booting? then Ok(s) else ReadySnapshot(revision, relays, [], None, SignedOut, None, None)
    case BootstrapRegistry(identities, selected) =>
      if !s.lifecycle.Booting? then Ok(s)
      else ReadySnapshot(revision, relays, identities, selected, SignedOut, None, None)
    case FailFatally(problem) => Ok(FatalSnapshot(revision, relays, problem))
    case ReplaceRegistry(identities, selected) =>
      ReadySnapshot(revision, s.relays, identities, selected, SignedOut, None, None)
    case ReplaceRegistryPreservingSession(identities, selected) =>
      ReadySnapshot(revision, s.relays, identities, selected, s.session, s.active, None)
    case SelectKey(key) =>
      if !Has(s.identities, key) then Err(IdentityNotFound)
      else CopyReady(s, revision, Some(key), s.session, s.active, None)
    case BeginActivation(key) =>
      if !Has(s.identities, key) then Err(IdentityNotFound)
      else if m.pending.Some? then Err(InvalidApplicationState)
      else CopyReady(s, revision, s.selected, Activating(key), s.active, None)
    case ActivationSucceeded(active) =>
      if m.pending.None? || active.identity.key != m.pending.value.target then Err(InvalidApplicationState)
      else if !Has(s.identities, active.identity.key) then Err(IdentityNotFound)
      else
        ReadySnapshot(revision, s.relays, Update(s.identities, active.identity), Some(active.identity.key), Active,
                      Some(active), None)
    case ActivationFailed(problem) =>
      if m.pending.None? then Err(InvalidApplicationState)
      else CopyReady(s, revision, s.selected, m.pending.value.session, m.pending.value.active, Some(problem))
    case UpdateActiveIdentity(expected, active, update) =>
      if !s.session.Active? || s.active.None? || s.active.value.identity.key != expected
         || active.identity.key != expected then
        Err(InvalidApplicationState)
      else CopyReady(s, revision, s.selected, Active, Some(active), update)
    case SignOut => CopyReady(s, revision, s.selected, SignedOut, None, None)
    case SetProblem(report) => CopyReady(s, revision, s.selected, s.session, s.active, report)
  }

  /** What a transition does to the pending activation. Replacing the registry, signing out and failing
      drop it even if the transition is then rejected. */
  function PendingAfter(m: Machine, t: Transition, accepted: bool): Option<Pending> {
    match t
    case ReplaceRegistry(_, _) => None
    case ReplaceRegistryPreservingSession(_, _) => None
    case SignOut => None
    case ActivationFailed(_) => None
    case ActivationSucceeded(_) => if accepted then None else m.pending
    case BeginActivation(key) =>
      if Has(m.snapshot.identities, key)
         && m.pending.None? then Some(Pending(key, m.snapshot.session, m.snapshot.active))
      else m.pending
    case _ => m.pending
  }

  function Outcome(m: Machine, t: Transition, relays: Relays): Result<AppSnapshot> {
    match NextRevision(m.snapshot.revision)
    case None => Err(InvalidApplicationState)
    case Some(revision) => Target(m, t, revision, relays)
  }

  function Next(m: Machine, t: Transition, relays: Relays): Machine {
    if NextRevision(m.snapshot.revision).None? then m
    else
      var outcome := Outcome(m, t, relays);
      Machine(if outcome.Ok? then outcome.value else m.snapshot, PendingAfter(m, t, outcome.Ok?))
  }

  // ---- The machine as the code runs it ----

  class StateMachine {
    var snapshot: AppSnapshot
    var pending: Option<Pending>

    ghost function View(): Machine
      reads this
    {
      Machine(snapshot, pending)
    }

    constructor ()
      ensures View() == BOOT && pending.None?
      ensures snapshot == AppSnapshot(0, None, Booting, 0, [], None, SignedOut, None, None)
    {
      snapshot, pending := BOOTING, None;
    }

    method Apply(t: Transition, relays: Relays) returns (r: Result<AppSnapshot>)
      modifies this
      ensures View() == Next(old(View()), t, relays)
      ensures r == Outcome(old(View()), t, relays)
    {
      hide Validates; hide Find; hide Update;
      var revision := NextRevision(snapshot.revision);
      if revision.None? { return Err(InvalidApplicationState); }
      match t {
        case Bootstrap => r := BootstrapWith(revision.value, relays, [], None);
        case BootstrapRegistry(identities, selected) =>
          r := BootstrapWith(revision.value, relays, identities, selected);
        case FailFatally(problem) => r := Ok(FatalSnapshot(revision.value, relays, problem));
        case ReplaceRegistry(identities, selected) =>
          pending := None;
          r := ReadySnapshot(revision.value, snapshot.relays, identities, selected, SignedOut, None, None);
        case ReplaceRegistryPreservingSession(identities, selected) =>
          pending := None;
          r := ReadySnapshot(revision.value, snapshot.relays, identities, selected, snapshot.session, snapshot.active,
                             None);
        case SelectKey(key) =>
          if Has(snapshot.identities, key) {
            r := CopyReady(snapshot, revision.value, Some(key), snapshot.session, snapshot.active, None);
          } else {
            r := Err(IdentityNotFound);
          }
        case BeginActivation(key) => r := Begin(revision.value, key);
        case ActivationSucceeded(active) => r := Succeed(revision.value, active);
        case ActivationFailed(problem) => r := Fail(revision.value, problem);
        case SignOut =>
          pending := None;
          r := CopyReady(snapshot, revision.value, snapshot.selected, SignedOut, None, None);
        case UpdateActiveIdentity(expected, active, update) =>
          r := ReplaceActive(revision.value, expected, active, update);
        case SetProblem(report) =>
          r := CopyReady(snapshot, revision.value, snapshot.selected, snapshot.session, snapshot.active, report);
      }
      if r.Ok? { snapshot := r.value; }
    }

    /** Booting happens once; later bootstraps answer with the snapshot as it is. */
    method BootstrapWith(revision: nat, relays: Relays, identities: Records, selected: Option<PublicKey>)
      returns (r: Result<AppSnapshot>)
      ensures r == Target(View(), BootstrapRegistry(identities, selected), revision, relays)
    {
      if !snapshot.lifecycle.Booting? { return Ok(snapshot); }
      r := ReadySnapshot(revision, relays, identities, selected, SignedOut, None, None);
    }

    method ReplaceActive(revision: nat, expected: PublicKey, active: ActiveIdentity, update: Option<Problem>)
      returns (r: Result<AppSnapshot>)
      ensures r == Target(View(), UpdateActiveIdentity(expected, active, update), revision, snapshot.relays)
    {
      hide Validates;
      if !snapshot.session.Active? { return Err(InvalidApplicationState); }
      var matches := snapshot.active.Some? && snapshot.active.value.identity.key == expected;
      if !matches || active.identity.key != expected { return Err(InvalidApplicationState); }
      r := CopyReady(snapshot, revision, snapshot.selected, Active, Some(active), update);
    }

    method Begin(revision: nat, key: PublicKey) returns (r: Result<AppSnapshot>)
      modifies this`pending
      ensures r == Target(old(View()), BeginActivation(key), revision, snapshot.relays)
      ensures pending == PendingAfter(old(View()), BeginActivation(key), r.Ok?)
    {
      if !Has(snapshot.identities, key) { return Err(IdentityNotFound); }
      if pending.Some? { return Err(InvalidApplicationState); }
      pending := Some(Pending(key, snapshot.session, snapshot.active));
      r := CopyReady(snapshot, revision, snapshot.selected, Activating(key), snapshot.active, None);
    }

    method Succeed(revision: nat, active: ActiveIdentity) returns (r: Result<AppSnapshot>)
      modifies this`pending
      ensures r == Target(old(View()), ActivationSucceeded(active), revision, snapshot.relays)
      ensures pending == PendingAfter(old(View()), ActivationSucceeded(active), r.Ok?)
    {
      hide Validates;
      if pending.None? { return Err(InvalidApplicationState); }
      var target := pending.value.target;
      if active.identity.key != target { return Err(InvalidApplicationState); }
      if !Has(snapshot.identities, target) { return Err(IdentityNotFound); }
      r := ReadySnapshot(revision, snapshot.relays, Update(snapshot.identities, active.identity), Some(target), Active,
                         Some(active), None);
      if r.Ok? { pending := None; }
    }

    method Fail(revision: nat, problem: Problem) returns (r: Result<AppSnapshot>)
      modifies this`pending
      ensures r == Target(old(View()), ActivationFailed(problem), revision, snapshot.relays)
      ensures pending == None
    {
      if pending.None? { return Err(InvalidApplicationState); }
      var previous := pending.value;
      pending := None;
      r := CopyReady(snapshot, revision, snapshot.selected, previous.session, previous.active, Some(problem));
    }
  }

  // ---- Every run ----

  function After(m: Machine, ts: seq<Transition>, relays: Relays): Machine {
    if ts == [] then m else Next(After(m, ts[..|ts| - 1], relays), ts[|ts| - 1], relays)
  }

  /** One step: validity is kept; a rejection leaves the snapshot; acceptance raises the revision by one
      or returns the identical snapshot, and the latter only for a repeated bootstrap. */
  lemma StepKeepsValid(m: Machine, t: Transition, relays: Relays)
    requires SnapshotValid(m.snapshot) && m.snapshot.revision <= MAX_U64
    ensures var next, outcome := Next(m, t, relays), Outcome(m, t, relays);
            && SnapshotValid(next.snapshot) && next.snapshot.revision <= MAX_U64
            && (outcome.Err? ==> next.snapshot == m.snapshot)
            && (outcome.Ok? ==> outcome.value == next.snapshot)
            && (next.snapshot == m.snapshot || next.snapshot.revision == m.snapshot.revision + 1)
            && (outcome.Ok? && next.snapshot == m.snapshot ==> t.Bootstrap? || t.BootstrapRegistry?)
  {
    hide Validates; hide Find; hide Update;
    var outcome := Outcome(m, t, relays);
    if outcome.Ok? && outcome.value != m.snapshot && !t.FailFatally? {
      ValidatesIsValid(outcome.value.identities, outcome.value.selected, outcome.value.session, outcome.value.active);
    }
  }

  /** What each transition asks of a valid machine below the last revision. */
  ghost predicate Admits(m: Machine, t: Transition) {
    var s, keys := m.snapshot, Keys(m.snapshot.identities);
    match t
    case Bootstrap => true
    case BootstrapRegistry(identities, selected) =>
      s.lifecycle.Booting? ==> Valid(identities, selected, SignedOut, None)
    case FailFatally(_) => true
    case ReplaceRegistry(identities, selected) => Valid(identities, selected, SignedOut, None)
    case ReplaceRegistryPreservingSession(identities, selected) => Valid(identities, selected, s.session, s.active)
    case SelectKey(key) => key in keys
    case BeginActivation(key) => key in keys && m.pending.None?
    case ActivationSucceeded(active) =>
      m.pending.Some? && active.identity.key == m.pending.value.target && active.identity.key in keys
    case ActivationFailed(_) =>
      m.pending.Some? && Valid(s.identities, s.selected, m.pending.value.session, m.pending.value.active)
    case UpdateActiveIdentity(expected, active, _) =>
      && s.session.Active? && s.active.Some? && s.active.value.identity.key == expected
      && active.identity.key == expected && active.identity in s.identities
    case SignOut => true
    case SetProblem(_) => true
  }

  /** The refusals that name the identity and not the state. */
  ghost predicate Misses(m: Machine, t: Transition) {
    var keys := Keys(m.snapshot.identities);
    match t
    case SelectKey(key) => key !in keys
    case BeginActivation(key) => key !in keys
    case ActivationSucceeded(active) =>
      m.pending.Some? && active.identity.key == m.pending.value.target && active.identity.key !in keys
    case _ => false
  }

  /** Exactly which transitions are accepted, and with which problem the others are refused. */
  lemma AcceptedIff(m: Machine, t: Transition, relays: Relays)
    requires SnapshotValid(m.snapshot) && m.snapshot.revision < MAX_U64
    ensures Outcome(m, t, relays).Ok? <==> Admits(m, t)
    ensures Outcome(m, t, relays).Err? ==>
              Outcome(m, t, relays).error == if Misses(m, t) then IdentityNotFound else InvalidApplicationState
  {
    AcceptedRegistries(m, t);
    AcceptedSessions(m, t);
    if t.SelectKey? || t.BeginActivation? { FindSound(m.snapshot.identities, t.key); }
    if t.ActivationSucceeded? {
      FindSound(m.snapshot.identities, t.active.identity.key);
      if Has(m.snapshot.identities, t.active.identity.key) { ReplacedRecordValidates(m.snapshot.identities, t.active); }
    }
    hide Validates; hide Find; hide Keys; hide Update;
  }

  lemma AcceptedRegistries(m: Machine, t: Transition)
    ensures t.BootstrapRegistry? || t.ReplaceRegistry? ==>
              (Validates(t.identities, t.selected, SignedOut, None)
               <==> Valid(t.identities, t.selected, SignedOut, None))
    ensures t.ReplaceRegistryPreservingSession? ==>
              (Validates(t.identities, t.selected, m.snapshot.session, m.snapshot.active)
               <==> Valid(t.identities, t.selected, m.snapshot.session, m.snapshot.active))
    ensures Validates([], None, SignedOut, None)
  {
    if t.BootstrapRegistry? || t.ReplaceRegistry? { ValidatesIsValid(t.identities, t.selected, SignedOut, None); }
    if t.ReplaceRegistryPreservingSession? {
      ValidatesIsValid(t.identities, t.selected, m.snapshot.session, m.snapshot.active);
    }
    ValidatesIsValid([], None, SignedOut, None);
    hide Validates;
  }

  lemma AcceptedSessions(m: Machine, t: Transition)
    requires SnapshotValid(m.snapshot)
    ensures var s := m.snapshot;
            && Validates(s.identities, s.selected, s.session, s.active)
            && Validates(s.identities, s.selected, SignedOut, None)
            && (t.SelectKey? && t.key in Keys(s.identities) ==>
                  Validates(s.identities, Some(t.key), s.session, s.active))
            && (t.BeginActivation? ==> Validates(s.identities, s.selected, Activating(t.key), s.active))
            && (t.ActivationFailed? && m.pending.Some? ==>
                  (Validates(s.identities, s.selected, m.pending.value.session, m.pending.value.active)
                   <==> Valid(s.identities, s.selected, m.pending.value.session, m.pending.value.active)))
            && (t.UpdateActiveIdentity? ==>
                  (Validates(s.identities, s.selected, Active, Some(t.active)) <==> t.active.identity in s.identities))
  {
    var s := m.snapshot;
    ValidatesIsValid(s.identities, s.selected, s.session, s.active);
    ValidatesIsValid(s.identities, s.selected, SignedOut, None);
    if t.SelectKey? { ValidatesIsValid(s.identities, Some(t.key), s.session, s.active); }
    if t.BeginActivation? { ValidatesIsValid(s.identities, s.selected, Activating(t.key), s.active); }
    if t.ActivationFailed? && m.pending.Some? {
      ValidatesIsValid(s.identities, s.selected, m.pending.value.session, m.pending.value.active);
    }
    if t.UpdateActiveIdentity? { ValidatesIsValid(s.identities, s.selected, Active, Some(t.active)); }
    hide Validates;
  }

  /** The snapshot that an accepted transition leads to, part by part. */
  ghost predicate Yields(m: Machine, t: Transition, relays: Relays, n: AppSnapshot) {
    var s := m.snapshot;
    var revision := s.revision + 1;
    match t
    case Bootstrap =>
      if s.lifecycle.Booting? then n == AppSnapshot(revision, None, Ready, relays, [], None, SignedOut, None, None)
      else n == s
    case BootstrapRegistry(identities, selected) =>
      if s.lifecycle.Booting? then
        n == AppSnapshot(revision, None, Ready, relays, identities, selected, SignedOut, None, None)
      else n == s
    case FailFatally(problem) =>
      n == AppSnapshot(revision, None, Fatal(problem), relays, [], None, SignedOut, None, None)
    case ReplaceRegistry(identities, selected) =>
      n == AppSnapshot(revision, None, Ready, s.relays, identities, selected, SignedOut, None, None)
    case ReplaceRegistryPreservingSession(identities, selected) =>
      n == AppSnapshot(revision, None, Ready, s.relays, identities, selected, s.session, s.active, None)
    case SelectKey(key) =>
      n == AppSnapshot(revision, None, Ready, s.relays, s.identities, Some(key), s.session, s.active, None)
    case BeginActivation(key) =>
      n == AppSnapshot(revision, None, Ready, s.relays, s.identities, s.selected, Activating(key), s.active, None)
    case ActivationSucceeded(active) =>
      && n.revision == revision && n.runtimeSession.None? && n.lifecycle.Ready? && n.relays == s.relays
      && n.problem.None?
      && n.selected == Some(active.identity.key) && n.session.Active? && n.active == Some(active)
      && |n.identities| == |s.identities|
      && forall i :: 0 <= i < |s.identities| ==>
           n.identities[i] == if s.identities[i].key == active.identity.key then active.identity else s.identities[i]
    case ActivationFailed(problem) =>
      && m.pending.Some?
      && n == AppSnapshot(revision, None, Ready, s.relays, s.identities, s.selected, m.pending.value.session,
                          m.pending.value.active, Some(problem))
    case UpdateActiveIdentity(_, active, update) =>
      n == AppSnapshot(revision, None, Ready, s.relays, s.identities, s.selected, Active, Some(active), update)
    case SignOut => n == AppSnapshot(revision, None, Ready, s.relays, s.identities, s.selected, SignedOut, None, None)
    case SetProblem(report) =>
      n == AppSnapshot(revision, None, Ready, s.relays, s.identities, s.selected, s.session, s.active, report)
  }

  lemma AcceptedYields(m: Machine, t: Transition, relays: Relays)
    requires SnapshotValid(m.snapshot) && Outcome(m, t, relays).Ok?
    ensures Yields(m, t, relays, Outcome(m, t, relays).value)
  {
    if t.ActivationSucceeded? {
      FindSound(m.snapshot.identities, t.active.identity.key);
      UpdateSound(m.snapshot.identities, t.active.identity);
    }
    hide Validates; hide Find; hide Update; hide Keys;
  }

  /** Bootstraps and fatal reports show the configured relays, and from then on every step does. */
  lemma RelaysAreConfigured(m: Machine, t: Transition, relays: Relays)
    requires SnapshotValid(m.snapshot)
    ensures var next := Next(m, t, relays).snapshot;
            && (m.snapshot.relays == relays ==> next.relays == relays)
            && (m.snapshot.lifecycle.Booting? && Outcome(m, t, relays).Ok? && (t.Bootstrap? || t.BootstrapRegistry?) ==>
                  next.relays == relays)
            && (t.FailFatally? && Outcome(m, t, relays).Ok? ==> next.relays == relays)
  {
    hide Validates; hide Find; hide Update;
  }

  /** Which transitions may touch what: each part of the snapshot changes only by the transitions that
      are meant to change it. */
  lemma Footprint(m: Machine, t: Transition, relays: Relays)
    requires SnapshotValid(m.snapshot)
    ensures var s, n, swaps := m.snapshot, Next(m, t, relays).snapshot,
                               t.BootstrapRegistry? || t.FailFatally? || t.ReplaceRegistry?
                               || t.ReplaceRegistryPreservingSession?;
            && (n.identities != s.identities ==> swaps || t.ActivationSucceeded?)
            && (n.selected != s.selected ==> swaps || t.ActivationSucceeded? || t.SelectKey?)
            && (n.active != s.active ==>
                  || t.FailFatally? || t.ReplaceRegistry? || t.SignOut? || t.UpdateActiveIdentity?
                  || t.ActivationSucceeded? || t.ActivationFailed?)
            && (n.session != s.session ==>
                  || t.FailFatally? || t.ReplaceRegistry? || t.SignOut?
                  || t.BeginActivation? || t.ActivationSucceeded? || t.ActivationFailed?)
            && (n.relays != s.relays ==> t.Bootstrap? || t.BootstrapRegistry? || t.FailFatally?)
            && (n.lifecycle.Booting? <==> s.lifecycle.Booting? && Outcome(m, t, relays).Err?)
            && (n.lifecycle.Fatal? ==> t.FailFatally? || n == s)
            && (t.SignOut? && Outcome(m, t, relays).Ok? ==> n.session.SignedOut? && n.active.None?)
            && (t.SetProblem? && Outcome(m, t, relays).Ok? ==> n.problem == t.report)
  {
    hide Validates; hide Find; hide Update;
  }

  lemma {:induction false} RunIsValid(m: Machine, ts: seq<Transition>, relays: Relays)
    requires SnapshotValid(m.snapshot) && m.snapshot.revision <= MAX_U64
    ensures SnapshotValid(After(m, ts, relays).snapshot) && After(m, ts, relays).snapshot.revision <= MAX_U64
    ensures m.snapshot == After(m, ts, relays).snapshot || m.snapshot.revision < After(m, ts, relays).snapshot.revision
  {
    if ts != [] {
      var front := ts[..|ts| - 1];
      RunIsValid(m, front, relays);
      StepKeepsValid(After(m, front, relays), ts[|ts| - 1], relays);
    }
  }

  lemma {:induction false} RunSplits(m: Machine, first: seq<Transition>, second: seq<Transition>, relays: Relays)
    ensures After(m, first + second, relays) == After(After(m, first, relays), second, relays)
  {
    hide Next;
    if second == [] {
      assert first + second == first;
    } else {
      var front := second[..|second| - 1];
      RunSplits(m, first, front, relays);
      assert (first + second)[..|first + second| - 1] == first + front;
    }
  }

  /** Over every run from boot, every snapshot is valid, and one revision names one snapshot. */
  lemma RevisionNamesSnapshot(ts: seq<Transition>, i: nat, j: nat, relays: Relays)
    requires i <= j <= |ts|
    ensures var earlier, later := After(BOOT, ts[..i], relays).snapshot, After(BOOT, ts[..j], relays).snapshot;
            && SnapshotValid(earlier) && SnapshotValid(later)
            && earlier.revision <= later.revision
            && (earlier.revision == later.revision ==> earlier == later)
  {
    hide Next; hide After;
    assert ts[..i] + ts[i..j] == ts[..j];
    RunIsValid(BOOT, ts[..i], relays);
    RunIsValid(After(BOOT, ts[..i], relays), ts[i..j], relays);
    RunSplits(BOOT, ts[..i], ts[i..j], relays);
  }

  // ---- Activation ----

  /** Steps that may fall between the begin of an activation of `target` and its end. */
  predicate Between(target: PublicKey, t: Transition) {
    match t
    case Bootstrap => true
    case BootstrapRegistry(_, _) => true
    case SelectKey(_) => true
    case SetProblem(_) => true
    case BeginActivation(_) => true
    case UpdateActiveIdentity(_, _, _) => true
    case ActivationSucceeded(active) => active.identity.key != target
    case _ => false
  }

  /** The machine is activating `target`, having left `s`. */
  ghost predicate InActivation(s: AppSnapshot, target: PublicKey, m: Machine) {
    && m.pending == Some(Pending(target, s.session, s.active))
    && m.snapshot.lifecycle.Ready?
    && m.snapshot.session == Activating(target)
    && m.snapshot.active == s.active
    && m.snapshot.identities == s.identities
    && Has(s.identities, target)
    && SnapshotValid(m.snapshot) && m.snapshot.revision <= MAX_U64
  }

  lemma BetweenStays(s: AppSnapshot, target: PublicKey, m: Machine, t: Transition, relays: Relays)
    requires InActivation(s, target, m) && Between(target, t)
    ensures InActivation(s, target, Next(m, t, relays))
    ensures t.BeginActivation? || t.UpdateActiveIdentity? || t.ActivationSucceeded? ==> Outcome(m, t, relays).Err?
  {
    StepKeepsValid(m, t, relays);
    hide Validates; hide Update; hide Find;
  }

  lemma {:induction false} BetweenRun(s: AppSnapshot, target: PublicKey, m: Machine, ts: seq<Transition>,
                                      relays: Relays)
    requires InActivation(s, target, m) && forall i :: 0 <= i < |ts| ==> Between(target, ts[i])
    ensures InActivation(s, target, After(m, ts, relays))
  {
    if ts != [] {
      BetweenRun(s, target, m, ts[..|ts| - 1], relays);
      BetweenStays(s, target, After(m, ts[..|ts| - 1], relays), ts[|ts| - 1], relays);
    }
  }

  lemma BeginEnters(m: Machine, target: PublicKey, relays: Relays)
    requires SnapshotValid(m.snapshot) && m.snapshot.revision <= MAX_U64
    requires Outcome(m, BeginActivation(target), relays).Ok?
    ensures InActivation(m.snapshot, target, Next(m, BeginActivation(target), relays))
  {
    StepKeepsValid(m, BeginActivation(target), relays);
    hide Validates; hide Find;
  }

  /** Activation is transactional. After an accepted begin and any steps in between, failure restores
      exactly the earlier session, active identity and registry. */
  lemma FailureRestores(m: Machine, target: PublicKey, ts: seq<Transition>, problem: Problem, relays: Relays)
    requires SnapshotValid(m.snapshot) && m.snapshot.revision <= MAX_U64
    requires Outcome(m, BeginActivation(target), relays).Ok?
    requires forall i :: 0 <= i < |ts| ==> Between(target, ts[i])
    ensures var before := After(Next(m, BeginActivation(target), relays), ts, relays);
            before.snapshot.revision < MAX_U64 ==>
              var restored := Next(before, ActivationFailed(problem), relays);
              && Outcome(before, ActivationFailed(problem), relays) == Ok(restored.snapshot)
              && Restored(m.snapshot, before.snapshot, problem, restored)
  {
    hide Next; hide Outcome;
    BeginEnters(m, target, relays);
    BetweenRun(m.snapshot, target, Next(m, BeginActivation(target), relays), ts, relays);
    var before := After(Next(m, BeginActivation(target), relays), ts, relays);
    if before.snapshot.revision < MAX_U64 { FailureFrom(m.snapshot, target, before, problem, relays); }
  }

  lemma FailureFrom(s: AppSnapshot, target: PublicKey, m: Machine, problem: Problem, relays: Relays)
    requires SnapshotValid(s) && InActivation(s, target, m) && m.snapshot.revision < MAX_U64
    ensures var restored := Next(m, ActivationFailed(problem), relays);
            && Outcome(m, ActivationFailed(problem), relays) == Ok(restored.snapshot)
            && Restored(s, m.snapshot, problem, restored)
  {
    ValidatesIsValid(m.snapshot.identities, m.snapshot.selected, s.session, s.active);
    hide Validates; hide Find;
  }

  /** Session, active identity and registry are as in `s`; the selection is the one before the failure. */
  ghost predicate Restored(s: AppSnapshot, before: AppSnapshot, problem: Problem, restored: Machine) {
    && restored.pending.None?
    && restored.snapshot.session == s.session
    && restored.snapshot.active == s.active
    && restored.snapshot.identities == s.identities
    && restored.snapshot.selected == before.selected
    && restored.snapshot.problem == Some(problem)
  }

  /** The active identity swaps its record, is selected and nothing else changes. */
  ghost predicate Activated(s: AppSnapshot, active: ActiveIdentity, activated: AppSnapshot) {
    && activated.session == Active && activated.active == Some(active)
    && activated.selected == Some(active.identity.key)
    && activated.identities == Update(s.identities, active.identity)
    && Find(activated.identities, active.identity.key) == Some(active.identity)
    && (forall k :: k != active.identity.key ==> Find(activated.identities, k) == Find(s.identities, k))
  }

  lemma SuccessFrom(s: AppSnapshot, m: Machine, active: ActiveIdentity, relays: Relays)
    requires InActivation(s, active.identity.key, m) && m.snapshot.revision < MAX_U64
    ensures var activated := Next(m, ActivationSucceeded(active), relays);
            && Outcome(m, ActivationSucceeded(active), relays) == Ok(activated.snapshot)
            && activated.pending.None? && Activated(s, active, activated.snapshot)
  {
    hide Validates; hide Find; hide Update;
    ReplacedRecordValidates(s.identities, active);
  }

  lemma ReplacedRecordValidates(identities: Records, active: ActiveIdentity)
    requires Unique(identities) && Has(identities, active.identity.key)
    ensures var key, updated := active.identity.key, Update(identities, active.identity);
            && Validates(updated, Some(key), Active, Some(active))
            && Find(updated, key) == Some(active.identity)
            && (forall k :: k != key ==> Find(updated, k) == Find(identities, k))
  {
    var updated := Update(identities, active.identity);
    FindSound(identities, active.identity.key);
    UpdateSound(identities, active.identity);
    UpdateLookup(identities, active.identity);
    FindSound(updated, active.identity.key);
    hide Find; hide Update;
    ValidatesIsValid(updated, Some(active.identity.key), Active, Some(active));
  }

  /** Success with the target's key is never rejected instead. */
  lemma SuccessIsAccepted(m: Machine, ts: seq<Transition>, active: ActiveIdentity, relays: Relays)
    requires SnapshotValid(m.snapshot) && m.snapshot.revision <= MAX_U64
    requires Outcome(m, BeginActivation(active.identity.key), relays).Ok?
    requires forall i :: 0 <= i < |ts| ==> Between(active.identity.key, ts[i])
    ensures var before := After(Next(m, BeginActivation(active.identity.key), relays), ts, relays);
            before.snapshot.revision < MAX_U64 ==>
              var activated := Next(before, ActivationSucceeded(active), relays);
              && Outcome(before, ActivationSucceeded(active), relays) == Ok(activated.snapshot)
              && activated.pending.None? && Activated(m.snapshot, active, activated.snapshot)
  {
    var target := active.identity.key;
    BeginEnters(m, target, relays);
    BetweenRun(m.snapshot, target, Next(m, BeginActivation(target), relays), ts, relays);
    var before := After(Next(m, BeginActivation(target), relays), ts, relays);
    if before.snapshot.revision < MAX_U64 { SuccessFrom(m.snapshot, before, active, relays); }
  }

  /** `Between` is exact: these are all the steps that stay within an activation. */
  lemma BetweenIff(s: AppSnapshot, target: PublicKey, m: Machine, t: Transition, relays: Relays)
    requires InActivation(s, target, m) && m.snapshot.revision < MAX_U64
    ensures Between(target, t) <==> InActivation(s, target, Next(m, t, relays))
  {
    if Between(target, t) {
      BetweenStays(s, target, m, t, relays);
    } else if t.ActivationSucceeded? {
      SuccessFrom(s, m, t.active, relays);
    }
    hide Validates; hide Update; hide Find; hide SnapshotValid;
  }

  /** A session that is activating with no activation pending: neither success nor failure can end it. */
  ghost predicate Stuck(target: PublicKey, m: Machine) {
    && m.pending.None? && m.snapshot.lifecycle.Ready? && m.snapshot.session == Activating(target)
    && SnapshotValid(m.snapshot)
  }

  /** A registry replacement ends a pending activation whether it is accepted or not. If it keeps the
      session, or is rejected, the session is stuck; if it is accepted and does not, the session is over. */
  lemma ReplacementDropsActivation(s: AppSnapshot, target: PublicKey, m: Machine, t: Transition, relays: Relays)
    requires InActivation(s, target, m) && m.snapshot.revision < MAX_U64
    requires t.ReplaceRegistry? || t.ReplaceRegistryPreservingSession?
    ensures var next := Next(m, t, relays);
            if t.ReplaceRegistry? && Outcome(m, t, relays).Ok? then next.snapshot.session.SignedOut?
                                                                    && next.pending.None?
            else Stuck(target, next)
  {
    StepKeepsValid(m, t, relays);
    hide Validates; hide Update; hide Find; hide SnapshotValid;
  }

  /** The steps that leave the stuck session: a fatal report, signing out, a registry replacement that
      does not keep the session and is valid, and the begin of another activation. */
  ghost predicate Frees(s: AppSnapshot, t: Transition) {
    match t
    case FailFatally(_) => true
    case SignOut => true
    case ReplaceRegistry(identities, selected) => Valid(identities, selected, SignedOut, None)
    case BeginActivation(key) => Has(s.identities, key)
    case _ => false
  }

  /** Exactly these steps leave it; success and failure are refused. */
  lemma StuckUntilFreed(target: PublicKey, m: Machine, t: Transition, relays: Relays)
    requires Stuck(target, m) && m.snapshot.revision < MAX_U64
    ensures Stuck(target, Next(m, t, relays)) <==> !Frees(m.snapshot, t)
    ensures t.ActivationSucceeded? || t.ActivationFailed? ==> Outcome(m, t, relays).Err?
  {
    var s := m.snapshot;
    StepKeepsValid(m, t, relays);
    if t.ReplaceRegistry? { ValidatesIsValid(t.identities, t.selected, SignedOut, None); }
    ValidatesIsValid(s.identities, s.selected, SignedOut, None);
    if t.BeginActivation? { ValidatesIsValid(s.identities, s.selected, Activating(t.key), s.active); }
    hide Validates; hide Update; hide Find; hide Valid;
  }

  /** Beginning another activation is accepted, but if that one fails the session is stuck as before. */
  lemma FailureRestoresStuck(target: PublicKey, m: Machine, key: PublicKey, ts: seq<Transition>, problem: Problem,
                             relays: Relays)
    requires Stuck(target, m) && m.snapshot.revision < MAX_U64 && Has(m.snapshot.identities, key)
    requires forall i :: 0 <= i < |ts| ==> Between(key, ts[i])
    ensures Outcome(m, BeginActivation(key), relays).Ok?
    ensures var before := After(Next(m, BeginActivation(key), relays), ts, relays);
            before.snapshot.revision < MAX_U64 ==> Stuck(target, Next(before, ActivationFailed(problem), relays))
  {
    var s := m.snapshot;
    ValidatesIsValid(s.identities, s.selected, Activating(key), s.active);
    BeginEnters(m, key, relays);
    var begun := Next(m, BeginActivation(key), relays);
    BetweenRun(s, key, begun, ts, relays);
    var before := After(begun, ts, relays);
    if before.snapshot.revision < MAX_U64 {
      FailureFrom(s, key, before, problem, relays);
      StepKeepsValid(before, ActivationFailed(problem), relays);
    }
    hide Validates; hide Find; hide Update; hide Valid;
  }

  // ---- The fatal state ----

  /** The steps that leave a fatal state: a valid registry, signing out, any problem report, and the
      failure of an activation that was pending with no identity active before. */
  ghost predicate LeavesFatal(pending: Option<Pending>, t: Transition) {
    match t
    case ReplaceRegistry(identities, selected) => Valid(identities, selected, SignedOut, None)
    case ReplaceRegistryPreservingSession(identities, selected) => Valid(identities, selected, SignedOut, None)
    case SignOut => true
    case SetProblem(_) => true
    case ActivationFailed(_) => pending.Some? && pending.value.active.None? && !pending.value.session.Active?
    case _ => false
  }

  /** Fatal is not absorbing: exactly these steps leave it, each for the ready state. */
  lemma FatalIsLeftIff(m: Machine, t: Transition, relays: Relays)
    requires SnapshotValid(m.snapshot) && m.snapshot.lifecycle.Fatal? && m.snapshot.revision < MAX_U64
    ensures var next := Next(m, t, relays).snapshot;
            && (!next.lifecycle.Fatal? <==> LeavesFatal(m.pending, t))
            && (!next.lifecycle.Fatal? ==> next.lifecycle.Ready?)
  {
    if t.ReplaceRegistry? || t.ReplaceRegistryPreservingSession? {
      ValidatesIsValid(t.identities, t.selected, SignedOut, None);
    }
    if m.pending.Some? { ValidatesIsValid([], None, m.pending.value.session, m.pending.value.active); }
    ValidatesIsValid([], None, SignedOut, None);
    hide Validates; hide Update;
  }

  /** A fatal report in the middle of an activation keeps it pending; its failure is then accepted,
      leaving the fatal state, if and only if no identity was active before. */
  lemma FatalKeepsActivation(s: AppSnapshot, target: PublicKey, m: Machine, fatal: Problem, problem: Problem,
                             relays: Relays)
    requires SnapshotValid(s) && InActivation(s, target, m) && m.snapshot.revision + 1 < MAX_U64
    ensures var failed := Next(m, FailFatally(fatal), relays);
            && failed.snapshot.lifecycle == Fatal(fatal) && failed.pending == m.pending
            && (!Next(failed, ActivationFailed(problem), relays).snapshot.lifecycle.Fatal? <==> s.active.None?)
  {
    var failed := Next(m, FailFatally(fatal), relays);
    StepKeepsValid(m, FailFatally(fatal), relays);
    FatalIsLeftIff(failed, ActivationFailed(problem), relays);
    hide Validates; hide Find; hide Target;
  }
}
