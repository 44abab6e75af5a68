/** Where durable storage meets the in-memory session: start-up, closing transitions, selection and
    activation. */
module Session {
  import opened Domain
  import opened Registry
  import opened Durable
  import opened IdentityPlans
  import opened Snapshot
  import SM = StateMachine
  import AppCore
  import Additions
  import Removals
  import IdentityHistory
  import opened IdentityService

  /** No activation is in progress. */
  ghost predicate Settled(m: SM.Machine) {
    && SnapshotValid(m.snapshot) && m.pending.None?
    && (m.snapshot.session.SignedOut? || m.snapshot.session.Active?)
  }

  /** The snapshot shows the stored registry and selection, and no activation is in progress. */
  ghost predicate Agrees(m: SM.Machine, w: World) {
    && Settled(m) && m.snapshot.lifecycle.Ready?
    && m.snapshot.identities == w.registry && m.snapshot.selected == w.selected
  }

  /** Two records that differ at most in the time of last use. */
  predicate Alike(a: Identity, b: Identity) {
    a.(lastUsedAt := None) == b.(lastUsedAt := None)
  }

  ghost predicate SameRecords(a: Records, b: Records) {
    |a| == |b| && forall i :: 0 <= i < |a| ==> Alike(a[i], b[i])
  }

  /** The snapshot shows the stored registry up to times of last use, and the stored selection. */
  ghost predicate Matches(s: AppSnapshot, w: World) {
    SameRecords(s.identities, w.registry) && s.selected == w.selected
  }

  lemma {:induction false} SameRecordsFind(a: Records, b: Records, key: PublicKey)
    requires SameRecords(a, b)
    ensures Has(a, key) <==> Has(b, key)
    ensures Has(a, key) ==> Alike(Find(a, key).value, Find(b, key).value)
  {
    if a != [] {
      assert Alike(a[0], b[0]);
      SameRecordsFind(a[1..], b[1..], key);
    }
  }

  lemma {:induction false} SameRecordsUpdate(a: Records, b: Records, record: Identity)
    requires SameRecords(a, b)
    ensures SameRecords(Update(a, record), Update(b, record))
  {
    if a != [] {
      assert Alike(a[0], b[0]);
      SameRecordsUpdate(a[1..], b[1..], record);
    }
  }

  /** Storing a new time of last use changes nothing else. */
  lemma {:induction false} TouchIsAlike(records: Records, key: PublicKey, now: nat)
    requires Has(records, key) && Find(records, key).value.key == key
    ensures SameRecords(records, Update(records, Find(records, key).value.(lastUsedAt := Some(now))))
  {
    if records[0].key != key { TouchIsAlike(records[1..], key, now); }
  }

  // ---- Start-up ----

  /** Booting accepts exactly the registries with distinct keys and a sound selection. */
  lemma BootIsAcceptedIff(w: World, relays: Relays)
    ensures var t := SM.BootstrapRegistry(w.registry, w.selected);
            && (SM.Outcome(SM.BOOT, t, relays).Ok? <==> Unique(w.registry) && SelectionSound(w))
            && (SM.Outcome(SM.BOOT, t, relays).Ok? ==> Agrees(SM.Next(SM.BOOT, t, relays), w))
  {
    hide Validates;
    ValidatesIsValid(w.registry, w.selected, SignedOut, None);
    if w.selected.Some? { FindSound(w.registry, w.selected.value); }
  }

  /** After every permitted history of commands, crashes and interrupted recoveries, a recovery that is
      not cut leaves stores that the next start accepts. */
  lemma RestartBoots(w: World, events: seq<IdentityHistory.Event>, enough: nat, relays: Relays)
    requires WellFormed(w) && Quiet(w) && IdentityHistory.PermittedHistory(w, events) && enough >= 7
    ensures var recovered := Recover(IdentityHistory.After(w, events), enough);
            var t := SM.BootstrapRegistry(recovered.world.registry, recovered.world.selected);
            && recovered.ok && WellFormed(recovered.world) && Quiet(recovered.world)
            && SM.Outcome(SM.BOOT, t, relays).Ok? && Agrees(SM.Next(SM.BOOT, t, relays), recovered.world)
  {
    IdentityHistory.RecoveryRestoresWellFormedness(w, events, enough);
    BootIsAcceptedIff(Recover(IdentityHistory.After(w, events), enough).world, relays);
  }

  /** Loads registry and selection into a signed-out snapshot. A failed read is reported as fatal; stored
      state that violates the invariants is rejected and leaves the core booting. */
  method BootstrapFrom(s: Stores, core: AppCore.ApplicationCore) returns (r: Result<AppSnapshot>)
    requires core.Consistent()
    modifies s`budget, core, core.machine
    ensures core.Consistent()
    ensures old(core.View()).machine == SM.BOOT ==>
              match r
              case Ok(_) =>
                && Agrees(core.machine.View(), s.View())
                && core.machine.View() == SM.Next(SM.BOOT, SM.BootstrapRegistry(s.registry, s.selected), core.relays)
              case Err(problem) =>
                if problem == Unavailable then
                  && s.budget == 0 && core.machine.snapshot.lifecycle == Fatal(Unavailable)
                  && core.machine.View() == SM.Next(SM.BOOT, SM.FailFatally(Unavailable), core.relays)
                else core.machine.View() == SM.BOOT && !(Unique(s.registry) && SelectionSound(s.View()))
    ensures old(core.View()).machine == SM.BOOT && (r.Ok? || core.machine.snapshot.lifecycle.Fatal?) ==>
              core.machine.snapshot.relays == core.relays
    ensures old(core.View()).machine == SM.BOOT && r.Ok? ==>
              r.value == core.machine.snapshot && r.value.session.SignedOut?
    ensures core.View() == old(core.View()).(machine := core.machine.View())
  {
    hide Validates;
    BootIsAcceptedIff(s.View(), core.relays);
    var listed := s.ListIdentities();
    if listed.Err? {
      var failed := core.ApplyTransition(SM.FailFatally(listed.error));
      return Err(if failed.Err? then failed.error else listed.error);
    }
    var selected := s.LoadSelected();
    if selected.Err? {
      var failed := core.ApplyTransition(SM.FailFatally(selected.error));
      return Err(if failed.Err? then failed.error else selected.error);
    }
    r := core.ApplyTransition(SM.BootstrapRegistry(listed.value, selected.value));
  }

  /** What a command leaves, however far it got, is a step of the history: the commands as the code
      runs them are covered by everything proved of histories. */
  lemma CommandIsEvent(w: World, c: Command, cut: nat, after: World)
    requires Reached(w, CommandPlan(w, c), cut, after)
    ensures IdentityHistory.Step(w, IdentityHistory.Do(c, cut)) == after
  {}

  // ---- Closing transitions ----

  /** The registry replacement at the end of an addition is always accepted, and the snapshot then
      shows the committed stores. */
  lemma AdditionClosingIsAccepted(base: World, a: Addition, c: AppCore.Core, relays: Relays)
    requires Additions.Admissible(base, a) && c.machine.snapshot.revision < MAX_U64
    ensures var t := Replacement(Exec(base, AdditionPlan(a), 7).world, a.record.key);
            Accepts(c, t, relays)
            && Agrees(AppCore.Step(c, AppCore.Transit(t), relays).machine, Exec(base, AdditionPlan(a), 8).world)
  {
    hide Find; hide Insert; hide Update; hide Exec; hide WellFormed; hide Additions.FullyCommitted;
    hide Additions.Admissible;
    hide AppCore.Step; hide SM.Outcome; hide Quiet; hide Additions.AsBefore; hide Agrees;
    Additions.ForwardCutPoint(base, a, 7);
    Additions.ForwardCutPoint(base, a, 8);
    Additions.CommittedIsWellFormed(base, a, Additions.Committed(Some(a.resulting)));
    ReplacementFrom(Exec(base, AdditionPlan(a), 8).world, a.record.key, c, relays);
  }

  lemma ReplacementFrom(w: World, key: PublicKey, c: AppCore.Core, relays: Relays)
    requires WellFormed(w) && w.selected == Some(key) && c.machine.snapshot.revision < MAX_U64
    ensures Accepts(c, Replacement(w, key), relays)
    ensures Agrees(AppCore.Step(c, AppCore.Transit(Replacement(w, key)), relays).machine, w)
  {
    FindSound(w.registry, key);
    ValidatesIsValid(w.registry, w.selected, SignedOut, None);
    hide Find; hide Validates; hide Keys;
  }

  /** The active identity, unless it is the target, is stored exactly as the snapshot has it. */
  predicate ActiveIsStored(s: AppSnapshot, w: World, key: PublicKey) {
    s.active.Some? && s.active.value.identity.key != key ==> s.active.value.identity in w.registry
  }

  /** Exactly when the closing transition of a removal is accepted: signing the target out first never
      fails, and what remains is accepted if and only if an active identity other than the target is
      stored as the snapshot has it. The snapshot then shows the stores without the target. */
  lemma RemovalClosesIff(w: World, key: PublicKey, c: AppCore.Core, relays: Relays)
    requires WellFormed(w) && Has(w.registry, key) && c.machine.snapshot.revision + 1 < MAX_U64
    requires SnapshotValid(c.machine.snapshot) && c.machine.snapshot.lifecycle.Ready?
    requires c.machine.snapshot.selected == w.selected
    ensures var fallback := Fallback(w.registry, w.selected, key);
            var rest := w.(registry := Remove(w.registry, key), selected := fallback);
            var ready := SignedOutOf(c, key, relays);
            var closed := AppCore.Step(ready, AppCore.Transit(Closing(rest, fallback)), relays);
            && (ready == c || Accepts(c, SM.SignOut, relays))
            && ready.machine.snapshot.identities == c.machine.snapshot.identities
            && (Accepts(ready, Closing(rest, fallback), relays) <==> ActiveIsStored(c.machine.snapshot, w, key))
            && (Accepts(ready, Closing(rest, fallback), relays) ==>
                  && closed.machine.snapshot.lifecycle.Ready? && SnapshotValid(closed.machine.snapshot)
                  && closed.machine.pending.None?
                  && closed.machine.snapshot.identities == rest.registry && closed.machine.snapshot.selected == fallback
                  && closed.machine.snapshot.session == ready.machine.snapshot.session
                  && closed.machine.snapshot.active == ready.machine.snapshot.active)
  {
    var fallback := Fallback(w.registry, w.selected, key);
    var rest := w.(registry := Remove(w.registry, key), selected := fallback);
    SignOutFirst(key, c, relays);
    RestIsBootable(w, key);
    RemoveMembers(w.registry, key);
    hide Remove; hide Find; hide Fallback; hide AppCore.Step; hide SM.Outcome; hide SignedOutOf;
    ClosingFrom(rest, SignedOutOf(c, key, relays), relays);
  }

  /** A removal whose store calls succeed publishes if and only if that holds, and the snapshot then
      agrees with the stores. */
  lemma RemovalPublishesIff(w: World, r: Removal, c: AppCore.Core, relays: Relays)
    requires Removals.Admissible(w, r) && r.fallback == Fallback(w.registry, w.selected, r.key)
    requires Exec(w, RemovalPlan(r), 8).ok && c.machine.snapshot.revision + 1 < MAX_U64
    requires Settled(c.machine) && c.machine.snapshot.lifecycle.Ready? && c.machine.snapshot.selected == w.selected
    ensures var ready, t := SignedOutOf(c, r.key, relays), Closing(Exec(w, RemovalPlan(r), 7).world, r.fallback);
            && (ready == c || Accepts(c, SM.SignOut, relays))
            && (Accepts(ready, t, relays) <==> ActiveIsStored(c.machine.snapshot, w, r.key))
            && (Accepts(ready, t, relays) ==>
                  Agrees(AppCore.Step(ready, AppCore.Transit(t), relays).machine, Exec(w, RemovalPlan(r), 8).world))
  {
    SignOutFirst(r.key, c, relays);
    hide Exec; hide WellFormed; hide Fallback; hide Find; hide Remove; hide AppCore.Step; hide SM.Outcome; hide Quiet;
    hide SignedOutOf;
    Removals.ForwardCut(w, r, 7);
    Removals.ForwardCut(w, r, 8);
    RemovalClosesIff(w, r.key, c, relays);
  }

  /** In particular it always publishes when the snapshot agrees with the stores. */
  lemma AgreeingRemovalPublishes(w: World, r: Removal, c: AppCore.Core, relays: Relays)
    requires Removals.Admissible(w, r) && r.fallback == Fallback(w.registry, w.selected, r.key)
    requires Exec(w, RemovalPlan(r), 8).ok && Agrees(c.machine, w) && c.machine.snapshot.revision + 1 < MAX_U64
    ensures Accepts(SignedOutOf(c, r.key, relays), Closing(Exec(w, RemovalPlan(r), 7).world, r.fallback), relays)
  {
    hide Exec; hide SM.Outcome; hide SignedOutOf; hide Find; hide Fallback; hide Remove;
    RemovalPublishesIff(w, r, c, relays);
  }

  /** What a removal leaves that could not publish: everything is done but the receipt, which the next
      start writes. Until then the snapshot still lists the target if it did. */
  lemma UnpublishedRemovalIsFinished(w: World, r: Removal, enough: nat)
    requires Removals.Admissible(w, r) && Exec(w, RemovalPlan(r), 7).ok && enough >= 7
    ensures var left := Exec(w, RemovalPlan(r), 7).world;
            && InPhase(left, r.request, SelectionCommitted)
            && left.registry == Remove(w.registry, r.key) && left.selected == r.fallback && r.key !in left.keyring
            && Recover(left, enough).ok && Quiet(Recover(left, enough).world)
            && Removals.FullyRemoved(w, r, Recover(left, enough).world, None)
  {
    Removals.ForwardCut(w, r, 7);
    Removals.RecoverFrom(w, r, Removals.SelectionLogged, enough);
    Removals.RecoveryEnds(w, r, Removals.SelectionLogged, enough);
    hide Find; hide Remove; hide Exec; hide Recover;
  }

  lemma SignOutFirst(key: PublicKey, c: AppCore.Core, relays: Relays)
    requires SnapshotValid(c.machine.snapshot) && c.machine.snapshot.lifecycle.Ready?
    requires c.machine.snapshot.revision + 1 < MAX_U64
    ensures var s, ready := c.machine.snapshot, SignedOutOf(c, key, relays);
            && (ready == c || Accepts(c, SM.SignOut, relays))
            && ready.machine.snapshot.lifecycle.Ready? && SnapshotValid(ready.machine.snapshot)
            && ready.machine.snapshot.revision < MAX_U64 && ready.machine.snapshot.identities == s.identities
            && ready.machine.snapshot.selected == s.selected
            && (if s.active.Some? && s.active.value.identity.key == key then
                  ready.machine.snapshot.active.None? && ready.machine.snapshot.session.SignedOut?
                else ready == c)
  {
    hide Find; hide Validates; hide Keys; hide Update;
    ValidatesIsValid(c.machine.snapshot.identities, c.machine.snapshot.selected, SignedOut, None);
  }

  lemma RestIsBootable(w: World, key: PublicKey)
    requires WellFormed(w) && Has(w.registry, key)
    ensures var rest, fallback := Remove(w.registry, key), Fallback(w.registry, w.selected, key);
            Valid(rest, fallback, SignedOut, None)
  {
    var rest, fallback := Remove(w.registry, key), Fallback(w.registry, w.selected, key);
    Removals.FallbackIsSound(w, key);
    RemoveSound(w.registry, key);
    if fallback.Some? { FindSound(rest, fallback.value); }
  }

  lemma ClosingFrom(rest: World, ready: AppCore.Core, relays: Relays)
    requires ready.machine.snapshot.revision < MAX_U64 && SnapshotValid(ready.machine.snapshot)
    requires Valid(rest.registry, rest.selected, SignedOut, None)
    ensures var s, t := ready.machine.snapshot, Closing(rest, rest.selected);
            var closed := AppCore.Step(ready, AppCore.Transit(t), relays).machine;
            && (Accepts(ready, t, relays) <==> (s.active.Some? ==> s.active.value.identity in rest.registry))
            && (Accepts(ready, t, relays) ==>
                  && closed.snapshot.lifecycle.Ready? && SnapshotValid(closed.snapshot) && closed.pending.None?
                  && closed.snapshot.identities == rest.registry && closed.snapshot.selected == rest.selected
                  && closed.snapshot.session == s.session && closed.snapshot.active == s.active)
  {
    var s := ready.machine.snapshot;
    ValidatesIsValid(rest.registry, rest.selected, s.session, s.active);
    hide Validates; hide Keys;
  }

  // ---- A removal that cannot publish ----

  /** The core after an activation of `key` that failed. */
  ghost function FailedActivation(c: AppCore.Core, key: PublicKey, problem: Problem, relays: Relays): AppCore.Core {
    AppCore.Step(AppCore.Step(c, AppCore.Transit(SM.BeginActivation(key)), relays),
                 AppCore.Transit(SM.ActivationFailed(problem)), relays)
  }

  /** The core accepts the closing transition of a removal of `key` from `w`. */
  ghost predicate Publishable(w: World, key: PublicKey, c: AppCore.Core, relays: Relays)
    requires Has(w.registry, key)
  {
    var rest := w.(registry := Remove(w.registry, key));
    Accepts(SignedOutOf(c, key, relays), Closing(rest, Fallback(w.registry, w.selected, key)), relays)
  }

  /** Activating the active identity again, with the time of use stored and the selection not, leaves an
      active identity that is not stored as the snapshot has it. From there on no other identity can be
      removed: the stores give it up, but the snapshot that should show it is rejected. */
  lemma FailedReactivationBlocksRemovals(w: World, c: AppCore.Core, now: nat, other: PublicKey, problem: Problem,
                                         relays: Relays)
    requires WellFormed(w) && Quiet(w) && Agrees(c.machine, w) && c.machine.snapshot.revision + 3 < MAX_U64
    requires c.machine.snapshot.active.Some? && Has(w.registry, other)
    requires var active := c.machine.snapshot.active.value.identity;
             active.key in w.keyring && active.lastUsedAt != Some(now) && other != active.key
    ensures var key := c.machine.snapshot.active.value.identity.key;
            var left := Exec(w, CommandPlan(w, IdentityPlans.ActivateIdentity(key, now)), 1).world;
            var core := FailedActivation(c, key, problem, relays);
            && WellFormed(left) && Quiet(left) && Settled(core.machine) && Matches(core.machine.snapshot, left)
            && Has(left.registry, other) && !Publishable(left, other, core, relays)
  {
    var active := c.machine.snapshot.active.value.identity;
    StoredRecord(w.registry, active);
    Reactivated(w, c, now, problem, relays);
    var left := w.(registry := Update(w.registry, active.(lastUsedAt := Some(now))));
    TouchedStore(w, active, now, other);
    hide Exec; hide AppCore.Step; hide SM.Outcome; hide Find; hide Update; hide Remove; hide Fallback;
    hide FailedActivation; hide SignedOutOf;
    RemovalClosesIff(left, other, FailedActivation(c, active.key, problem, relays), relays);
  }

  lemma StoredRecord(records: Records, record: Identity)
    requires Unique(records) && record in records
    ensures Find(records, record.key) == Some(record)
  {
    FindUnique(records, record);
  }

  lemma Reactivated(w: World, c: AppCore.Core, now: nat, problem: Problem, relays: Relays)
    requires Agrees(c.machine, w) && c.machine.snapshot.active.Some? && c.machine.snapshot.revision + 3 < MAX_U64
    requires var active := c.machine.snapshot.active.value.identity;
             Find(w.registry, active.key) == Some(active) && active.key in w.keyring
    ensures var active := c.machine.snapshot.active.value.identity;
            var touched := active.(lastUsedAt := Some(now));
            && Exec(w, CommandPlan(w, IdentityPlans.ActivateIdentity(active.key, now)), 1)
               == Run(w.(registry := Update(w.registry, touched)), true)
    ensures var core := FailedActivation(c, c.machine.snapshot.active.value.identity.key, problem, relays);
            && Settled(core.machine) && core.machine.snapshot.lifecycle.Ready?
            && core.machine.snapshot.revision + 1 < MAX_U64
            && core.machine.snapshot.identities == w.registry && core.machine.snapshot.selected == w.selected
            && core.machine.snapshot.active == c.machine.snapshot.active
  {
    var active := c.machine.snapshot.active.value.identity;
    var plan := CommandPlan(w, IdentityPlans.ActivateIdentity(active.key, now));
    assert Exec(w, plan, 0) == Run(w, true);
    hide Find; hide Update;
    ActivationBegins(c.machine, active.key, relays);
    var begun := SM.Next(c.machine, SM.BeginActivation(active.key), relays);
    hide SM.InActivation; hide Validates; hide Keys;
    SM.FailureFrom(c.machine.snapshot, active.key, begun, problem, relays);
    SM.StepKeepsValid(c.machine, SM.BeginActivation(active.key), relays);
    SM.StepKeepsValid(begun, SM.ActivationFailed(problem), relays);
  }

  lemma TouchedStore(w: World, active: Identity, now: nat, other: PublicKey)
    requires WellFormed(w) && Quiet(w) && Find(w.registry, active.key) == Some(active) && active.lastUsedAt != Some(now)
    requires Has(w.registry, other) && other != active.key
    ensures var left := w.(registry := Update(w.registry, active.(lastUsedAt := Some(now))));
            && WellFormed(left) && Quiet(left) && Has(left.registry, other) && active !in left.registry
            && SameRecords(w.registry, left.registry)
  {
    var touched := active.(lastUsedAt := Some(now));
    FindSound(w.registry, active.key);
    IdentityHistory.TouchKeepsWellFormed(w, active.key, now);
    UpdateLookup(w.registry, touched);
    TouchIsAlike(w.registry, active.key, now);
    var left := w.(registry := Update(w.registry, touched));
    if active in left.registry { FindUnique(left.registry, active); }
    assert forall r :: r in left.journal ==> !Unfinished(w, r);
    hide Find; hide Update;
  }

  const ACTIVE: Identity := Identity(1, Available, None, 3, Some(5))
  const IDLE: Identity := Identity(3, Available, None, 4, None)
  const STORES: World := World(map[1 := Credential(7, 4), 3 := Credential(8, 5)], [ACTIVE, IDLE], Some(1), map[])
  const SESSION: AppSnapshot :=
    AppSnapshot(4, None, Ready, 0, [ACTIVE, IDLE], Some(1), Active,
                Some(ActiveIdentity(ACTIVE, Disconnected, EmptyProfile, None)), None)

  /** The same on one input: identity 1, active since second 5, is activated again at second 6, the
      selection cannot be saved, and then identity 3 cannot be removed. */
  lemma ReactivationExample(problem: Problem, relays: Relays)
    ensures var c := AppCore.Core(SM.Machine(SESSION, None), map[], 1);
            var left := Exec(STORES, CommandPlan(STORES, IdentityPlans.ActivateIdentity(1, 6)), 1).world;
            && Agrees(c.machine, STORES) && Has(left.registry, 3)
            && !Publishable(left, 3, FailedActivation(c, 1, problem, relays), relays)
  {
    ExampleAgrees();
    hide Find; hide Exec; hide AppCore.Step; hide SM.Outcome; hide Update; hide Remove; hide Publishable; hide Agrees;
    hide WellFormed;
    FailedReactivationBlocksRemovals(STORES, AppCore.Core(SM.Machine(SESSION, None), map[], 1), 6, 3, problem, relays);
  }

  lemma ExampleAgrees()
    ensures WellFormed(STORES) && Quiet(STORES) && Has(STORES.registry, 3)
    ensures Agrees(SM.Machine(SESSION, None), STORES)
  {
    forall k: PublicKey
      ensures Find(STORES.registry, k) == if k == 1 then Some(ACTIVE) else if k == 3 then Some(IDLE) else None
    {
      assert [IDLE][1..] == [] && STORES.registry[1..] == [IDLE];
      assert Find([IDLE], k) == if k == 3 then Some(IDLE) else None;
    }
    assert STORES.registry[0].key in Keys(STORES.registry);
    hide Find;
  }

  // ---- Selection ----

  /** Stores and publishes a selection without activating it. */
  method SelectIdentity(s: Stores, core: AppCore.ApplicationCore, key: PublicKey)
    returns (r: Result<AppSnapshot>, ghost cut: nat)
    requires core.Consistent()
    modifies s, core, core.machine
    ensures core.Consistent()
    ensures Reached(old(s.View()), CommandPlan(old(s.View()), IdentityPlans.SelectIdentity(key)), cut, s.View())
    ensures old(Shows(core.machine.View(), s.View())) && old(core.machine.snapshot.revision) < MAX_U64 ==>
              if r.Ok? then
                && cut == 1 && s.selected == Some(key) && Settled(core.machine.View())
                && core.machine.snapshot.lifecycle.Ready?
                && core.machine.snapshot.selected == s.selected
                && core.machine.snapshot.identities == old(core.machine.snapshot.identities)
              else
                && s.View() == old(s.View()) && core.View() == old(core.View())
                && (s.budget == 0 || !Has(s.registry, key))
    ensures core.View() == if cut == 0 then old(core.View())
                           else AppCore.Step(old(core.View()), AppCore.Transit(SM.SelectKey(key)), core.relays)
  {
    hide Validates; hide Keys;
    cut := 0;
    FindSound(core.machine.snapshot.identities, key);
    if Matches(core.machine.snapshot, s.View()) { SameRecordsFind(core.machine.snapshot.identities, s.registry, key); }
    ValidatesIsValid(core.machine.snapshot.identities, Some(key), core.machine.snapshot.session,
                     core.machine.snapshot.active);
    hide Find; hide SameRecords;
    var found := s.FindIdentity(key);
    if found.Err? { return Err(Unavailable), cut; }
    if found.value.None? { return Err(IdentityNotFound), cut; }
    var saved := s.SaveSelected(Some(key));
    if saved.Err? { return Err(saved.error), cut; }
    cut := 1;
    assert Exec(old(s.View()), [Select(Some(key))], 0) == Run(old(s.View()), true);
    r := core.ApplyTransition(SM.SelectKey(key));
  }

  // ---- Activation ----

  /** Session, active identity, registry and selection are those of `before`, and no activation is left pending. */
  ghost predicate Preserved(before: AppSnapshot, m: SM.Machine) {
    && Settled(m) && m.snapshot.lifecycle.Ready?
    && m.snapshot.session == before.session && m.snapshot.active == before.active
    && m.snapshot.identities == before.identities && m.snapshot.selected == before.selected
  }

  /** The session is that of `active`, whose record is replaced and selected; no other record changes. */
  ghost predicate ActivatedAs(before: AppSnapshot, active: ActiveIdentity, m: SM.Machine) {
    && Settled(m) && m.snapshot.lifecycle.Ready? && m.snapshot.session.Active? && m.snapshot.active == Some(active)
    && m.snapshot.identities == Update(before.identities, active.identity)
    && m.snapshot.selected == Some(active.identity.key)
  }

  /** The active identity that a successful activation publishes. */
  function Prepared(record: Identity, now: nat, cached: Option<Metadata>): ActiveIdentity {
    ActiveIdentity(record.(lastUsedAt := Some(now)), Disconnected, if cached.Some? then Cached
                   else EmptyProfile, cached)
  }

  /** The core is ready with nothing in progress and shows the stores up to times of last use. */
  ghost predicate Shows(m: SM.Machine, w: World) {
    Settled(m) && m.snapshot.lifecycle.Ready? && Matches(m.snapshot, w)
  }

  /** What an activation leaves in stores and core. Where the snapshot showed the stores, the activation
      took place in both, or the session is as before and at most a time of use was stored. */
  ghost predicate ActivationLeaves(before: AppCore.Core, w: World, key: PublicKey, now: nat, cut: nat,
                                   after: AppCore.Core, left: World) {
    && Reached(w, CommandPlan(w, IdentityPlans.ActivateIdentity(key, now)), cut, left)
    && after == before.(machine := after.machine)
    && (!Has(before.machine.snapshot.identities, key) ==> after == before && cut == 0)
    && (Shows(before.machine, w) && before.machine.snapshot.revision + 1 < MAX_U64 ==>
          if cut == 2 then
            && Has(w.registry, key) && after.machine.snapshot.active.Some?
            && var active := after.machine.snapshot.active.value;
            && active.identity == Find(w.registry, key).value.(lastUsedAt := Some(now))
            && ActivatedAs(before.machine.snapshot, active, after.machine)
            && left.registry == Update(w.registry, active.identity) && left.selected == Some(key)
          else Preserved(before.machine.snapshot, after.machine))
    && (Shows(before.machine, w) && before.machine.snapshot.revision + 1 < MAX_U64 ==>
          Later(before.machine.snapshot, after.machine.snapshot))
  }

  /** The same snapshot or one of a higher revision. */
  predicate Later(earlier: AppSnapshot, later: AppSnapshot) {
    later == earlier || earlier.revision < later.revision
  }

  /** Activates a saved identity. `derived` is the public key of the stored secret and `cached` the
      outcome of loading its profile. Either the whole activation takes place in memory and on disk, or
      the session is as before. */
  method ActivateIdentity(s: Stores, core: AppCore.ApplicationCore, key: PublicKey, now: nat, derived: PublicKey,
                          cached: Result<Option<Metadata>>)
    returns (r: Result<AppSnapshot>, ghost cut: nat)
    requires core.Consistent()
    modifies s, core, core.machine
    ensures core.Consistent()
    ensures ActivationLeaves(old(core.View()), old(s.View()), key, now, cut, core.View(), s.View())
    ensures old(Shows(core.machine.View(), s.View())) && old(core.machine.snapshot.revision) + 1 < MAX_U64 ==>
              if r.Ok? then
                && cut == 2 && derived == key && cached.Ok?
                && core.machine.snapshot.active.Some?
                && var active := core.machine.snapshot.active.value;
                   && active.identity == Find(old(s.registry), key).value.(lastUsedAt := Some(now))
                   && active.relayState == Disconnected && active.profile == cached.value
                   && active.profileState == if cached.value.Some? then Cached else EmptyProfile
              else && cut < 2
                   && (|| s.budget == 0 || !Has(old(s.registry), key) || key !in old(s.keyring) || derived != key
                       || cached.Err?)
                   && (core.machine.snapshot == old(core.machine.snapshot)
                       || core.machine.snapshot.problem == Some(r.error))
  {
    hide AppCore.Step; hide SM.Outcome; hide SM.Next; hide Find; hide Update; hide Keys;
    ghost var w, before := s.View(), core.machine.View();
    cut := 0;
    FoundKey(s.registry, key);
    ghost var live := Shows(before, w) && before.snapshot.revision + 1 < MAX_U64;
    if live { SameRecordsFind(before.snapshot.identities, w.registry, key); }
    if live && Has(s.registry, key) { ActivationBegins(before, key, core.relays); }
    var found := s.FindIdentity(key);
    if found.Err? { return Err(Unavailable), cut; }
    if found.value.None? { return Err(IdentityNotFound), cut; }
    StepMoves(core.View(), SM.BeginActivation(key), core.relays);
    var begun := core.ApplyTransition(SM.BeginActivation(key));
    if begun.Err? {
      RefusedBegin(before, key, core.relays);
      return Err(begun.error), cut;
    }
    BegunIsRegistered(before, key, core.relays);
    var prepared: Result<ActiveIdentity>;
    prepared, cut := PrepareActivation(s, found.value.value, key, now, derived, cached);
    r := EndActivation(core, before.snapshot, key, prepared, live);
  }

  /** Publishes the prepared activation, or its failure. */
  method EndActivation(core: AppCore.ApplicationCore, ghost before: AppSnapshot, ghost key: PublicKey,
                       prepared: Result<ActiveIdentity>, ghost live: bool)
    returns (r: Result<AppSnapshot>)
    requires core.Consistent() && (prepared.Ok? ==> prepared.value.identity.key == key)
    requires live ==> SnapshotValid(before) && SM.InActivation(before, key, core.machine.View())
    requires live ==> core.machine.snapshot.revision < MAX_U64 && core.machine.snapshot.selected == before.selected
    requires live ==> before.session.SignedOut? || before.session.Active?
    modifies core, core.machine
    ensures core.Consistent() && core.View() == old(core.View()).(machine := core.machine.View())
    ensures live ==> if prepared.Ok? then r.Ok? && ActivatedAs(before, prepared.value, core.machine.View())
              else && r == Err(prepared.error) && Preserved(before, core.machine.View())
                   && core.machine.snapshot.problem == Some(prepared.error)
    ensures prepared.Err? ==> r.Err?
    ensures Later(old(core.machine.snapshot), core.machine.snapshot)
  {
    hide AppCore.Step; hide SM.Outcome; hide SM.Next; hide Find; hide Update; hide Keys; hide SM.InActivation;
    ghost var middle := core.machine.View();
    match prepared {
      case Ok(active) =>
        if live { ActivationEnds(before, middle, active, core.relays); }
        StepMoves(core.View(), SM.ActivationSucceeded(active), core.relays);
        NextIsLater(middle, SM.ActivationSucceeded(active), core.relays);
        r := core.ApplyTransition(SM.ActivationSucceeded(active));
      case Err(problem) =>
        if live { ActivationFails(before, key, middle, problem, core.relays); }
        StepMoves(core.View(), SM.ActivationFailed(problem), core.relays);
        NextIsLater(middle, SM.ActivationFailed(problem), core.relays);
        var failed := core.ApplyTransition(SM.ActivationFailed(problem));
        r := Err(if failed.Err? then failed.error else problem);
    }
  }

  lemma NextIsLater(m: SM.Machine, t: SM.Transition, relays: Relays)
    ensures Later(m.snapshot, SM.Next(m, t, relays).snapshot)
  {
    hide Validates; hide Find; hide Update;
  }

  lemma RefusedBegin(m: SM.Machine, key: PublicKey, relays: Relays)
    ensures !Has(m.snapshot.identities, key) ==> SM.Next(m, SM.BeginActivation(key), relays) == m
  {
    hide Find;
  }

  lemma BegunIsRegistered(m: SM.Machine, key: PublicKey, relays: Relays)
    requires SM.Outcome(m, SM.BeginActivation(key), relays).Ok?
    ensures Has(m.snapshot.identities, key)
  {
    hide Find;
  }

  lemma ActivationFails(s: AppSnapshot, key: PublicKey, m: SM.Machine, problem: Problem, relays: Relays)
    requires SnapshotValid(s) && SM.InActivation(s, key, m) && m.snapshot.revision < MAX_U64
    requires m.snapshot.selected == s.selected
    requires s.session.SignedOut? || s.session.Active?
    ensures var failed := SM.Next(m, SM.ActivationFailed(problem), relays);
            && SM.Outcome(m, SM.ActivationFailed(problem), relays).Ok? && Preserved(s, failed)
            && failed.snapshot.problem == Some(problem)
  {
    hide Validates; hide Find; hide Keys;
    SM.FailureFrom(s, key, m, problem, relays);
    SM.StepKeepsValid(m, SM.ActivationFailed(problem), relays);
  }

  lemma StepMoves(c: AppCore.Core, t: SM.Transition, relays: Relays)
    ensures AppCore.Step(c, AppCore.Transit(t), relays) == c.(machine := SM.Next(c.machine, t, relays))
  {}

  lemma ActivationBegins(m: SM.Machine, key: PublicKey, relays: Relays)
    requires m.snapshot.lifecycle.Ready? && SnapshotValid(m.snapshot) && m.pending.None?
    requires Has(m.snapshot.identities, key)
    requires m.snapshot.revision + 1 < MAX_U64
    ensures var next := SM.Next(m, SM.BeginActivation(key), relays);
            && SM.Outcome(m, SM.BeginActivation(key), relays).Ok?
            && SM.InActivation(m.snapshot, key, next) && next.snapshot.selected == m.snapshot.selected
            && next.snapshot.revision == m.snapshot.revision + 1
  {
    ValidatesIsValid(m.snapshot.identities, m.snapshot.selected, Activating(key), m.snapshot.active);
    hide Validates; hide Find; hide Keys;
  }

  lemma ActivationEnds(s: AppSnapshot, m: SM.Machine, active: ActiveIdentity, relays: Relays)
    requires SM.InActivation(s, active.identity.key, m) && m.snapshot.revision < MAX_U64
    ensures var activated := SM.Next(m, SM.ActivationSucceeded(active), relays);
            && SM.Outcome(m, SM.ActivationSucceeded(active), relays) == Ok(activated.snapshot)
            && activated.pending.None? && SM.Activated(s, active, activated.snapshot)
            && activated.snapshot.lifecycle.Ready? && SnapshotValid(activated.snapshot)
  {
    hide Validates; hide Find; hide Update; hide Keys;
    SM.SuccessFrom(s, m, active, relays);
    SM.StepKeepsValid(m, SM.ActivationSucceeded(active), relays);
  }

  /** Loads the credential and the profile, then stores the time of use and the selection. */
  method PrepareActivation(s: Stores, record: Identity, key: PublicKey, now: nat, derived: PublicKey,
                           cached: Result<Option<Metadata>>)
    returns (r: Result<ActiveIdentity>, ghost cut: nat)
    requires Find(s.registry, key) == Some(record) && record.key == key
    modifies s
    ensures Reached(old(s.View()), CommandPlan(old(s.View()), IdentityPlans.ActivateIdentity(key, now)), cut, s.View())
    ensures if r.Ok? then
              && cut == 2 && cached.Ok? && derived == key && r.value == Prepared(record, now, cached.value)
              && s.registry == Update(old(s.registry), r.value.identity) && s.selected == Some(key)
            else cut < 2 && (s.budget == 0 || key !in old(s.keyring) || derived != key || cached.Err?)
  {
    hide Update;
    cut := 0;
    ghost var w := s.View();
    var loaded := s.ContainsCredential(key);
    if loaded.Err? { return Err(Unavailable), cut; }
    if !loaded.value { return Err(CredentialMissingError), cut; }
    if derived != key { return Err(OtherProblem(0)), cut; }
    if cached.Err? { return Err(cached.error), cut; }
    var active := Prepared(record, now, cached.value);
    ghost var plan := [UpdateRecord(active.identity), Select(Some(key))];
    assert Exec(w, plan, 0) == Run(w, true);
    var updated := s.UpdateIdentity(active.identity);
    if updated.Err? { return Err(updated.error), cut; }
    cut := 1;
    assert Exec(w, plan, 1) == Run(s.View(), true);
    UpdateFound(w.registry, active.identity);
    var saved := s.SaveSelected(Some(key));
    if saved.Err? { return Err(saved.error), cut; }
    cut := 2;
    r := Ok(active);
  }
}
