/** Whole runs of the application: core and stores together, through every command, failure, crash and
    restart. What earlier modules assume of the in-memory selection at removals is proved here.
*/
module LiveRun {
  import opened Domain
  import opened Registry
  import opened Durable
  import opened IdentityPlans
  import opened Snapshot
  import SM = StateMachine
  import AppCore
  import Additions
  import Removals
  import IdentityHistory
  import opened IdentityService
  import opened Session

  datatype State = State(core: AppCore.Core, world: World)

  datatype Event =
    | Create(request: RequestId, expected: nat, material: KeyMaterial, now: nat)
    | ImportKey(request: RequestId, expected: nat, material: KeyMaterial, now: nat)
    | RemoveKey(request: RequestId, token: AppCore.Token, now: nat)
    | Choose(key: PublicKey)
    | Activate(key: PublicKey, now: nat)
    | Leave
    | Ask(key: PublicKey, now: nat)
    | Withdraw(token: AppCore.Token)
    | Refresh(relayState: RelayState, profileState: ProfileState, profile: Option<Metadata>, problem: Option<Problem>)
    | Restart

  // ---- One event ----

  /** The addition that an event asks for, with the revision of the published snapshot. */
  function AdditionCommand(a: State, e: Event): Command
    requires e.Create? || e.ImportKey?
  {
    var revision := a.core.machine.snapshot.revision;
    if e.Create? then CreateIdentity(e.request, e.expected, revision, e.material, e.now, revision + 1)
    else ImportIdentity(e.request, e.expected, revision, e.material, e.now, revision + 1)
  }

  /** The core after an attempt to consume the token. */
  ghost function Presented(a: State, e: Event, relays: Relays): AppCore.Core
    requires e.RemoveKey?
  {
    AppCore.Step(a.core, AppCore.Consume(e.token, e.now), relays)
  }

  ghost function RemovalCommand(a: State, e: Event, relays: Relays): Command
    requires e.RemoveKey?
  {
    var before, key := Presented(a, e, relays), e.token.state.key;
    RemoveIdentity(e.request, e.token.state.revision, key, before.machine.snapshot.selected,
                   ClosingRevision(before, key, relays))
  }

  ghost predicate RemovalMoves(a: State, e: Event, b: State, cut: nat, relays: Relays)
    requires e.RemoveKey?
  {
    var before, key := Presented(a, e, relays), e.token.state.key;
    var plan := CommandPlan(a.world, RemovalCommand(a, e, relays));
    if AppCore.Consumed(a.core, e.token, e.now).Err? || plan == [] then b == State(before, a.world)
    else
      RemovalLeaves(a.world, before, plan, key, Fallback(a.world.registry, before.machine.snapshot.selected, key),
                    relays, cut, b.world, b.core)
  }

  /** A new core after its first transition. */
  ghost function Started(t: SM.Transition, relays: Relays): AppCore.Core {
    AppCore.Step(AppCore.INITIAL, AppCore.Transit(t), relays)
  }

  /** A new process recovers, and if that completes it bootstraps from the stores. */
  ghost predicate RestartMoves(a: State, b: State, cut: nat, relays: Relays) {
    var run := Recover(a.world, cut);
    && b.world == run.world
    && (|| b.core == AppCore.INITIAL
        || (run.ok && b.core == Started(SM.BootstrapRegistry(b.world.registry, b.world.selected), relays))
        || (run.ok && b.core == Started(SM.FailFatally(Unavailable), relays)))
  }

  ghost predicate RefreshMoves(a: State, e: Event, b: State, relays: Relays)
    requires e.Refresh?
  {
    match a.core.machine.snapshot.active
    case None => b == a
    case Some(active) =>
      var shown := ActiveIdentity(active.identity, e.relayState, e.profileState, e.profile);
      var t := SM.UpdateActiveIdentity(active.identity.key, shown, e.problem);
      b == a.(core := AppCore.Step(a.core, AppCore.Transit(t), relays))
  }

  /** What an event may lead to when it gets through `cut` changing store calls. */
  ghost predicate MovesAt(a: State, e: Event, b: State, cut: nat, relays: Relays) {
    match e
    case Create(_, _, material, _) =>
      AdditionLeaves(a.world, a.core, CommandPlan(a.world, AdditionCommand(a, e)), material.key, relays, cut, b.world,
                     b.core)
    case ImportKey(_, _, material, _) =>
      AdditionLeaves(a.world, a.core, CommandPlan(a.world, AdditionCommand(a, e)), material.key, relays, cut, b.world,
                     b.core)
    case RemoveKey(_, _, _) => RemovalMoves(a, e, b, cut, relays)
    case Choose(key) =>
      && Reached(a.world, CommandPlan(a.world, IdentityPlans.SelectIdentity(key)), cut, b.world)
      && b.core == if cut == 0 then a.core else AppCore.Step(a.core, AppCore.Transit(SM.SelectKey(key)), relays)
    case Activate(key, now) => ActivationLeaves(a.core, a.world, key, now, cut, b.core, b.world)
    case Leave =>
      var leaves := AppCore.Step(a.core, AppCore.Transit(SM.SignOut), relays);
      b == a.(core := if a.core.machine.snapshot.session.SignedOut? then a.core else leaves)
    case Ask(key, now) => b == a.(core := AppCore.Step(a.core, AppCore.Issue(key, now), relays))
    case Withdraw(token) => b == a.(core := AppCore.Step(a.core, AppCore.Cancel(token), relays))
    case Refresh(_, _, _, _) => RefreshMoves(a, e, b, relays)
    case Restart => RestartMoves(a, b, cut, relays)
  }

  /** One durable operation at a time, generated keys are new, and the last revision is not reached. */
  ghost predicate Disciplined(a: State, e: Event) {
    var w := a.world;
    && (!e.Restart? ==> a.core.machine.snapshot.revision + 3 < MAX_U64)
    && match e
       case Create(request, _, material, _) => request in w.journal || (Quiet(w) && !Has(w.registry, material.key))
       case ImportKey(request, _, _, _) => request in w.journal || Quiet(w)
       case RemoveKey(request, _, _) => request in w.journal || Quiet(w)
       case Choose(_) => Quiet(w)
       case Activate(_, _) => Quiet(w)
       case _ => true
  }

  // ---- What every event keeps ----

  /** A confirmation for the current revision is for a registered key. */
  ghost predicate TokensCurrent(c: AppCore.Core) {
    forall id :: id in c.tokens ==>
                   && c.tokens[id].revision <= c.machine.snapshot.revision
                   && (c.tokens[id].revision == c.machine.snapshot.revision ==>
                         Has(c.machine.snapshot.identities, c.tokens[id].key))
  }

  ghost predicate CoreLive(c: AppCore.Core) {
    Settled(c.machine) && TokensCurrent(c)
  }

  /** Between operations, a ready snapshot shows the stores up to times of last use. */
  ghost predicate Live(a: State) {
    && IdentityHistory.Sound(a.world) && CoreLive(a.core)
    && (Quiet(a.world) && a.core.machine.snapshot.lifecycle.Ready? ==> Matches(a.core.machine.snapshot, a.world))
  }

  /** The transitions that the commands make outside of activation. */
  predicate Plain(t: SM.Transition) {
    t.ReplaceRegistry? || t.ReplaceRegistryPreservingSession? || t.SignOut? || t.SelectKey? || t.UpdateActiveIdentity?
  }

  lemma PlainKeeps(c: AppCore.Core, t: SM.Transition, relays: Relays)
    requires CoreLive(c) && Plain(t) && c.machine.snapshot.revision < MAX_U64
    ensures CoreLive(AppCore.Step(c, AppCore.Transit(t), relays))
    ensures AppCore.Step(c, AppCore.Transit(t), relays).machine.snapshot.revision <= c.machine.snapshot.revision + 1
  {
    SM.StepKeepsValid(c.machine, t, relays);
    hide Validates; hide Find; hide Update; hide Keys; hide SnapshotValid;
  }

  lemma TokenStepKeeps(c: AppCore.Core, e: AppCore.Event, relays: Relays)
    requires CoreLive(c) && !e.Transit?
    ensures CoreLive(AppCore.Step(c, e, relays)) && AppCore.Step(c, e, relays).machine == c.machine
  {
    hide Find;
  }

  /** What a step of the stores is in the histories of `IdentityHistory`, and that it is a permitted one. */
  ghost predicate Follows(w: World, h: IdentityHistory.Event, after: World) {
    IdentityHistory.Permitted(w, h) && IdentityHistory.Step(w, h) == after
  }

  /** Every step of the stores is a step of a permitted history. */
  ghost predicate PermittedMove(a: State, b: State) {
    b.world == a.world || exists h :: Follows(a.world, h, b.world)
  }

  lemma CommandFollows(w: World, c: Command, cut: nat, after: World)
    requires IdentityHistory.Sound(w) && Reached(w, CommandPlan(w, c), cut, after)
    requires IdentityHistory.Permitted(w, IdentityHistory.Do(c, cut))
    ensures Follows(w, IdentityHistory.Do(c, cut), after) && IdentityHistory.Sound(after)
  {
    CommandIsEvent(w, c, cut, after);
    IdentityHistory.CommandStep(w, c, cut);
    hide Exec; hide CommandPlan; hide IdentityHistory.Sound;
  }

  // ---- Additions ----

  lemma AdditionPoints(w: World, a: Addition, cut: nat, after: World)
    requires Additions.Admissible(w, a) && Reached(w, AdditionPlan(a), cut, after)
    ensures 1 <= cut <= 7 ==> !Quiet(after)
    ensures cut == 8 ==> after.selected == Some(a.record.key)
  {
    if cut >= 1 {
      Additions.ForwardCutPoint(w, a, cut);
      hide Exec; hide Insert; hide Update; hide Find;
      assert cut <= 7 ==> Unfinished(after, a.request);
    }
  }

  lemma AdditionStep(a: State, e: Event, b: State, cut: nat, relays: Relays)
    requires e.Create? || e.ImportKey?
    requires Live(a) && Disciplined(a, e) && MovesAt(a, e, b, cut, relays)
    ensures Live(b) && PermittedMove(a, b)
  {
    var c := AdditionCommand(a, e);
    var plan, key, t := CommandPlan(a.world, c), e.material.key, Replacement(b.world, e.material.key);
    if cut == 0 {
      assert b == a;
    } else {
      IdentityHistory.QuietIsWellFormed(a.world);
      CommandFollows(a.world, c, cut, b.world);
      assert Follows(a.world, IdentityHistory.Do(c, cut), b.world);
      if e.Create? {
        IdentityHistory.CreateIsAdmissible(a.world, c);
      } else {
        IdentityHistory.ImportIsAdmissible(a.world, c);
      }
      var addition := if e.Create? then CreateAddition(a.world, c) else ImportAddition(a.world, c);
      assert addition.record.key == key by { FoundKey(a.world.registry, key); }
      AdditionPoints(a.world, addition, cut, b.world);
      PlainKeeps(a.core, t, relays);
      if cut == 8 { ReplacementShows(a.core, b.world, key, relays); }
      hide Exec; hide Find; hide IdentityHistory.Sound; hide CoreLive; hide AppCore.Step; hide Quiet; hide SM.Outcome;
      hide Additions.Admissible;
    }
  }

  lemma ReplacementShows(c: AppCore.Core, w: World, key: PublicKey, relays: Relays)
    requires Accepts(c, Replacement(w, key), relays) && w.selected == Some(key)
    ensures Matches(AppCore.Step(c, AppCore.Transit(Replacement(w, key)), relays).machine.snapshot, w)
  {
    hide Validates;
  }

  // ---- Removals ----

  /** A token that is accepted is for a registered key, so the snapshot is ready and, between operations,
      its selection is the stored one. This is what the removal plan relies on. */
  lemma RemovalSeesStoredSelection(a: State, e: Event, relays: Relays)
    requires Live(a) && Quiet(a.world) && e.RemoveKey? && AppCore.Consumed(a.core, e.token, e.now).Ok?
    ensures a.core.machine.snapshot.lifecycle.Ready? && Has(a.core.machine.snapshot.identities, e.token.state.key)
    ensures Presented(a, e, relays).machine == a.core.machine && a.core.machine.snapshot.selected == a.world.selected
    ensures Has(a.world.registry, e.token.state.key)
  {
    var s := a.core.machine.snapshot;
    FindSound(s.identities, e.token.state.key);
    SameRecordsFind(s.identities, a.world.registry, e.token.state.key);
    hide Find; hide IdentityHistory.Sound;
  }

  lemma RemovalPoints(w: World, r: Removal, cut: nat, after: World)
    requires Removals.Admissible(w, r) && Reached(w, RemovalPlan(r), cut, after)
    ensures 1 <= cut <= 7 ==> !Quiet(after)
    ensures cut == 8 ==> after.selected == r.fallback
  {
    if cut >= 1 {
      Removals.ForwardCut(w, r, cut);
      hide Exec; hide Remove; hide Find;
      assert cut <= 7 ==> Unfinished(after, r.request);
    }
  }

  lemma RemovalStep(a: State, e: Event, b: State, cut: nat, relays: Relays)
    requires e.RemoveKey? && Live(a) && Disciplined(a, e) && RemovalMoves(a, e, b, cut, relays)
    ensures Live(b) && PermittedMove(a, b)
  {
    var before, key, c := Presented(a, e, relays), e.token.state.key, RemovalCommand(a, e, relays);
    TokenStepKeeps(a.core, AppCore.Consume(e.token, e.now), relays);
    var plan := CommandPlan(a.world, c);
    if AppCore.Consumed(a.core, e.token, e.now).Ok? && plan != [] && cut > 0 {
      RemovalSeesStoredSelection(a, e, relays);
      IdentityHistory.QuietIsWellFormed(a.world);
      CommandFollows(a.world, c, cut, b.world);
      assert Follows(a.world, IdentityHistory.Do(c, cut), b.world);
      Removals.FallbackIsSound(a.world, key);
      var r := CommandRemoval(a.world, c);
      RemovalPoints(a.world, r, cut, b.world);
      ReadyKeeps(before, key, relays);
      var ready, t := SignedOutOf(before, key, relays), Closing(b.world, r.fallback);
      PlainKeeps(ready, t, relays);
      if cut == 8 { ClosingShows(ready, b.world, r.fallback, relays); }
      hide Exec; hide Find; hide IdentityHistory.Sound; hide CoreLive; hide AppCore.Step; hide Quiet; hide SM.Outcome;
      hide SignedOutOf; hide Fallback;
    }
  }

  lemma ReadyKeeps(c: AppCore.Core, key: PublicKey, relays: Relays)
    requires CoreLive(c) && c.machine.snapshot.revision + 1 < MAX_U64
    ensures CoreLive(SignedOutOf(c, key, relays)) && SignedOutOf(c, key, relays).machine.snapshot.revision < MAX_U64
  {
    PlainKeeps(c, SM.SignOut, relays);
    hide CoreLive; hide AppCore.Step;
  }

  lemma ClosingShows(c: AppCore.Core, w: World, fallback: Option<PublicKey>, relays: Relays)
    requires Accepts(c, Closing(w, fallback), relays) && w.selected == fallback
    ensures Matches(AppCore.Step(c, AppCore.Transit(Closing(w, fallback)), relays).machine.snapshot, w)
  {
    hide Validates;
  }

  // ---- Selection, activation, session ----

  lemma ChooseStep(a: State, e: Event, b: State, cut: nat, relays: Relays)
    requires e.Choose? && Live(a) && Disciplined(a, e) && MovesAt(a, e, b, cut, relays)
    ensures Live(b) && PermittedMove(a, b)
  {
    var c := IdentityPlans.SelectIdentity(e.key);
    if cut == 0 {
      assert b == a;
    } else {
      CommandFollows(a.world, c, cut, b.world);
      assert Follows(a.world, IdentityHistory.Do(c, cut), b.world);
      PlainKeeps(a.core, SM.SelectKey(e.key), relays);
      ChosenWorld(a.world, e.key, b.world);
      SelectionShows(a.core, e.key, relays);
      if a.core.machine.snapshot.lifecycle.Ready? {
        SameRecordsFind(a.core.machine.snapshot.identities, a.world.registry, e.key);
      }
      hide Exec; hide Find; hide IdentityHistory.Sound; hide CoreLive; hide AppCore.Step; hide SM.Outcome;
      hide SameRecords;
    }
  }

  lemma ChosenWorld(w: World, key: PublicKey, after: World)
    requires Has(w.registry, key) && Reached(w, [Select(Some(key))], 1, after)
    ensures after == w.(selected := Some(key))
  {
    assert Exec(w, [Select(Some(key))], 0) == Run(w, true);
    hide Find;
  }

  lemma SelectionShows(c: AppCore.Core, key: PublicKey, relays: Relays)
    requires Settled(c.machine) && c.machine.snapshot.revision < MAX_U64
    ensures var s := c.machine.snapshot;
            var n := AppCore.Step(c, AppCore.Transit(SM.SelectKey(key)), relays).machine.snapshot;
            if Has(s.identities, key) then n.identities == s.identities && n.selected == Some(key)
            else n == s
    ensures !c.machine.snapshot.lifecycle.Ready? ==> !Has(c.machine.snapshot.identities, key)
  {
    var s := c.machine.snapshot;
    FindSound(s.identities, key);
    ValidatesIsValid(s.identities, Some(key), s.session, s.active);
    hide Validates; hide Find;
  }

  lemma ActivatedWorld(w: World, key: PublicKey, now: nat, cut: nat, after: World)
    requires Reached(w, CommandPlan(w, IdentityPlans.ActivateIdentity(key, now)), cut, after) && cut < 2
    ensures SameRecords(w.registry, after.registry) && after.selected == w.selected && (cut == 0 ==> after == w)
  {
    if cut == 1 {
      FindSound(w.registry, key);
      TouchIsAlike(w.registry, key, now);
      assert Exec(w, CommandPlan(w, IdentityPlans.ActivateIdentity(key, now)), 0) == Run(w, true);
    }
    hide Find; hide Update;
  }

  lemma LaterTokens(before: AppCore.Core, after: AppCore.Core)
    requires TokensCurrent(before) && after == before.(machine := after.machine)
    requires Later(before.machine.snapshot, after.machine.snapshot)
    ensures TokensCurrent(after)
  {
    hide Find;
  }

  lemma SameRecordsChain(a: Records, b: Records, c: Records)
    requires SameRecords(a, b) && SameRecords(b, c)
    ensures SameRecords(a, c)
  {
    forall i | 0 <= i < |a| ensures Alike(a[i], c[i]) { assert Alike(a[i], b[i]) && Alike(b[i], c[i]); }
  }

  lemma ActivateStep(a: State, e: Event, b: State, cut: nat, relays: Relays)
    requires e.Activate? && Live(a) && Disciplined(a, e) && MovesAt(a, e, b, cut, relays)
    ensures Live(b) && PermittedMove(a, b)
  {
    var c, s := IdentityPlans.ActivateIdentity(e.key, e.now), a.core.machine.snapshot;
    CommandFollows(a.world, c, cut, b.world);
    assert Follows(a.world, IdentityHistory.Do(c, cut), b.world);
    if cut < 2 { ActivatedWorld(a.world, e.key, e.now, cut, b.world); }
    FoundKey(a.world.registry, e.key);
    if !s.lifecycle.Ready? {
      assert !Has(s.identities, e.key);
      hide Exec; hide Find; hide IdentityHistory.Sound;
    } else {
      LaterTokens(a.core, b.core);
      hide Exec; hide Find; hide IdentityHistory.Sound; hide Update; hide TokensCurrent; hide SnapshotValid;
      if cut == 2 {
        SameRecordsUpdate(s.identities, a.world.registry, b.core.machine.snapshot.active.value.identity);
      } else {
        SameRecordsChain(s.identities, a.world.registry, b.world.registry);
      }
    }
  }

  lemma SessionStep(a: State, e: Event, b: State, cut: nat, relays: Relays)
    requires e.Leave? || e.Ask? || e.Withdraw? || e.Refresh?
    requires Live(a) && Disciplined(a, e) && MovesAt(a, e, b, cut, relays)
    ensures Live(b) && PermittedMove(a, b)
  {
    match e
    case Ask(key, now) => TokenStepKeeps(a.core, AppCore.Issue(key, now), relays);
    case Withdraw(token) => TokenStepKeeps(a.core, AppCore.Cancel(token), relays);
    case Leave => if !a.core.machine.snapshot.session.SignedOut? { QuietlyKeeps(a.core, SM.SignOut, relays); }
    case Refresh(_, _, _, _) =>
      var active := a.core.machine.snapshot.active;
      if active.Some? {
        var shown := ActiveIdentity(active.value.identity, e.relayState, e.profileState, e.profile);
        QuietlyKeeps(a.core, SM.UpdateActiveIdentity(active.value.identity.key, shown, e.problem), relays);
      }
  }

  /** Signing out and updating the active identity touch neither registry nor selection nor readiness. */
  lemma QuietlyKeeps(c: AppCore.Core, t: SM.Transition, relays: Relays)
    requires CoreLive(c) && c.machine.snapshot.revision < MAX_U64 && (t.SignOut? || t.UpdateActiveIdentity?)
    requires t.SignOut? ==> !c.machine.snapshot.session.SignedOut?
    ensures var s, next := c.machine.snapshot, AppCore.Step(c, AppCore.Transit(t), relays);
            && CoreLive(next) && next.machine.snapshot.identities == s.identities
            && next.machine.snapshot.selected == s.selected
            && (next.machine.snapshot.lifecycle.Ready? ==> s.lifecycle.Ready?)
  {
    PlainKeeps(c, t, relays);
    hide TokensCurrent; hide Validates; hide Find;
  }

  lemma RestartStep(a: State, b: State, cut: nat, relays: Relays)
    requires Live(a) && RestartMoves(a, b, cut, relays)
    ensures Live(b) && PermittedMove(a, b)
  {
    IdentityHistory.RestartStep(a.world, cut);
    assert Follows(a.world, IdentityHistory.Restart(cut), b.world);
    StartedIsLive(b.world, relays);
    hide IdentityHistory.Sound; hide Recover; hide Started; hide CoreLive; hide Matches; hide Follows; hide Quiet;
  }

  /** A new core, booted or not, is live, and if it is ready it shows the stores. */
  lemma StartedIsLive(w: World, relays: Relays)
    ensures var booted := Started(SM.BootstrapRegistry(w.registry, w.selected), relays);
            CoreLive(booted) && (booted.machine.snapshot.lifecycle.Ready? ==> Matches(booted.machine.snapshot, w))
    ensures var fatal := Started(SM.FailFatally(Unavailable), relays);
            CoreLive(fatal) && !fatal.machine.snapshot.lifecycle.Ready?
    ensures CoreLive(AppCore.INITIAL) && !AppCore.INITIAL.machine.snapshot.lifecycle.Ready?
  {
    BootIsAcceptedIff(w, relays);
    BootLeaves(w, relays);
    hide SM.Next; hide Unique; hide SelectionSound; hide SnapshotValid;
  }

  lemma BootLeaves(w: World, relays: Relays)
    ensures var t := SM.BootstrapRegistry(w.registry, w.selected);
            && (SM.Outcome(SM.BOOT, t, relays).Err? ==> SM.Next(SM.BOOT, t, relays) == SM.BOOT)
            && SM.Next(SM.BOOT, SM.FailFatally(Unavailable), relays).snapshot.lifecycle.Fatal?
            && Settled(SM.Next(SM.BOOT, SM.FailFatally(Unavailable), relays)) && Settled(SM.BOOT)
  {
    hide Validates;
  }

  lemma LiveStep(a: State, e: Event, b: State, cut: nat, relays: Relays)
    requires Live(a) && Disciplined(a, e) && MovesAt(a, e, b, cut, relays)
    ensures Live(b) && PermittedMove(a, b)
  {
    hide Live; hide PermittedMove; hide Disciplined;
    match e
    case Create(_, _, _, _) => AdditionStep(a, e, b, cut, relays);
    case ImportKey(_, _, _, _) => AdditionStep(a, e, b, cut, relays);
    case RemoveKey(_, _, _) => RemovalStep(a, e, b, cut, relays);
    case Choose(_) => ChooseStep(a, e, b, cut, relays);
    case Activate(_, _) => ActivateStep(a, e, b, cut, relays);
    case Restart => RestartStep(a, b, cut, relays);
    case _ => SessionStep(a, e, b, cut, relays);
  }

  // ---- Every run ----

  /** The first start of all. */
  lemma EmptyIsLive()
    ensures Live(State(AppCore.INITIAL, World(map[], [], None, map[])))
  {
    hide Additions.Admissible; hide Removals.Admissible;
  }

  /** A run: each state follows from the one before by its event, cut anywhere. */
  ghost predicate IsRun(states: seq<State>, events: seq<Event>, cuts: seq<nat>, relays: Relays) {
    && |states| == |events| + 1 && |cuts| == |events|
    && forall i :: 0 <= i < |events| ==>
                     Disciplined(states[i], events[i]) && MovesAt(states[i], events[i], states[i + 1], cuts[i], relays)
  }

  /** In every run, whenever no operation is unfinished and the snapshot is ready, it shows the stored
      registry up to times of last use and the stored selection. */
  lemma {:induction false} RunIsLive(states: seq<State>, events: seq<Event>, cuts: seq<nat>, relays: Relays, n: nat)
    requires IsRun(states, events, cuts, relays) && Live(states[0]) && n <= |events|
    ensures Live(states[n])
  {
    hide Live; hide Disciplined; hide MovesAt;
    if n > 0 {
      RunIsLive(states, events, cuts, relays, n - 1);
      LiveStep(states[n - 1], events[n - 1], states[n], cuts[n - 1], relays);
    }
  }

  /** The stores of every run go through a permitted history, so all that is proved of those holds of it. */
  lemma {:induction false} RunIsPermitted(states: seq<State>, events: seq<Event>, cuts: seq<nat>, relays: Relays,
                                          n: nat)
    returns (history: seq<IdentityHistory.Event>)
    requires IsRun(states, events, cuts, relays) && Live(states[0]) && n <= |events|
    ensures IdentityHistory.PermittedHistory(states[0].world, history)
    ensures IdentityHistory.After(states[0].world, history) == states[n].world
  {
    hide Live; hide Disciplined; hide MovesAt; hide PermittedMove; hide IdentityHistory.After;
    hide IdentityHistory.PermittedHistory;
    if n == 0 {
      history := [];
      NoHistory(states[0].world);
    } else {
      history := RunIsPermitted(states, events, cuts, relays, n - 1);
      RunIsLive(states, events, cuts, relays, n - 1);
      LiveStep(states[n - 1], events[n - 1], states[n], cuts[n - 1], relays);
      history := MoveExtends(states[0].world, history, states[n - 1], states[n]);
    }
  }

  lemma NoHistory(w: World)
    ensures IdentityHistory.PermittedHistory(w, []) && IdentityHistory.After(w, []) == w
  {}

  lemma MoveExtends(w: World, earlier: seq<IdentityHistory.Event>, a: State, b: State)
    returns (history: seq<IdentityHistory.Event>)
    requires IdentityHistory.PermittedHistory(w, earlier) && IdentityHistory.After(w, earlier) == a.world
    requires PermittedMove(a, b)
    ensures IdentityHistory.PermittedHistory(w, history) && IdentityHistory.After(w, history) == b.world
  {
    hide Follows; hide IdentityHistory.After; hide IdentityHistory.PermittedHistory;
    history := earlier;
    if b.world != a.world {
      var h :| Follows(a.world, h, b.world);
      history := earlier + [h];
      HistoryGrows(w, earlier, h, b.world);
    }
  }

  lemma HistoryGrows(w: World, history: seq<IdentityHistory.Event>, h: IdentityHistory.Event, after: World)
    requires IdentityHistory.PermittedHistory(w, history) && Follows(IdentityHistory.After(w, history), h, after)
    ensures IdentityHistory.PermittedHistory(w, history + [h]) && IdentityHistory.After(w, history + [h]) == after
  {
    var longer := history + [h];
    hide IdentityHistory.Step; hide IdentityHistory.Permitted;
    forall i | 0 <= i < |longer| ensures IdentityHistory.Permitted(IdentityHistory.After(w, longer[..i]), longer[i]) {
      assert longer[..i] == history[..i];
    }
    assert longer[..|history|] == history;
  }

  /** From every state of every run, one recovery that is not cut completes, and the next start accepts
      the stores. */
  lemma RunRestarts(states: seq<State>, events: seq<Event>, cuts: seq<nat>, relays: Relays, n: nat, enough: nat)
    requires IsRun(states, events, cuts, relays) && Live(states[0]) && n <= |events| && enough >= 7
    ensures var recovered := Recover(states[n].world, enough);
            && recovered.ok && Quiet(recovered.world) && WellFormed(recovered.world)
            && SM.Outcome(SM.BOOT, SM.BootstrapRegistry(recovered.world.registry, recovered.world.selected), relays).Ok?
  {
    RunIsLive(states, events, cuts, relays, n);
    var w := states[n].world;
    IdentityHistory.SoundRecovers(w, enough);
    IdentityHistory.RestartStep(w, enough);
    IdentityHistory.QuietIsWellFormed(Recover(w, enough).world);
    BootIsAcceptedIff(Recover(w, enough).world, relays);
    hide IdentityHistory.Sound; hide Recover; hide MovesAt; hide SM.Outcome;
  }

  /** In every run, a removal that is accepted while nothing is unfinished and whose store calls succeed
      is published if and only if an active identity other than the target is stored as the snapshot has it. */
  lemma RunRemovalPublishesIff(states: seq<State>, events: seq<Event>, cuts: seq<nat>, relays: Relays, n: nat)
    requires IsRun(states, events, cuts, relays) && Live(states[0]) && n < |events| && events[n].RemoveKey?
    requires Quiet(states[n].world) && AppCore.Consumed(states[n].core, events[n].token, events[n].now).Ok?
    requires events[n].request !in states[n].world.journal
    ensures var a, key := states[n], events[n].token.state.key;
            && Has(a.world.registry, key)
            && (Publishable(a.world, key, Presented(a, events[n], relays), relays) <==>
                ActiveIsStored(a.core.machine.snapshot, a.world, key))
  {
    RunIsLive(states, events, cuts, relays, n);
    var a := states[n];
    RemovalSeesStoredSelection(a, events[n], relays);
    IdentityHistory.QuietIsWellFormed(a.world);
    hide IdentityHistory.Sound; hide MovesAt; hide SM.Outcome; hide SignedOutOf; hide Fallback; hide AppCore.Step;
    hide Find;
    RemovalClosesIff(a.world, events[n].token.state.key, Presented(a, events[n], relays), relays);
  }

  // ---- The methods make these moves ----

  ghost function StateOf(core: AppCore.ApplicationCore, s: Stores): State
    reads core, core.machine, s
  {
    State(core.View(), s.View())
  }

  /** One turn of the application: the commands, as the code runs them under any failure of the stores,
      lead where the events say. */
  method Handle(s: Stores, core: AppCore.ApplicationCore, e: Event, derived: PublicKey,
                cached: Result<Option<Metadata>>)
    returns (ok: bool, ghost cut: nat)
    requires core.Consistent() && !e.Restart?
    modifies s, core, core.machine
    ensures core.Consistent() && MovesAt(old(StateOf(core, s)), e, StateOf(core, s), cut, core.relays)
  {
    hide AdditionLeaves; hide RemovalLeaves; hide ActivationLeaves; hide AppCore.Step; hide CommandPlan; hide Exec;
    hide SM.Outcome; hide SignedOutOf;
    cut := 0;
    match e {
      case Create(request, expected, material, now) =>
        var r, at := CreateNewIdentity(s, core, request, expected, material, now);
        ok, cut := r.Ok?, at;
      case ImportKey(request, expected, material, now) =>
        var r, at := ImportSecretKey(s, core, request, expected, material, now);
        RepeatedImport(old(StateOf(core, s)), e, core.relays);
        ok, cut := r.Ok?, if request in old(s.journal) then 0 else at;
      case RemoveKey(request, token, now) =>
        var r, at := ConfirmIdentityRemoval(s, core, request, token, now);
        ok, cut := r.Ok?, at;
      case Choose(key) =>
        var r, at := Session.SelectIdentity(s, core, key);
        ok, cut := r.Ok?, at;
      case Activate(key, now) =>
        var r, at := Session.ActivateIdentity(s, core, key, now, derived, cached);
        ok, cut := r.Ok?, at;
      case Leave =>
        var r := SignOut(core);
        ok := r.Ok?;
      case Ask(key, now) =>
        var r := core.IssueRemovalToken(key, now);
        ok := r.Ok?;
      case Withdraw(token) => ok := core.CancelRemovalToken(token);
      case Refresh(relayState, profileState, profile, problem) =>
        var active := core.published.active;
        ok := active.Some?;
        if ok {
          var identity := active.value.identity;
          var shown := ActiveIdentity(identity, relayState, profileState, profile);
          var r := core.ApplyTransition(SM.UpdateActiveIdentity(identity.key, shown, problem));
          ok := r.Ok?;
        }
    }
  }

  lemma RepeatedImport(a: State, e: Event, relays: Relays)
    requires e.ImportKey?
    ensures e.request in a.world.journal ==> MovesAt(a, e, a, 0, relays)
  {}

  /** A start of the application: a new core, recovery, then bootstrap. */
  method Start(s: Stores, relays: Relays, ghost before: State)
    returns (core: AppCore.ApplicationCore, ok: bool, ghost cut: nat)
    requires s.View() == before.world
    modifies s
    ensures core.Consistent() && core.relays == relays && RestartMoves(before, StateOf(core, s), cut, relays)
    ensures ok ==> Agrees(core.machine.View(), s.View())
  {
    core := new AppCore.ApplicationCore(relays);
    var recovered: Result<()>;
    recovered, cut := RecoverDurableOperations(s);
    if recovered.Err? { return core, false, cut; }
    StepMoves(AppCore.INITIAL, SM.BootstrapRegistry(s.registry, s.selected), relays);
    StepMoves(AppCore.INITIAL, SM.FailFatally(Unavailable), relays);
    hide AppCore.Step; hide Recover; hide SM.Next;
    var booted := BootstrapFrom(s, core);
    ok := booted.Ok?;
  }
}
