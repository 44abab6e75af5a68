/** The stores and the durable identity operations as the code runs them: fields changed in place, one
    awaited call after the other, every failure returned to the caller at once.

    `budget` is the number of store calls that still succeed. A call without budget fails and changes
    nothing. Since every failure ends the operation, an arbitrary budget stands for an arbitrary failure
    or crash between any two calls. Each operation is proved to leave a cut of its plan.
*/
module IdentityService {
  import opened Domain
  import opened Registry
  import opened Durable
  import opened IdentityPlans
  import opened RequestLedger
  import opened CommandResults
  import Snapshot
  import StateMachine
  import AppCore

  datatype Start = Started | Existing(operation: Operation)

  /** A changing call either has exactly its effect, or leaves the stores alone because no budget is
      `left` or because the call is refused. */
  ghost predicate Did(before: World, call: Call, r: Result<()>, after: World, left: nat) {
    match r
    case Ok(_) => Perform(before, call) == Ok(after)
    case Err(problem) =>
      after == before && (if problem == Unavailable then left == 0 else Perform(before, call) == Err(problem))
  }

  class Stores {
    var keyring: map<PublicKey, Credential>
    var registry: Records
    var selected: Option<PublicKey>
    var journal: map<RequestId, Operation>
    var budget: nat

    ghost function View(): World
      reads this
    {
      World(keyring, registry, selected, journal)
    }

    constructor (w: World, calls: nat)
      ensures View() == w && budget == calls
    {
      keyring, registry, selected, journal, budget := w.keyring, w.registry, w.selected, w.journal, calls;
    }

    method Spend() returns (alive: bool)
      modifies this`budget
      ensures alive == (old(budget) > 0) && (!alive ==> budget == 0)
    {
      alive := budget > 0;
      if alive { budget := budget - 1; }
    }

    // ---- Keyring ----

    method PutCredential(request: RequestId, key: PublicKey, secret: Secret) returns (r: Result<()>)
      modifies this
      ensures Did(old(View()), Put(request, key, secret), r, View(), budget)
    {
      hide Find; hide Insert; hide Update; hide Remove;
      var alive := Spend();
      if !alive { return Err(Unavailable); }
      if key in keyring { return Err(IdentityAlreadyExists); }
      keyring := keyring[key := Credential(request, secret)];
      return Ok(());
    }

    /** Checks the request binding and the whole secret without changing custody. */
    method VerifyCredential(request: RequestId, key: PublicKey, secret: Secret) returns (r: Result<()>)
      modifies this`budget
      ensures r.Ok? ==> key in keyring && keyring[key] == Credential(request, secret)
      ensures r.Err? && budget > 0 ==>
                if key !in keyring then r.error == CredentialMissingError
                else r.error == InvalidApplicationState && keyring[key] != Credential(request, secret)
    {
      var alive := Spend();
      if !alive { return Err(Unavailable); }
      if key !in keyring { return Err(CredentialMissingError); }
      if keyring[key].request != request || keyring[key].secret != secret { return Err(InvalidApplicationState); }
      return Ok(());
    }

    method ContainsCredential(key: PublicKey) returns (r: Result<bool>)
      modifies this`budget
      ensures r.Ok? ==> r.value == (key in keyring)
      ensures r.Err? ==> budget == 0
    {
      var alive := Spend();
      if !alive { return Err(Unavailable); }
      return Ok(key in keyring);
    }

    method DeleteCredential(key: PublicKey) returns (r: Result<()>)
      modifies this
      ensures Did(old(View()), Delete(key, false), r, View(), budget)
    {
      hide Find; hide Insert; hide Update; hide Remove;
      var alive := Spend();
      if !alive { return Err(Unavailable); }
      if key !in keyring { return Err(CredentialMissingError); }
      keyring := keyring - {key};
      return Ok(());
    }

    /** The lookup and conditional deletion that recovery makes. */
    method DropCredentialIfPresent(key: PublicKey) returns (r: Result<()>)
      modifies this
      ensures Did(old(View()), DropCredential(key), r, View(), budget)
    {
      var present := ContainsCredential(key);
      if present.Err? { return Err(Unavailable); }
      if present.value {
        var deleted := DeleteCredential(key);
        if deleted.Err? { return Err(Unavailable); }
      }
      return Ok(());
    }

    // ---- Registry and selection ----

    method FindIdentity(key: PublicKey) returns (r: Result<Option<Identity>>)
      modifies this`budget
      ensures r.Ok? ==> r.value == Find(registry, key)
      ensures r.Err? ==> r.error == Unavailable && budget == 0
    {
      var alive := Spend();
      if !alive { return Err(Unavailable); }
      return Ok(Find(registry, key));
    }

    method ListIdentities() returns (r: Result<Records>)
      modifies this`budget
      ensures r.Ok? ==> r.value == registry
      ensures r.Err? ==> r.error == Unavailable && budget == 0
    {
      var alive := Spend();
      if !alive { return Err(Unavailable); }
      return Ok(registry);
    }

    method InsertIdentity(record: Identity) returns (r: Result<()>)
      modifies this
      ensures Did(old(View()), InsertRecord(record), r, View(), budget)
    {
      var alive := Spend();
      if !alive { return Err(Unavailable); }
      if Has(registry, record.key) { return Err(IdentityAlreadyExists); }
      registry := SortByCreation(registry + [record]);
      return Ok(());
    }

    method UpdateIdentity(record: Identity) returns (r: Result<()>)
      modifies this
      ensures Did(old(View()), UpdateRecord(record), r, View(), budget)
    {
      var alive := Spend();
      if !alive { return Err(Unavailable); }
      if !Has(registry, record.key) { return Err(IdentityNotFound); }
      registry := Update(registry, record);
      return Ok(());
    }

    method RemoveIdentity(key: PublicKey) returns (r: Result<()>)
      modifies this
      ensures Did(old(View()), RemoveRecord(key), r, View(), budget)
      ensures r.Ok? ==>
                && (forall record :: record in registry <==> record in old(registry) && record.key != key)
                && selected == (if old(selected) == Some(key) then None else old(selected))
    {
      RemoveMembers(registry, key);
      var alive := Spend();
      if !alive { return Err(Unavailable); }
      registry := Remove(registry, key);
      if selected == Some(key) { selected := None; }
      return Ok(());
    }

    method LoadSelected() returns (r: Result<Option<PublicKey>>)
      modifies this`budget
      ensures r.Ok? ==> r.value == selected
      ensures r.Err? ==> r.error == Unavailable && budget == 0
    {
      var alive := Spend();
      if !alive { return Err(Unavailable); }
      return Ok(selected);
    }

    method SaveSelected(key: Option<PublicKey>) returns (r: Result<()>)
      modifies this
      ensures Did(old(View()), Select(key), r, View(), budget)
    {
      var alive := Spend();
      if !alive { return Err(Unavailable); }
      if key.Some? && !Has(registry, key.value) { return Err(IdentityNotFound); }
      selected := key;
      return Ok(());
    }

    // ---- Journal ----

    /** Records a new request, or returns the recorded operation if it matches in every respect. */
    method BeginOperation(op: Operation) returns (r: Result<Start>)
      requires op.phase == IntentRecorded && op.terminal.None?
      modifies this
      ensures r == Ok(Started) ==> op.request !in old(journal) && Perform(old(View()), Begin(op)) == Ok(View())
      ensures r != Ok(Started) ==> View() == old(View()) && (budget == 0 || op.request in journal)
      ensures r.Ok? && r.value.Existing? ==>
                && op.request in journal && r.value.operation == journal[op.request]
                && r.value.operation.(phase := op.phase, terminal := op.terminal, request := op.request) == op
      ensures r.Err? && budget > 0 ==>
                && op.request in journal && r.error == InvalidApplicationState
                && journal[op.request].(phase := op.phase, terminal := op.terminal, request := op.request) != op
    {
      hide Find; hide Insert; hide Update; hide Remove;
      var alive := Spend();
      if !alive { return Err(Unavailable); }
      if op.request in journal {
        var found := journal[op.request];
        if found.kind != op.kind || found.identity != op.identity
           || found.expectedRevision != op.expectedRevision || found.prior != op.prior
        {
          return Err(InvalidApplicationState);
        }
        return Ok(Existing(found));
      }
      journal := journal[op.request := op];
      return Ok(Started);
    }

    method LoadOperation(request: RequestId) returns (r: Result<Option<Operation>>)
      modifies this`budget
      ensures r.Ok? ==> r.value == if request in journal then Some(journal[request]) else None
      ensures r.Err? ==> budget == 0
    {
      var alive := Spend();
      if !alive { return Err(Unavailable); }
      return Ok(if request in journal then Some(journal[request]) else None);
    }

    method AdvanceOperation(request: RequestId, from: Phase, to: Phase) returns (r: Result<()>)
      modifies this
      ensures Did(old(View()), Advance(request, from, to), r, View(), budget)
    {
      AdvanceIs(View(), request, from, to);
      hide Perform;
      var alive := Spend();
      if !alive { return Err(Unavailable); }
      if request !in journal || journal[request].terminal.Some? || journal[request].phase != from {
        return Err(InvalidApplicationState);
      }
      journal := journal[request := journal[request].(phase := to)];
      return Ok(());
    }

    method FinalizeOperation(request: RequestId, from: Phase, outcome: Outcome,
                             revision: Option<nat>) returns (r: Result<()>)
      modifies this
      ensures Did(old(View()), Finalize(request, from, outcome, revision), r, View(), budget)
    {
      FinalizeIs(View(), request, from, outcome, revision);
      hide Perform;
      var alive := Spend();
      if !alive { return Err(Unavailable); }
      if request !in journal || journal[request].terminal.Some? || journal[request].phase != from {
        return Err(InvalidApplicationState);
      }
      var receipt := Receipt(request, journal[request].identity, outcome, revision);
      journal := journal[request := journal[request].(phase := Finalized, terminal := Some(receipt))];
      return Ok(());
    }

    method ListUnfinished() returns (r: Result<seq<Operation>>)
      modifies this`budget
      ensures r.Ok? ==> r.value == Listing(View())
      ensures r.Err? ==> budget == 0
    {
      var alive := Spend();
      if !alive { return Err(Unavailable); }
      var ids := set id | id in journal && journal[id].terminal.None?;
      var ops: seq<Operation> := [];
      while ids != {}
        invariant ids <= journal.Keys
        invariant ops + InOrder(View(), ids) == Listing(View())
      {
        var least := SmallestOf(ids);
        ops := ops + [journal[least]];
        ids := ids - {least};
      }
      return Ok(ops);
    }
  }

  method SmallestOf(ids: set<RequestId>) returns (least: RequestId)
    requires ids != {}
    ensures least in ids && forall x :: x in ids ==> least <= x
  {
    least :| least in ids;
    var rest := ids - {least};
    while rest != {}
      invariant rest <= ids && least in ids
      invariant forall x :: x in ids && x !in rest ==> least <= x
    {
      var x :| x in rest;
      rest := rest - {x};
      if x < least { least := x; }
    }
  }

  /** The state left by an interrupted run of `plan`: the world after its first `cut` calls, all of which succeeded. */
  ghost predicate Reached(before: World, plan: Plan, cut: nat, after: World) {
    cut <= |plan| && Exec(before, plan, cut) == Run(after, true)
  }

  /** Why a run of `plan` went no further: no budget is `left`, or its next call is refused. */
  ghost predicate Stopped(left: nat, plan: Plan, cut: nat, after: World) {
    left == 0 || (cut < |plan| && Perform(after, plan[cut]).Err?)
  }

  // ---- Publication ----

  /** The core is as before, or has published one transition. */
  ghost predicate Published(before: AppCore.Core, t: StateMachine.Transition, relays: nat, after: AppCore.Core) {
    after == before || after == AppCore.Step(before, AppCore.Transit(t), relays)
  }

  ghost predicate Accepts(c: AppCore.Core, t: StateMachine.Transition, relays: nat) {
    StateMachine.Outcome(c.machine, t, relays).Ok?
  }

  /** The core has accepted and published a transition. */
  ghost predicate Publishes(before: AppCore.Core, t: StateMachine.Transition, relays: nat, after: AppCore.Core) {
    Accepts(before, t, relays) && after == AppCore.Step(before, AppCore.Transit(t), relays)
  }

  /** The snapshot after an addition: the registry as stored, the new key selected, nobody signed in. */
  predicate ShowsAddition(before: Snapshot.AppSnapshot, w: World, key: PublicKey, after: Snapshot.AppSnapshot) {
    after == Snapshot.AppSnapshot(before.revision + 1, None, Snapshot.Ready, before.relays, w.registry, Some(key),
                                  Snapshot.SignedOut, None, None)
  }

  lemma ReplacementYields(c: AppCore.Core, w: World, key: PublicKey, relays: nat)
    requires Accepts(c, Replacement(w, key), relays)
    ensures var after := AppCore.Step(c, AppCore.Transit(Replacement(w, key)), relays);
            && ShowsAddition(c.machine.snapshot, w, key, after.machine.snapshot) && after.machine.pending.None?
            && after.tokens == c.tokens && after.nextToken == c.nextToken
  {
    hide Snapshot.Validates;
  }

  /** The transition that closes an addition: the registry as stored, the new key selected, signed out. */
  function Replacement(w: World, key: PublicKey): StateMachine.Transition {
    StateMachine.ReplaceRegistry(w.registry, Some(key))
  }

  /** What an addition for `key` leaves in stores and core: a cut of its plan, and the core untouched
      until the last store change, after which it is published and then receipted. */
  ghost predicate AdditionLeaves(w: World, before: AppCore.Core, plan: Plan, key: PublicKey, relays: nat,
                                 cut: nat, after: World, now: AppCore.Core) {
    && Reached(w, plan, cut, after)
    && (cut < 7 ==> now == before)
    && (cut == 7 ==> Published(before, Replacement(after, key), relays, now))
    && (cut >= 8 ==> Publishes(before, Replacement(after, key), relays, now))
  }

  // ---- Additions ----

  /** Persists one identity and publishes the new registry. A new request leaves a cut of its plan; it
      stops short only if a store call fails or the core refuses the new registry. */
  method PersistIdentity(s: Stores, core: AppCore.ApplicationCore, request: RequestId, kind: Kind, expected: nat,
                         identity: Identity, secret: Secret, previous: Option<Identity>)
    returns (r: Result<Identity>, ghost cut: nat)
    requires core.Consistent()
    modifies s, core, core.machine
    ensures core.Consistent()
    ensures var a := Addition(request, kind, expected, identity, secret,
                              if previous.Some? then Some(previous.value.availability) else None, old(s.selected),
                              old(core.machine.snapshot.revision) + 1);
            var before, m := old(core.View()), KeyMaterial(identity.key, secret);
            if request in old(s.journal) then
              && s.View() == old(s.View()) && core.View() == before
              && (|| r == PersistReplay(s.View(), request, kind, expected, m, AdditionOperation(a).prior)
                  || (r.Err? && s.budget == 0))
            else
              && AdditionLeaves(old(s.View()), before, AdditionPlan(a), identity.key, core.relays, cut, s.View(),
                                core.View())
              && (r.Ok? <==> cut == 8) && (r.Ok? ==> r.value == identity)
              && (r.Err? ==> || Stopped(s.budget, AdditionPlan(a), cut, s.View())
                             || (cut == 7 && !Accepts(before, Replacement(s.View(), identity.key), core.relays)))
  {
    hide Find; hide Insert; hide Update; hide Perform; hide AppCore.Step; hide StateMachine.Outcome;
    ghost var w := s.View();
    cut := 0;
    var selected := s.LoadSelected();
    if selected.Err? { return Err(Unavailable), cut; }
    var prior := Prior(selected.value, if previous.Some? then Some(previous.value.availability) else None);
    var op := Operation(request, kind, identity.key, Some(expected), IntentRecorded, prior, None);
    ghost var a := Addition(request, kind, expected, identity, secret, prior.availability, selected.value,
                            core.machine.snapshot.revision + 1);
    ghost var plan := AdditionPlan(a);
    assert op == AdditionOperation(a);
    assert Reached(w, plan, 0, s.View());
    var start := s.BeginOperation(op);
    match start {
      case Err(problem) => return Err(problem), cut;
      case Ok(Existing(operation)) =>
        var verified := VerifyCompletedReplay(s, operation, request, kind, expected, KeyMaterial(identity.key, secret));
        if verified.Err? { return Err(verified.error), cut; }
        var found := s.FindIdentity(operation.identity);
        if found.Err? { return Err(Unavailable), cut; }
        if found.value.None? { return Err(RecoveryRequired), cut; }
        return Ok(found.value.value), cut;
      case Ok(Started) =>
    }
    cut := 1;
    assert Reached(w, plan, cut, s.View());
    var done: Result<()>;
    done, cut := StoreIdentity(s, request, identity, secret, previous.Some?, w, a);
    if done.Err? { return Err(done.error), cut; }
    done, cut := CommitIdentity(s, core, request, identity.key, w, a);
    if done.Err? { return Err(done.error), cut; }
    return Ok(identity), cut;
  }

  /** Credential and record, each logged. `w` is the world the addition began in. */
  method StoreIdentity(s: Stores, request: RequestId, record: Identity, secret: Secret, repair: bool, ghost w: World,
                       ghost a: Addition)
    returns (done: Result<()>, ghost cut: nat)
    requires a.request == request && a.record == record && a.secret == secret && a.previous.Some? == repair
    requires Reached(w, AdditionPlan(a), 1, s.View())
    modifies s
    ensures Reached(w, AdditionPlan(a), cut, s.View())
    ensures if done.Ok? then cut == 5 else cut < 5 && Stopped(s.budget, AdditionPlan(a), cut, s.View())
  {
    hide Find; hide Insert; hide Update; hide Perform;
    cut := 1;
    done := s.PutCredential(request, record.key, secret);
    if done.Err? { return; }
    cut := 2;
    assert Reached(w, AdditionPlan(a), cut, s.View());
    done := s.AdvanceOperation(request, IntentRecorded, CredentialWritten);
    if done.Err? { return; }
    cut := 3;
    assert Reached(w, AdditionPlan(a), cut, s.View());
    if repair {
      done := s.UpdateIdentity(record);
    } else {
      done := s.InsertIdentity(record);
    }
    if done.Err? { return; }
    cut := 4;
    assert Reached(w, AdditionPlan(a), cut, s.View());
    done := s.AdvanceOperation(request, CredentialWritten, MetadataCommitted);
    if done.Err? { return; }
    cut := 5;
    assert Reached(w, AdditionPlan(a), cut, s.View());
  }

  /** Selection, publication and receipt. */
  method CommitIdentity(s: Stores, core: AppCore.ApplicationCore, request: RequestId, key: PublicKey, ghost w: World,
                        ghost a: Addition)
    returns (done: Result<()>, ghost cut: nat)
    requires a.request == request && a.record.key == key && a.resulting == core.machine.snapshot.revision + 1
    requires Reached(w, AdditionPlan(a), 5, s.View()) && core.Consistent()
    modifies s, core, core.machine
    ensures core.Consistent()
    ensures AdditionLeaves(w, old(core.View()), AdditionPlan(a), key, core.relays, cut, s.View(), core.View())
    ensures cut >= 5 && (done.Ok? <==> cut == 8)
    ensures done.Err? ==> || Stopped(s.budget, AdditionPlan(a), cut, s.View())
                          || (cut == 7 && !Accepts(old(core.View()), Replacement(s.View(), key), core.relays))
  {
    hide Find; hide Insert; hide Update; hide Perform; hide AppCore.Step; hide StateMachine.Outcome;
    cut := 5;
    done := s.SaveSelected(Some(key));
    if done.Err? { return; }
    cut := 6;
    assert Reached(w, AdditionPlan(a), cut, s.View());
    done := s.AdvanceOperation(request, MetadataCommitted, SelectionCommitted);
    if done.Err? { return; }
    cut := 7;
    assert Reached(w, AdditionPlan(a), cut, s.View());
    var listed := s.ListIdentities();
    if listed.Err? { return Err(Unavailable), cut; }
    var published := core.ApplyTransition(StateMachine.ReplaceRegistry(listed.value, Some(key)));
    if published.Err? { return Err(published.error), cut; }
    RevisionAfter(old(core.View()).machine, Replacement(s.View(), key), core.relays);
    FinalizeKeeps(s.View(), Finalize(request, SelectionCommitted, Completed, Some(published.value.revision)));
    done := s.FinalizeOperation(request, SelectionCommitted, Completed, Some(published.value.revision));
    if done.Err? { return; }
    cut := 8;
    assert Reached(w, AdditionPlan(a), cut, s.View());
  }

  lemma FinalizeKeeps(w: World, call: Call)
    requires call.Finalize?
    ensures Perform(w, call).Ok? ==> SameStores(Perform(w, call).value, w)
  {
    hide Find; hide Insert; hide Update; hide Remove;
  }

  lemma RevisionAfter(m: StateMachine.Machine, t: StateMachine.Transition, relays: nat)
    requires t.ReplaceRegistry? || t.ReplaceRegistryPreservingSession? || t.SignOut?
    requires StateMachine.Outcome(m, t, relays).Ok?
    ensures StateMachine.Outcome(m, t, relays).value.revision == m.snapshot.revision + 1
  {}

  method VerifyCompletedReplay(s: Stores, op: Operation, request: RequestId, kind: Kind, expected: nat, m: KeyMaterial)
    returns (r: Result<()>)
    modifies s`budget
    ensures match r
            case Ok(_) => VerifyReplay(s.View(), op, request, kind, expected, m).Ok?
            case Err(problem) => s.budget == 0 || VerifyReplay(s.View(), op, request, kind, expected, m) == Err(problem)
  {
    if op.request != request || op.kind != kind || op.identity != m.key || op.expectedRevision != Some(expected) {
      return Err(InvalidApplicationState);
    }
    if !CompletedOperation(op) { return Err(RecoveryRequired); }
    if op.terminal.value.request != request || op.terminal.value.identity != m.key {
      return Err(InvalidApplicationState);
    }
    r := s.VerifyCredential(request, m.key, m.secret);
  }

  /** Imports a key or repairs a missing credential. */
  method ImportSecretKey(s: Stores, core: AppCore.ApplicationCore, request: RequestId, expected: nat, m: KeyMaterial,
                         now: nat)
    returns (r: Result<Identity>, ghost cut: nat)
    requires core.Consistent()
    modifies s, core, core.machine
    ensures core.Consistent()
    ensures var before, w := old(core.View()), old(s.View());
            if request in w.journal then
              && s.View() == w && core.View() == before
              && (r == ImportReplay(w, request, expected, m) || (r.Err? && s.budget == 0))
            else
              var revision := before.machine.snapshot.revision;
              var c := ImportIdentity(request, expected, revision, m, now, revision + 1);
              var plan := CommandPlan(w, c);
              && AdditionLeaves(w, before, plan, m.key, core.relays, cut, s.View(), core.View())
              && (r.Ok? <==> cut == 8)
              && (r.Ok? ==>
                    && Find(s.registry, m.key) == Some(r.value)
                    && ShowsAddition(before.machine.snapshot, s.View(), m.key, core.machine.snapshot)
                    && match Find(w.registry, m.key)
                       case None =>
                         && IsNew(r.value, m.key, now)
                         && Added(w, s.View(), request, Import, expected, m.secret, r.value, revision + 1)
                       case Some(record) =>
                         && record.availability == CredentialMissing && r.value == record.(availability := Available)
                         && Added(w, s.View(), request, Repair, expected, m.secret, r.value, revision + 1))
              && (r.Err? && plan == [] && s.budget > 0 ==>
                    r.error == if revision != expected then InvalidApplicationState else IdentityAlreadyExists)
              && (r.Err? ==> || plan == [] || Stopped(s.budget, plan, cut, s.View())
                             || (cut == 7 && !Accepts(before, Replacement(s.View(), m.key), core.relays)))
  {
    hide Find; hide Insert; hide Update; hide Perform; hide AppCore.Step; hide StateMachine.Outcome;
    ghost var w := s.View();
    cut := 0;
    var existing := s.LoadOperation(request);
    if existing.Err? { return Err(Unavailable), cut; }
    if existing.value.Some? {
      r := ReplayImport(s, existing.value.value, request, expected, m);
      return r, cut;
    }
    if core.published.revision != expected { return Err(InvalidApplicationState), cut; }
    var previous := s.FindIdentity(m.key);
    if previous.Err? { return Err(Unavailable), cut; }
    if previous.value.Some? && previous.value.value.availability != CredentialMissing {
      return Err(IdentityAlreadyExists), cut;
    }
    var present := s.ContainsCredential(m.key);
    if present.Err? { return Err(Unavailable), cut; }
    if present.value { return Err(IdentityAlreadyExists), cut; }
    var identity := if previous.value.Some? then previous.value.value.(availability := Available)
    else NewIdentity(m.key, now);
    var kind := if previous.value.Some? then Repair else Import;
    FoundKey(w.registry, m.key);
    r, cut := PersistIdentity(s, core, request, kind, expected, identity, m.secret, previous.value);
    if r.Ok? {
      ghost var revision := old(core.machine.snapshot.revision);
      ghost var a := ImportAddition(w, ImportIdentity(request, expected, revision, m, now, revision + 1));
      AdditionAdds(w, a, s.View());
      ReplacementYields(old(core.View()), s.View(), m.key, core.relays);
    }
  }

  lemma FoundKey(records: Records, key: PublicKey)
    ensures Has(records, key) ==> Find(records, key).value.key == key
  {}

  method ReplayImport(s: Stores, op: Operation, request: RequestId, expected: nat,
                      m: KeyMaterial) returns (r: Result<Identity>)
    requires request in s.journal && s.journal[request] == op
    modifies s`budget
    ensures r == ImportReplay(s.View(), request, expected, m) || (r.Err? && s.budget == 0)
  {
    hide Find;
    if op.kind != Import && op.kind != Repair { return Err(InvalidApplicationState); }
    if !CompletedOperation(op) { return Err(RecoveryRequired); }
    var verified := VerifyCompletedReplay(s, op, request, op.kind, expected, m);
    if verified.Err? { return Err(verified.error); }
    var found := s.FindIdentity(m.key);
    if found.Err? { return Err(Unavailable); }
    if found.value.None? { return Err(RecoveryRequired); }
    return Ok(found.value.value);
  }

  /** Commits a generated key. */
  method CreateNewIdentity(s: Stores, core: AppCore.ApplicationCore, request: RequestId, expected: nat, m: KeyMaterial,
                           now: nat)
    returns (r: Result<Identity>, ghost cut: nat)
    requires core.Consistent()
    modifies s, core, core.machine
    ensures core.Consistent()
    ensures var before, w := old(core.View()), old(s.View());
            var revision := before.machine.snapshot.revision;
            var plan := CommandPlan(w, CreateIdentity(request, expected, revision, m, now, revision + 1));
            && AdditionLeaves(w, before, plan, m.key, core.relays, cut, s.View(), core.View())
            && (if request in w.journal then
                  || (r.Err? && (s.budget == 0 || revision != expected))
                  || r == PersistReplay(w, request, Create, expected, m, Prior(w.selected, None))
                else
                  && (r.Ok? <==> cut == 8)
                  && (r.Ok? ==>
                        && IsNew(r.value, m.key, now) && Find(s.registry, m.key) == Some(r.value)
                        && Added(w, s.View(), request, Create, expected, m.secret, r.value, revision + 1)
                        && ShowsAddition(before.machine.snapshot, s.View(), m.key, core.machine.snapshot))
                  && (r.Err? && plan == [] ==> r.error == InvalidApplicationState && revision != expected)
                  && (r.Err? ==> || plan == [] || Stopped(s.budget, plan, cut, s.View())
                                 || (cut == 7 && !Accepts(before, Replacement(s.View(), m.key), core.relays))))
  {
    hide AppCore.Step; hide StateMachine.Outcome; hide Perform; hide PersistReplay;
    cut := 0;
    if core.published.revision != expected { return Err(InvalidApplicationState), cut; }
    r, cut := PersistIdentity(s, core, request, Create, expected, NewIdentity(m.key, now), m.secret, None);
    if request in old(s.journal) {
      cut := 0;
    } else if r.Ok? {
      ghost var revision := old(core.machine.snapshot.revision);
      ghost var done := CreationAdds(old(s.View()), CreateIdentity(request, expected, revision, m, now, revision + 1));
      ReplacementYields(old(core.View()), s.View(), m.key, core.relays);
    }
  }

  // ---- Removal ----

  /** The in-memory steps of a removal: sign out if the target is active, then publish what remains. */
  ghost function SignedOutOf(c: AppCore.Core, key: PublicKey, relays: nat): AppCore.Core {
    var active := c.machine.snapshot.active;
    if active.Some? && active.value.identity.key == key && !c.machine.snapshot.session.SignedOut? then
      AppCore.Step(c, AppCore.Transit(StateMachine.SignOut), relays)
    else c
  }

  function Closing(w: World, fallback: Option<PublicKey>): StateMachine.Transition {
    StateMachine.ReplaceRegistryPreservingSession(w.registry, fallback)
  }

  /** The revision that the receipt of a removal carries. */
  ghost function ClosingRevision(c: AppCore.Core, key: PublicKey, relays: nat): nat {
    SignedOutOf(c, key, relays).machine.snapshot.revision + 1
  }

  /** What a removal of `key` leaves in stores and core: a cut of its plan; the core untouched before the
      intent, signed out of `key` after it, and published after the last store change. */
  ghost predicate RemovalLeaves(w: World, before: AppCore.Core, plan: Plan, key: PublicKey, fallback: Option<PublicKey>,
                                relays: nat, cut: nat, after: World, now: AppCore.Core) {
    var ready := SignedOutOf(before, key, relays);
    && Reached(w, plan, cut, after)
    && (cut == 0 ==> now == before)
    && (1 <= cut < 7 ==> now == ready)
    && (cut == 7 ==> Published(ready, Closing(after, fallback), relays, now))
    && (cut >= 8 ==> Publishes(ready, Closing(after, fallback), relays, now))
  }

  /** The entry is a removal of `key` at revision `expected` that would select the same fallback. */
  predicate IsRepeated(op: Operation, expected: nat, registry: Records, key: PublicKey, selected: Option<PublicKey>)
    requires Has(registry, key)
  {
    && op.kind == RemoveKind && op.identity == key && op.expectedRevision == Some(expected)
    && op.prior.selected == Fallback(registry, selected, key)
    && op.prior.availability == Some(Find(registry, key).value.availability)
  }

  /** Executes a confirmed removal. `token` must be current; `before` below is the core without it. */
  method ConfirmIdentityRemoval(s: Stores, core: AppCore.ApplicationCore, request: RequestId, token: AppCore.Token,
                                now: nat)
    returns (r: Result<Snapshot.AppSnapshot>, ghost cut: nat)
    requires core.Consistent()
    modifies s, core, core.machine
    ensures core.Consistent() && (r.Ok? ==> r.value == core.machine.snapshot)
    ensures var w, before := old(s.View()), AppCore.Step(old(core.View()), AppCore.Consume(token, now), core.relays);
            var key, selected := token.state.key, before.machine.snapshot.selected;
            var c := RemoveIdentity(request, token.state.revision, key, selected,
                                    ClosingRevision(before, key, core.relays));
            var plan := CommandPlan(w, c);
            if AppCore.Consumed(old(core.View()), token, now).Err? then
              r.Err? && s.View() == w && core.View() == before && cut == 0
            else if plan == [] then
              && s.View() == w && core.View() == before && cut == 0
              && (s.budget > 0 ==>
                    if !Has(w.registry, key) then r == Err(IdentityNotFound)
                    else
                      && request in w.journal
                      && if !IsRepeated(w.journal[request], token.state.revision, w.registry, key, selected) then
                           r == Err(InvalidApplicationState)
                         else if w.journal[request].terminal.Some?
                                 && w.journal[request].terminal.value.outcome == Completed then r.Ok?
                         else r == Err(RecoveryRequired))
            else
              var fallback := Fallback(w.registry, selected, key);
              && RemovalLeaves(w, before, plan, key, fallback, core.relays, cut, s.View(), core.View())
              && (r.Ok? <==> cut == 8)
              && (r.Ok? ==>
                    && Removed(w, s.View(), request, token.state.revision, key, selected, r.value.revision)
                    && ShowsRemoval(before.machine.snapshot, s.View(), key, r.value))
              && (r.Err? ==> || Stopped(s.budget, plan, cut, s.View())
                             || (cut == 1 && !Accepts(before, StateMachine.SignOut, core.relays))
                             || (cut == 7 && !Accepts(SignedOutOf(before, key, core.relays),
                                                      Closing(s.View(), fallback), core.relays)))
  {
    ghost var w := s.View();
    cut := 0;
    var consumed := core.ConsumeRemovalToken(token, now);
    if consumed.Err? { return Err(consumed.error), cut; }
    var key := consumed.value;
    ghost var before := core.View();
    var listed := s.ListIdentities();
    if listed.Err? { return Err(Unavailable), cut; }
    var registry := listed.value;
    if !Has(registry, key) { return Err(IdentityNotFound), cut; }
    var availability := Find(registry, key).value.availability;
    var fallback := Fallback(registry, core.published.selected, key);
    ghost var removal := Removal(request, token.state.revision, key, availability, fallback,
                                 ClosingRevision(before, key, core.relays));
    hide Find; hide Remove; hide Perform; hide AppCore.Step; hide StateMachine.Outcome; hide Fallback; hide Removed;
    hide ShowsRemoval;
    assert request !in w.journal ==> Reached(w, RemovalPlan(removal), 0, s.View());
    var start := s.BeginOperation(RemovalIntent(request, token.state.revision, key, availability, fallback));
    match start {
      case Err(problem) => return Err(problem), cut;
      case Ok(Existing(op)) =>
        if op.terminal.Some? && op.terminal.value.outcome == Completed { return Ok(core.published), cut; }
        return Err(RecoveryRequired), cut;
      case Ok(Started) =>
    }
    cut := 1;
    assert Reached(w, RemovalPlan(removal), cut, s.View());
    r, cut := ExecuteRemoval(s, core, request, key, availability, fallback, w, removal);
  }

  /** What a removal does once its intent is recorded. `w` is the world it began in. */
  method ExecuteRemoval(s: Stores, core: AppCore.ApplicationCore, request: RequestId, key: PublicKey,
                        availability: Availability, fallback: Option<PublicKey>, ghost w: World, ghost removal: Removal)
    returns (r: Result<Snapshot.AppSnapshot>, ghost cut: nat)
    requires core.Consistent() && Reached(w, RemovalPlan(removal), 1, s.View())
    requires removal.request == request && removal.key == key && removal.fallback == fallback
    requires removal.resulting == ClosingRevision(core.View(), key, core.relays)
    requires Has(w.registry, key) && removal.availability == availability == Find(w.registry, key).value.availability
    requires fallback == Fallback(w.registry, core.machine.snapshot.selected, key)
    modifies s, core, core.machine
    ensures core.Consistent() && cut >= 1 && (r.Ok? <==> cut == 8) && (r.Ok? ==> r.value == core.machine.snapshot)
    ensures RemovalLeaves(w, old(core.View()), RemovalPlan(removal), key, fallback, core.relays, cut, s.View(),
                          core.View())
    ensures r.Ok? ==>
              && Removed(w, s.View(), request, removal.expected, key, old(core.machine.snapshot.selected),
                         r.value.revision)
              && ShowsRemoval(old(core.machine.snapshot), s.View(), key, r.value)
    ensures r.Err? ==> || Stopped(s.budget, RemovalPlan(removal), cut, s.View())
                       || (cut == 1 && !Accepts(old(core.View()), StateMachine.SignOut, core.relays))
                       || (cut == 7 && !Accepts(SignedOutOf(old(core.View()), key, core.relays),
                                                Closing(s.View(), fallback), core.relays))
  {
    hide Find; hide Remove; hide Perform; hide AppCore.Step; hide StateMachine.Outcome; hide Fallback; hide Removed;
    hide ShowsRemoval; hide Exec;
    ghost var before := core.View();
    cut := 1;
    var active := core.published.active;
    if active.Some? && active.value.identity.key == key {
      var signedOut := SignOut(core);
      if signedOut.Err? { return Err(signedOut.error), cut; }
    }
    assert core.View() == SignedOutOf(before, key, core.relays);
    var erased: Result<()>;
    erased, cut := EraseIdentity(s, request, key, availability, w, removal);
    if erased.Err? { return Err(erased.error), cut; }
    r, cut := CommitRemoval(s, core, request, key, fallback, w, before, removal);
    if r.Ok? {
      RemovalRemoves(w, removal, before.machine.snapshot.selected, s.View());
      RemovalSelects(w, removal, s.View());
      ClosingYields(before, s.View(), key, fallback, core.relays);
      RevisionOfClosing(before, s.View(), key, fallback, core.relays);
    }
  }

  lemma RemovalSelects(w: World, removal: Removal, after: World)
    requires Exec(w, RemovalPlan(removal), 8) == Run(after, true)
    ensures after.selected == removal.fallback
  {
    RemovalDone(w, removal, after);
  }

  lemma RevisionOfClosing(c: AppCore.Core, w: World, key: PublicKey, fallback: Option<PublicKey>, relays: nat)
    requires Accepts(SignedOutOf(c, key, relays), Closing(w, fallback), relays)
    ensures var after := AppCore.Step(SignedOutOf(c, key, relays), AppCore.Transit(Closing(w, fallback)), relays);
            after.machine.snapshot.revision == ClosingRevision(c, key, relays)
  {
    hide Snapshot.Validates;
  }

  predicate EndsSession(s: Snapshot.AppSnapshot, key: PublicKey) {
    s.active.Some? && s.active.value.identity.key == key && !s.session.SignedOut?
  }

  /** The snapshot after a removal: registry and selection as stored, and a session of the target ended
      while any other is kept. */
  predicate ShowsRemoval(before: Snapshot.AppSnapshot, w: World, key: PublicKey, after: Snapshot.AppSnapshot) {
    var ends := EndsSession(before, key);
    && after.identities == w.registry && after.selected == w.selected && after.lifecycle.Ready? && after.problem.None?
    && after.relays == before.relays && after.runtimeSession.None?
    && after.session == (if ends then Snapshot.SignedOut else before.session)
    && after.active == (if ends then None else before.active)
    && after.revision == before.revision + if ends then 2 else 1
  }

  lemma ClosingYields(c: AppCore.Core, w: World, key: PublicKey, fallback: Option<PublicKey>, relays: nat)
    requires Accepts(SignedOutOf(c, key, relays), Closing(w, fallback), relays) && w.selected == fallback
    requires EndsSession(c.machine.snapshot, key) ==> Accepts(c, StateMachine.SignOut, relays)
    ensures var after := AppCore.Step(SignedOutOf(c, key, relays), AppCore.Transit(Closing(w, fallback)), relays);
            ShowsRemoval(c.machine.snapshot, w, key, after.machine.snapshot)
  {
    hide Snapshot.Validates;
  }

  /** Drops the active session, if there is one. */
  method SignOut(core: AppCore.ApplicationCore) returns (r: Result<()>)
    requires core.Consistent()
    modifies core, core.machine
    ensures core.Consistent()
    ensures if old(core.machine.snapshot.session.SignedOut?) then r.Ok? && core.View() == old(core.View())
            else && r.Ok? == Accepts(old(core.View()), StateMachine.SignOut, core.relays)
                 && core.View() == AppCore.Step(old(core.View()), AppCore.Transit(StateMachine.SignOut), core.relays)
  {
    if core.published.session.SignedOut? { return Ok(()); }
    var done := core.ApplyTransition(StateMachine.SignOut);
    if done.Err? { return Err(done.error); }
    return Ok(());
  }

  lemma TolerantDelete(w: World, key: PublicKey, missingAllowed: bool)
    ensures Perform(w, Delete(key, missingAllowed)) ==
            if missingAllowed && Perform(w, Delete(key, false)) == Err(CredentialMissingError) then Ok(w)
            else Perform(w, Delete(key, false))
  {
    hide Find; hide Insert; hide Update; hide Remove;
  }

  /** Deletes credential and record, each logged. A missing credential is accepted only if the record says so. */
  method EraseIdentity(s: Stores, request: RequestId, key: PublicKey, availability: Availability,
                       ghost w: World, ghost removal: Removal)
    returns (done: Result<()>, ghost cut: nat)
    requires removal.request == request && removal.key == key && removal.availability == availability
    requires Reached(w, RemovalPlan(removal), 1, s.View())
    modifies s
    ensures Reached(w, RemovalPlan(removal), cut, s.View())
    ensures cut >= 1
    ensures if done.Ok? then cut == 5 else cut < 5 && Stopped(s.budget, RemovalPlan(removal), cut, s.View())
  {
    hide Find; hide Remove; hide Perform;
    cut := 1;
    TolerantDelete(s.View(), key, availability == CredentialMissing);
    done := s.DeleteCredential(key);
    if done.Err? && !(done.error == CredentialMissingError && availability == CredentialMissing) { return; }
    cut := 2;
    assert Reached(w, RemovalPlan(removal), cut, s.View());
    done := s.AdvanceOperation(request, IntentRecorded, CredentialDeleted);
    if done.Err? { return; }
    cut := 3;
    assert Reached(w, RemovalPlan(removal), cut, s.View());
    done := s.RemoveIdentity(key);
    if done.Err? { return; }
    cut := 4;
    assert Reached(w, RemovalPlan(removal), cut, s.View());
    done := s.AdvanceOperation(request, CredentialDeleted, MetadataDeleted);
    if done.Err? { return; }
    cut := 5;
    assert Reached(w, RemovalPlan(removal), cut, s.View());
  }

  method CommitRemoval(s: Stores, core: AppCore.ApplicationCore, request: RequestId, ghost key: PublicKey,
                       fallback: Option<PublicKey>, ghost w: World, ghost before: AppCore.Core, ghost removal: Removal)
    returns (r: Result<Snapshot.AppSnapshot>, ghost cut: nat)
    requires removal.request == request && removal.fallback == fallback
    requires removal.resulting == core.machine.snapshot.revision + 1
    requires core.View() == SignedOutOf(before, key, core.relays)
    requires Reached(w, RemovalPlan(removal), 5, s.View()) && core.Consistent()
    modifies s, core, core.machine
    ensures core.Consistent() && (r.Ok? ==> r.value == core.machine.snapshot)
    ensures RemovalLeaves(w, before, RemovalPlan(removal), key, fallback, core.relays, cut, s.View(), core.View())
    ensures cut >= 5 && (r.Ok? <==> cut == 8)
    ensures r.Err? ==> || Stopped(s.budget, RemovalPlan(removal), cut, s.View())
                       || (cut == 7 && !Accepts(old(core.View()), Closing(s.View(), fallback), core.relays))
  {
    hide Find; hide Remove; hide Perform; hide AppCore.Step; hide StateMachine.Outcome; hide SignedOutOf;
    cut := 5;
    var done := s.SaveSelected(fallback);
    if done.Err? { return Err(done.error), cut; }
    cut := 6;
    assert Reached(w, RemovalPlan(removal), cut, s.View());
    done := s.AdvanceOperation(request, MetadataDeleted, SelectionCommitted);
    if done.Err? { return Err(done.error), cut; }
    cut := 7;
    assert Reached(w, RemovalPlan(removal), cut, s.View());
    var listed := s.ListIdentities();
    if listed.Err? { return Err(Unavailable), cut; }
    r := core.ApplyTransition(StateMachine.ReplaceRegistryPreservingSession(listed.value, fallback));
    if r.Err? { return; }
    RevisionAfter(old(core.View()).machine, Closing(s.View(), fallback), core.relays);
    FinalizeKeeps(s.View(), Finalize(request, SelectionCommitted, Completed, Some(r.value.revision)));
    done := s.FinalizeOperation(request, SelectionCommitted, Completed, Some(r.value.revision));
    if done.Err? { return Err(done.error), cut; }
    cut := 8;
    assert Reached(w, RemovalPlan(removal), cut, s.View());
  }

  // ---- Recovery ----

  /** Start-up recovery of every unfinished operation, in request order. */
  method RecoverDurableOperations(s: Stores) returns (r: Result<()>, ghost cut: nat)
    modifies s
    ensures s.View() == Recover(old(s.View()), cut).world
    ensures r.Ok? ==> Recover(old(s.View()), cut).ok
    ensures r.Err? ==> s.budget == 0 || forall more: nat :: !Recover(old(s.View()), more).ok
  {
    hide RecoveryPlan; hide Exec; hide InOrder;
    ghost var w := s.View();
    cut := 0;
    var listed := s.ListUnfinished();
    if listed.Err? {
      RecoverNothing(w, Listing(w));
      return Err(Unavailable), cut;
    }
    var ops := listed.value;
    var i := 0;
    assert ops[0..] == ops;
    while i < |ops|
      invariant 0 <= i <= |ops|
      invariant Behind(w, ops, cut, s.View(), ops[i..])
    {
      ghost var here, used: nat := s.View(), 0;
      assert ops[i..][1..] == ops[i + 1..];
      if ops[i].kind == RemoveKind {
        r, used := RecoverDurableRemoval(s, ops[i]);
      } else {
        r, used := RecoverDurableAddition(s, ops[i]);
      }
      if r.Err? {
        RecoverInterrupted(here, ops[i..], used, s.View());
        if s.budget != 0 { RefusedForGood(w, ops, cut, here, ops[i..], used, s.View()); }
        cut := cut + used;
        return;
      }
      BehindStep(w, ops, cut, here, ops[i..], s.View());
      cut := cut + used;
      i := i + 1;
    }
    assert RecoverListed(w, ops, cut) == RecoverListed(s.View(), [], 0);
    r := Ok(());
  }

  /** After `cut` changing calls, recovery of `ops` from `w` goes on as recovery of `rest` from `here`. */
  ghost predicate Behind(w: World, ops: seq<Operation>, cut: nat, here: World, rest: seq<Operation>) {
    forall total: nat :: total >= cut ==> RecoverListed(w, ops, total) == RecoverListed(here, rest, total - cut)
  }

  lemma BehindStep(w: World, ops: seq<Operation>, cut: nat, here: World, rest: seq<Operation>, after: World)
    requires Behind(w, ops, cut, here, rest)
    requires rest != [] && Reached(here, RecoveryPlan(here, rest[0]), |RecoveryPlan(here, rest[0])|, after)
    ensures Behind(w, ops, cut + |RecoveryPlan(here, rest[0])|, after, rest[1..])
  {}

  /** Once recovery meets a refused call, no recovery from the same world completes. */
  lemma RefusedForGood(w: World, ops: seq<Operation>, cut: nat, here: World, rest: seq<Operation>, used: nat,
                       after: World)
    requires Behind(w, ops, cut, here, rest) && rest != []
    requires var plan := RecoveryPlan(here, rest[0]);
             Reached(here, plan, used, after) && used < |plan| && Perform(after, plan[used]).Err?
    ensures forall more: nat :: !RecoverListed(w, ops, more).ok
  {
    var plan := RecoveryPlan(here, rest[0]);
    assert !Exec(here, plan, used + 1).ok;
    ExecStuck(here, plan, used + 1, |plan|);
    forall more: nat ensures !RecoverListed(w, ops, more).ok {
      var total := cut + more + |plan|;
      assert RecoverListed(w, ops, total) == RecoverListed(here, rest, total - cut);
      assert !RecoverListed(w, ops, total).ok;
      MoreIsNotLess(w, ops, more, total);
    }
  }

  /** A recovery that completes within some calls also completes if it may make more. */
  lemma MoreIsNotLess(w: World, ops: seq<Operation>, less: nat, more: nat)
    requires less <= more
    ensures RecoverListed(w, ops, less).ok ==> RecoverListed(w, ops, more).ok
    decreases |ops|
  {
    if ops != [] && less >= |RecoveryPlan(w, ops[0])| {
      var length := |RecoveryPlan(w, ops[0])|;
      MoreIsNotLess(Cut(w, RecoveryPlan(w, ops[0]), less).world, ops[1..], less - length, more - length);
    }
  }

  lemma RecoverNothing(w: World, ops: seq<Operation>)
    ensures RecoverListed(w, ops, 0).world == w
    decreases |ops|
  {}

  lemma RecoverInterrupted(w: World, ops: seq<Operation>, used: nat, after: World)
    requires ops != [] && Reached(w, RecoveryPlan(w, ops[0]), used, after)
    ensures RecoverListed(w, ops, used).world == after
  {
    if used == |RecoveryPlan(w, ops[0])| { RecoverNothing(after, ops[1..]); }
  }

  /** Rolls a removal forward from the phase its journal entry records. */
  method RecoverDurableRemoval(s: Stores, op: Operation) returns (r: Result<()>, ghost cut: nat)
    requires op.kind == RemoveKind
    modifies s
    ensures Reached(old(s.View()), RecoveryPlan(old(s.View()), op), cut, s.View())
    ensures if r.Ok? then cut == |RecoveryPlan(old(s.View()), op)|
            else Stopped(s.budget, RecoveryPlan(old(s.View()), op), cut, s.View())
  {
    hide RemovalRecovery; hide Perform;
    ghost var w := s.View();
    RemovalRecoveryShape(op, 0);
    var phase := op.phase;
    r, cut := Ok(()), 0;
    assert Reached(w, RemovalRecovery(op), 0, s.View());
    if phase == IntentRecorded || phase == CredentialDeleted {
      r, cut := EraseRemaining(s, op, w);
      if r.Err? { return; }
      phase := MetadataDeleted;
    }
    if phase == MetadataDeleted || phase == SelectionCommitted {
      r, cut := CommitRemaining(s, op, phase, w, cut);
    }
  }

  /** The credential and record steps that are still to be made. */
  method EraseRemaining(s: Stores, op: Operation, ghost w: World) returns (r: Result<()>, ghost cut: nat)
    requires op.phase == IntentRecorded || op.phase == CredentialDeleted
    requires Reached(w, RemovalRecovery(op), 0, s.View())
    modifies s
    ensures Reached(w, RemovalRecovery(op), cut, s.View())
    ensures if r.Ok? then cut == 4 - ResumeAt(op.phase) else Stopped(s.budget, RemovalRecovery(op), cut, s.View())
  {
    hide Perform; hide RemovalRecovery;
    ghost var plan := RemovalRecovery(op);
    cut := 0;
    RemovalRecoveryShape(op, cut);
    if op.phase == IntentRecorded {
      r := s.DropCredentialIfPresent(op.identity);
      if r.Err? { return; }
      cut := 1;
      assert Reached(w, plan, cut, s.View());
      RemovalRecoveryShape(op, cut);
      r := s.AdvanceOperation(op.request, IntentRecorded, CredentialDeleted);
      if r.Err? { return; }
      cut := 2;
      assert Reached(w, plan, cut, s.View());
      RemovalRecoveryShape(op, cut);
    }
    r := DropIdentityIfPresent(s, op.identity);
    if r.Err? { return; }
    cut := cut + 1;
    assert Reached(w, plan, cut, s.View());
    RemovalRecoveryShape(op, cut);
    r := s.AdvanceOperation(op.request, CredentialDeleted, MetadataDeleted);
    if r.Err? { return; }
    cut := cut + 1;
    assert Reached(w, plan, cut, s.View());
  }

  /** The selection step if it is still to be made, and the receipt. */
  method CommitRemaining(s: Stores, op: Operation, phase: Phase, ghost w: World, ghost from: nat)
    returns (r: Result<()>, ghost cut: nat)
    requires phase == MetadataDeleted || phase == SelectionCommitted
    requires ResumeAt(op.phase) + from == ResumeAt(phase)
    requires Reached(w, RemovalRecovery(op), from, s.View())
    modifies s
    ensures Reached(w, RemovalRecovery(op), cut, s.View())
    ensures if r.Ok? then cut == 7 - ResumeAt(op.phase) else Stopped(s.budget, RemovalRecovery(op), cut, s.View())
  {
    hide Perform; hide RemovalRecovery;
    ghost var plan := RemovalRecovery(op);
    cut := from;
    RemovalRecoveryShape(op, cut);
    if phase == MetadataDeleted {
      r := s.SaveSelected(op.prior.selected);
      if r.Err? { return; }
      cut := cut + 1;
      assert Reached(w, plan, cut, s.View());
      RemovalRecoveryShape(op, cut);
      r := s.AdvanceOperation(op.request, MetadataDeleted, SelectionCommitted);
      if r.Err? { return; }
      cut := cut + 1;
      assert Reached(w, plan, cut, s.View());
      RemovalRecoveryShape(op, cut);
    }
    r := s.FinalizeOperation(op.request, SelectionCommitted, Completed, None);
    if r.Err? { return; }
    cut := cut + 1;
    assert Reached(w, plan, cut, s.View());
  }

  method DropIdentityIfPresent(s: Stores, key: PublicKey) returns (r: Result<()>)
    modifies s
    ensures Did(old(s.View()), DropRecord(key), r, s.View(), s.budget)
  {
    hide Find; hide Remove;
    var found := s.FindIdentity(key);
    if found.Err? { return Err(Unavailable); }
    if found.value.Some? {
      r := s.RemoveIdentity(key);
      return;
    }
    return Ok(());
  }

  method RecoverDurableAddition(s: Stores, op: Operation) returns (r: Result<()>, ghost cut: nat)
    requires op.kind != RemoveKind
    modifies s
    ensures Reached(old(s.View()), RecoveryPlan(old(s.View()), op), cut, s.View())
    ensures if r.Ok? then cut == |RecoveryPlan(old(s.View()), op)|
            else Stopped(s.budget, RecoveryPlan(old(s.View()), op), cut, s.View())
  {
    hide Find; hide Remove; hide Update;
    ghost var w, plan := s.View(), RecoveryPlan(s.View(), op);
    cut := 0;
    assert Reached(w, plan, cut, s.View());
    match op.phase
    case IntentRecorded =>
      r := s.DropCredentialIfPresent(op.identity);
      if r.Err? { return; }
      cut := 1;
      assert Reached(w, plan, cut, s.View());
      r := s.FinalizeOperation(op.request, IntentRecorded, Failed, None);
      if r.Ok? { cut := 2; }
    case CredentialWritten =>
      var found := s.FindIdentity(op.identity);
      if found.Err? { return Err(Unavailable), cut; }
      if found.value.Some? && found.value.value.availability == Available {
        r := s.AdvanceOperation(op.request, CredentialWritten, MetadataCommitted);
        if r.Err? { return; }
        cut := 1;
        assert Reached(w, plan, cut, s.View());
        r, cut := FinishDurableSelection(s, op, w, plan, cut);
      } else {
        r := s.AdvanceOperation(op.request, CredentialWritten, CompensationPending);
        if r.Err? { return; }
        cut := 1;
        assert Reached(w, plan, cut, s.View());
        r, cut := CompensateDurableAddition(s, op, w, plan, cut);
      }
    case MetadataCommitted =>
      r, cut := FinishDurableSelection(s, op, w, plan, cut);
    case SelectionCommitted =>
      r := s.FinalizeOperation(op.request, SelectionCommitted, Completed, None);
      if r.Ok? { cut := 1; }
    case CompensationPending =>
      r, cut := CompensateDurableAddition(s, op, w, plan, cut);
    case CredentialDeleted | MetadataDeleted =>
      r := s.FinalizeOperation(op.request, op.phase, Failed, None);
      if r.Ok? { cut := 1; }
    case Finalized =>
      r := Ok(());
  }

  /** Runs the last calls of `plan`, which are those of `FinishSelection`. */
  method FinishDurableSelection(s: Stores, op: Operation, ghost w: World, ghost plan: Plan, ghost from: nat)
    returns (r: Result<()>, ghost cut: nat)
    requires Reached(w, plan, from, s.View()) && plan[from..] == FinishSelection(op)
    modifies s
    ensures Reached(w, plan, cut, s.View())
    ensures if r.Ok? then cut == |plan| else Stopped(s.budget, plan, cut, s.View())
  {
    hide Find;
    cut := from;
    assert forall i :: 0 <= i < 3 ==> plan[from + i] == plan[from..][i];
    r := s.SaveSelected(Some(op.identity));
    if r.Err? { return; }
    cut := from + 1;
    assert Reached(w, plan, cut, s.View());
    r := s.AdvanceOperation(op.request, MetadataCommitted, SelectionCommitted);
    if r.Err? { return; }
    cut := from + 2;
    assert Reached(w, plan, cut, s.View());
    r := s.FinalizeOperation(op.request, SelectionCommitted, Completed, None);
    if r.Err? { return; }
    cut := from + 3;
    assert Reached(w, plan, cut, s.View());
  }

  /** Runs the last calls of `plan`, which are those of `Compensate`. */
  method CompensateDurableAddition(s: Stores, op: Operation, ghost w: World, ghost plan: Plan, ghost from: nat)
    returns (r: Result<()>, ghost cut: nat)
    requires Reached(w, plan, from, s.View()) && plan[from..] == Compensate(op)
    modifies s
    ensures Reached(w, plan, cut, s.View())
    ensures if r.Ok? then cut == |plan| else Stopped(s.budget, plan, cut, s.View())
  {
    hide Perform;
    cut := from;
    assert forall i :: 0 <= i < 5 ==> plan[from + i] == plan[from..][i];
    r := s.DropCredentialIfPresent(op.identity);
    if r.Err? { return; }
    cut := from + 1;
    assert Reached(w, plan, cut, s.View());
    if op.prior.availability.Some? {
      r := RestoreAvailability(s, op.identity, op.prior.availability.value);
    } else {
      r := DropIdentityIfPresent(s, op.identity);
    }
    if r.Err? { return; }
    cut := from + 2;
    assert Reached(w, plan, cut, s.View());
    r := s.SaveSelected(op.prior.selected);
    if r.Err? { return; }
    cut := from + 3;
    assert Reached(w, plan, cut, s.View());
    r := s.AdvanceOperation(op.request, CompensationPending, CredentialDeleted);
    if r.Err? { return; }
    cut := from + 4;
    assert Reached(w, plan, cut, s.View());
    r := s.FinalizeOperation(op.request, CredentialDeleted, Failed, None);
    if r.Err? { return; }
    cut := from + 5;
    assert Reached(w, plan, cut, s.View());
  }

  method RestoreAvailability(s: Stores, key: PublicKey, availability: Availability) returns (r: Result<()>)
    modifies s
    ensures Did(old(s.View()), RestoreRecord(key, availability), r, s.View(), s.budget)
  {
    FoundKey(s.registry, key);
    hide Find; hide Update;
    var found := s.FindIdentity(key);
    if found.Err? { return Err(Unavailable); }
    if found.value.Some? {
      var restored := s.UpdateIdentity(found.value.value.(availability := availability));
      if restored.Err? { return Err(Unavailable); }
    }
    return Ok(());
  }
}
