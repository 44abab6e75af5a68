/** The durable world of the identity protocol: the keyring, the identity registry, the selected
    identity and the operation journal, with every store call as one atomic step.

    A process runs a plan, a sequence of store calls, and may die after any number of them. `Exec`
    gives the world after the first `cut` calls of a plan, stopping at a call that is refused.
*/
module Durable {
  import opened Domain
  import opened Registry

  datatype Kind = Create | Import | Repair | RemoveKind

  datatype Phase =
    | IntentRecorded
    | CredentialWritten
    | MetadataCommitted
    | SelectionCommitted
    | CompensationPending
    | CredentialDeleted
    | MetadataDeleted
    | Finalized

  datatype Outcome = Completed | Cancelled | Failed

  datatype Prior = Prior(selected: Option<PublicKey>, availability: Option<Availability>)

  datatype Receipt = Receipt(
    request: RequestId, identity: PublicKey, outcome: Outcome, revision: Option<nat>)

  datatype Operation = Operation(
    request: RequestId,
    kind: Kind,
    identity: PublicKey,
    expectedRevision: Option<nat>,
    phase: Phase,
    prior: Prior,
    terminal: Option<Receipt>)

  datatype Credential = Credential(request: RequestId, secret: Secret)

  datatype World = World(
    keyring: map<PublicKey, Credential>,
    registry: Records,
    selected: Option<PublicKey>,
    journal: map<RequestId, Operation>)

  /** One awaited store call that may change the world.

      `DropCredential`, `DropRecord` and `RestoreRecord` are a lookup followed by a change only if
      the lookup found something. The lookup changes nothing and the process is alone, so a crash
      between the two leaves the same world as a crash before both.
  */
  datatype Call =
    | Begin(operation: Operation)
    | Advance(request: RequestId, from: Phase, to: Phase)
    | Finalize(request: RequestId, from: Phase, outcome: Outcome, revision: Option<nat>)
    | Put(request: RequestId, key: PublicKey, secret: Secret)
    | Delete(key: PublicKey, missingAllowed: bool)
    | DropCredential(key: PublicKey)
    | InsertRecord(record: Identity)
    | UpdateRecord(record: Identity)
    | RemoveRecord(key: PublicKey)
    | DropRecord(key: PublicKey)
    | RestoreRecord(key: PublicKey, availability: Availability)
    | Select(selected: Option<PublicKey>)

  /** The effect of one call, or the refusal that leaves the world as it was. */
  function Perform(w: World, call: Call): Result<World> {
    match call
    case Begin(operation) =>
      if operation.request in w.journal then Err(InvalidApplicationState)
      else Ok(w.(journal := w.journal[operation.request := operation]))
    case Advance(request, from, to) =>
      if !InPhase(w, request, from) then Err(InvalidApplicationState)
      else Ok(w.(journal := w.journal[request := w.journal[request].(phase := to)]))
    case Finalize(request, from, outcome, revision) =>
      if !InPhase(w, request, from) then Err(InvalidApplicationState)
      else
        var operation := w.journal[request];
        var receipt := Receipt(request, operation.identity, outcome, revision);
        Ok(w.(journal := w.journal[request := operation.(phase := Finalized, terminal := Some(receipt))]))
    case Put(request, key, secret) =>
      if key in w.keyring then Err(IdentityAlreadyExists)
      else Ok(w.(keyring := w.keyring[key := Credential(request, secret)]))
    case Delete(key, missingAllowed) =>
      if key in w.keyring then Ok(w.(keyring := w.keyring - {key}))
      else if missingAllowed then Ok(w)
      else Err(CredentialMissingError)
    case DropCredential(key) =>
      Ok(if key in w.keyring then w.(keyring := w.keyring - {key}) else w)
    case InsertRecord(record) =>
      if Has(w.registry, record.key) then Err(IdentityAlreadyExists)
      else Ok(w.(registry := Insert(w.registry, record)))
    case UpdateRecord(record) =>
      if !Has(w.registry, record.key) then Err(IdentityNotFound)
      else Ok(w.(registry := Update(w.registry, record)))
    case RemoveRecord(key) => Ok(WithoutRecord(w, key))
    case DropRecord(key) => Ok(if Has(w.registry, key) then WithoutRecord(w, key) else w)
    case RestoreRecord(key, availability) =>
      Ok(match Find(w.registry, key)
         case None => w
         case Some(record) => w.(registry := Update(w.registry, record.(availability := availability))))
    case Select(selected) =>
      if selected.Some? && !Has(w.registry, selected.value) then Err(IdentityNotFound)
      else Ok(w.(selected := selected))
  }

  /** The compare part of the journal's compare-and-set: the operation exists, is unfinished and is at `phase`. */
  predicate InPhase(w: World, request: RequestId, phase: Phase) {
    request in w.journal && w.journal[request].terminal.None? && w.journal[request].phase == phase
  }

  /** Removing a record also clears a selection of it. */
  function WithoutRecord(w: World, key: PublicKey): World {
    w.(registry := Remove(w.registry, key), selected := if w.selected == Some(key) then None else w.selected)
  }

  lemma AdvanceIs(w: World, request: RequestId, from: Phase, to: Phase)
    ensures Perform(w, Advance(request, from, to)) ==
            if InPhase(w, request, from) then Ok(w.(journal := w.journal[request := w.journal[request].(phase := to)]))
            else Err(InvalidApplicationState)
  {
    hide Find; hide Insert; hide Update; hide Remove;
  }

  lemma FinalizeIs(w: World, request: RequestId, from: Phase, outcome: Outcome, revision: Option<nat>)
    ensures Perform(w, Finalize(request, from, outcome, revision)) ==
            if InPhase(w, request, from) then
              var receipt := Receipt(request, w.journal[request].identity, outcome, revision);
              Ok(w.(journal := w.journal[request := w.journal[request].(phase := Finalized,
                 terminal := Some(receipt))]))
            else Err(InvalidApplicationState)
  {
    hide Find; hide Insert; hide Update; hide Remove;
  }

  lemma SelectIs(w: World, selected: Option<PublicKey>)
    ensures Perform(w, Select(selected)) ==
            if selected.Some? && !Has(w.registry, selected.value) then Err(IdentityNotFound)
            else Ok(w.(selected := selected))
  {
    hide Find; hide Insert; hide Update; hide Remove;
  }

  /** How far a plan got: the world it left, and whether no call was refused so far. */
  datatype Run = Run(world: World, ok: bool)

  type Plan = seq<Call>

  function Exec(w: World, plan: Plan, cut: nat): Run
    requires cut <= |plan|
  {
    if cut == 0 then Run(w, true)
    else
      var before := Exec(w, plan, cut - 1);
      if !before.ok then before
      else
        match Perform(before.world, plan[cut - 1])
        case Ok(after) => Run(after, true)
        case Err(_) => Run(before.world, false)
  }

  /** A process that dies after at most `cut` calls of `plan`. */
  function Cut(w: World, plan: Plan, cut: nat): Run {
    Exec(w, plan, if cut <= |plan| then cut else |plan|)
  }

  /** If each call of a plan leads from one given world to the next, every cut lands on a given world. */
  lemma {:induction false} ExecPath(worlds: nat -> World, plan: Plan, cut: nat)
    requires cut <= |plan|
    requires forall i: nat :: i < |plan| ==> Perform(worlds(i), plan[i]) == Ok(worlds(i + 1))
    ensures Exec(worlds(0), plan, cut) == Run(worlds(cut), true)
  {
    if cut > 0 { ExecPath(worlds, plan, cut - 1); }
  }

  /** A refused call freezes the rest of its plan. */
  lemma {:induction false} ExecStuck(w: World, plan: Plan, at: nat, cut: nat)
    requires at <= cut <= |plan| && !Exec(w, plan, at).ok
    ensures Exec(w, plan, cut) == Exec(w, plan, at)
  {
    if at < cut { ExecStuck(w, plan, at, cut - 1); }
  }

  // ---- Well-formed worlds ----

  ghost predicate Unfinished(w: World, request: RequestId) {
    request in w.journal && w.journal[request].terminal.None?
  }

  ghost predicate Quiet(w: World) {
    forall r :: r in w.journal ==> !Unfinished(w, r)
  }

  /** Nothing is selected exactly when nothing is registered, and a selection is registered. */
  ghost predicate SelectionSound(w: World) {
    && (w.selected.None? <==> w.registry == [])
    && (w.selected.Some? ==> Has(w.registry, w.selected.value))
  }

  /** A credential has a record that does not deny it, an available record has a credential. */
  ghost predicate CustodySound(w: World) {
    forall k: PublicKey ::
      match Find(w.registry, k)
      case None => k !in w.keyring
      case Some(record) =>
        && (record.availability == Available ==> k in w.keyring)
        && (record.availability == CredentialMissing ==> k !in w.keyring)
  }

  /** What the application may assume of a world between operations. */
  ghost predicate WellFormed(w: World) {
    Ordered(w.registry) && Unique(w.registry) && SelectionSound(w) && CustodySound(w)
  }

  /** The three stores agree; the journal may differ. */
  predicate SameStores(a: World, b: World) {
    a.keyring == b.keyring && a.registry == b.registry && a.selected == b.selected
  }
}
