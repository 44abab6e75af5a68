/** The store calls of every durable identity command and of recovery, as the code orders them. */
module IdentityPlans {
  import opened Domain
  import opened Registry
  import opened Durable

  /** A parsed secret together with the public key derived from it. */
  datatype KeyMaterial = KeyMaterial(key: PublicKey, secret: Secret)

  /** `current` is the revision of the in-memory snapshot, `now` the clock, `resulting` the revision
      of the snapshot published before the receipt is written, `snapshotSelected` the in-memory selection. */
  datatype Command =
    | CreateIdentity(request: RequestId, expected: nat, current: nat, material: KeyMaterial, now: nat, resulting: nat)
    | ImportIdentity(request: RequestId, expected: nat, current: nat, material: KeyMaterial, now: nat, resulting: nat)
    | RemoveIdentity(request: RequestId, expected: nat, key: PublicKey, snapshotSelected: Option<PublicKey>,
                     resulting: nat)
    | SelectIdentity(key: PublicKey)
    | ActivateIdentity(key: PublicKey, now: nat)

  /** A new local identity as create and import build it. */
  function NewIdentity(key: PublicKey, now: nat): Identity {
    Identity(key, Available, None, now, None)
  }

  /** Everything an addition writes, fixed when it begins. */
  datatype Addition = Addition(
    request: RequestId,
    kind: Kind,
    expected: nat,
    record: Identity,
    secret: Secret,
    previous: Option<Availability>,
    selectedBefore: Option<PublicKey>,
    resulting: nat)

  function AdditionOperation(a: Addition): Operation {
    Operation(a.request, a.kind, a.record.key, Some(a.expected), IntentRecorded,
              Prior(a.selectedBefore, a.previous), None)
  }

  function AdditionPlan(a: Addition): Plan {
    [ Begin(AdditionOperation(a)),
      Put(a.request, a.record.key, a.secret),
      Advance(a.request, IntentRecorded, CredentialWritten),
      if a.previous.Some? then UpdateRecord(a.record) else InsertRecord(a.record),
      Advance(a.request, CredentialWritten, MetadataCommitted),
      Select(Some(a.record.key)),
      Advance(a.request, MetadataCommitted, SelectionCommitted),
      Finalize(a.request, SelectionCommitted, Completed, Some(a.resulting)) ]
  }

  datatype Removal = Removal(
    request: RequestId,
    expected: nat,
    key: PublicKey,
    availability: Availability,
    fallback: Option<PublicKey>,
    resulting: nat)

  function RemovalIntent(request: RequestId, expected: nat, key: PublicKey, availability: Availability,
                         fallback: Option<PublicKey>): Operation {
    Operation(request, RemoveKind, key, Some(expected), IntentRecorded, Prior(fallback, Some(availability)), None)
  }

  function RemovalOperation(r: Removal): Operation {
    RemovalIntent(r.request, r.expected, r.key, r.availability, r.fallback)
  }

  function RemovalPlan(r: Removal): Plan {
    [ Begin(RemovalOperation(r)),
      Delete(r.key, r.availability == CredentialMissing),
      Advance(r.request, IntentRecorded, CredentialDeleted),
      RemoveRecord(r.key),
      Advance(r.request, CredentialDeleted, MetadataDeleted),
      Select(r.fallback),
      Advance(r.request, MetadataDeleted, SelectionCommitted),
      Finalize(r.request, SelectionCommitted, Completed, Some(r.resulting)) ]
  }

  function IndexOf(records: Records, key: PublicKey): (i: nat)
    requires Has(records, key)
    ensures i < |records| && records[i].key == key
    ensures forall j :: 0 <= j < i ==> records[j].key != key
  {
    if records[0].key == key then 0 else 1 + IndexOf(records[1..], key)
  }

  /** The selection after removing `key`: unchanged unless `key` was selected, then its successor or else
      its predecessor. */
  function Fallback(records: Records, selected: Option<PublicKey>, key: PublicKey): Option<PublicKey>
    requires Has(records, key)
  {
    if selected != Some(key) then selected
    else
      var i := IndexOf(records, key);
      if i + 1 < |records| then Some(records[i + 1].key)
      else if i >= 1 then Some(records[i - 1].key)
      else None
  }

  /** What a new request does to the world; commands that are refused before any change have no plan. */
  function CommandPlan(w: World, c: Command): Plan {
    match c
    case CreateIdentity(request, expected, current, material, now, resulting) =>
      if request in w.journal || current != expected then []
      else AdditionPlan(CreateAddition(w, c))
    case ImportIdentity(request, expected, current, material, now, resulting) =>
      if request in w.journal || current != expected || !ImportAdmitted(w, material.key) then []
      else AdditionPlan(ImportAddition(w, c))
    case RemoveIdentity(request, expected, key, snapshotSelected, resulting) =>
      if request in w.journal || !Has(w.registry, key) then []
      else RemovalPlan(CommandRemoval(w, c))
    case SelectIdentity(key) =>
      if Has(w.registry, key) then [Select(Some(key))] else []
    case ActivateIdentity(key, now) =>
      if Has(w.registry, key) && key in w.keyring then
        [UpdateRecord(Find(w.registry, key).value.(lastUsedAt := Some(now))), Select(Some(key))]
      else []
  }

  /** An import is admitted for an unknown key without a credential, or to repair a missing credential. */
  predicate ImportAdmitted(w: World, key: PublicKey) {
    && key !in w.keyring
    && (Has(w.registry, key) ==> Find(w.registry, key).value.availability == CredentialMissing)
  }

  function CreateAddition(w: World, c: Command): Addition
    requires c.CreateIdentity?
  {
    Addition(c.request, Create, c.expected, NewIdentity(c.material.key, c.now), c.material.secret, None, w.selected,
             c.resulting)
  }

  function ImportAddition(w: World, c: Command): Addition
    requires c.ImportIdentity?
  {
    match Find(w.registry, c.material.key)
    case Some(record) =>
      Addition(c.request, Repair, c.expected, record.(availability := Available), c.material.secret,
               Some(record.availability), w.selected, c.resulting)
    case None =>
      Addition(c.request, Import, c.expected, NewIdentity(c.material.key, c.now), c.material.secret, None, w.selected,
               c.resulting)
  }

  function CommandRemoval(w: World, c: Command): Removal
    requires c.RemoveIdentity? && Has(w.registry, c.key)
  {
    Removal(c.request, c.expected, c.key, Find(w.registry, c.key).value.availability,
            Fallback(w.registry, c.snapshotSelected, c.key), c.resulting)
  }

  // ---- Recovery ----

  function RecoveryPlan(w: World, op: Operation): Plan {
    if op.kind == RemoveKind then RemovalRecovery(op) else AdditionRecovery(w, op)
  }

  function RemovalRecovery(op: Operation): Plan {
    (if op.phase == IntentRecorded then
       [DropCredential(op.identity), Advance(op.request, IntentRecorded, CredentialDeleted)] else [])
    + (if op.phase in {IntentRecorded, CredentialDeleted} then
         [DropRecord(op.identity), Advance(op.request, CredentialDeleted, MetadataDeleted)] else [])
    + (if op.phase in {IntentRecorded, CredentialDeleted, MetadataDeleted} then
         [Select(op.prior.selected), Advance(op.request, MetadataDeleted, SelectionCommitted)] else [])
    + (if op.phase in {IntentRecorded, CredentialDeleted, MetadataDeleted, SelectionCommitted} then
         [Finalize(op.request, SelectionCommitted, Completed, None)] else [])
  }

  /** The calls of removal recovery, in order, from the recorded intent to the receipt. */
  function RemovalCall(op: Operation, k: nat): Call {
    match k
    case 0 => DropCredential(op.identity)
    case 1 => Advance(op.request, IntentRecorded, CredentialDeleted)
    case 2 => DropRecord(op.identity)
    case 3 => Advance(op.request, CredentialDeleted, MetadataDeleted)
    case 4 => Select(op.prior.selected)
    case 5 => Advance(op.request, MetadataDeleted, SelectionCommitted)
    case _ => Finalize(op.request, SelectionCommitted, Completed, None)
  }

  /** Where the journal says that removal recovery has to resume. */
  function ResumeAt(phase: Phase): nat {
    match phase
    case IntentRecorded => 0
    case CredentialDeleted => 2
    case MetadataDeleted => 4
    case SelectionCommitted => 6
    case _ => 7
  }

  lemma RemovalRecoveryShape(op: Operation, i: nat)
    ensures |RemovalRecovery(op)| == 7 - ResumeAt(op.phase)
    ensures ResumeAt(op.phase) + i < 7 ==> RemovalRecovery(op)[i] == RemovalCall(op, ResumeAt(op.phase) + i)
  {}

  function FinishSelection(op: Operation): Plan {
    [ Select(Some(op.identity)),
      Advance(op.request, MetadataCommitted, SelectionCommitted),
      Finalize(op.request, SelectionCommitted, Completed, None) ]
  }

  function Compensate(op: Operation): Plan {
    [ DropCredential(op.identity),
      if op.prior.availability.Some? then RestoreRecord(op.identity, op.prior.availability.value)
      else DropRecord(op.identity),
      Select(op.prior.selected),
      Advance(op.request, CompensationPending, CredentialDeleted),
      Finalize(op.request, CredentialDeleted, Failed, None) ]
  }

  predicate MetadataIsCommitted(records: Records, key: PublicKey) {
    Has(records, key) && Find(records, key).value.availability == Available
  }

  function AdditionRecovery(w: World, op: Operation): Plan {
    match op.phase
    case IntentRecorded =>
      [DropCredential(op.identity), Finalize(op.request, IntentRecorded, Failed, None)]
    case CredentialWritten =>
      if MetadataIsCommitted(w.registry, op.identity) then
        [Advance(op.request, CredentialWritten, MetadataCommitted)] + FinishSelection(op)
      else
        [Advance(op.request, CredentialWritten, CompensationPending)] + Compensate(op)
    case MetadataCommitted => FinishSelection(op)
    case SelectionCommitted => [Finalize(op.request, SelectionCommitted, Completed, None)]
    case CompensationPending => Compensate(op)
    case CredentialDeleted | MetadataDeleted => [Finalize(op.request, op.phase, Failed, None)]
    case Finalized => []
  }

  /** The unfinished operations. */
  ghost function UnfinishedIds(w: World): set<RequestId> {
    set r | r in w.journal && w.journal[r].terminal.None?
  }

  lemma {:induction false} LeastOf(ids: set<RequestId>) returns (m: RequestId)
    requires ids != {}
    ensures m in ids && forall x :: x in ids ==> m <= x
  {
    m :| m in ids;
    var rest := ids - {m};
    if rest != {} {
      var other := LeastOf(rest);
      forall x | x in ids ensures m <= x || other <= x { assert x == m || x in rest; }
      m := if other <= m then other else m;
    } else {
      forall x | x in ids ensures m <= x { assert x !in rest; }
    }
  }

  lemma LeastExists(ids: set<RequestId>)
    requires ids != {}
    ensures exists m :: m in ids && forall x :: x in ids ==> m <= x
  {
    var m := LeastOf(ids);
  }

  ghost function Least(ids: set<RequestId>): (m: RequestId)
    requires ids != {}
    ensures m in ids && forall x :: x in ids ==> m <= x
  {
    LeastExists(ids);
    var m :| m in ids && forall x :: x in ids ==> m <= x;
    m
  }

  ghost function InOrder(w: World, ids: set<RequestId>): seq<Operation>
    requires ids <= w.journal.Keys
  {
    if ids == {} then [] else [w.journal[Least(ids)]] + InOrder(w, ids - {Least(ids)})
  }

  ghost function Listing(w: World): seq<Operation> {
    InOrder(w, UnfinishedIds(w))
  }

  /** The listing is the unfinished entries, each once, in ascending order of request. */
  ghost predicate Lists(w: World, ids: set<RequestId>, order: seq<RequestId>, ops: seq<Operation>) {
    && |order| == |ops|
    && (forall i, j :: 0 <= i < j < |order| ==> order[i] < order[j])
    && (forall i :: 0 <= i < |order| ==> order[i] in w.journal && ops[i] == w.journal[order[i]])
    && (forall r :: r in order <==> r in ids)
  }

  lemma {:induction false} ListedInOrder(w: World, ids: set<RequestId>) returns (order: seq<RequestId>)
    requires ids <= w.journal.Keys
    ensures Lists(w, ids, order, InOrder(w, ids))
    decreases |ids|
  {
    if ids == {} {
      order := [];
    } else {
      var least := Least(ids);
      var later := ListedInOrder(w, ids - {least});
      forall i | 0 <= i < |later| ensures least < later[i] { assert later[i] in later; }
      order := [least] + later;
    }
  }

  lemma ListingIsOrdered(w: World) returns (order: seq<RequestId>)
    ensures Lists(w, UnfinishedIds(w), order, Listing(w))
    ensures forall r :: r in order <==> r in w.journal && w.journal[r].terminal.None?
  {
    order := ListedInOrder(w, UnfinishedIds(w));
  }

  /** Recovers the listed operations one after the other, dying after at most `cut` changing calls. */
  ghost function RecoverListed(w: World, ops: seq<Operation>, cut: nat): Run
    decreases |ops|
  {
    if ops == [] then Run(w, true)
    else
      var plan := RecoveryPlan(w, ops[0]);
      var run := Cut(w, plan, cut);
      if cut < |plan| || !run.ok then Run(run.world, false)
      else RecoverListed(run.world, ops[1..], cut - |plan|)
  }

  /** One start-up recovery. `ok` means that it ran to its end. */
  ghost function Recover(w: World, cut: nat): Run {
    RecoverListed(w, Listing(w), cut)
  }
}
