/** Start-up recovery of any number of unfinished operations in any world: when it completes, what it
    leaves in the registry, and that crashes inside it change neither.
*/
module StartRecovery {
  import opened Domain
  import opened Registry
  import opened Durable
  import opened IdentityPlans
  import Additions
  import History = IdentityHistory

  // ---- What journal and registry foretell ----

  predicate Selectable(records: Records, selected: Option<PublicKey>) {
    selected.Some? ==> Has(records, selected.value)
  }

  function Dropped(records: Records, key: PublicKey): Records {
    if Has(records, key) then Remove(records, key) else records
  }

  /** The registry as compensation leaves it before it restores the selection. */
  function Compensated(records: Records, op: Operation): Records {
    match (Find(records, op.identity), op.prior.availability)
    case (None, _) => records
    case (Some(record), Some(availability)) => Update(records, record.(availability := availability))
    case (Some(_), None) => Remove(records, op.identity)
  }

  /** Whether recovery of one entry is not refused: the selection that it has to restore must be
      registered by then. Phases that its kind never has are passed over. */
  predicate Recoverable(records: Records, op: Operation) {
    if op.kind == RemoveKind then
      match op.phase
      case IntentRecorded | CredentialDeleted => Selectable(Dropped(records, op.identity), op.prior.selected)
      case MetadataDeleted => Selectable(records, op.prior.selected)
      case _ => true
    else
      match op.phase
      case CredentialWritten =>
        MetadataIsCommitted(records, op.identity) || Selectable(Compensated(records, op), op.prior.selected)
      case CompensationPending => Selectable(Compensated(records, op), op.prior.selected)
      case MetadataCommitted => Has(records, op.identity)
      case _ => true
  }

  function RegistryAfter(records: Records, op: Operation): Records {
    if op.kind == RemoveKind then
      if op.phase.IntentRecorded? || op.phase.CredentialDeleted? then Dropped(records, op.identity) else records
    else if op.phase.CompensationPending?
            || (op.phase.CredentialWritten? && !MetadataIsCommitted(records, op.identity)) then
      Compensated(records, op)
    else records
  }

  /** The registry after recovering the listed entries in order, or none if one of them is refused. It
      can be computed before recovery from the registry and the journal. */
  function Forecast(records: Records, ops: seq<Operation>): Option<Records>
    decreases |ops|
  {
    if ops == [] then Some(records)
    else if !Recoverable(records, ops[0]) then None
    else Forecast(RegistryAfter(records, ops[0]), ops[1..])
  }

  /** The same for the one request `q`, whether it is unfinished or not. */
  function Prospect(w: World, q: RequestId): Option<Records>
    requires q in w.journal
  {
    var op := w.journal[q];
    if op.terminal.Some? then Some(w.registry)
    else if Recoverable(w.registry, op) then Some(RegistryAfter(w.registry, op))
    else None
  }

  /** Recovery of `q` led from `a` to `b`: its prospect is the same and no other entry was touched. */
  ghost predicate Steady(a: World, b: World, q: RequestId) {
    && q in a.journal && q in b.journal
    && b.journal[q].request == a.journal[q].request
    && Prospect(a, q) == Prospect(b, q)
    && a.journal - {q} == b.journal - {q}
  }

  // ---- One call ----

  /** A call that recovery makes for an unfinished entry, at the point where it makes it. */
  predicate Fits(w: World, op: Operation, call: Call) {
    match call
    case DropCredential(_) => true
    case Select(_) => true
    case DropRecord(key) =>
      && key == op.identity
      && if op.kind == RemoveKind then op.phase.CredentialDeleted?
         else op.phase.CompensationPending? && op.prior.availability.None?
    case RestoreRecord(key, availability) =>
      && key == op.identity && op.kind != RemoveKind && op.phase.CompensationPending?
      && op.prior.availability == Some(availability)
    case Advance(request, from, to) => request == op.request && from == op.phase && FitsAdvance(w, op, to)
    case Finalize(request, from, _, _) =>
      && request == op.request && from == op.phase
      && (from.SelectionCommitted?
          || (op.kind != RemoveKind && (from.IntentRecorded? || from.CredentialDeleted? || from.MetadataDeleted?)))
    case _ => false
  }

  predicate FitsAdvance(w: World, op: Operation, to: Phase) {
    if op.kind == RemoveKind then
      match op.phase
      case IntentRecorded => to.CredentialDeleted?
      case CredentialDeleted => to.MetadataDeleted? && !Has(w.registry, op.identity)
      case MetadataDeleted => to.SelectionCommitted? && Selectable(w.registry, op.prior.selected)
      case _ => false
    else
      match op.phase
      case CredentialWritten =>
        if MetadataIsCommitted(w.registry, op.identity) then to.MetadataCommitted? else to.CompensationPending?
      case MetadataCommitted => to.SelectionCommitted? && Has(w.registry, op.identity)
      case CompensationPending =>
        to.CredentialDeleted? && Compensated(w.registry, op) == w.registry && Selectable(w.registry, op.prior.selected)
      case _ => false
  }

  ghost predicate Pending(w: World, q: RequestId) {
    q in w.journal && w.journal[q].request == q && w.journal[q].terminal.None?
  }

  lemma DroppedTwice(records: Records, key: PublicKey)
    ensures Dropped(Dropped(records, key), key) == Dropped(records, key) && !Has(Dropped(records, key), key)
  {
    RemoveMembers(records, key);
    FindSound(Remove(records, key), key);
  }

  lemma CompensatedTwice(records: Records, op: Operation)
    ensures Compensated(Compensated(records, op), op) == Compensated(records, op)
  {
    var found := Find(records, op.identity);
    FindSound(records, op.identity);
    if found.Some? {
      match op.prior.availability
      case Some(availability) =>
        var record := found.value.(availability := availability);
        UpdateFound(records, record);
        UpdateTwice(records, record);
      case None => DroppedTwice(records, op.identity);
    }
  }

  lemma {:induction false} UpdateTwice(records: Records, record: Identity)
    ensures Update(Update(records, record), record) == Update(records, record)
  {
    if records != [] && records[0].key != record.key {
      UpdateTwice(records[1..], record);
    }
  }

  lemma CallIsSteady(w: World, q: RequestId, call: Call)
    requires Pending(w, q) && Fits(w, w.journal[q], call) && Perform(w, call).Ok?
    ensures Steady(w, Perform(w, call).value, q)
  {
    var op := w.journal[q];
    DroppedTwice(w.registry, op.identity);
    CompensatedTwice(w.registry, op);
    hide Find; hide Update; hide Remove;
    var after := Perform(w, call).value;
    assert after.journal - {q} == w.journal - {q};
  }

  // ---- One operation ----

  /** A plan that recovers `q`: every call it comes to fits, and a refused call was foreseeable. */
  ghost predicate Walks(w: World, q: RequestId, plan: Plan, i: nat)
    requires i < |plan|
  {
    var run := Exec(w, plan, i);
    run.ok ==>
      && Pending(run.world, q) && Fits(run.world, run.world.journal[q], plan[i])
      && (Perform(run.world, plan[i]).Err? ==> Prospect(run.world, q).None?)
  }

  lemma {:induction false} WalkIsSteady(w: World, q: RequestId, plan: Plan, cut: nat)
    requires q in w.journal && cut <= |plan| && forall i: nat :: i < |plan| ==> Walks(w, q, plan, i)
    ensures Steady(w, Exec(w, plan, cut).world, q)
    ensures !Exec(w, plan, cut).ok ==> Prospect(w, q).None?
  {
    hide Perform; hide Fits; hide Prospect;
    if cut > 0 {
      WalkIsSteady(w, q, plan, cut - 1);
      var before := Exec(w, plan, cut - 1);
      assert Walks(w, q, plan, cut - 1);
      if before.ok && Perform(before.world, plan[cut - 1]).Ok? { CallIsSteady(before.world, q, plan[cut - 1]); }
    }
  }

  ghost predicate Entry(w: World, op: Operation, phase: Phase) {
    op.request in w.journal && w.journal[op.request] == op.(phase := phase)
  }

  ghost predicate Finished(w: World, q: RequestId) {
    q in w.journal && w.journal[q].terminal.Some?
  }

  /** The world before call `k` of the recovery of removal `op`, counted from its recorded intent. */
  ghost predicate RemovalAt(w: World, op: Operation, k: nat) {
    match k
    case 0 | 1 => Entry(w, op, IntentRecorded)
    case 2 => Entry(w, op, CredentialDeleted)
    case 3 => Entry(w, op, CredentialDeleted) && !Has(w.registry, op.identity)
    case 4 => Entry(w, op, MetadataDeleted)
    case 5 => Entry(w, op, MetadataDeleted) && Selectable(w.registry, op.prior.selected)
    case 6 => Entry(w, op, SelectionCommitted)
    case _ => Finished(w, op.request)
  }

  lemma RemovalStep(w: World, op: Operation, k: nat)
    requires op.kind == RemoveKind && op.terminal.None? && k < 7 && RemovalAt(w, op, k)
    ensures Pending(w, op.request) && Fits(w, w.journal[op.request], RemovalCall(op, k))
    ensures match Perform(w, RemovalCall(op, k))
            case Ok(after) => RemovalAt(after, op, k + 1)
            case Err(_) => Prospect(w, op.request).None?
  {
    DroppedTwice(w.registry, op.identity);
    hide Find; hide Remove;
  }

  lemma {:induction false} RemovalWalk(w: World, op: Operation, i: nat)
    requires op.kind == RemoveKind && Pending(w, op.request) && w.journal[op.request] == op
    requires i <= 7 - ResumeAt(op.phase)
    requires ResumeAt(op.phase) < 7
    ensures |RemovalRecovery(op)| == 7 - ResumeAt(op.phase)
    ensures var run := Exec(w, RemovalRecovery(op), i);
            run.ok ==> RemovalAt(run.world, op, ResumeAt(op.phase) + i)
  {
    RemovalRecoveryShape(op, 0);
    if i > 0 {
      RemovalWalk(w, op, i - 1);
      RemovalRecoveryShape(op, i - 1);
      hide RemovalRecovery; hide Perform; hide RemovalAt;
      var before := Exec(w, RemovalRecovery(op), i - 1);
      if before.ok { RemovalStep(before.world, op, ResumeAt(op.phase) + i - 1); }
    }
  }

  /** The same for the three and the five calls that end the recovery of an addition. */
  ghost predicate FinishAt(w: World, op: Operation, k: nat) {
    match k
    case 0 => Entry(w, op, MetadataCommitted)
    case 1 => Entry(w, op, MetadataCommitted) && Has(w.registry, op.identity)
    case 2 => Entry(w, op, SelectionCommitted)
    case _ => Finished(w, op.request)
  }

  ghost predicate CompensateAt(w: World, op: Operation, k: nat) {
    match k
    case 0 | 1 => Entry(w, op, CompensationPending)
    case 2 => Entry(w, op, CompensationPending) && Compensated(w.registry, op) == w.registry
    case 3 =>
      && Entry(w, op, CompensationPending) && Compensated(w.registry, op) == w.registry
      && Selectable(w.registry, op.prior.selected)
    case 4 => Entry(w, op, CredentialDeleted)
    case _ => Finished(w, op.request)
  }

  lemma FinishStep(w: World, op: Operation, k: nat)
    requires op.kind != RemoveKind && op.terminal.None? && k < 3 && FinishAt(w, op, k)
    ensures Pending(w, op.request) && Fits(w, w.journal[op.request], FinishSelection(op)[k])
    ensures match Perform(w, FinishSelection(op)[k])
            case Ok(after) => FinishAt(after, op, k + 1)
            case Err(_) => Prospect(w, op.request).None?
  {
    hide Find;
  }

  lemma CompensateStep(w: World, op: Operation, k: nat)
    requires op.kind != RemoveKind && op.terminal.None? && k < 5 && CompensateAt(w, op, k)
    ensures Pending(w, op.request) && Fits(w, w.journal[op.request], Compensate(op)[k])
    ensures match Perform(w, Compensate(op)[k])
            case Ok(after) => CompensateAt(after, op, k + 1)
            case Err(_) => Prospect(w, op.request).None?
  {
    CompensatedTwice(w.registry, op);
    hide Find; hide Update; hide Remove;
  }

  /** The world before call `k` of the recovery of addition `op`, which found the record committed or not. */
  ghost predicate AdditionAt(w: World, op: Operation, committed: bool, k: nat) {
    match op.phase
    case CredentialWritten =>
      if k == 0 then Entry(w, op, op.phase) && committed == MetadataIsCommitted(w.registry, op.identity)
      else if committed then FinishAt(w, op, k - 1)
      else CompensateAt(w, op, k - 1)
    case MetadataCommitted => FinishAt(w, op, k)
    case CompensationPending => CompensateAt(w, op, k)
    case IntentRecorded => if k <= 1 then Entry(w, op, op.phase) else Finished(w, op.request)
    case _ => if k == 0 then Entry(w, op, op.phase) else Finished(w, op.request)
  }

  lemma AdditionStep(start: World, op: Operation, w: World, k: nat)
    requires op.kind != RemoveKind && op.terminal.None? && k < |AdditionRecovery(start, op)|
    requires AdditionAt(w, op, MetadataIsCommitted(start.registry, op.identity), k)
    ensures var call := AdditionRecovery(start, op)[k];
            && Pending(w, op.request) && Fits(w, w.journal[op.request], call)
            && match Perform(w, call)
               case Ok(after) => AdditionAt(after, op, MetadataIsCommitted(start.registry, op.identity), k + 1)
               case Err(_) => Prospect(w, op.request).None?
  {
    hide Find; hide Update; hide Remove;
    match op.phase
    case CredentialWritten =>
      if k > 0 {
        hide Perform; hide Fits; hide Prospect; hide FinishAt; hide CompensateAt;
        if MetadataIsCommitted(start.registry, op.identity) {
          FinishStep(w, op, k - 1);
        } else {
          CompensateStep(w, op, k - 1);
        }
      }
    case MetadataCommitted => FinishStep(w, op, k);
    case CompensationPending => CompensateStep(w, op, k);
    case _ =>
  }

  lemma {:induction false} AdditionWalk(w: World, op: Operation, i: nat)
    requires op.kind != RemoveKind && Pending(w, op.request) && w.journal[op.request] == op
    requires i <= |AdditionRecovery(w, op)|
    ensures var run := Exec(w, AdditionRecovery(w, op), i);
            run.ok ==> AdditionAt(run.world, op, MetadataIsCommitted(w.registry, op.identity), i)
  {
    if i > 0 {
      AdditionWalk(w, op, i - 1);
      hide AdditionRecovery; hide Perform; hide AdditionAt; hide Find;
      var before := Exec(w, AdditionRecovery(w, op), i - 1);
      if before.ok { AdditionStep(w, op, before.world, i - 1); }
    }
  }

  /** The phases an operation of its kind goes through; in any other, recovery makes no call at all. */
  predicate Usual(op: Operation) {
    if op.kind == RemoveKind then ResumeAt(op.phase) < 7 else !op.phase.Finalized?
  }

  lemma OperationRecovery(w: World, q: RequestId, cut: nat)
    requires Pending(w, q) && cut <= |RecoveryPlan(w, w.journal[q])|
    ensures var op := w.journal[q];
            var plan, run := RecoveryPlan(w, op), Exec(w, RecoveryPlan(w, op), cut);
            && Steady(w, run.world, q) && |plan| <= 7 && (!Usual(op) ==> plan == [])
            && (!run.ok ==> Prospect(w, q).None?)
            && (run.ok && cut == |plan| && Usual(op) ==> Finished(run.world, q))
  {
    var op := w.journal[q];
    var plan := RecoveryPlan(w, op);
    if Usual(op) {
      if op.kind == RemoveKind { RemovalWalk(w, op, cut); } else { AdditionWalk(w, op, cut); }
    }
    forall i: nat | i < |plan| ensures Walks(w, q, plan, i) { OperationWalks(w, q, i); }
    WalkIsSteady(w, q, plan, cut);
    hide Perform; hide Find; hide Steady; hide Exec; hide Prospect;
  }

  lemma OperationWalks(w: World, q: RequestId, i: nat)
    requires Pending(w, q) && i < |RecoveryPlan(w, w.journal[q])|
    ensures Walks(w, q, RecoveryPlan(w, w.journal[q]), i)
  {
    var op := w.journal[q];
    if op.kind == RemoveKind {
      RemovalRecoveryShape(op, i);
      RemovalWalk(w, op, i);
      hide Perform; hide RemovalAt; hide RemovalRecovery; hide Fits; hide Prospect; hide Find;
      var run := Exec(w, RemovalRecovery(op), i);
      if run.ok { RemovalStep(run.world, op, ResumeAt(op.phase) + i); }
    } else {
      AdditionWalk(w, op, i);
      hide Perform; hide AdditionAt; hide AdditionRecovery; hide Fits; hide Prospect; hide Find;
      var run := Exec(w, AdditionRecovery(w, op), i);
      if run.ok { AdditionStep(w, op, run.world, i); }
    }
  }

  // ---- The whole start ----

  /** Every entry is stored under its own request id. */
  ghost predicate Keyed(w: World) {
    forall r :: r in w.journal ==> w.journal[r].request == r
  }

  /** The forecast for the requests in `ids`, passing over those that are finished. */
  ghost function ForecastOf(journal: map<RequestId, Operation>, records: Records, ids: set<RequestId>): Option<Records>
    requires ids <= journal.Keys
    decreases |ids|
  {
    if ids == {} then Some(records)
    else
      var q := Least(ids);
      var op := journal[q];
      if op.terminal.Some? then ForecastOf(journal, records, ids - {q})
      else if !Recoverable(records, op) then None
      else ForecastOf(journal, RegistryAfter(records, op), ids - {q})
  }

  lemma {:induction false} ForecastListed(w: World, records: Records, ids: set<RequestId>)
    requires ids <= w.journal.Keys
    ensures ForecastOf(w.journal, records, ids) == Forecast(records, InOrder(w, ids * UnfinishedIds(w)))
    decreases |ids|
  {
    hide Recoverable; hide RegistryAfter;
    var open := ids * UnfinishedIds(w);
    if ids != {} {
      var q := Least(ids);
      var op := w.journal[q];
      if op.terminal.Some? {
        assert (ids - {q}) * UnfinishedIds(w) == open;
        ForecastListed(w, records, ids - {q});
      } else {
        assert q in open && Least(open) == q;
        assert (ids - {q}) * UnfinishedIds(w) == open - {q};
        assert InOrder(w, open)[1..] == InOrder(w, open - {q});
        if Recoverable(records, op) { ForecastListed(w, RegistryAfter(records, op), ids - {q}); }
      }
    } else {
      assert open == {};
    }
  }

  lemma {:induction false} SameEntries(a: World, b: World, records: Records, ids: set<RequestId>)
    requires ids <= a.journal.Keys && ids <= b.journal.Keys
    requires forall r :: r in ids ==> a.journal[r] == b.journal[r]
    ensures ForecastOf(a.journal, records, ids) == ForecastOf(b.journal, records, ids)
    ensures InOrder(a, ids) == InOrder(b, ids)
    decreases |ids|
  {
    hide Recoverable; hide RegistryAfter;
    if ids != {} {
      var q := Least(ids);
      SameEntries(a, b, records, ids - {q});
      SameEntries(a, b, RegistryAfter(records, a.journal[q]), ids - {q});
    }
  }

  /** No entry outside `ids` differs. */
  ghost predicate Outside(a: World, b: World, ids: set<RequestId>) {
    && a.journal.Keys == b.journal.Keys
    && forall r :: r in a.journal && r !in ids ==> a.journal[r] == b.journal[r]
  }

  lemma SteadyOutside(a: World, b: World, q: RequestId)
    requires Steady(a, b, q) && Keyed(a)
    ensures Outside(a, b, {q}) && Keyed(b)
  {
    hide Prospect;
    forall r ensures r in a.journal <==> r in b.journal {
      if r != q { assert r in a.journal - {q} <==> r in b.journal - {q}; }
    }
    forall r | r in a.journal && r != q ensures a.journal[r] == b.journal[r] {
      assert (a.journal - {q})[r] == (b.journal - {q})[r];
    }
  }

  /** What recovery of some unfinished requests, cut anywhere, means for them. */
  ghost predicate Recovers(w: World, ids: set<RequestId>, cut: nat, run: Run)
    requires ids <= w.journal.Keys
  {
    && Outside(w, run.world, ids) && Keyed(run.world)
    && ForecastOf(run.world.journal, run.world.registry, ids) == ForecastOf(w.journal, w.registry, ids)
    && (run.ok ==> ForecastOf(w.journal, w.registry, ids) == Some(run.world.registry))
    && (ForecastOf(w.journal, w.registry, ids).Some? && cut >= 7 * |ids| ==> run.ok)
    && (run.ok ==> forall r :: r in ids ==> Finished(run.world, r) || !Usual(w.journal[r]))
  }

  /** A request that is finished, or in a phase that its kind never has, does not matter. */
  lemma PassedOver(journal: map<RequestId, Operation>, records: Records, ids: set<RequestId>)
    requires ids != {} && ids <= journal.Keys
    requires journal[Least(ids)].terminal.Some? || !Usual(journal[Least(ids)])
    ensures ForecastOf(journal, records, ids) == ForecastOf(journal, records, ids - {Least(ids)})
  {}

  lemma SteadyForecast(w: World, x: World, ids: set<RequestId>)
    requires ids != {} && ids <= w.journal.Keys && Steady(w, x, Least(ids)) && Outside(w, x, {Least(ids)})
    ensures ForecastOf(x.journal, x.registry, ids) == ForecastOf(w.journal, w.registry, ids)
  {
    hide Recoverable; hide RegistryAfter;
    var q := Least(ids);
    if Prospect(w, q).Some? { SameEntries(w, x, Prospect(w, q).value, ids - {q}); }
  }

  lemma RefusedForecast(w: World, ids: set<RequestId>)
    requires ids != {} && ids <= w.journal.Keys && Prospect(w, Least(ids)).None?
    ensures ForecastOf(w.journal, w.registry, ids).None?
  {}

  /** Recovery of the least request alone, cut anywhere. */
  lemma FirstRecovery(w: World, ids: set<RequestId>, at: nat)
    requires Keyed(w) && ids != {} && ids <= UnfinishedIds(w) && at <= |RecoveryPlan(w, w.journal[Least(ids)])|
    ensures var q := Least(ids);
            var plan, mid := RecoveryPlan(w, w.journal[q]), Exec(w, RecoveryPlan(w, w.journal[q]), at);
            && |plan| <= 7 && Outside(w, mid.world, {q}) && Keyed(mid.world)
            && ForecastOf(mid.world.journal, mid.world.registry, ids) == ForecastOf(w.journal, w.registry, ids)
            && (!mid.ok ==> ForecastOf(w.journal, w.registry, ids).None?)
            && (mid.ok && at == |plan| ==> if Usual(w.journal[q]) then Finished(mid.world, q) else mid.world == w)
  {
    var q := Least(ids);
    assert Pending(w, q);
    var plan := RecoveryPlan(w, w.journal[q]);
    OperationRecovery(w, q, at);
    var mid := Exec(w, plan, at);
    SteadyOutside(w, mid.world, q);
    assert plan == [] ==> mid.world == w;
    hide RecoveryPlan; hide Exec; hide ForecastOf; hide Steady; hide Prospect; hide Usual;
    SteadyForecast(w, mid.world, ids);
    if !mid.ok { RefusedForecast(w, ids); }
  }

  lemma {:induction false} RecoverIds(w: World, ids: set<RequestId>, cut: nat)
    requires Keyed(w) && ids <= UnfinishedIds(w)
    ensures Recovers(w, ids, cut, RecoverListed(w, InOrder(w, ids), cut))
    decreases |ids|
  {
    hide RecoveryPlan; hide Exec; hide ForecastOf; hide InOrder; hide Usual; hide Recovers; hide RecoverListed;
    hide Outside;
    if ids == {} {
      NothingListed(w, cut);
    } else {
      var q := Least(ids);
      var plan := RecoveryPlan(w, w.journal[q]);
      var at := if cut <= |plan| then cut else |plan|;
      var mid := Exec(w, plan, at);
      ListedStep(w, ids, cut);
      FirstRecovery(w, ids, at);
      if cut < |plan| || !mid.ok {
        OneIsCut(w, mid, ids, cut);
      } else {
        RestIsListed(w, mid.world, ids);
        RecoverIds(mid.world, ids - {q}, cut - |plan|);
        OneIsDone(w, mid.world, ids, cut, |plan|,
                  RecoverListed(mid.world, InOrder(mid.world, ids - {q}), cut - |plan|));
      }
    }
  }

  lemma NothingListed(w: World, cut: nat)
    requires Keyed(w)
    ensures Recovers(w, {}, cut, RecoverListed(w, InOrder(w, {}), cut))
  {}

  lemma RestIsListed(w: World, mid: World, ids: set<RequestId>)
    requires ids != {} && ids <= UnfinishedIds(w) && Outside(w, mid, {Least(ids)})
    ensures ids - {Least(ids)} <= UnfinishedIds(mid)
    ensures InOrder(mid, ids - {Least(ids)}) == InOrder(w, ids - {Least(ids)})
  {
    SameEntries(w, mid, w.registry, ids - {Least(ids)});
    hide InOrder;
  }

  lemma ListedStep(w: World, ids: set<RequestId>, cut: nat)
    requires ids != {} && ids <= w.journal.Keys
    ensures var q := Least(ids);
            var plan, mid := RecoveryPlan(w, w.journal[q]), Cut(w, RecoveryPlan(w, w.journal[q]), cut);
            RecoverListed(w, InOrder(w, ids), cut) ==
            if cut < |plan| || !mid.ok then Run(mid.world, false)
            else RecoverListed(mid.world, InOrder(w, ids - {q}), cut - |plan|)
  {
    var q := Least(ids);
    assert InOrder(w, ids)[0] == w.journal[q] && InOrder(w, ids)[1..] == InOrder(w, ids - {q});
    hide RecoveryPlan; hide Exec; hide InOrder;
  }

  lemma OneIsCut(w: World, mid: Run, ids: set<RequestId>, cut: nat)
    requires ids != {} && ids <= w.journal.Keys && Outside(w, mid.world, {Least(ids)}) && Keyed(mid.world)
    requires ForecastOf(mid.world.journal, mid.world.registry, ids) == ForecastOf(w.journal, w.registry, ids)
    requires cut < 7 || ForecastOf(w.journal, w.registry, ids).None?
    ensures Recovers(w, ids, cut, Run(mid.world, false))
  {
    hide ForecastOf;
  }

  /** The least request is recovered to its end, then the others. */
  lemma OneIsDone(w: World, mid: World, ids: set<RequestId>, cut: nat, length: nat, run: Run)
    requires ids != {} && ids <= UnfinishedIds(w) && length <= 7 && length <= cut
    requires var q := Least(ids);
             && Outside(w, mid, {q})
             && ForecastOf(mid.journal, mid.registry, ids) == ForecastOf(w.journal, w.registry, ids)
             && (if Usual(w.journal[q]) then Finished(mid, q) else mid == w)
             && Recovers(mid, ids - {q}, cut - length, run)
    ensures Recovers(w, ids, cut, run)
  {
    var q := Least(ids);
    PassedOver(mid.journal, mid.registry, ids);
    PassedOver(run.world.journal, run.world.registry, ids);
    hide ForecastOf; hide Usual;
    assert run.world.journal[q] == mid.journal[q];
  }

  lemma StartForecast(w: World)
    requires Keyed(w)
    ensures UnfinishedIds(w) <= w.journal.Keys
    ensures ForecastOf(w.journal, w.registry, UnfinishedIds(w)) == Forecast(w.registry, Listing(w))
  {
    ForecastListed(w, w.registry, UnfinishedIds(w));
    assert UnfinishedIds(w) * UnfinishedIds(w) == UnfinishedIds(w);
  }

  /** Start-up recovery, cut anywhere: its forecast stays what it was; if it completes, the registry is
      the forecast one and every entry in a usual phase has its receipt; and enough calls complete it
      exactly if the forecast exists. */
  lemma StartRecovers(w: World, cut: nat)
    requires Keyed(w)
    ensures var run, forecast := Recover(w, cut), Forecast(w.registry, Listing(w));
            && Keyed(run.world) && Forecast(run.world.registry, Listing(run.world)) == forecast
            && (run.ok ==> forecast == Some(run.world.registry))
            && (forecast.Some? && cut >= 7 * |UnfinishedIds(w)| ==> run.ok)
            && (run.ok ==> forall r :: Unfinished(run.world, r) ==> r in w.journal && !Usual(w.journal[r]))
  {
    var ids, run := UnfinishedIds(w), Recover(w, cut);
    RecoverIds(w, ids, cut);
    StartForecast(w);
    StartForecast(run.world);
    hide ForecastOf; hide Usual;
    ForecastListed(run.world, run.world.registry, ids);
    forall r | r in w.journal && r !in ids ensures r !in UnfinishedIds(run.world) {
      assert run.world.journal[r] == w.journal[r];
    }
    assert ids * UnfinishedIds(run.world) == UnfinishedIds(run.world);
  }

  /** Recovery of one entry alone runs to its end and leaves a receipt. */
  ghost predicate Completes(w: World, op: Operation) {
    var plan := RecoveryPlan(w, op);
    Exec(w, plan, |plan|).ok && Finished(Exec(w, plan, |plan|).world, op.request)
  }

  lemma RecoveryCompletesIff(w: World, q: RequestId)
    requires Pending(w, q)
    ensures Completes(w, w.journal[q]) <==> Usual(w.journal[q]) && Recoverable(w.registry, w.journal[q])
  {
    var plan := RecoveryPlan(w, w.journal[q]);
    assert plan == [] ==> Exec(w, plan, |plan|).world == w;
    OperationRecovery(w, q, |plan|);
    hide RecoveryPlan; hide Exec; hide Recoverable; hide Usual;
  }

  /** In any world at all, some start-up recovery completes if and only if the forecast exists. */
  lemma StartCompletesIff(w: World)
    requires Keyed(w)
    ensures (exists n: nat :: Recover(w, n).ok) <==> Forecast(w.registry, Listing(w)).Some?
  {
    StartRecovers(w, 7 * |UnfinishedIds(w)|);
    forall n: nat ensures Recover(w, n).ok ==> Forecast(w.registry, Listing(w)).Some? { StartRecovers(w, n); }
  }

  /** Crashed starts neither help nor harm: after any number of them a start completes if and only if it
      would have completed at first, and it then leaves the very same registry. */
  lemma {:induction false} RestartsChangeNothing(w: World, cuts: seq<nat>, last: nat)
    requires Keyed(w)
    ensures var later := Additions.RecoverMany(w, cuts);
            && Keyed(later) && Forecast(later.registry, Listing(later)) == Forecast(w.registry, Listing(w))
            && (Recover(later, last).ok ==>
                  Forecast(w.registry, Listing(w)) == Some(Recover(later, last).world.registry))
            && (Forecast(w.registry, Listing(w)).Some? && last >= 7 * |UnfinishedIds(later)| ==>
                  Recover(later, last).ok)
    decreases |cuts|
  {
    hide Forecast; hide Recover;
    if cuts == [] {
      StartRecovers(w, last);
    } else {
      StartRecovers(w, cuts[0]);
      RestartsChangeNothing(Recover(w, cuts[0]).world, cuts[1..], last);
    }
  }

  // ---- Journals are keyed in every history ----

  lemma {:induction false} ExecKeyed(w: World, plan: Plan, cut: nat)
    requires Keyed(w) && cut <= |plan|
    ensures Keyed(Exec(w, plan, cut).world)
  {
    hide Find; hide Insert; hide Update; hide Remove;
    if cut > 0 { ExecKeyed(w, plan, cut - 1); }
  }

  lemma {:induction false} HistoryIsKeyed(w: World, events: seq<History.Event>)
    requires Keyed(w)
    ensures Keyed(History.After(w, events))
  {
    if events != [] {
      var last := events[|events| - 1];
      var before := History.After(w, events[..|events| - 1]);
      HistoryIsKeyed(w, events[..|events| - 1]);
      match last
      case Do(c, cut) =>
        var plan := CommandPlan(before, c);
        ExecKeyed(before, plan, if cut <= |plan| then cut else |plan|);
      case Restart(cut) => StartRecovers(before, cut);
    }
  }
}
