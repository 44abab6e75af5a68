/** Create, import and repair under crashes: every world an interrupted addition can leave behind, and
    why any number of interrupted recoveries ends either where it began or fully committed.
*/
module Additions {
  import opened Domain
  import opened Registry
  import opened Durable
  import opened IdentityPlans

  /** How far the stores and the journal have moved. The first seven points lie on the way forward,
      the next three on the way back, the last two are the ends. */
  datatype Point =
    | Begun
    | CredentialPut
    | CredentialLogged
    | RecordPut
    | RecordLogged
    | KeySelected
    | SelectionLogged
    | Compensating
    | Cleared
    | Undone
    | RolledBack
    | Committed(revision: Option<nat>)

  predicate HasCredential(p: Point) {
    !(p.Begun? || p.Cleared? || p.Undone? || p.RolledBack?)
  }

  predicate HasRecord(p: Point) {
    p.RecordPut? || IsLogged(p)
  }

  predicate IsLogged(p: Point) {
    p.RecordLogged? || IsSelected(p)
  }

  predicate IsSelected(p: Point) {
    p.KeySelected? || p.SelectionLogged? || p.Committed?
  }

  predicate Ended(p: Point) {
    p.RolledBack? || p.Committed?
  }

  function PhaseOf(p: Point): Phase {
    match p
    case Begun | CredentialPut => IntentRecorded
    case CredentialLogged | RecordPut => CredentialWritten
    case RecordLogged | KeySelected => MetadataCommitted
    case SelectionLogged => SelectionCommitted
    case Compensating | Cleared => CompensationPending
    case Undone => CredentialDeleted
    case RolledBack | Committed(_) => Finalized
  }

  function Entry(a: Addition, p: Point): Operation {
    AdditionOperation(a).(
    phase := PhaseOf(p),
    terminal :=
    match p
    case RolledBack => Some(Receipt(a.request, a.record.key, Failed, None))
    case Committed(revision) => Some(Receipt(a.request, a.record.key, Completed, revision))
    case _ => None)
  }

  function CommittedRegistry(base: World, a: Addition): Records {
    if a.previous.Some? then Update(base.registry, a.record) else Insert(base.registry, a.record)
  }

  /** The exact world at a point of addition `a` begun in `base`. */
  function At(base: World, a: Addition, p: Point): World {
    World(
      if HasCredential(p) then base.keyring[a.record.key := Credential(a.request, a.secret)] else base.keyring,
      if HasRecord(p) then CommittedRegistry(base, a) else base.registry,
      if IsSelected(p) then Some(a.record.key) else base.selected,
      base.journal[a.request := Entry(a, p)])
  }

  /** The addition fits the world it begins in: new request, no credential for its key, and a
      pre-existing record only if its credential is missing. */
  ghost predicate Admissible(base: World, a: Addition) {
    && WellFormed(base) && Quiet(base)
    && a.request !in base.journal
    && a.kind != RemoveKind
    && a.selectedBefore == base.selected
    && a.record.availability == Available
    && a.record.key !in base.keyring
    && match Find(base.registry, a.record.key)
       case None => a.previous.None?
       case Some(record) =>
         && record.availability == CredentialMissing
         && a.previous == Some(CredentialMissing)
         && a.record == record.(availability := Available)
  }

  // ---- The way forward ----

  /** The point an uninterrupted command has reached after `i` calls. */
  function ForwardPoint(a: Addition, i: nat): Point {
    match i
    case 0 | 1 => Begun
    case 2 => CredentialPut
    case 3 => CredentialLogged
    case 4 => RecordPut
    case 5 => RecordLogged
    case 6 => KeySelected
    case 7 => SelectionLogged
    case _ => Committed(Some(a.resulting))
  }

  function ForwardWorld(base: World, a: Addition, i: nat): World {
    if i == 0 then base else At(base, a, ForwardPoint(a, i))
  }

  lemma CommittedLookup(base: World, a: Addition)
    requires Admissible(base, a)
    ensures Find(CommittedRegistry(base, a), a.record.key) == Some(a.record)
    ensures forall k :: k != a.record.key ==> Find(CommittedRegistry(base, a), k) == Find(base.registry, k)
    ensures Ordered(CommittedRegistry(base, a)) && Unique(CommittedRegistry(base, a))
    ensures CommittedRegistry(base, a) != []
  {
    FindSound(base.registry, a.record.key);
    if a.previous.Some? {
      UpdateSound(base.registry, a.record);
      UpdateLookup(base.registry, a.record);
      UpdateOrdered(base.registry, a.record, Find(base.registry, a.record.key).value);
    } else {
      InsertSound(base.registry, a.record);
      InsertLookup(base.registry, a.record);
    }
  }

  /** The consequences of admissibility that single calls depend on. */
  ghost predicate Facts(base: World, a: Addition) {
    var found := Find(base.registry, a.record.key);
    && a.request !in base.journal
    && a.record.key !in base.keyring
    && a.kind != RemoveKind
    && a.selectedBefore == base.selected
    && a.record.availability == Available
    && (base.selected.Some? ==> Has(base.registry, base.selected.value))
    && (a.previous.Some? <==> found.Some?)
    && (found.Some? ==>
          && a.previous == Some(CredentialMissing)
          && found.value.availability == CredentialMissing
          && Update(base.registry, found.value) == base.registry)
    && Find(CommittedRegistry(base, a), a.record.key) == Some(a.record)
  }

  lemma AdmissibleFacts(base: World, a: Addition)
    requires Admissible(base, a)
    ensures Facts(base, a)
  {
    CommittedLookup(base, a);
    var found := Find(base.registry, a.record.key);
    if found.Some? {
      FindSound(base.registry, a.record.key);
      UpdateOrdered(base.registry, found.value, found.value);
    }
  }

  predicate SameFlags(p: Point, q: Point) {
    HasCredential(p) == HasCredential(q) && HasRecord(p) == HasRecord(q) && IsSelected(p) == IsSelected(q)
  }

  /** Journal calls move between points that agree on the stores. */
  lemma JournalEdge(base: World, a: Addition, p: Point, q: Point)
    requires !Ended(p) && SameFlags(p, q)
    ensures !Ended(q) ==> Perform(At(base, a, p), Advance(a.request, PhaseOf(p), PhaseOf(q))) == Ok(At(base, a, q))
    ensures q.RolledBack? ==>
              Perform(At(base, a, p), Finalize(a.request, PhaseOf(p), Failed, None)) == Ok(At(base, a, q))
    ensures q.Committed? ==>
              Perform(At(base, a, p), Finalize(a.request, PhaseOf(p), Completed, q.revision)) == Ok(At(base, a, q))
  {
    hide Insert; hide Update; hide Find;
    assert base.journal[a.request := Entry(a, p)][a.request := Entry(a, q)] == base.journal[a.request := Entry(a, q)];
  }

  lemma BeginEdge(base: World, a: Addition)
    requires Facts(base, a)
    ensures Perform(base, Begin(AdditionOperation(a))) == Ok(At(base, a, Begun))
    ensures Perform(At(base, a, Begun), Put(a.request, a.record.key, a.secret)) == Ok(At(base, a, CredentialPut))
  {
    hide Insert; hide Update; hide Find;
  }

  lemma RecordEdge(base: World, a: Addition)
    requires Facts(base, a)
    ensures Perform(At(base, a, CredentialLogged), AdditionPlan(a)[3]) == Ok(At(base, a, RecordPut))
  {
    hide Insert; hide Update; hide Find;
  }

  lemma ForwardStep(base: World, a: Addition, i: nat)
    requires Facts(base, a) && i < 8
    ensures Perform(ForwardWorld(base, a, i), AdditionPlan(a)[i]) == Ok(ForwardWorld(base, a, i + 1))
  {
    hide Insert; hide Update; hide Find; hide Perform; hide At;
    match i
    case 0 => BeginEdge(base, a);
    case 1 => BeginEdge(base, a);
    case 2 => JournalEdge(base, a, CredentialPut, CredentialLogged);
    case 3 => RecordEdge(base, a);
    case 4 => JournalEdge(base, a, RecordPut, RecordLogged);
    case 5 => SelectEdge(base, a, RecordLogged);
    case 6 => JournalEdge(base, a, KeySelected, SelectionLogged);
    case _ => JournalEdge(base, a, SelectionLogged, Committed(Some(a.resulting)));
  }

  /** The uninterrupted command, cut after any number of calls, is at the matching point. */
  lemma ForwardCut(base: World, a: Addition, cut: nat)
    requires Admissible(base, a) && cut <= 8
    ensures Exec(base, AdditionPlan(a), cut) == Run(ForwardWorld(base, a, cut), true)
  {
    AdmissibleFacts(base, a);
    forall i: nat | i < 8
      ensures Perform(ForwardWorld(base, a, i), AdditionPlan(a)[i]) == Ok(ForwardWorld(base, a, i + 1))
    {
      ForwardStep(base, a, i);
    }
    ExecPath((i: nat) => ForwardWorld(base, a, i), AdditionPlan(a), cut);
  }

  // ---- Recovery ----

  /** The number of changing calls recovery makes from a point. */
  function Length(p: Point): nat {
    match p
    case Begun | CredentialPut => 2
    case CredentialLogged => 6
    case Compensating | Cleared => 5
    case RecordPut => 4
    case RecordLogged | KeySelected => 3
    case SelectionLogged | Undone => 1
    case RolledBack | Committed(_) => 0
  }

  /** The point recovery has reached from `p` after `i` changing calls. */
  function Visit(p: Point, i: nat): Point {
    if i == 0 then p
    else
      match p
      case Begun | CredentialPut => if i == 1 then Begun else RolledBack
      case CredentialLogged => if i == 1 then Compensating else OnTheWayBack(i - 1)
      case Compensating | Cleared => OnTheWayBack(i)
      case RecordPut => if i == 1 then RecordLogged else OnTheWayOut(i - 1)
      case RecordLogged | KeySelected => OnTheWayOut(i)
      case SelectionLogged => Committed(None)
      case Undone => RolledBack
      case RolledBack | Committed(_) => p
  }

  function OnTheWayBack(i: nat): Point {
    if i <= 3 then Cleared else if i == 4 then Undone else RolledBack
  }

  function OnTheWayOut(i: nat): Point {
    if i == 1 then KeySelected else if i == 2 then SelectionLogged else Committed(None)
  }

  function PlanAt(base: World, a: Addition, p: Point): Plan {
    RecoveryPlan(At(base, a, p), Entry(a, p))
  }

  /** Store calls of recovery, at the points where it makes them. */
  lemma DropEdge(base: World, a: Addition, p: Point)
    requires Facts(base, a) && p in {Begun, CredentialPut, Compensating, Cleared}
    ensures Perform(At(base, a, p), DropCredential(a.record.key)) ==
            Ok(At(base, a, if p.Begun? || p.CredentialPut? then Begun else Cleared))
  {
    hide Insert; hide Update; hide Find;
    assert base.keyring[a.record.key := Credential(a.request, a.secret)] - {a.record.key} == base.keyring;
  }

  lemma SelectEdge(base: World, a: Addition, p: Point)
    requires Facts(base, a) && p in {Cleared, RecordLogged, KeySelected}
    ensures p.Cleared? ==> Perform(At(base, a, p), Select(base.selected)) == Ok(At(base, a, Cleared))
    ensures !p.Cleared? ==> Perform(At(base, a, p), Select(Some(a.record.key))) == Ok(At(base, a, KeySelected))
  {
    hide Insert; hide Update; hide Find;
  }

  /** Putting the record back as it was changes nothing, because it was never changed. */
  lemma RestoreEdge(base: World, a: Addition, p: Point)
    requires Facts(base, a)
    ensures Perform(At(base, a, Cleared), Compensate(Entry(a, p))[1]) == Ok(At(base, a, Cleared))
  {
    var found := Find(base.registry, a.record.key);
    if found.Some? {
      assert found.value.(availability := CredentialMissing) == found.value;
    }
  }

  lemma CompensationStep(base: World, a: Addition, p: Point, i: nat)
    requires Facts(base, a) && i < 5 && (p.Compensating? || p.Cleared?)
    ensures Perform(At(base, a, Visit(p, i)), Compensate(Entry(a, p))[i]) == Ok(At(base, a, Visit(p, i + 1)))
  {
    hide Insert; hide Update; hide Find; hide Perform; hide At;
    match i
    case 0 => DropEdge(base, a, p);
    case 1 => RestoreEdge(base, a, p);
    case 2 => SelectEdge(base, a, Cleared);
    case 3 => JournalEdge(base, a, Cleared, Undone);
    case _ => JournalEdge(base, a, Undone, RolledBack);
  }

  lemma FinishStep(base: World, a: Addition, p: Point, i: nat)
    requires Facts(base, a) && i < 3 && (p.RecordLogged? || p.KeySelected?)
    ensures Perform(At(base, a, Visit(p, i)), FinishSelection(Entry(a, p))[i]) == Ok(At(base, a, Visit(p, i + 1)))
  {
    hide Insert; hide Update; hide Find; hide Perform; hide At;
    match i
    case 0 => SelectEdge(base, a, p);
    case 1 => JournalEdge(base, a, KeySelected, SelectionLogged);
    case _ => JournalEdge(base, a, SelectionLogged, Committed(None));
  }

  lemma EarlyStep(base: World, a: Addition, p: Point, i: nat)
    requires Facts(base, a) && (p.Begun? || p.CredentialPut?) && i < 2
    ensures var plan := [DropCredential(a.record.key), Finalize(a.request, IntentRecorded, Failed, None)];
            Perform(At(base, a, Visit(p, i)), plan[i]) == Ok(At(base, a, Visit(p, i + 1)))
  {
    hide Insert; hide Update; hide Find; hide Perform; hide At; hide Facts;
    DropEdge(base, a, p);
    JournalEdge(base, a, Begun, RolledBack);
  }

  lemma TurnBackStep(base: World, a: Addition, i: nat)
    requires Facts(base, a) && i < 6
    ensures var plan := [Advance(a.request, CredentialWritten, CompensationPending)]
                        + Compensate(Entry(a, Compensating));
            Perform(At(base, a, Visit(CredentialLogged, i)), plan[i]) == Ok(At(base, a, Visit(CredentialLogged, i + 1)))
  {
    hide Insert; hide Update; hide Find; hide Perform; hide At; hide Facts;
    if i == 0 {
      JournalEdge(base, a, CredentialLogged, Compensating);
    } else {
      CompensationStep(base, a, Compensating, i - 1);
    }
  }

  lemma TurnOutStep(base: World, a: Addition, i: nat)
    requires Facts(base, a) && i < 4
    ensures var plan := [Advance(a.request, CredentialWritten, MetadataCommitted)]
                        + FinishSelection(Entry(a, RecordLogged));
            Perform(At(base, a, Visit(RecordPut, i)), plan[i]) == Ok(At(base, a, Visit(RecordPut, i + 1)))
  {
    hide Insert; hide Update; hide Find; hide Perform; hide At; hide Facts;
    if i == 0 {
      JournalEdge(base, a, RecordPut, RecordLogged);
    } else {
      FinishStep(base, a, RecordLogged, i - 1);
    }
  }

  lemma PlanShape(base: World, a: Addition, p: Point)
    requires Facts(base, a)
    ensures PlanAt(base, a, p) ==
            match p
            case Begun | CredentialPut =>
              [DropCredential(a.record.key), Finalize(a.request, IntentRecorded, Failed, None)]
            case CredentialLogged =>
              [Advance(a.request, CredentialWritten, CompensationPending)] + Compensate(Entry(a, Compensating))
            case RecordPut =>
              [Advance(a.request, CredentialWritten, MetadataCommitted)] + FinishSelection(Entry(a, RecordLogged))
            case RecordLogged | KeySelected => FinishSelection(Entry(a, p))
            case SelectionLogged => [Finalize(a.request, SelectionCommitted, Completed, None)]
            case Compensating | Cleared => Compensate(Entry(a, p))
            case Undone => [Finalize(a.request, CredentialDeleted, Failed, None)]
            case RolledBack | Committed(_) => []
  {
    hide Insert; hide Update; hide Find;
  }

  lemma RecoveryStep(base: World, a: Addition, p: Point, i: nat)
    requires Facts(base, a)
    requires i < Length(p)
    ensures |PlanAt(base, a, p)| == Length(p)
    ensures Perform(At(base, a, Visit(p, i)), PlanAt(base, a, p)[i]) == Ok(At(base, a, Visit(p, i + 1)))
  {
    PlanShape(base, a, p);
    hide Insert; hide Update; hide Find; hide Perform; hide At; hide PlanAt; hide Facts; hide Compensate;
    match p
    case Begun | CredentialPut => EarlyStep(base, a, p, i);
    case CredentialLogged => TurnBackStep(base, a, i);
    case RecordPut => TurnOutStep(base, a, i);
    case RecordLogged | KeySelected => FinishStep(base, a, p, i);
    case SelectionLogged => JournalEdge(base, a, p, Committed(None));
    case Compensating | Cleared => CompensationStep(base, a, p, i);
    case Undone => JournalEdge(base, a, p, RolledBack);
    case RolledBack | Committed(_) =>
  }

  /** The start-up listing holds exactly this operation until it has a receipt. */
  lemma ListingAt(base: World, a: Addition, p: Point)
    requires Admissible(base, a)
    ensures Listing(At(base, a, p)) == if Ended(p) then [] else [Entry(a, p)]
  {
    var w := At(base, a, p);
    forall r | r in w.journal && r != a.request ensures r !in UnfinishedIds(w) {
      assert !Unfinished(base, r);
    }
    if Ended(p) {
      assert UnfinishedIds(w) == {};
    } else {
      assert a.request in UnfinishedIds(w);
      assert UnfinishedIds(w) == {a.request};
      assert InOrder(w, {a.request} - {a.request}) == [];
    }
  }

  /** Where recovery stands when it dies after `cut` changing calls. */
  function Recovered(p: Point, cut: nat): Point {
    Visit(p, if cut <= Length(p) then cut else Length(p))
  }

  lemma RecoveryExec(base: World, a: Addition, p: Point, cut: nat)
    requires Facts(base, a) && cut <= Length(p)
    ensures |PlanAt(base, a, p)| == Length(p)
    ensures Exec(At(base, a, p), PlanAt(base, a, p), cut) == Run(At(base, a, Visit(p, cut)), true)
  {
    hide Insert; hide Update; hide Find; hide Perform; hide At;
    PlanShape(base, a, p);
    var plan := PlanAt(base, a, p);
    forall i: nat | i < |plan| ensures Perform(At(base, a, Visit(p, i)), plan[i]) == Ok(At(base, a, Visit(p, i + 1))) {
      RecoveryStep(base, a, p, i);
    }
    ExecPath((i: nat) => At(base, a, Visit(p, i)), plan, cut);
  }

  /** Recovery from any point, cut anywhere, lands on a point and completes exactly when it was not cut. */
  lemma RecoverFrom(base: World, a: Addition, p: Point, cut: nat)
    requires Admissible(base, a)
    ensures Recover(At(base, a, p), cut).world == At(base, a, Recovered(p, cut))
    ensures Recover(At(base, a, p), cut).ok <==> Ended(Recovered(p, cut))
  {
    AdmissibleFacts(base, a);
    ListingAt(base, a, p);
    RecoverOnly(base, a, p, cut);
  }

  lemma RecoverOnly(base: World, a: Addition, p: Point, cut: nat)
    requires Facts(base, a)
    ensures var run := RecoverListed(At(base, a, p), if Ended(p) then [] else [Entry(a, p)], cut);
            run.world == At(base, a, Recovered(p, cut)) && (run.ok <==> Ended(Recovered(p, cut)))
  {
    hide Insert; hide Update; hide Find; hide Perform; hide At;
    var at := if cut <= Length(p) then cut else Length(p);
    RecoveryExec(base, a, p, at);
    if !Ended(p) {
      RecoverOne(At(base, a, p), Entry(a, p), cut);
      VisitEnds(p, at);
    }
  }

  lemma VisitEnds(p: Point, i: nat)
    requires i <= Length(p)
    ensures Ended(Visit(p, i)) <==> i == Length(p)
  {}

  lemma RecoverOne(w: World, op: Operation, cut: nat)
    ensures var plan := RecoveryPlan(w, op);
            RecoverListed(w, [op], cut) == Run(Cut(w, plan, cut).world, cut >= |plan| && Cut(w, plan, cut).ok)
  {}

  /** Recoveries one after the other, the i-th dying after at most `cuts[i]` changing calls. */
  ghost function RecoverMany(w: World, cuts: seq<nat>): World
    decreases |cuts|
  {
    if cuts == [] then w else RecoverMany(Recover(w, cuts[0]).world, cuts[1..])
  }

  lemma RecoveredReceipt(p: Point, cut: nat)
    ensures Recovered(p, cut).Committed? ==> Recovered(p, cut).revision == if p.Committed? then p.revision else None
  {}

  lemma {:induction false} RecoverManyFrom(base: World, a: Addition, p: Point, cuts: seq<nat>) returns (q: Point)
    requires Admissible(base, a)
    ensures RecoverMany(At(base, a, p), cuts) == At(base, a, q)
    ensures q.Committed? ==> q.revision == if p.Committed? then p.revision else None
    decreases |cuts|
  {
    q := p;
    if cuts != [] {
      RecoverFrom(base, a, p, cuts[0]);
      RecoveredReceipt(p, cuts[0]);
      hide At; hide Recover; hide Recovered; hide Admissible;
      q := RecoverManyFrom(base, a, Recovered(p, cuts[0]), cuts[1..]);
    }
  }

  // ---- Results ----

  /** The stores are those of `base`, and the request failed. */
  ghost predicate AsBefore(base: World, a: Addition, w: World) {
    && SameStores(w, base)
    && a.request in w.journal
    && w.journal[a.request].terminal == Some(Receipt(a.request, a.record.key, Failed, None))
  }

  /** The credential is stored under the request, the record is available, the key is selected, every
      other key's credential and record is untouched, and the request completed with `revision`. */
  ghost predicate FullyCommitted(base: World, a: Addition, w: World, revision: Option<nat>) {
    var key := a.record.key;
    && w.keyring == base.keyring[key := Credential(a.request, a.secret)]
    && Find(w.registry, key) == Some(a.record) && a.record.availability == Available
    && (forall k :: k != key ==> Find(w.registry, k) == Find(base.registry, k))
    && w.selected == Some(key)
    && a.request in w.journal
    && w.journal[a.request].terminal == Some(Receipt(a.request, key, Completed, revision))
  }

  /** The revision on the receipt: recovery does not know it. */
  function ReceiptOf(a: Addition, cut: nat): Option<nat> {
    if cut == 8 then Some(a.resulting) else None
  }

  lemma CommittedIsWellFormed(base: World, a: Addition, p: Point)
    requires Admissible(base, a) && Ended(p)
    ensures WellFormed(At(base, a, p)) && Quiet(At(base, a, p))
    ensures p.Committed? ==> FullyCommitted(base, a, At(base, a, p), p.revision)
    ensures p.RolledBack? ==> AsBefore(base, a, At(base, a, p))
  {
    CommittedLookup(base, a);
    var w := At(base, a, p);
    forall r | r in w.journal ensures !Unfinished(w, r) {
      if r != a.request { assert !Unfinished(base, r); }
    }
    forall k: PublicKey ensures
        match Find(w.registry, k)
        case None => k !in w.keyring
        case Some(record) =>
          && (record.availability == Available ==> k in w.keyring)
          && (record.availability == CredentialMissing ==> k !in w.keyring)
    {
      assert Find(w.registry, k) == Find(base.registry, k) || k == a.record.key;
    }
  }

  lemma ForwardCutPoint(base: World, a: Addition, cut: nat)
    requires Admissible(base, a) && 1 <= cut <= 8
    ensures Exec(base, AdditionPlan(a), cut).world == At(base, a, ForwardPoint(a, cut))
  {
    hide Insert; hide Update; hide Find;
    ForwardCut(base, a, cut);
  }

  /** At every point, an unfinished operation is finished by one recovery that is not cut. */
  lemma RecoveryEnds(base: World, a: Addition, p: Point, enough: nat)
    requires Admissible(base, a) && enough >= 6
    ensures Recover(At(base, a, p), enough).ok && Quiet(Recover(At(base, a, p), enough).world)
  {
    RecoverFrom(base, a, p, enough);
    CommittedIsWellFormed(base, a, Recovered(p, enough));
  }

  /** Addition is crash-atomic. Cut the command anywhere, let any number of recoveries die anywhere,
      then: as soon as no operation is unfinished, the stores are exactly as before or fully
      committed; and one recovery that is not cut gets there. */
  lemma AdditionIsCrashAtomic(base: World, a: Addition, cut: nat, cuts: seq<nat>, enough: nat)
    requires Admissible(base, a) && 1 <= cut <= 8 && enough >= 6
    ensures var w := RecoverMany(Exec(base, AdditionPlan(a), cut).world, cuts);
            && (Quiet(w) ==>
                  WellFormed(w) && (AsBefore(base, a, w) || FullyCommitted(base, a, w, ReceiptOf(a, cut))))
            && Recover(w, enough).ok && Quiet(Recover(w, enough).world)
  {
    ForwardCutPoint(base, a, cut);
    var q := RecoverManyFrom(base, a, ForwardPoint(a, cut), cuts);
    if Quiet(At(base, a, q)) {
      assert !Unfinished(At(base, a, q), a.request);
      CommittedIsWellFormed(base, a, q);
    }
    RecoveryEnds(base, a, q, enough);
  }

  /** Which way recovery goes is decided by what was written: it commits exactly from a written record on. */
  lemma RecoveryDirection(base: World, a: Addition, p: Point, enough: nat)
    requires Admissible(base, a) && enough >= 6
    ensures FullyCommitted(base, a, Recover(At(base, a, p), enough).world, if p.Committed? then p.revision else None)
       <==> HasRecord(p)
    ensures AsBefore(base, a, Recover(At(base, a, p), enough).world) <==> !HasRecord(p)
  {
    RecoverFrom(base, a, p, enough);
    var q := Recovered(p, enough);
    CommittedIsWellFormed(base, a, q);
    RecoveredReceipt(p, enough);
    assert q.Committed? <==> HasRecord(p);
    hide At; hide Recover; hide Recovered; hide Admissible; hide WellFormed; hide Quiet; hide Find;
  }
}
