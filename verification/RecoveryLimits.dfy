/** Where the guarantees end: what happens when operations overlap, and exactly which generated keys a
    creation is atomic for.
*/
module RecoveryLimits {
  import opened Domain
  import opened Registry
  import opened Durable
  import opened IdentityPlans
  import Additions
  import Removals
  import History = IdentityHistory
  import opened StartRecovery

  // ---- Overlapping operations ----

  /** Where nothing is forecast, no number of restarts, cut anywhere, ever completes. */
  lemma WedgedForever(w: World, cuts: seq<nat>, last: nat)
    requires Keyed(w) && Forecast(w.registry, Listing(w)).None?
    ensures !Recover(Additions.RecoverMany(w, cuts), last).ok
  {
    RestartsChangeNothing(w, cuts, last);
  }

  const FIRST: Identity := NewIdentity(1, 3)
  const START: World := World(map[1 := Credential(9, 4)], [FIRST], Some(1), map[])
  const IMPORT: Command := ImportIdentity(10, 0, 0, KeyMaterial(2, 5), 7, 1)
  const REMOVE: Command := RemoveIdentity(11, 0, 1, Some(1), 2)

  lemma StartIsWellFormed()
    ensures WellFormed(START) && Quiet(START)
  {}

  /** Overlap is what recovery does not survive. An import that fails after its credential
      was logged, followed by the removal of the identity selected before it, each command by itself
      permitted by the code, leaves a world that no restart can ever recover. */
  lemma OverlapWedgesRecovery(cuts: seq<nat>, last: nat)
    ensures WellFormed(START) && Quiet(START)
    ensures var w := History.After(START, [History.Do(IMPORT, 3), History.Do(REMOVE, 8)]);
            !Recover(Additions.RecoverMany(w, cuts), last).ok
  {
    StartIsWellFormed();
    var events := [History.Do(IMPORT, 3), History.Do(REMOVE, 8)];
    ImportStops();
    RemovalFollows();
    OverlapForecast();
    hide History.Step; hide Additions.At; hide Find; hide Forecast; hide Listing;
    assert events[..1] == [events[0]] && events[..1][..0] == [];
    assert History.After(START, events[..1]) == Interrupted();
    WedgedForever(Overlapped(), cuts, last);
  }

  /** The world after the interrupted import, and after the removal that follows. */
  function Interrupted(): World {
    Additions.At(START, ImportAddition(START, IMPORT), Additions.CredentialLogged)
  }

  function Overlapped(): World {
    Removals.At(Interrupted(), Removal(11, 0, 1, Available, None, 2), Removals.Done(Some(2)))
  }

  lemma ImportStops()
    ensures History.Step(START, History.Do(IMPORT, 3)) == Interrupted()
  {
    StartIsWellFormed();
    assert Find(START.registry, 2) == None;
    History.ImportIsAdmissible(START, IMPORT);
    Additions.ForwardCut(START, ImportAddition(START, IMPORT), 3);
    hide Additions.At; hide Exec; hide Find;
  }

  lemma RemovalFollows()
    ensures History.Step(Interrupted(), History.Do(REMOVE, 8)) == Overlapped()
  {
    var mid, r := Interrupted(), Removal(11, 0, 1, Available, None, 2);
    assert Find(START.registry, 2) == None;
    assert mid.registry == [FIRST] && Find(mid.registry, 1) == Some(FIRST);
    assert Remove(mid.registry, 1) == [];
    assert CommandRemoval(mid, REMOVE) == r;
    hide Find; hide Remove; hide Exec;
    Removals.ForwardExec(mid, r, 8);
  }

  lemma OverlapForecast()
    ensures Keyed(Overlapped()) && Forecast(Overlapped().registry, Listing(Overlapped())).None?
  {
    var w := Overlapped();
    assert Find(START.registry, 2) == None;
    assert Remove(Interrupted().registry, 1) == [];
    assert UnfinishedIds(w) == {10};
    assert InOrder(w, {10} - {10}) == [];
    assert Listing(w) == [w.journal[10]];
  }

  const THIRD: Identity := NewIdentity(3, 4)
  const PAIR: World := World(map[1 := Credential(7, 4), 3 := Credential(8, 5)], [FIRST, THIRD], Some(1), map[])
  const LEAVE: Command := RemoveIdentity(9, 0, 1, Some(1), 2)
  const JOIN: Command := ImportIdentity(10, 0, 0, KeyMaterial(2, 6), 7, 1)

  const LEAVING: Operation :=
    Operation(9, RemoveKind, 1, Some(0), IntentRecorded, Prior(Some(3), Some(Available)), None)
  const JOINING: Operation := Operation(10, Import, 2, Some(0), CredentialWritten, Prior(Some(1), None), None)

  /** The world after a removal cut behind its intent and an import cut behind its logged credential. */
  function Entangled(): World {
    PAIR.(keyring := PAIR.keyring[2 := Credential(10, 6)], journal := map[9 := LEAVING, 10 := JOINING])
  }

  lemma PairLookup(k: PublicKey)
    ensures Find([THIRD], k) == if k == 3 then Some(THIRD) else None
    ensures Find(PAIR.registry, k) == if k == 1 then Some(FIRST) else Find([THIRD], k)
    ensures Remove(PAIR.registry, 1) == [THIRD]
  {
    assert [THIRD][1..] == [] && Find([], k) == None && Remove([], 1) == [];
    assert PAIR.registry[1..] == [THIRD];
    assert Remove([THIRD], 1) == [THIRD];
  }

  /** The condition is one on the whole listing. Here each entry alone could be recovered, but recovering
      the removal takes away what compensating the import has to select, and no start ever completes. */
  lemma RecoverableAloneIsNotEnough(cuts: seq<nat>, last: nat)
    ensures WellFormed(PAIR) && Quiet(PAIR)
    ensures History.After(PAIR, [History.Do(LEAVE, 1), History.Do(JOIN, 3)]) == Entangled()
    ensures Pending(Entangled(), 9) && Recoverable(Entangled().registry, LEAVING)
    ensures Pending(Entangled(), 10) && Recoverable(Entangled().registry, JOINING)
    ensures !Recover(Additions.RecoverMany(Entangled(), cuts), last).ok
  {
    var events := [History.Do(LEAVE, 1), History.Do(JOIN, 3)];
    PairIsWellFormed();
    LeavingStops();
    JoiningStops();
    EntangledForecast();
    assert events[..1] == [events[0]] && events[..1][..0] == [];
    hide History.Step; hide Forecast; hide Listing; hide Recoverable; hide Find; hide WellFormed;
    assert History.After(PAIR, events[..1]) == PAIR.(journal := map[9 := LEAVING]);
    WedgedForever(Entangled(), cuts, last);
  }

  lemma PairIsWellFormed()
    ensures WellFormed(PAIR) && Quiet(PAIR)
  {
    forall k: PublicKey
      ensures Find(PAIR.registry, k) == if k == 1 then Some(FIRST) else if k == 3 then Some(THIRD) else None
    {
      PairLookup(k);
    }
    hide Find;
  }

  lemma LeavingStops()
    ensures History.Step(PAIR, History.Do(LEAVE, 1)) == PAIR.(journal := map[9 := LEAVING])
  {
    var plan := CommandPlan(PAIR, LEAVE);
    assert PAIR.registry[1..] == [THIRD];
    assert CommandRemoval(PAIR, LEAVE).fallback == Some(3);
    assert Exec(PAIR, plan, 0) == Run(PAIR, true);
    assert map[][9 := LEAVING] == map[9 := LEAVING];
  }

  lemma JoiningStops()
    ensures History.Step(PAIR.(journal := map[9 := LEAVING]), History.Do(JOIN, 3)) == Entangled()
  {
    var base := PAIR.(journal := map[9 := LEAVING]);
    var plan := CommandPlan(base, JOIN);
    PairLookup(2);
    hide Find; hide Insert; hide Update;
    var begun := base.(journal := map[9 := LEAVING, 10 := JOINING.(phase := IntentRecorded)]);
    var put := begun.(keyring := Entangled().keyring);
    assert Exec(base, plan, 0) == Run(base, true);
    assert Exec(base, plan, 1) == Run(begun, true);
    assert Exec(base, plan, 2) == Run(put, true);
    assert put.journal[10 := JOINING] == Entangled().journal;
  }

  lemma EntangledForecast()
    ensures Recoverable(Entangled().registry, LEAVING) && Recoverable(Entangled().registry, JOINING)
    ensures Keyed(Entangled()) && Forecast(Entangled().registry, Listing(Entangled())).None?
  {
    var w := Entangled();
    assert UnfinishedIds(w) == {9, 10} && Least({9, 10}) == 9;
    assert {9, 10} - {9} == {10} && Least({10}) == 10 && InOrder(w, {10} - {10}) == [];
    assert Listing(w) == [LEAVING, JOINING];
    assert [LEAVING, JOINING][1..] == [JOINING];
    PairLookup(1);
    PairLookup(2);
    PairLookup(3);
    hide Find; hide Remove; hide Least; hide InOrder;
  }

  // ---- Which generated keys a creation is atomic for ----

  ghost predicate Committed(base: World, a: Addition, w: World, cut: nat) {
    Additions.FullyCommitted(base, a, w, Additions.ReceiptOf(a, cut))
  }

  /** However often the creation is cut, one recovery ends as before or fully committed. */
  ghost predicate CreationIsAtomic(base: World, a: Addition) {
    forall cut: nat :: 1 <= cut <= 8 ==>
                         var run := Recover(Exec(base, AdditionPlan(a), cut).world, 6);
                         run.ok && (Additions.AsBefore(base, a, run.world)
                                    || Committed(base, a, run.world, cut))
  }

  /** A creation for a registered key destroys that identity's credential or its record. */
  lemma RegisteredKeyIsDamaged(base: World, c: Command)
    requires WellFormed(base) && Quiet(base) && c.CreateIdentity? && c.request !in base.journal
    requires Has(base.registry, c.material.key)
    ensures var a := CreateAddition(base, c);
            var run := Recover(Exec(base, AdditionPlan(a), 8).world, 6);
            !(run.ok && (Additions.AsBefore(base, a, run.world) || Committed(base, a, run.world, 8)))
  {
    var a := CreateAddition(base, c);
    var plan := AdditionPlan(a);
    RemoveLookup(base.registry, a.record.key);
    if a.record.key in base.keyring {
      CredentialIsLost(base, a);
    } else {
      assert Find(base.registry, a.record.key).value.availability != Available;
      RecordIsLost(base, a);
    }
  }

  lemma ListingOfOne(base: World, w: World, op: Operation)
    requires Quiet(base) && op.terminal.None? && w.journal == base.journal[op.request := op]
    ensures Listing(w) == [op]
  {
    forall r | r in w.journal && r != op.request ensures r !in UnfinishedIds(w) {
      assert !Unfinished(base, r);
    }
    assert op.request in UnfinishedIds(w);
    assert UnfinishedIds(w) == {op.request};
    assert InOrder(w, {op.request} - {op.request}) == [];
  }

  lemma CredentialIsLost(base: World, a: Addition)
    requires Quiet(base) && a.kind == Create && a.request !in base.journal && a.record.key in base.keyring
    ensures var run := Recover(Exec(base, AdditionPlan(a), 8).world, 6);
            a.record.key !in run.world.keyring
  {
    hide Find; hide Insert; hide Update; hide Remove;
    var plan, op := AdditionPlan(a), AdditionOperation(a);
    assert Exec(base, plan, 0) == Run(base, true);
    var w := base.(journal := base.journal[a.request := op]);
    assert Exec(base, plan, 1) == Run(w, true);
    assert Exec(base, plan, 2) == Run(w, false);
    ExecStuck(base, plan, 2, 8);
    ListingOfOne(base, w, op);
    Additions.RecoverOne(w, op, 6);
    var recovery := RecoveryPlan(w, op);
    assert Exec(w, recovery, 0) == Run(w, true);
    assert Exec(w, recovery, 1).ok && a.record.key !in Exec(w, recovery, 1).world.keyring;
  }

  lemma RecordIsLost(base: World, a: Addition)
    requires Quiet(base) && a.kind == Create && a.request !in base.journal && a.record.key !in base.keyring
    requires a.previous.None? && a.selectedBefore == base.selected
    requires Has(base.registry, a.record.key) && !MetadataIsCommitted(base.registry, a.record.key)
    requires !Has(Remove(base.registry, a.record.key), a.record.key)
    ensures var run := Recover(Exec(base, AdditionPlan(a), 8).world, 6);
            !Has(run.world.registry, a.record.key)
  {
    hide Find; hide Insert; hide Update; hide Remove;
    var plan, key := AdditionPlan(a), a.record.key;
    var op := AdditionOperation(a).(phase := CredentialWritten);
    assert Exec(base, plan, 0) == Run(base, true);
    assert Exec(base, plan, 1).ok && InPhase(Exec(base, plan, 1).world, a.request, IntentRecorded);
    assert Exec(base, plan, 2).ok && InPhase(Exec(base, plan, 2).world, a.request, IntentRecorded);
    var w := World(base.keyring[key := Credential(a.request, a.secret)], base.registry, base.selected,
                   base.journal[a.request := op]);
    assert Exec(base, plan, 3) == Run(w, true);
    assert Exec(base, plan, 4) == Run(w, false);
    ExecStuck(base, plan, 4, 8);
    hide Exec; hide Perform; hide InOrder;
    ListingOfOne(base, w, op);
    Additions.RecoverOne(w, op, 6);
    CompensationDropsRecord(w, op);
  }

  lemma CompensationDropsRecord(w: World, op: Operation)
    requires Pending(w, op.request) && w.journal[op.request] == op && op.kind != RemoveKind
    requires op.phase == CredentialWritten && op.prior.availability.None?
    requires Has(w.registry, op.identity) && !MetadataIsCommitted(w.registry, op.identity)
    requires !Has(Remove(w.registry, op.identity), op.identity)
    ensures |RecoveryPlan(w, op)| == 6
    ensures !Has(Exec(w, RecoveryPlan(w, op), 6).world.registry, op.identity)
  {
    hide Find; hide Remove;
    var plan := RecoveryPlan(w, op);
    assert Exec(w, plan, 0) == Run(w, true);
    assert Exec(w, plan, 1).ok && Exec(w, plan, 1).world.registry == w.registry;
    assert Exec(w, plan, 2).ok && Exec(w, plan, 2).world.registry == w.registry;
    assert Exec(w, plan, 3).ok && Exec(w, plan, 3).world.registry == Remove(w.registry, op.identity);
    assert Exec(w, plan, 4).world.registry == Remove(w.registry, op.identity);
    assert Exec(w, plan, 5).world.registry == Remove(w.registry, op.identity);
  }

  /** A creation is crash-atomic if and only if its generated key is not registered yet. */
  lemma CreationIsAtomicIff(base: World, c: Command)
    requires WellFormed(base) && Quiet(base) && c.CreateIdentity? && c.request !in base.journal
    ensures CreationIsAtomic(base, CreateAddition(base, c)) <==> !Has(base.registry, c.material.key)
  {
    var a := CreateAddition(base, c);
    if Has(base.registry, c.material.key) {
      RegisteredKeyIsDamaged(base, c);
    } else {
      History.CreateIsAdmissible(base, c);
      forall cut: nat | 1 <= cut <= 8
        ensures var run := Recover(Exec(base, AdditionPlan(a), cut).world, 6);
                run.ok && (Additions.AsBefore(base, a, run.world) || Committed(base, a, run.world, cut))
      {
        Additions.ForwardCutPoint(base, a, cut);
        Additions.RecoveryEnds(base, a, Additions.ForwardPoint(a, cut), 6);
        Additions.RecoveryDirection(base, a, Additions.ForwardPoint(a, cut), 6);
      }
    }
  }
}
