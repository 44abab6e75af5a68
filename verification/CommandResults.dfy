/** What completed commands leave, said of stores and answers alone: nothing here mentions how a command
    goes about it.
*/
module CommandResults {
  import opened Domain
  import opened Registry
  import opened Durable
  import opened IdentityPlans
  import Additions
  import Removals

  // ---- Additions ----

  /** A record as a creation or a first import makes it. */
  predicate IsNew(record: Identity, key: PublicKey, now: nat) {
    && record.key == key && record.availability == Available && record.createdAt == now
    && record.displayLabel.None? && record.lastUsedAt.None?
  }

  /** The entry of a request that completed with `revision`. */
  predicate IsReceipted(op: Operation, request: RequestId, kind: Kind, key: PublicKey, expected: nat, prior: Prior,
                        revision: nat) {
    && op.request == request && op.kind == kind && op.identity == key && op.expectedRevision == Some(expected)
    && op.phase == Finalized && op.prior == prior
    && op.terminal.Some? && op.terminal.value.request == request && op.terminal.value.identity == key
    && op.terminal.value.outcome == Completed && op.terminal.value.revision == Some(revision)
  }

  /** `record` was added with its credential, is selected, and the request is receipted; every other
      credential and journal entry, and in a well-formed world every other lookup, is as before. */
  ghost predicate Added(w: World, after: World, request: RequestId, kind: Kind, expected: nat, secret: Secret,
                        record: Identity, revision: nat) {
    var key := record.key;
    var previous := Find(w.registry, key);
    var availability := if previous.Some? then Some(previous.value.availability) else None;
    && key !in w.keyring && request !in w.journal
    && after.keyring == w.keyring[key := Credential(request, secret)]
    && after.selected == Some(key)
    && Find(after.registry, key) == Some(record)
    && (WellFormed(w) ==>
          Ordered(after.registry) && forall k :: k != key ==> Find(after.registry, k) == Find(w.registry, k))
    && request in after.journal && after.journal == w.journal[request := after.journal[request]]
    && IsReceipted(after.journal[request], request, kind, key, expected, Prior(w.selected, availability), revision)
  }

  lemma AdditionDone(w: World, a: Addition, after: World)
    requires Exec(w, AdditionPlan(a), 8) == Run(after, true)
    ensures a.request !in w.journal && a.record.key !in w.keyring
    ensures a.previous.Some? <==> Has(w.registry, a.record.key)
    ensures after == World(w.keyring[a.record.key := Credential(a.request, a.secret)],
                           if a.previous.Some? then Update(w.registry, a.record) else Insert(w.registry, a.record),
                           Some(a.record.key), after.journal)
    ensures a.request in after.journal && after.journal == w.journal[a.request := after.journal[a.request]]
    ensures IsReceipted(after.journal[a.request], a.request, a.kind, a.record.key, a.expected,
                        Prior(a.selectedBefore, a.previous), a.resulting)
  {
    Unwind(w, AdditionPlan(a), 4);
    AdditionStored(w, a);
    AdditionCommitted(w, a);
    hide Exec; hide Find; hide Insert; hide Update;
  }

  /** A plan that ran to its end did so through every call. */
  lemma {:induction false} Unwind(w: World, plan: Plan, k: nat)
    requires k <= |plan| && Exec(w, plan, |plan|).ok
    ensures Exec(w, plan, k).ok
  {
    if !Exec(w, plan, k).ok { ExecStuck(w, plan, k, |plan|); }
  }

  lemma StepOf(w: World, plan: Plan, k: nat)
    requires k < |plan| && Exec(w, plan, |plan|).ok
    ensures Exec(w, plan, k).ok && Exec(w, plan, k + 1).ok
    ensures Perform(Exec(w, plan, k).world, plan[k]) == Ok(Exec(w, plan, k + 1).world)
  {
    Unwind(w, plan, k);
    Unwind(w, plan, k + 1);
    hide Perform;
  }

  lemma AdditionBegun(w: World, a: Addition)
    requires Exec(w, AdditionPlan(a), 8).ok
    ensures a.request !in w.journal && a.record.key !in w.keyring
    ensures Exec(w, AdditionPlan(a), 2).world ==
            World(w.keyring[a.record.key := Credential(a.request, a.secret)], w.registry, w.selected,
                  w.journal[a.request := AdditionOperation(a)])
  {
    var plan := AdditionPlan(a);
    StepOf(w, plan, 0);
    StepOf(w, plan, 1);
    assert Exec(w, plan, 0).world == w;
    hide Exec; hide Find; hide Insert; hide Update;
  }

  lemma AdditionStored(w: World, a: Addition)
    requires Exec(w, AdditionPlan(a), 8).ok
    ensures a.request !in w.journal && a.record.key !in w.keyring
    ensures a.previous.Some? <==> Has(w.registry, a.record.key)
    ensures Exec(w, AdditionPlan(a), 4).world ==
            World(w.keyring[a.record.key := Credential(a.request, a.secret)],
                  if a.previous.Some? then Update(w.registry, a.record) else Insert(w.registry, a.record), w.selected,
                  w.journal[a.request := AdditionOperation(a).(phase := CredentialWritten)])
  {
    var plan := AdditionPlan(a);
    AdditionBegun(w, a);
    StepOf(w, plan, 2);
    StepOf(w, plan, 3);
    hide Exec; hide Find; hide Insert; hide Update;
    var op := AdditionOperation(a);
    assert w.journal[a.request := op][a.request := op.(phase := CredentialWritten)]
        == w.journal[a.request := op.(phase := CredentialWritten)];
  }

  lemma AdditionCommitted(w: World, a: Addition)
    requires Exec(w, AdditionPlan(a), 8).ok
    requires a.request in Exec(w, AdditionPlan(a), 4).world.journal
    requires Exec(w, AdditionPlan(a), 4).world.journal[a.request] == AdditionOperation(a).(phase := CredentialWritten)
    ensures var mid, after := Exec(w, AdditionPlan(a), 4).world, Exec(w, AdditionPlan(a), 8).world;
            && after.keyring == mid.keyring && after.registry == mid.registry && after.selected == Some(a.record.key)
            && a.request in after.journal && after.journal == mid.journal[a.request := after.journal[a.request]]
            && IsReceipted(after.journal[a.request], a.request, a.kind, a.record.key, a.expected,
                           Prior(a.selectedBefore, a.previous), a.resulting)
  {
    var plan := AdditionPlan(a);
    StepOf(w, plan, 4);
    StepOf(w, plan, 5);
    StepOf(w, plan, 6);
    StepOf(w, plan, 7);
    var mid, w5 := Exec(w, plan, 4).world, Exec(w, plan, 5).world;
    var w6, w7, after := Exec(w, plan, 6).world, Exec(w, plan, 7).world, Exec(w, plan, 8).world;
    hide Exec; hide Perform; hide Find;
    AdvanceIs(mid, a.request, CredentialWritten, MetadataCommitted);
    SelectIs(w5, Some(a.record.key));
    AdvanceIs(w6, a.request, MetadataCommitted, SelectionCommitted);
    FinalizeIs(w7, a.request, SelectionCommitted, Completed, Some(a.resulting));
    assert after.journal == mid.journal[a.request := after.journal[a.request]];
  }

  /** A completed addition in the terms of its answer. */
  lemma AdditionAdds(w: World, a: Addition, after: World)
    requires Exec(w, AdditionPlan(a), 8) == Run(after, true) && a.selectedBefore == w.selected
    requires var previous := Find(w.registry, a.record.key);
             if previous.Some? then
               && a.previous == Some(previous.value.availability)
               && a.record == previous.value.(availability := Available)
             else a.previous.None?
    ensures Added(w, after, a.request, a.kind, a.expected, a.secret, a.record, a.resulting)
  {
    AdditionDone(w, a, after);
    if a.previous.Some? {
      UpdateFound(w.registry, a.record);
      if WellFormed(w) {
        FindSound(w.registry, a.record.key);
        UpdateLookup(w.registry, a.record);
        UpdateOrdered(w.registry, a.record, Find(w.registry, a.record.key).value);
      }
    } else {
      InsertFound(w.registry, a.record);
      if WellFormed(w) {
        FindSound(w.registry, a.record.key);
        InsertSound(w.registry, a.record);
        InsertLookup(w.registry, a.record);
      }
    }
    hide Exec; hide Find; hide Insert; hide Update;
  }

  // ---- Removals ----

  predicate IsFirst(records: Records, key: PublicKey, i: nat) {
    i < |records| && records[i].key == key && forall j :: 0 <= j < i ==> records[j].key != key
  }

  /** The selection stays, unless it was the removed identity: then it moves to the one listed after it,
      or else to the one before it, or else there is none. */
  ghost predicate MovesOn(records: Records, selected: Option<PublicKey>, key: PublicKey, after: Option<PublicKey>) {
    if selected != Some(key) then after == selected
    else
      forall i: nat :: IsFirst(records, key, i) ==>
        after == if i + 1 < |records| then Some(records[i + 1].key)
                 else if i >= 1 then Some(records[i - 1].key)
                 else None
  }

  /** `key` is gone from keyring and registry, the selection moved on, and the request is receipted; all
      else is as before, in the same order. */
  ghost predicate Removed(w: World, after: World, request: RequestId, expected: nat, key: PublicKey,
                          selected: Option<PublicKey>, revision: nat) {
    && request !in w.journal && Has(w.registry, key)
    && after.keyring == w.keyring - {key}
    && (forall r: Identity :: r in after.registry <==> r in w.registry && r.key != key)
    && (Ordered(w.registry) ==> Ordered(after.registry)) && (Unique(w.registry) ==> Unique(after.registry))
    && MovesOn(w.registry, selected, key, after.selected)
    && request in after.journal && after.journal == w.journal[request := after.journal[request]]
    && IsReceipted(after.journal[request], request, RemoveKind, key, expected,
                   Prior(after.selected, Some(Find(w.registry, key).value.availability)), revision)
  }

  lemma FallbackMovesOn(records: Records, selected: Option<PublicKey>, key: PublicKey)
    requires Has(records, key)
    ensures MovesOn(records, selected, key, Fallback(records, selected, key))
  {
    var i := IndexOf(records, key);
    forall j: nat | IsFirst(records, key, j) ensures j == i { assert !(j < i) && !(i < j); }
  }

  lemma RemovalDone(w: World, r: Removal, after: World)
    requires Exec(w, RemovalPlan(r), 8) == Run(after, true)
    ensures r.request !in w.journal
    ensures after == World(w.keyring - {r.key}, Remove(w.registry, r.key), r.fallback, after.journal)
    ensures r.request in after.journal && after.journal == w.journal[r.request := after.journal[r.request]]
    ensures IsReceipted(after.journal[r.request], r.request, RemoveKind, r.key, r.expected,
                        Prior(r.fallback, Some(r.availability)), r.resulting)
  {
    RemovalErased(w, r);
    RemovalCommitted(w, r);
    hide Exec; hide Remove; hide Find;
  }

  lemma RemovalErased(w: World, r: Removal)
    requires Exec(w, RemovalPlan(r), 8).ok
    ensures r.request !in w.journal
    ensures var mid := Exec(w, RemovalPlan(r), 4).world;
            && mid.keyring == w.keyring - {r.key} && mid.registry == Remove(w.registry, r.key)
            && mid.journal == w.journal[r.request := RemovalOperation(r).(phase := CredentialDeleted)]
  {
    var plan := RemovalPlan(r);
    StepOf(w, plan, 0);
    StepOf(w, plan, 1);
    StepOf(w, plan, 2);
    StepOf(w, plan, 3);
    assert Exec(w, plan, 0).world == w;
    var w1, w2, w3 := Exec(w, plan, 1).world, Exec(w, plan, 2).world, Exec(w, plan, 3).world;
    hide Exec; hide Find; hide Remove;
    var op := RemovalOperation(r);
    RemovalBegins(w, r, w1, w2);
    RecordGoes(w3, r.key);
    hide Perform;
    AdvanceIs(w2, r.request, IntentRecorded, CredentialDeleted);
    assert w.journal[r.request := op][r.request := op.(phase := CredentialDeleted)]
           == w.journal[r.request := op.(phase := CredentialDeleted)];
  }

  lemma RecordGoes(w: World, key: PublicKey)
    ensures Perform(w, RemoveRecord(key)).Ok?
    ensures var after := Perform(w, RemoveRecord(key)).value;
            after.keyring == w.keyring && after.journal == w.journal && after.registry == Remove(w.registry, key)
  {
    hide Find; hide Remove;
  }

  lemma RemovalBegins(w: World, r: Removal, w1: World, w2: World)
    requires Perform(w, Begin(RemovalOperation(r))) == Ok(w1)
    requires Perform(w1, Delete(r.key, r.availability == CredentialMissing)) == Ok(w2)
    ensures r.request !in w.journal && w2.registry == w.registry && w2.keyring == w.keyring - {r.key}
    ensures w2.journal == w.journal[r.request := RemovalOperation(r)]
  {
    hide Find; hide Remove;
    if r.key !in w.keyring { assert w.keyring - {r.key} == w.keyring; }
  }

  lemma RemovalCommitted(w: World, r: Removal)
    requires Exec(w, RemovalPlan(r), 8).ok && r.request in Exec(w, RemovalPlan(r), 4).world.journal
    requires Exec(w, RemovalPlan(r), 4).world.journal[r.request] == RemovalOperation(r).(phase := CredentialDeleted)
    ensures var mid, after := Exec(w, RemovalPlan(r), 4).world, Exec(w, RemovalPlan(r), 8).world;
            && after.keyring == mid.keyring && after.registry == mid.registry && after.selected == r.fallback
            && r.request in after.journal && after.journal == mid.journal[r.request := after.journal[r.request]]
            && IsReceipted(after.journal[r.request], r.request, RemoveKind, r.key, r.expected,
                           Prior(r.fallback, Some(r.availability)), r.resulting)
  {
    var plan := RemovalPlan(r);
    StepOf(w, plan, 4);
    StepOf(w, plan, 5);
    StepOf(w, plan, 6);
    StepOf(w, plan, 7);
    var mid, w5 := Exec(w, plan, 4).world, Exec(w, plan, 5).world;
    var w6, w7, after := Exec(w, plan, 6).world, Exec(w, plan, 7).world, Exec(w, plan, 8).world;
    hide Exec; hide Perform; hide Find;
    AdvanceIs(mid, r.request, CredentialDeleted, MetadataDeleted);
    SelectIs(w5, r.fallback);
    AdvanceIs(w6, r.request, MetadataDeleted, SelectionCommitted);
    FinalizeIs(w7, r.request, SelectionCommitted, Completed, Some(r.resulting));
    assert after.journal == mid.journal[r.request := after.journal[r.request]];
  }

  lemma RemovalRemoves(w: World, r: Removal, selected: Option<PublicKey>, after: World)
    requires Exec(w, RemovalPlan(r), 8) == Run(after, true) && Has(w.registry, r.key)
    requires r.availability == Find(w.registry, r.key).value.availability
    requires r.fallback == Fallback(w.registry, selected, r.key)
    ensures Removed(w, after, r.request, r.expected, r.key, selected, r.resulting)
  {
    RemovalDone(w, r, after);
    RemoveMembers(w.registry, r.key);
    RemoveSound(w.registry, r.key);
    FallbackMovesOn(w.registry, selected, r.key);
    hide Exec; hide Remove; hide Find; hide Fallback;
  }

  // ---- Refusals ----

  /** Exactly which commands are refused before they change anything. */
  lemma RefusedIff(w: World, c: Command)
    ensures CommandPlan(w, c) == [] <==>
              match c
              case CreateIdentity(request, expected, current, _, _, _) => request in w.journal || current != expected
              case ImportIdentity(request, expected, current, material, _, _) =>
                || request in w.journal || current != expected || material.key in w.keyring
                || (exists i: nat :: IsFirst(w.registry, material.key, i)
                                     && w.registry[i].availability != CredentialMissing)
              case RemoveIdentity(request, _, key, _, _) => request in w.journal || key !in Keys(w.registry)
              case SelectIdentity(key) => key !in Keys(w.registry)
              case ActivateIdentity(key, _) => key !in Keys(w.registry) || key !in w.keyring
  {
    var key := match c
               case CreateIdentity(_, _, _, material, _, _) => material.key
               case ImportIdentity(_, _, _, material, _, _) => material.key
               case RemoveIdentity(_, _, key, _, _) => key
               case SelectIdentity(key) => key
               case ActivateIdentity(key, _) => key;
    FindSound(w.registry, key);
    FindIsFirst(w.registry, key);
    hide Find; hide Keys;
  }

  lemma {:induction false} FindIsFirst(records: Records, key: PublicKey)
    ensures Has(records, key) ==> exists i: nat :: IsFirst(records, key, i)
    ensures forall i: nat :: IsFirst(records, key, i) ==> Find(records, key) == Some(records[i])
  {
    if Has(records, key) {
      var i := IndexOf(records, key);
      assert IsFirst(records, key, i);
    }
    forall i: nat | IsFirst(records, key, i) ensures Find(records, key) == Some(records[i]) {
      FirstIsFound(records, key, i);
    }
  }

  lemma {:induction false} FirstIsFound(records: Records, key: PublicKey, i: nat)
    requires IsFirst(records, key, i)
    ensures Find(records, key) == Some(records[i])
  {
    if i > 0 {
      assert records[0].key != key;
      assert forall j :: 0 <= j < i - 1 ==> records[1..][j] == records[j + 1];
      FirstIsFound(records[1..], key, i - 1);
    }
  }

  // ---- Creation order ----

  /** `a` is listed before `b`. */
  ghost predicate ListedBefore(records: Records, a: PublicKey, b: PublicKey) {
    exists i, j :: 0 <= i < j < |records| && records[i].key == a && records[j].key == b
  }

  /** Of two identities created one after the other, the one with the earlier clock is listed first, and
      with equal clocks the one with the lower key. */
  lemma CreationOrder(w: World, first: Command, second: Command)
    requires WellFormed(w) && first.CreateIdentity? && second.CreateIdentity?
    requires first.material.key != second.material.key
    requires Exec(w, CommandPlan(w, first), |CommandPlan(w, first)|).ok && CommandPlan(w, first) != []
    requires var mid := Exec(w, CommandPlan(w, first), 8).world;
             && WellFormed(mid) && CommandPlan(mid, second) != []
             && Exec(mid, CommandPlan(mid, second), |CommandPlan(mid, second)|).ok
    ensures var mid := Exec(w, CommandPlan(w, first), 8).world;
            var registry := Exec(mid, CommandPlan(mid, second), 8).world.registry;
            if first.now < second.now || (first.now == second.now && first.material.key < second.material.key) then
              ListedBefore(registry, first.material.key, second.material.key)
            else ListedBefore(registry, second.material.key, first.material.key)
  {
    var mid := CreationAdds(w, first);
    var after := CreationAdds(mid, second);
    hide Exec; hide CommandPlan; hide Find; hide WellFormed; hide IsReceipted;
    InOrderOf(after.registry, Identity(first.material.key, Available, None, first.now, None),
              Identity(second.material.key, Available, None, second.now, None));
  }

  /** A completed creation adds a new record stamped with its clock. */
  lemma CreationAdds(w: World, c: Command) returns (after: World)
    requires c.CreateIdentity? && CommandPlan(w, c) != [] && Exec(w, CommandPlan(w, c), |CommandPlan(w, c)|).ok
    ensures |CommandPlan(w, c)| == 8 && after == Exec(w, CommandPlan(w, c), 8).world
    ensures Added(w, after, c.request, Create, c.expected, c.material.secret,
                  Identity(c.material.key, Available, None, c.now, None), c.resulting)
  {
    var a := CreateAddition(w, c);
    after := Exec(w, CommandPlan(w, c), 8).world;
    AdditionDone(w, a, after);
    AdditionAdds(w, a, after);
    hide Exec; hide Find; hide Insert; hide Update; hide Added;
  }

  lemma InOrderOf(records: Records, a: Identity, b: Identity)
    requires Ordered(records) && Find(records, a.key) == Some(a) && Find(records, b.key) == Some(b) && a.key != b.key
    ensures if a.createdAt < b.createdAt || (a.createdAt == b.createdAt && a.key < b.key) then
              ListedBefore(records, a.key, b.key)
            else ListedBefore(records, b.key, a.key)
  {
    FindSound(records, a.key);
    FindSound(records, b.key);
    var i :| 0 <= i < |records| && records[i] == a;
    var j :| 0 <= j < |records| && records[j] == b;
    hide Find;
    assert i < j ==> NotAfter(records[i], records[j]);
    assert j < i ==> NotAfter(records[j], records[i]);
  }
}
