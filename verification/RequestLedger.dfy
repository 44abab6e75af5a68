/** What the journal guarantees to a request id, over every history at all: also histories in which
    operations overlap, keys repeat and recovery never completes.
*/
module RequestLedger {
  import opened Domain
  import opened Registry
  import opened Durable
  import opened IdentityPlans
  import opened IdentityHistory

  // ---- Phases only move down ----

  function Rank(phase: Phase): nat {
    match phase
    case IntentRecorded => 6
    case CredentialWritten => 5
    case CompensationPending => 4
    case CredentialDeleted => 3
    case MetadataCommitted | MetadataDeleted => 2
    case SelectionCommitted => 1
    case Finalized => 0
  }

  /** The same request, unchanged or further along; an operation with a receipt is unchanged. */
  predicate Follows(earlier: Operation, later: Operation) {
    || later == earlier
    || (&& earlier.terminal.None?
        && later.(phase := earlier.phase, terminal := earlier.terminal) == earlier
        && Rank(later.phase) < Rank(earlier.phase))
  }

  ghost predicate JournalGrows(w: World, later: World) {
    forall r :: r in w.journal ==> r in later.journal && Follows(w.journal[r], later.journal[r])
  }

  /** Every journal call in a plan lowers the rank of the phase it expects. */
  predicate Lowers(call: Call) {
    match call
    case Advance(_, from, to) => Rank(to) < Rank(from)
    case Finalize(_, from, _, _) => Rank(from) > 0
    case _ => true
  }

  /** A plan begins no operation but `begun` and stores no credential but `stored`. */
  ghost predicate Allowed(call: Call, begun: Option<Operation>, stored: Option<(PublicKey, Credential)>) {
    && Lowers(call)
    && (call.Begin? ==> begun == Some(call.operation))
    && (call.Put? ==> stored == Some((call.key, Credential(call.request, call.secret))))
  }

  /** What a plan may have done to keyring and journal, wherever it was cut. */
  ghost predicate Within(w: World, later: World, begun: Option<Operation>, stored: Option<(PublicKey, Credential)>) {
    && JournalGrows(w, later)
    && (forall r :: r in later.journal && r !in w.journal ==>
                      begun.Some? && r == begun.value.request && Follows(begun.value, later.journal[r]))
    && (forall k :: k in later.keyring && !(k in w.keyring && w.keyring[k] == later.keyring[k]) ==>
                      stored == Some((k, later.keyring[k])))
  }

  lemma CallWithin(w: World, mid: World, call: Call, later: World, begun: Option<Operation>,
                   stored: Option<(PublicKey, Credential)>)
    requires Within(w, mid, begun, stored) && Allowed(call, begun, stored) && Perform(mid, call) == Ok(later)
    ensures Within(w, later, begun, stored)
  {
    if call.Begin? || call.Advance? || call.Finalize? {
      JournalCallWithin(w, mid, call, later, begun, stored);
    } else {
      StoreCallLeavesJournal(mid, call, later);
      hide Perform;
    }
  }

  lemma JournalCallWithin(w: World, mid: World, call: Call, later: World, begun: Option<Operation>,
                          stored: Option<(PublicKey, Credential)>)
    requires call.Begin? || call.Advance? || call.Finalize?
    requires Within(w, mid, begun, stored) && Allowed(call, begun, stored) && Perform(mid, call) == Ok(later)
    ensures Within(w, later, begun, stored)
  {
    JournalCallWrites(mid, call, later);
    hide Perform; hide Follows;
    forall a: Operation, b: Operation, c: Operation | Follows(a, b) && Follows(b, c) ensures Follows(a, c) {
      FollowsOn(a, b, c);
    }
  }

  lemma FollowsOn(a: Operation, b: Operation, c: Operation)
    requires Follows(a, b) && Follows(b, c)
    ensures Follows(a, c)
  {}

  /** A journal call writes one entry: a new one, or a follower of the entry that was there. */
  lemma JournalCallWrites(mid: World, call: Call, later: World)
    requires call.Begin? || call.Advance? || call.Finalize?
    requires Lowers(call) && Perform(mid, call) == Ok(later)
    ensures var request := if call.Begin? then call.operation.request else call.request;
            && later.keyring == mid.keyring && request in later.journal
            && later.journal == mid.journal[request := later.journal[request]]
            && (if call.Begin? then
                  && request !in mid.journal && later.journal[request] == call.operation
                  && Follows(call.operation, call.operation)
                else request in mid.journal && Follows(mid.journal[request], later.journal[request]))
  {
    hide Find; hide Insert; hide Update; hide Remove;
  }

  /** A call on the stores leaves the journal alone and adds no credential but the one it puts. */
  lemma StoreCallLeavesJournal(mid: World, call: Call, later: World)
    requires !(call.Begin? || call.Advance? || call.Finalize?) && Perform(mid, call) == Ok(later)
    ensures later.journal == mid.journal
    ensures forall k :: k in later.keyring && !(k in mid.keyring && mid.keyring[k] == later.keyring[k]) ==>
                          call.Put? && k == call.key && later.keyring[k] == Credential(call.request, call.secret)
  {
    hide Find; hide Insert; hide Update; hide Remove;
  }

  lemma {:induction false} ExecWithin(w: World, plan: Plan, cut: nat, begun: Option<Operation>,
                                      stored: Option<(PublicKey, Credential)>)
    requires cut <= |plan|
    requires forall i :: 0 <= i < |plan| ==> Allowed(plan[i], begun, stored)
    ensures Within(w, Exec(w, plan, cut).world, begun, stored)
  {
    if cut > 0 {
      ExecWithin(w, plan, cut - 1, begun, stored);
      var before := Exec(w, plan, cut - 1);
      if before.ok && Perform(before.world, plan[cut - 1]).Ok? {
        CallWithin(w, before.world, plan[cut - 1], Exec(w, plan, cut).world, begun, stored);
      }
    }
  }

  lemma GrowsOn(w: World, mid: World, later: World)
    requires JournalGrows(w, mid) && JournalGrows(mid, later)
    ensures JournalGrows(w, later)
  {}

  /** Recovery begins nothing and stores nothing. */
  lemma RecoveryAllowed(w: World, op: Operation, i: nat)
    requires i < |RecoveryPlan(w, op)|
    ensures Allowed(RecoveryPlan(w, op)[i], None, None)
  {
    hide Find;
  }

  lemma {:induction false} RecoverWithin(w: World, ops: seq<Operation>, cut: nat)
    ensures Within(w, RecoverListed(w, ops, cut).world, None, None)
    decreases |ops|
  {
    if ops != [] {
      var plan := RecoveryPlan(w, ops[0]);
      forall i | 0 <= i < |plan| ensures Allowed(plan[i], None, None) { RecoveryAllowed(w, ops[0], i); }
      ExecWithin(w, plan, if cut <= |plan| then cut else |plan|, None, None);
      var run := Cut(w, plan, cut);
      if cut >= |plan| && run.ok {
        RecoverWithin(run.world, ops[1..], cut - |plan|);
        GrowsOn(w, run.world, RecoverListed(w, ops, cut).world);
      }
    }
  }

  ghost function Begun(w: World, e: Event): Option<Operation> {
    match e
    case Restart(_) => None
    case Do(c, _) =>
      var plan := CommandPlan(w, c);
      if plan != [] && plan[0].Begin? then Some(plan[0].operation) else None
  }

  ghost function Stored(w: World, e: Event): Option<(PublicKey, Credential)> {
    match e
    case Restart(_) => None
    case Do(c, _) =>
      var plan := CommandPlan(w, c);
      if |plan| == 8 && plan[1].Put? then Some((plan[1].key, Credential(plan[1].request, plan[1].secret))) else None
  }

  lemma CommandAllowed(w: World, c: Command, cut: nat, i: nat)
    requires i < |CommandPlan(w, c)|
    ensures Allowed(CommandPlan(w, c)[i], Begun(w, Do(c, cut)), Stored(w, Do(c, cut)))
  {
    hide Find;
  }

  lemma StepWithin(w: World, e: Event)
    ensures Within(w, Step(w, e), Begun(w, e), Stored(w, e))
  {
    match e
    case Restart(cut) => RecoverWithin(w, Listing(w), cut);
    case Do(c, cut) =>
      var plan := CommandPlan(w, c);
      forall i | 0 <= i < |plan| ensures Allowed(plan[i], Begun(w, e), Stored(w, e)) { CommandAllowed(w, c, cut, i); }
      ExecWithin(w, plan, if cut <= |plan| then cut else |plan|, Begun(w, e), Stored(w, e));
  }

  /** Over every history: a request keeps its kind, key, revision and recorded prior state, its phase
      rank only falls, falls whenever the entry changes, and an entry with a receipt never changes. */
  lemma {:induction false} JournalOnlyMovesDown(w: World, events: seq<Event>)
    ensures JournalGrows(w, After(w, events))
  {
    if events != [] {
      var front := events[..|events| - 1];
      JournalOnlyMovesDown(w, front);
      StepWithin(After(w, front), events[|events| - 1]);
      GrowsOn(w, After(w, front), After(w, events));
    }
  }

  // ---- One credential per request ----

  /** The number of credentials stored under `request` by the first `cut` calls of a plan. */
  ghost function PutsIn(w: World, plan: Plan, cut: nat, request: RequestId): nat
    requires cut <= |plan|
  {
    if cut == 0 then 0
    else
      PutsIn(w, plan, cut - 1, request)
      + if Exec(w, plan, cut).ok && plan[cut - 1].Put? && plan[cut - 1].request == request then 1 else 0
  }

  /** The number of credentials stored under `request` by a recovery that makes at most `cut` calls. */
  ghost function PutsListed(w: World, ops: seq<Operation>, cut: nat, request: RequestId): nat
    decreases |ops|
  {
    if ops == [] then 0
    else
      var plan := RecoveryPlan(w, ops[0]);
      var run := Cut(w, plan, cut);
      PutsIn(w, plan, if cut <= |plan| then cut else |plan|, request)
      + if cut < |plan| || !run.ok then 0 else PutsListed(run.world, ops[1..], cut - |plan|, request)
  }

  ghost function Puts(w: World, e: Event, request: RequestId): nat {
    match e
    case Restart(cut) => PutsListed(w, Listing(w), cut, request)
    case Do(c, cut) =>
      var plan := CommandPlan(w, c);
      PutsIn(w, plan, if cut <= |plan| then cut else |plan|, request)
  }

  ghost function TotalPuts(w: World, events: seq<Event>, request: RequestId): nat {
    if events == [] then 0
    else
      var front := events[..|events| - 1];
      TotalPuts(w, front, request) + Puts(After(w, front), events[|events| - 1], request)
  }

  lemma {:induction false} NoPuts(w: World, plan: Plan, cut: nat, request: RequestId)
    requires cut <= |plan|
    requires forall i :: 0 <= i < |plan| && plan[i].Put? ==> plan[i].request != request
    ensures PutsIn(w, plan, cut, request) == 0
  {
    if cut > 0 { NoPuts(w, plan, cut - 1, request); }
  }

  lemma {:induction false} RecoveryPutsNothing(w: World, ops: seq<Operation>, cut: nat, request: RequestId)
    ensures PutsListed(w, ops, cut, request) == 0
    decreases |ops|
  {
    if ops != [] {
      var plan := RecoveryPlan(w, ops[0]);
      forall i | 0 <= i < |plan| ensures !plan[i].Put? { RecoveryAllowed(w, ops[0], i); }
      hide RecoveryPlan; hide Exec;
      NoPuts(w, plan, if cut <= |plan| then cut else |plan|, request);
      if cut >= |plan| { RecoveryPutsNothing(Cut(w, plan, cut).world, ops[1..], cut - |plan|, request); }
    }
  }

  lemma {:induction false} OnePut(w: World, a: Addition, cut: nat)
    requires a.request !in w.journal && cut <= 8
    ensures PutsIn(w, AdditionPlan(a), cut, a.request) <= if cut >= 2 then 1 else 0
    ensures cut >= 1 ==> a.request in Exec(w, AdditionPlan(a), cut).world.journal
  {
    hide Find; hide Insert; hide Update;
    if cut > 0 { OnePut(w, a, cut - 1); }
  }

  lemma OtherPlansPutNothing(w: World, c: Command, request: RequestId, cut: nat)
    requires cut <= |CommandPlan(w, c)|
    requires CommandPlan(w, c) == [] || !CommandPlan(w, c)[0].Begin?
             || CommandPlan(w, c)[0].operation.request != request
             || c.RemoveIdentity?
    ensures PutsIn(w, CommandPlan(w, c), cut, request) == 0
  {
    hide Find;
    NoPuts(w, CommandPlan(w, c), cut, request);
  }

  lemma StepPuts(w: World, e: Event, request: RequestId)
    ensures Puts(w, e, request) <= if request in w.journal then 0 else 1
    ensures Puts(w, e, request) > 0 ==> request in Step(w, e).journal
  {
    if e.Do? {
      var plan := CommandPlan(w, e.command);
      var at := if e.cut <= |plan| then e.cut else |plan|;
      if plan == [] || !plan[0].Begin? || plan[0].operation.request != request || e.command.RemoveIdentity? {
        OtherPlansPutNothing(w, e.command, request, at);
      } else if e.command.CreateIdentity? {
        OnePut(w, CreateAddition(w, e.command), at);
      } else {
        OnePut(w, ImportAddition(w, e.command), at);
      }
    } else {
      RecoveryPutsNothing(w, Listing(w), e.cut, request);
    }
  }

  /** One request id takes effect at most once: over every history at most one credential is ever
      stored under it, and none if the journal already knew it. */
  lemma {:induction false} RequestTakesEffectOnce(w: World, events: seq<Event>, request: RequestId)
    ensures TotalPuts(w, events, request) <= if request in w.journal then 0 else 1
    ensures TotalPuts(w, events, request) > 0 ==> request in After(w, events).journal
  {
    if events != [] {
      var front := events[..|events| - 1];
      RequestTakesEffectOnce(w, front, request);
      JournalOnlyMovesDown(w, front);
      StepPuts(After(w, front), events[|events| - 1], request);
      StepWithin(After(w, front), events[|events| - 1]);
    }
  }

  // ---- Replaying a completed import ----

  predicate CompletedOperation(op: Operation) {
    op.phase == Finalized && op.terminal.Some? && op.terminal.value.outcome == Completed
  }

  /** The checks a replay must pass before the stored credential is consulted, and that consultation. */
  function VerifyReplay(w: World, op: Operation, request: RequestId, kind: Kind, expected: nat,
                        m: KeyMaterial): Result<bool> {
    if op.request != request || op.kind != kind || op.identity != m.key || op.expectedRevision != Some(expected) then
      Err(InvalidApplicationState)
    else if !CompletedOperation(op) then Err(RecoveryRequired)
    else if op.terminal.value.request != request
            || op.terminal.value.identity != m.key then Err(InvalidApplicationState)
    else if m.key !in w.keyring then Err(CredentialMissingError)
    else if w.keyring[m.key] != Credential(request, m.secret) then Err(InvalidApplicationState)
    else Ok(true)
  }

  /** The answer to an import whose request the journal knows. It is a pure read. */
  function ImportReplay(w: World, request: RequestId, expected: nat, m: KeyMaterial): Result<Identity>
    requires request in w.journal
  {
    var op := w.journal[request];
    if op.kind != Import && op.kind != Repair then Err(InvalidApplicationState)
    else if !CompletedOperation(op) then Err(RecoveryRequired)
    else
      match VerifyReplay(w, op, request, op.kind, expected, m)
      case Err(problem) => Err(problem)
      case Ok(_) =>
        match Find(w.registry, m.key)
        case None => Err(RecoveryRequired)
        case Some(record) => Ok(record)
  }

  /** The answer to a creation, import or repair that finds its request recorded when it would begin. */
  function PersistReplay(w: World, request: RequestId, kind: Kind, expected: nat, m: KeyMaterial,
                         prior: Prior): Result<Identity>
    requires request in w.journal
  {
    var op := w.journal[request];
    if op.kind != kind || op.identity != m.key || op.expectedRevision != Some(expected) || op.prior != prior then
      Err(InvalidApplicationState)
    else
      match VerifyReplay(w, op, request, kind, expected, m)
      case Err(problem) => Err(problem)
      case Ok(_) =>
        match Find(w.registry, op.identity)
        case None => Err(RecoveryRequired)
        case Some(record) => Ok(record)
  }

  /** `e` is the import that began `op`, and a credential still bound to it holds the secret it brought. */
  ghost predicate Origin(e: Event, op: Operation, keyring: map<PublicKey, Credential>) {
    && e.Do? && e.command.ImportIdentity?
    && e.command.request == op.request
    && e.command.material.key == op.identity
    && op.expectedRevision == Some(e.command.expected)
    && (op.identity in keyring && keyring[op.identity].request == op.request ==>
          keyring[op.identity].secret == e.command.material.secret)
  }

  ghost predicate Traced(events: seq<Event>, w: World) {
    forall r :: r in w.journal && (w.journal[r].kind == Import || w.journal[r].kind == Repair) ==>
                  w.journal[r].request == r && exists e :: e in events && Origin(e, w.journal[r], w.keyring)
  }

  /** A command leaves the keyring entries of known requests alone. */
  lemma StoredIsNew(w: World, e: Event)
    ensures Stored(w, e).Some? ==> Stored(w, e).value.1.request !in w.journal
    ensures Begun(w, e).Some? ==> Begun(w, e).value.request !in w.journal
  {}

  lemma BegunImport(w: World, e: Event)
    requires Begun(w, e).Some? && (Begun(w, e).value.kind == Import || Begun(w, e).value.kind == Repair)
    ensures e.Do? && e.command.ImportIdentity?
    ensures e.command.material.key !in w.keyring
    ensures Origin(e, Begun(w, e).value, map[])
    ensures Stored(w, e) == Some((e.command.material.key, Credential(e.command.request, e.command.material.secret)))
  {
    FindSound(w.registry, e.command.material.key);
    hide Find;
  }

  lemma TracedStep(events: seq<Event>, w: World, e: Event, r: RequestId)
    requires Traced(events, w)
    requires var later := Step(w, e);
             r in later.journal && (later.journal[r].kind == Import || later.journal[r].kind == Repair)
    ensures var later := Step(w, e);
            later.journal[r].request == r && exists x :: x in events + [e] && Origin(x, later.journal[r], later.keyring)
  {
    var later := Step(w, e);
    StepWithin(w, e);
    StoredIsNew(w, e);
    if r in w.journal {
      var x :| x in events && Origin(x, w.journal[r], w.keyring);
      assert Origin(x, later.journal[r], later.keyring);
    } else {
      BegunImport(w, e);
      assert Origin(e, later.journal[r], later.keyring);
    }
  }

  lemma {:induction false} HistoryIsTraced(w: World, events: seq<Event>)
    requires w.journal == map[]
    ensures Traced(events, After(w, events))
  {
    if events != [] {
      var front, last := events[..|events| - 1], events[|events| - 1];
      HistoryIsTraced(w, front);
      assert events == front + [last];
      var mid := After(w, front);
      forall r | r in Step(mid, last).journal
                 && (Step(mid, last).journal[r].kind == Import || Step(mid, last).journal[r].kind == Repair)
        ensures Step(mid, last).journal[r].request == r
        ensures exists e :: e in events && Origin(e, Step(mid, last).journal[r], Step(mid, last).keyring)
      {
        TracedStep(front, mid, last, r);
      }
    }
  }

  /** A replay succeeds only for the revision, key and secret of an import of the same request in the history. */
  lemma ReplayNeedsTheOriginal(w: World, events: seq<Event>, request: RequestId, expected: nat, m: KeyMaterial)
    requires w.journal == map[] && request in After(w, events).journal
    requires ImportReplay(After(w, events), request, expected, m).Ok?
    ensures exists e :: e in events && e.Do? && e.command.ImportIdentity? && e.command.request == request
                        && e.command.expected == expected && e.command.material == m
  {
    HistoryIsTraced(w, events);
    var now := After(w, events);
    var e :| e in events && Origin(e, now.journal[request], now.keyring);
    assert e.command.material == m;
  }

  /** The entry is a completed request of this kind, key and revision, and its credential is still bound
      to it and holds this secret. */
  ghost predicate IsReplayOf(w: World, op: Operation, request: RequestId, expected: nat, m: KeyMaterial) {
    && op.request == request && op.identity == m.key && op.expectedRevision == Some(expected) && op.phase == Finalized
    && op.terminal.Some? && op.terminal.value.outcome == Completed
    && op.terminal.value.request == request && op.terminal.value.identity == m.key
    && m.key in w.keyring && w.keyring[m.key].request == request && w.keyring[m.key].secret == m.secret
  }

  /** Exactly which repeated requests are answered as before, in any world, and with what. */
  lemma ReplayIff(w: World, request: RequestId, kind: Kind, expected: nat, m: KeyMaterial, prior: Prior)
    requires request in w.journal
    ensures var op := w.journal[request];
            && (ImportReplay(w, request, expected, m).Ok? <==>
                  && (op.kind == Import || op.kind == Repair) && IsReplayOf(w, op, request, expected, m)
                  && m.key in Keys(w.registry))
            && (PersistReplay(w, request, kind, expected, m, prior).Ok? <==>
                  && op.kind == kind && op.prior == prior && IsReplayOf(w, op, request, expected, m)
                  && m.key in Keys(w.registry))
    ensures ImportReplay(w, request, expected, m).Ok? ==>
              Find(w.registry, m.key) == Some(ImportReplay(w, request, expected, m).value)
    ensures PersistReplay(w, request, kind, expected, m, prior).Ok? ==>
              Find(w.registry, m.key) == Some(PersistReplay(w, request, kind, expected, m, prior).value)
  {
    FindSound(w.registry, m.key);
    hide Find; hide Keys;
  }

  /** Why a repeated import is refused. One that did not complete, or whose record is gone, needs a
      recovery; a credential that is gone is reported as missing; any other difference is an invalid state. */
  lemma ReplayRefusedFor(w: World, request: RequestId, expected: nat, m: KeyMaterial)
    requires request in w.journal && ImportReplay(w, request, expected, m).Err?
    ensures var op, problem := w.journal[request], ImportReplay(w, request, expected, m).error;
            var completed := op.phase == Finalized && op.terminal.Some? && op.terminal.value.outcome == Completed;
            var bound := && op.request == request && op.identity == m.key && op.expectedRevision == Some(expected)
                         && op.terminal.Some? && op.terminal.value.request == request
                         && op.terminal.value.identity == m.key;
            if op.kind != Import && op.kind != Repair then problem == InvalidApplicationState
            else if !completed then problem == RecoveryRequired
            else if bound && m.key !in w.keyring then problem == CredentialMissingError
            else problem == if IsReplayOf(w, op, request, expected, m) then RecoveryRequired
                            else InvalidApplicationState
  {
    hide Find;
  }

  /** While a completed import's credential is still bound to it, replays succeed exactly for the
      original revision, key and secret, and answer with the saved record. */
  lemma ReplayIffOriginal(w: World, request: RequestId, expected: nat, m: KeyMaterial, expected': nat, m': KeyMaterial)
    requires request in w.journal && CompletedOperation(w.journal[request])
    requires var op := w.journal[request];
             && (op.kind == Import || op.kind == Repair)
             && op.request == request && op.identity == m.key && op.expectedRevision == Some(expected)
             && op.terminal.value.request == request && op.terminal.value.identity == m.key
    requires m.key in w.keyring && w.keyring[m.key] == Credential(request, m.secret) && Has(w.registry, m.key)
    ensures ImportReplay(w, request, expected', m').Ok? <==> expected' == expected && m' == m
    ensures ImportReplay(w, request, expected, m) == Ok(Find(w.registry, m.key).value)
  {}
}
