/** Removal under crashes: once its intent is recorded, every interrupted removal is rolled forward. */
module Removals {
  import opened Domain
  import opened Registry
  import opened Durable
  import opened IdentityPlans
  import Additions

  datatype Point =
    | Begun
    | CredentialDropped
    | CredentialLogged
    | RecordDropped
    | RecordLogged
    | FallbackSelected
    | SelectionLogged
    | Done(revision: Option<nat>)

  predicate RecordGone(p: Point) {
    p.RecordDropped? || p.RecordLogged? || SelectionMoved(p)
  }

  predicate SelectionMoved(p: Point) {
    p.FallbackSelected? || p.SelectionLogged? || p.Done?
  }

  function PhaseOf(p: Point): Phase {
    match p
    case Begun | CredentialDropped => IntentRecorded
    case CredentialLogged | RecordDropped => CredentialDeleted
    case RecordLogged | FallbackSelected => MetadataDeleted
    case SelectionLogged => SelectionCommitted
    case Done(_) => Finalized
  }

  function Entry(r: Removal, p: Point): Operation {
    RemovalOperation(r).(
    phase := PhaseOf(p),
    terminal := if p.Done? then Some(Receipt(r.request, r.key, Completed, p.revision)) else None)
  }

  /** The exact world at a point of removal `r` begun in `base`. */
  function At(base: World, r: Removal, p: Point): World {
    World(
      if p.Begun? then base.keyring else base.keyring - {r.key},
      if RecordGone(p) then Remove(base.registry, r.key) else base.registry,
      if SelectionMoved(p) then r.fallback
      else if RecordGone(p) && base.selected == Some(r.key) then None
      else base.selected,
      base.journal[r.request := Entry(r, p)])
  }

  /** The fallback is a remaining identity, and there is none exactly when no identity remains. */
  ghost predicate FallbackSound(records: Records, key: PublicKey, fallback: Option<PublicKey>) {
    && (fallback.None? <==> Remove(records, key) == [])
    && (fallback.Some? ==> Has(Remove(records, key), fallback.value))
  }

  ghost predicate Admissible(base: World, r: Removal) {
    && WellFormed(base) && Quiet(base)
    && r.request !in base.journal
    && Has(base.registry, r.key)
    && r.availability == Find(base.registry, r.key).value.availability
    && FallbackSound(base.registry, r.key, r.fallback)
  }

  /** The consequences of admissibility that single calls depend on. */
  ghost predicate Facts(base: World, r: Removal) {
    && r.request !in base.journal
    && Has(base.registry, r.key)
    && !Has(Remove(base.registry, r.key), r.key)
    && (r.fallback.Some? ==> Has(Remove(base.registry, r.key), r.fallback.value))
  }

  lemma AdmissibleFacts(base: World, r: Removal)
    requires Admissible(base, r)
    ensures Facts(base, r)
  {
    RemoveLookup(base.registry, r.key);
  }

  // ---- The track of recovery ----

  /** The point after `k` recovery calls from the recorded intent. */
  function Track(k: nat): Point {
    match k
    case 0 => Begun
    case 1 => CredentialDropped
    case 2 => CredentialLogged
    case 3 => RecordDropped
    case 4 => RecordLogged
    case 5 => FallbackSelected
    case 6 => SelectionLogged
    case _ => Done(None)
  }

  /** The recovery call that leads from `Track(k)` to `Track(k + 1)`. */
  function TrackCall(r: Removal, k: nat): Call {
    RemovalCall(RemovalOperation(r), k)
  }

  function Resume(p: Point): nat {
    ResumeAt(PhaseOf(p))
  }

  function Visit(p: Point, i: nat): Point {
    if i == 0 then p else Track(Resume(p) + i)
  }

  function PlanAt(base: World, r: Removal, p: Point): Plan {
    RecoveryPlan(At(base, r, p), Entry(r, p))
  }

  lemma PlanShape(base: World, r: Removal, p: Point, i: nat)
    requires Resume(p) + i < 7
    ensures |PlanAt(base, r, p)| == 7 - Resume(p)
    ensures PlanAt(base, r, p)[i] == TrackCall(r, Resume(p) + i)
  {
    RemovalRecoveryShape(Entry(r, p), i);
    hide Find; hide Remove;
  }

  predicate SameFlags(p: Point, q: Point) {
    p.Begun? == q.Begun? && RecordGone(p) == RecordGone(q) && SelectionMoved(p) == SelectionMoved(q)
  }

  /** Journal calls move between points that agree on the stores. */
  lemma JournalEdge(base: World, r: Removal, p: Point, q: Point)
    requires !p.Done? && SameFlags(p, q)
    ensures !q.Done? ==> Perform(At(base, r, p), Advance(r.request, PhaseOf(p), PhaseOf(q))) == Ok(At(base, r, q))
    ensures q.Done? ==>
              Perform(At(base, r, p), Finalize(r.request, PhaseOf(p), Completed, q.revision)) == Ok(At(base, r, q))
  {
    hide Find; hide Remove;
    assert base.journal[r.request := Entry(r, p)][r.request := Entry(r, q)] == base.journal[r.request := Entry(r, q)];
  }

  lemma DropEdge(base: World, r: Removal, p: Point)
    requires p.Begun? || p.CredentialDropped?
    ensures Perform(At(base, r, p), DropCredential(r.key)) == Ok(At(base, r, CredentialDropped))
  {
    hide Find; hide Remove;
    if r.key !in base.keyring { assert base.keyring - {r.key} == base.keyring; }
  }

  lemma StoreEdges(base: World, r: Removal, p: Point)
    requires Facts(base, r)
    ensures p.CredentialLogged? || p.RecordDropped? ==>
              Perform(At(base, r, p), DropRecord(r.key)) == Ok(At(base, r, RecordDropped))
    ensures p.RecordLogged? || p.FallbackSelected? ==>
              Perform(At(base, r, p), Select(r.fallback)) == Ok(At(base, r, FallbackSelected))
  {
    hide Find; hide Remove;
  }

  lemma RecoveryStep(base: World, r: Removal, p: Point, i: nat)
    requires Facts(base, r) && Resume(p) + i < 7
    ensures Perform(At(base, r, Visit(p, i)), TrackCall(r, Resume(p) + i)) == Ok(At(base, r, Visit(p, i + 1)))
  {
    hide Find; hide Remove; hide Perform; hide At; hide Facts;
    var q := Visit(p, i);
    match Resume(p) + i
    case 0 => DropEdge(base, r, q);
    case 1 => JournalEdge(base, r, q, CredentialLogged);
    case 2 => StoreEdges(base, r, q);
    case 3 => JournalEdge(base, r, q, RecordLogged);
    case 4 => StoreEdges(base, r, q);
    case 5 => JournalEdge(base, r, q, SelectionLogged);
    case _ => JournalEdge(base, r, q, Done(None));
  }

  lemma ListingAt(base: World, r: Removal, p: Point)
    requires Admissible(base, r)
    ensures Listing(At(base, r, p)) == if p.Done? then [] else [Entry(r, p)]
  {
    hide Find; hide Remove;
    var w := At(base, r, p);
    forall id | id in w.journal && id != r.request ensures id !in UnfinishedIds(w) {
      assert !Unfinished(base, id);
    }
    if p.Done? {
      assert UnfinishedIds(w) == {};
    } else {
      assert r.request in UnfinishedIds(w);
      assert UnfinishedIds(w) == {r.request};
      assert InOrder(w, {r.request} - {r.request}) == [];
    }
  }

  function Recovered(p: Point, cut: nat): Point {
    Visit(p, if Resume(p) + cut <= 7 then cut else 7 - Resume(p))
  }

  lemma RecoveryExec(base: World, r: Removal, p: Point, cut: nat)
    requires Facts(base, r) && !p.Done? && cut <= 7 - Resume(p)
    ensures |PlanAt(base, r, p)| == 7 - Resume(p)
    ensures Exec(At(base, r, p), PlanAt(base, r, p), cut) == Run(At(base, r, Visit(p, cut)), true)
  {
    PlanShape(base, r, p, 0);
    var plan := PlanAt(base, r, p);
    hide Find; hide Remove; hide Perform; hide At; hide PlanAt; hide Exec;
    forall i: nat | i < |plan| ensures Perform(At(base, r, Visit(p, i)), plan[i]) == Ok(At(base, r, Visit(p, i + 1))) {
      PlanShape(base, r, p, i);
      RecoveryStep(base, r, p, i);
    }
    ExecPath((i: nat) => At(base, r, Visit(p, i)), plan, cut);
  }

  /** Recovery from any point, cut anywhere, lands on a point and completes exactly when it was not cut. */
  lemma RecoverFrom(base: World, r: Removal, p: Point, cut: nat)
    requires Admissible(base, r)
    ensures Recover(At(base, r, p), cut).world == At(base, r, Recovered(p, cut))
    ensures Recover(At(base, r, p), cut).ok <==> Recovered(p, cut).Done?
  {
    AdmissibleFacts(base, r);
    ListingAt(base, r, p);
    hide Find; hide Remove; hide Perform; hide At; hide RecoverListed; hide Listing;
    RecoverOnly(base, r, p, cut);
  }

  lemma RecoverOnly(base: World, r: Removal, p: Point, cut: nat)
    requires Facts(base, r)
    ensures var run := RecoverListed(At(base, r, p), if p.Done? then [] else [Entry(r, p)], cut);
            run.world == At(base, r, Recovered(p, cut)) && (run.ok <==> Recovered(p, cut).Done?)
  {
    hide Find; hide Remove; hide Perform; hide At; hide Exec;
    if !p.Done? {
      RecoveryExec(base, r, p, if Resume(p) + cut <= 7 then cut else 7 - Resume(p));
      hide RecoverListed; hide RecoveryPlan;
      Additions.RecoverOne(At(base, r, p), Entry(r, p), cut);
    }
  }

  lemma RecoveredReceipt(p: Point, cut: nat)
    ensures Recovered(p, cut).Done? ==> Recovered(p, cut).revision == if p.Done? then p.revision else None
  {}

  lemma {:induction false} RecoverManyFrom(base: World, r: Removal, p: Point, cuts: seq<nat>) returns (q: Point)
    requires Admissible(base, r)
    ensures Additions.RecoverMany(At(base, r, p), cuts) == At(base, r, q)
    ensures q.Done? ==> q.revision == if p.Done? then p.revision else None
    decreases |cuts|
  {
    q := p;
    if cuts != [] {
      RecoverFrom(base, r, p, cuts[0]);
      RecoveredReceipt(p, cuts[0]);
      hide At; hide Recover; hide Recovered; hide Admissible;
      q := RecoverManyFrom(base, r, Recovered(p, cuts[0]), cuts[1..]);
    }
  }

  // ---- The command itself ----

  function ForwardPoint(r: Removal, i: nat): Point {
    if i <= 1 then Begun else if i < 8 then Track(i - 1) else Done(Some(r.resulting))
  }

  /** The command deletes the credential unless it is gone although the record does not say so. */
  ghost predicate DeleteAccepted(base: World, r: Removal) {
    r.key in base.keyring || r.availability == CredentialMissing
  }

  lemma DeleteEdge(base: World, r: Removal)
    requires DeleteAccepted(base, r)
    ensures Perform(At(base, r, Begun), Delete(r.key, r.availability == CredentialMissing))
         == Ok(At(base, r, CredentialDropped))
  {
    hide Find; hide Remove;
    if r.key !in base.keyring { assert base.keyring - {r.key} == base.keyring; }
  }

  lemma RemoveEdge(base: World, r: Removal)
    ensures Perform(At(base, r, CredentialLogged), RemoveRecord(r.key)) == Ok(At(base, r, RecordDropped))
  {
    hide Find; hide Remove;
  }

  lemma ForwardStep(base: World, r: Removal, i: nat)
    requires Facts(base, r) && DeleteAccepted(base, r) && 1 <= i < 8
    ensures Perform(At(base, r, ForwardPoint(r, i)), RemovalPlan(r)[i]) == Ok(At(base, r, ForwardPoint(r, i + 1)))
  {
    hide Find; hide Remove; hide Perform; hide At;
    match i
    case 1 => DeleteEdge(base, r);
    case 2 => JournalEdge(base, r, CredentialDropped, CredentialLogged);
    case 3 => RemoveEdge(base, r);
    case 4 => JournalEdge(base, r, RecordDropped, RecordLogged);
    case 5 => StoreEdges(base, r, RecordLogged);
    case 6 => JournalEdge(base, r, FallbackSelected, SelectionLogged);
    case _ => JournalEdge(base, r, SelectionLogged, Done(Some(r.resulting)));
  }

  lemma ForwardExec(base: World, r: Removal, cut: nat)
    requires Facts(base, r) && 1 <= cut <= 8
    ensures var run := Exec(base, RemovalPlan(r), cut);
            if DeleteAccepted(base, r) then run == Run(At(base, r, ForwardPoint(r, cut)), true)
            else run == Run(At(base, r, Begun), cut == 1)
  {
    hide Find; hide Remove;
    assert RemovalOperation(r) == Entry(r, Begun);
    var worlds := (i: nat) => if i == 0 then base else At(base, r, ForwardPoint(r, i));
    if DeleteAccepted(base, r) {
      forall i: nat | i < 8 ensures Perform(worlds(i), RemovalPlan(r)[i]) == Ok(worlds(i + 1)) {
        if i > 0 { ForwardStep(base, r, i); }
      }
      ExecPath(worlds, RemovalPlan(r), cut);
    } else {
      assert Exec(base, RemovalPlan(r), 0).ok;
      assert Exec(base, RemovalPlan(r), 1) == Run(At(base, r, Begun), true);
      if cut > 1 {
        assert Exec(base, RemovalPlan(r), 2) == Run(At(base, r, Begun), false);
        ExecStuck(base, RemovalPlan(r), 2, cut);
      }
    }
  }

  /** The command, cut after any number of calls. A refused deletion leaves it at its recorded intent. */
  lemma ForwardCut(base: World, r: Removal, cut: nat)
    requires Admissible(base, r) && 1 <= cut <= 8
    ensures var run := Exec(base, RemovalPlan(r), cut);
            if DeleteAccepted(base, r) then run == Run(At(base, r, ForwardPoint(r, cut)), true)
            else run == Run(At(base, r, Begun), cut == 1)
  {
    AdmissibleFacts(base, r);
    ForwardExec(base, r, cut);
  }

  // ---- Results ----

  /** The credential and the record are gone, the fallback is selected, all other keys are untouched,
      and the request completed with `revision`. */
  ghost predicate FullyRemoved(base: World, r: Removal, w: World, revision: Option<nat>) {
    && w.keyring == base.keyring - {r.key}
    && w.registry == Remove(base.registry, r.key)
    && w.selected == r.fallback
    && r.request in w.journal
    && w.journal[r.request].terminal == Some(Receipt(r.request, r.key, Completed, revision))
  }

  /** The revision on the receipt: the command's own if it got so far, and recovery does not know it. */
  ghost function ReceiptOf(base: World, r: Removal, cut: nat): Option<nat> {
    if cut == 8 && DeleteAccepted(base, r) then Some(r.resulting) else None
  }

  lemma DoneIsWellFormed(base: World, r: Removal, revision: Option<nat>)
    requires Admissible(base, r)
    ensures WellFormed(At(base, r, Done(revision))) && Quiet(At(base, r, Done(revision)))
  {
    var w := At(base, r, Done(revision));
    RemoveSound(base.registry, r.key);
    RemoveLookup(base.registry, r.key);
    forall id | id in w.journal ensures !Unfinished(w, id) {
      if id != r.request { assert !Unfinished(base, id); }
    }
    forall k: PublicKey ensures
        match Find(w.registry, k)
        case None => k !in w.keyring
        case Some(record) =>
          && (record.availability == Available ==> k in w.keyring)
          && (record.availability == CredentialMissing ==> k !in w.keyring)
    {
      assert k == r.key || Find(w.registry, k) == Find(base.registry, k);
    }
  }

  /** At every point, an unfinished removal is finished by one recovery that is not cut. */
  lemma RecoveryEnds(base: World, r: Removal, p: Point, enough: nat)
    requires Admissible(base, r) && enough >= 7
    ensures Recover(At(base, r, p), enough).ok && Quiet(Recover(At(base, r, p), enough).world)
  {
    RecoverFrom(base, r, p, enough);
    DoneIsWellFormed(base, r, Recovered(p, enough).revision);
  }

  /** Removal always rolls forward. Cut the command anywhere after its intent, let any number of
      recoveries die anywhere, then: as soon as no operation is unfinished the identity is fully
      removed, and one recovery that is not cut gets there. */
  lemma RemovalRollsForward(base: World, r: Removal, cut: nat, cuts: seq<nat>, enough: nat)
    requires Admissible(base, r) && 1 <= cut <= 8 && enough >= 7
    ensures var w := Additions.RecoverMany(Exec(base, RemovalPlan(r), cut).world, cuts);
            && (Quiet(w) ==> WellFormed(w) && FullyRemoved(base, r, w, ReceiptOf(base, r, cut)))
            && Recover(w, enough).ok && Quiet(Recover(w, enough).world)
  {
    ForwardCut(base, r, cut);
    var p := if DeleteAccepted(base, r) then ForwardPoint(r, cut) else Begun;
    assert p.Done? <==> cut == 8 && DeleteAccepted(base, r);
    var q := RecoverManyFrom(base, r, p, cuts);
    RecoveryEnds(base, r, q, enough);
    if Quiet(At(base, r, q)) { QuietIsRemoved(base, r, q); }
    hide At; hide Exec; hide Recover; hide FullyRemoved; hide WellFormed; hide Quiet; hide Admissible;
    hide DeleteAccepted;
  }

  lemma QuietIsRemoved(base: World, r: Removal, q: Point)
    requires Admissible(base, r) && Quiet(At(base, r, q))
    ensures q.Done? && WellFormed(At(base, r, q)) && FullyRemoved(base, r, At(base, r, q), q.revision)
  {
    assert !Unfinished(At(base, r, q), r.request);
    DoneIsWellFormed(base, r, q.revision);
    hide Remove;
  }

  /** An interrupted and recovered removal leaves the same three stores as the uninterrupted one. */
  lemma RemovalAsUninterrupted(base: World, r: Removal, cut: nat, cuts: seq<nat>)
    requires Admissible(base, r) && 1 <= cut <= 8
    requires Exec(base, RemovalPlan(r), 8).ok
    requires Quiet(Additions.RecoverMany(Exec(base, RemovalPlan(r), cut).world, cuts))
    ensures SameStores(Additions.RecoverMany(Exec(base, RemovalPlan(r), cut).world, cuts),
                       Exec(base, RemovalPlan(r), 8).world)
  {
    RemovalRollsForward(base, r, cut, cuts, 7);
    ForwardCut(base, r, 8);
  }

  // ---- The fallback ----

  /** The selection computed at confirmation is never the removed key and is sound for what remains,
      whenever the in-memory selection agrees with a well-formed durable one. */
  lemma FallbackIsSound(w: World, key: PublicKey)
    requires WellFormed(w) && Has(w.registry, key)
    ensures FallbackSound(w.registry, key, Fallback(w.registry, w.selected, key))
    ensures Fallback(w.registry, w.selected, key) != Some(key)
  {
    var rest, fallback := Remove(w.registry, key), Fallback(w.registry, w.selected, key);
    FindSound(w.registry, key);
    RemoveMembers(w.registry, key);
    RemoveSound(w.registry, key);
    RemoveLookup(w.registry, key);
    hide Find; hide Ordered;
    if w.selected == Some(key) {
      var i := IndexOf(w.registry, key);
      if i + 1 < |w.registry| {
        NeighbourRemains(w.registry, key, i, i + 1);
      } else if i >= 1 {
        NeighbourRemains(w.registry, key, i, i - 1);
      } else {
        assert w.registry[1..] == [];
      }
    }
  }

  lemma NeighbourRemains(records: Records, key: PublicKey, i: nat, j: nat)
    requires Unique(records) && i < |records| && j < |records| && i != j && records[i].key == key
    ensures records[j].key != key && Has(Remove(records, key), records[j].key)
  {
    RemoveMembers(records, key);
    RemoveSound(records, key);
    FindUnique(Remove(records, key), records[j]);
  }
}
