/** Whole histories of identity commands, crashes and restarts. */
module IdentityHistory {
  import opened Domain
  import opened Registry
  import opened Durable
  import opened IdentityPlans
  import Additions
  import Removals

  /** A command or a start-up recovery, each ending after at most `cut` changing calls: because it is
      done, because a call failed, or because the process died. */
  datatype Event = Do(command: Command, cut: nat) | Restart(cut: nat)

  ghost function Step(w: World, e: Event): World {
    match e
    case Do(command, cut) => Cut(w, CommandPlan(w, command), cut).world
    case Restart(cut) => Recover(w, cut).world
  }

  ghost function After(w: World, events: seq<Event>): World {
    if events == [] then w else Step(After(w, events[..|events| - 1]), events[|events| - 1])
  }

  /** Commands run one at a time, a new one only when no operation is unfinished; a generated key is
      new; a removal sees the durable selection. A repeated request is always permitted. */
  ghost predicate Permitted(w: World, e: Event) {
    match e
    case Restart(_) => true
    case Do(CreateIdentity(request, _, _, material, _, _), _) =>
      request in w.journal || (Quiet(w) && !Has(w.registry, material.key))
    case Do(ImportIdentity(request, _, _, _, _, _), _) => request in w.journal || Quiet(w)
    case Do(RemoveIdentity(request, _, _, snapshotSelected, _), _) =>
      request in w.journal || (Quiet(w) && snapshotSelected == w.selected)
    case Do(SelectIdentity(_), _) => Quiet(w)
    case Do(ActivateIdentity(_, _), _) => Quiet(w)
  }

  ghost predicate PermittedHistory(w: World, events: seq<Event>) {
    forall i :: 0 <= i < |events| ==> Permitted(After(w, events[..i]), events[i])
  }

  /** Between operations the world is well-formed; within one it is at one of that operation's points. */
  ghost predicate Sound(w: World) {
    || (WellFormed(w) && Quiet(w))
    || (exists base, a, p :: Additions.Admissible(base, a) && w == Additions.At(base, a, p))
    || (exists base, r, p :: Removals.Admissible(base, r) && w == Removals.At(base, r, p))
  }

  // ---- One step ----

  lemma QuietCut(w: World, plan: Plan, cut: nat)
    requires plan == []
    ensures Cut(w, plan, cut).world == w
  {}

  lemma AdditionStep(w: World, a: Addition, cut: nat)
    requires WellFormed(w) && Quiet(w) && Additions.Admissible(w, a)
    ensures Sound(Cut(w, AdditionPlan(a), cut).world)
  {
    if cut > 0 {
      var at := if cut <= 8 then cut else 8;
      Additions.ForwardCutPoint(w, a, at);
      assert Cut(w, AdditionPlan(a), cut) == Exec(w, AdditionPlan(a), at);
    }
  }

  lemma RemovalStep(w: World, r: Removal, cut: nat)
    requires WellFormed(w) && Quiet(w) && Removals.Admissible(w, r)
    ensures Sound(Cut(w, RemovalPlan(r), cut).world)
  {
    if cut > 0 {
      var at := if cut <= 8 then cut else 8;
      Removals.ForwardCut(w, r, at);
      assert Cut(w, RemovalPlan(r), cut) == Exec(w, RemovalPlan(r), at);
    }
  }

  lemma SelectStep(w: World, key: PublicKey, cut: nat)
    requires WellFormed(w) && Quiet(w) && Has(w.registry, key)
    ensures var after := Cut(w, [Select(Some(key))], cut).world;
            WellFormed(after) && Quiet(after)
  {
    assert Exec(w, [Select(Some(key))], 0).world == w;
  }

  lemma TouchKeepsWellFormed(w: World, key: PublicKey, now: nat)
    requires WellFormed(w) && Has(w.registry, key)
    ensures var record := Find(w.registry, key).value.(lastUsedAt := Some(now));
            WellFormed(w.(registry := Update(w.registry, record)))
            && Has(Update(w.registry, record), key)
  {
    var found := Find(w.registry, key).value;
    var record := found.(lastUsedAt := Some(now));
    FindSound(w.registry, key);
    UpdateSound(w.registry, record);
    UpdateLookup(w.registry, record);
    UpdateOrdered(w.registry, record, found);
    var after := w.(registry := Update(w.registry, record));
    forall k: PublicKey ensures
        match Find(after.registry, k)
        case None => k !in after.keyring
        case Some(r) =>
          && (r.availability == Available ==> k in after.keyring)
          && (r.availability == CredentialMissing ==> k !in after.keyring)
    {
      assert k == key || Find(after.registry, k) == Find(w.registry, k);
    }
    assert w.selected.Some? ==> Has(after.registry, w.selected.value);
  }

  lemma ActivateStep(w: World, key: PublicKey, now: nat, cut: nat)
    requires WellFormed(w) && Quiet(w) && Has(w.registry, key) && key in w.keyring
    ensures var after := Cut(w, CommandPlan(w, ActivateIdentity(key, now)), cut).world;
            WellFormed(after) && Quiet(after)
  {
    var record := Find(w.registry, key).value.(lastUsedAt := Some(now));
    var plan := [UpdateRecord(record), Select(Some(key))];
    FindSound(w.registry, key);
    TouchKeepsWellFormed(w, key, now);
    var touched := w.(registry := Update(w.registry, record));
    assert Exec(w, plan, 0) == Run(w, true);
    assert Exec(w, plan, 1) == Run(touched, true);
    assert Exec(w, plan, 2) == Run(touched.(selected := Some(key)), true);
  }

  lemma RestartStep(w: World, cut: nat)
    requires Sound(w)
    ensures Sound(Recover(w, cut).world)
  {
    if WellFormed(w) && Quiet(w) {
      NothingToRecover(w, cut);
    } else if exists base, a, p :: Additions.Admissible(base, a) && w == Additions.At(base, a, p) {
      var base, a, p :| Additions.Admissible(base, a) && w == Additions.At(base, a, p);
      Additions.RecoverFrom(base, a, p, cut);
    } else {
      var base, r, p :| Removals.Admissible(base, r) && w == Removals.At(base, r, p);
      Removals.RecoverFrom(base, r, p, cut);
    }
  }

  lemma NothingToRecover(w: World, cut: nat)
    requires Quiet(w)
    ensures Recover(w, cut) == Run(w, true)
  {}

  lemma QuietIsWellFormed(w: World)
    requires Sound(w) && Quiet(w)
    ensures WellFormed(w)
  {
    if exists base, a, p :: Additions.Admissible(base, a) && w == Additions.At(base, a, p) {
      var base, a, p :| Additions.Admissible(base, a) && w == Additions.At(base, a, p);
      assert !Unfinished(w, a.request);
      Additions.CommittedIsWellFormed(base, a, p);
    } else if exists base, r, p :: Removals.Admissible(base, r) && w == Removals.At(base, r, p) {
      var base, r, p :| Removals.Admissible(base, r) && w == Removals.At(base, r, p);
      assert !Unfinished(w, r.request);
      Removals.DoneIsWellFormed(base, r, p.revision);
    }
  }

  lemma CreateIsAdmissible(w: World, c: Command)
    requires WellFormed(w) && Quiet(w) && c.CreateIdentity?
    requires c.request !in w.journal && !Has(w.registry, c.material.key)
    ensures Additions.Admissible(w, CreateAddition(w, c))
  {}

  lemma ImportIsAdmissible(w: World, c: Command)
    requires WellFormed(w) && Quiet(w) && c.ImportIdentity?
    requires c.request !in w.journal && ImportAdmitted(w, c.material.key)
    ensures Additions.Admissible(w, ImportAddition(w, c))
  {
    FindSound(w.registry, c.material.key);
  }

  lemma CommandStep(w: World, c: Command, cut: nat)
    requires Sound(w) && Permitted(w, Do(c, cut))
    ensures Sound(Step(w, Do(c, cut)))
  {
    var plan := CommandPlan(w, c);
    if plan == [] {
      QuietCut(w, plan, cut);
    } else {
      QuietIsWellFormed(w);
      match c
      case CreateIdentity(_, _, _, _, _, _) =>
        CreateIsAdmissible(w, c);
        AdditionStep(w, CreateAddition(w, c), cut);
      case ImportIdentity(_, _, _, _, _, _) =>
        ImportIsAdmissible(w, c);
        AdditionStep(w, ImportAddition(w, c), cut);
      case RemoveIdentity(_, _, key, _, _) =>
        Removals.FallbackIsSound(w, key);
        RemovalStep(w, CommandRemoval(w, c), cut);
      case SelectIdentity(key) => SelectStep(w, key, cut);
      case ActivateIdentity(key, now) => ActivateStep(w, key, now, cut);
    }
  }

  // ---- All histories ----

  lemma {:induction false} HistoryIsSound(w: World, events: seq<Event>)
    requires WellFormed(w) && Quiet(w) && PermittedHistory(w, events)
    ensures Sound(After(w, events))
  {
    if events != [] {
      var front, last := events[..|events| - 1], events[|events| - 1];
      forall i | 0 <= i < |front| ensures Permitted(After(w, front[..i]), front[i]) {
        assert front[..i] == events[..i];
      }
      HistoryIsSound(w, front);
      match last
      case Do(c, cut) => CommandStep(After(w, front), c, cut);
      case Restart(cut) => RestartStep(After(w, front), cut);
    }
  }

  lemma SoundRecovers(w: World, enough: nat)
    requires Sound(w) && enough >= 7
    ensures Recover(w, enough).ok && Quiet(Recover(w, enough).world)
  {
    if WellFormed(w) && Quiet(w) {
      NothingToRecover(w, enough);
    } else if exists base, a, p :: Additions.Admissible(base, a) && w == Additions.At(base, a, p) {
      var base, a, p :| Additions.Admissible(base, a) && w == Additions.At(base, a, p);
      Additions.RecoveryEnds(base, a, p, enough);
    } else {
      var base, r, p :| Removals.Admissible(base, r) && w == Removals.At(base, r, p);
      Removals.RecoveryEnds(base, r, p, enough);
    }
  }

  /** After every permitted history, one recovery that is not cut ends with no unfinished operation and
      a well-formed world, and whenever nothing is unfinished the world already is well-formed. */
  lemma RecoveryRestoresWellFormedness(w: World, events: seq<Event>, enough: nat)
    requires WellFormed(w) && Quiet(w) && PermittedHistory(w, events) && enough >= 7
    ensures var recovered := Recover(After(w, events), enough);
            recovered.ok && Quiet(recovered.world) && WellFormed(recovered.world)
    ensures Quiet(After(w, events)) ==> WellFormed(After(w, events))
  {
    HistoryIsSound(w, events);
    var now := After(w, events);
    SoundRecovers(now, enough);
    RestartStep(now, enough);
    QuietIsWellFormed(Recover(now, enough).world);
    if Quiet(now) { QuietIsWellFormed(now); }
  }
}
