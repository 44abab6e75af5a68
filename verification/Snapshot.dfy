/** The immutable application snapshot, its validity and its order. */
module Snapshot {
  import opened Domain
  import opened Registry

  datatype SessionState = SignedOut | Activating(key: PublicKey) | Active | SigningOut | SessionFailed(problem: Problem)

  datatype Lifecycle = Booting | Ready | Fatal(problem: Problem)

  /** Relay configuration and profile metadata are carried around unchanged, so each is an opaque value. */
  type Relays = nat
  type Metadata = nat

  datatype RelayState = Disconnected | Connecting | Connected | Degraded
  datatype ProfileState = EmptyProfile | Loading | Cached | Fresh | ProfileError(problem: Problem)

  datatype ActiveIdentity = ActiveIdentity(
    identity: Identity, relayState: RelayState, profileState: ProfileState, profile: Option<Metadata>)

  datatype SessionBinding = SessionBinding(incarnation: nat, generation: nat)

  datatype AppSnapshot = AppSnapshot(
    revision: nat,
    runtimeSession: Option<SessionBinding>,
    lifecycle: Lifecycle,
    relays: Relays,
    identities: Records,
    selected: Option<PublicKey>,
    session: SessionState,
    active: Option<ActiveIdentity>,
    problem: Option<Problem>)

  const DEFAULT_RELAYS: Relays := 0

  const BOOTING: AppSnapshot := AppSnapshot(0, None, Booting, DEFAULT_RELAYS, [], None, SignedOut, None, None)

  function FatalSnapshot(revision: nat, relays: Relays, problem: Problem): AppSnapshot {
    AppSnapshot(revision, None, Fatal(problem), relays, [], None, SignedOut, None, None)
  }

  /** The invariant of every ready snapshot. */
  ghost predicate Valid(identities: Records, selected: Option<PublicKey>, session: SessionState,
                        active: Option<ActiveIdentity>) {
    && Unique(identities)
    && (identities == [] <==> selected.None?)
    && (selected.Some? ==> selected.value in Keys(identities))
    && (active.Some? ==> active.value.identity in identities)
    && (session.Active? ==> active.Some?)
    && (session.SignedOut? ==> active.None?)
  }

  /** The check as the code makes it: a set of keys as large as the vector of identities. */
  predicate Validates(identities: Records, selected: Option<PublicKey>, session: SessionState,
                      active: Option<ActiveIdentity>) {
    var unique := Keys(identities);
    && |unique| == |identities|
    && ((identities == []) == selected.None?)
    && !(selected.Some? && selected.value !in unique)
    && !(active.Some? && active.value.identity !in identities)
    && !(session.Active? && active.None?)
    && !(session.SignedOut? && active.Some?)
  }

  lemma {:induction false} KeySetSize(identities: Records)
    ensures |Keys(identities)| <= |identities|
    ensures |Keys(identities)| == |identities| <==> Unique(identities)
  {
    if identities != [] {
      var last := |identities| - 1;
      var front, key := identities[..last], identities[last].key;
      KeySetSize(front);
      UniqueByLast(identities);
      assert identities == front + [identities[last]];
      PushedKeys(front, identities[last]);
      hide Keys; hide Unique;
      if key in Keys(front) { assert Keys(front) + {key} == Keys(front); }
    }
  }

  lemma UniqueByLast(identities: Records)
    requires identities != []
    ensures var last := |identities| - 1;
            Unique(identities) <==> Unique(identities[..last]) && identities[last].key !in Keys(identities[..last])
  {}

  /** Comparing the set's size with the vector's length is the same as pairwise distinct keys. */
  lemma ValidatesIsValid(identities: Records, selected: Option<PublicKey>, session: SessionState,
                         active: Option<ActiveIdentity>)
    ensures Validates(identities, selected, session, active) <==> Valid(identities, selected, session, active)
  {
    KeySetSize(identities);
  }

  /** Constructs a ready snapshot, or rejects it. */
  function ReadySnapshot(revision: nat, relays: Relays, identities: Records, selected: Option<PublicKey>,
                         session: SessionState, active: Option<ActiveIdentity>,
                         problem: Option<Problem>): Result<AppSnapshot> {
    if Validates(identities, selected, session, active) then
      Ok(AppSnapshot(revision, None, Ready, relays, identities, selected, session, active, problem))
    else Err(InvalidApplicationState)
  }

  /** A snapshot that is not ready is empty and signed out; a ready one is valid. */
  ghost predicate SnapshotValid(s: AppSnapshot) {
    && Valid(s.identities, s.selected, s.session, s.active)
    && (!s.lifecycle.Ready? ==> s.identities == [] && s.session == SignedOut)
  }

  // ---- Order ----

  function NextRevision(revision: nat): Option<nat> {
    if revision < MAX_U64 then Some(revision + 1) else None
  }

  predicate NewerThan(s: AppSnapshot, previous: AppSnapshot) {
    if s.revision < previous.revision then false
    else
      match (previous.runtimeSession, s.runtimeSession)
      case (None, None) => s.revision > previous.revision
      case (None, Some(_)) => true
      case (Some(_), None) => false
      case (Some(before), Some(after)) =>
        && before.incarnation == after.incarnation
        && after.generation >= before.generation
        && (s.revision > previous.revision || after.generation > before.generation)
  }

  /** What makes a snapshot newer: a higher revision under the same binding; a higher generation of the
      same incarnation, or a first binding, at no lower revision. Nothing else does: never a lower
      revision, another incarnation, a lower generation or a lost binding. */
  lemma NewerByCases(s: AppSnapshot, previous: AppSnapshot)
    ensures s.revision < previous.revision ==> !NewerThan(s, previous)
    ensures s.runtimeSession == previous.runtimeSession ==> (NewerThan(s, previous) <==> s.revision > previous.revision)
    ensures previous.runtimeSession.None? && s.runtimeSession.Some? && s.revision >= previous.revision ==>
              NewerThan(s, previous)
    ensures previous.runtimeSession.Some? && s.runtimeSession.None? ==> !NewerThan(s, previous)
    ensures previous.runtimeSession.Some? && s.runtimeSession.Some? ==>
              var before, after := previous.runtimeSession.value, s.runtimeSession.value;
              && (after.incarnation != before.incarnation || after.generation < before.generation ==>
                    !NewerThan(s, previous))
              && (after.incarnation == before.incarnation && after.generation > before.generation ==>
                    (NewerThan(s, previous) <==> s.revision >= previous.revision))
  {}

  /** "Newer" is a strict order, although not a total one. */
  lemma NewerIsStrictOrder(a: AppSnapshot, b: AppSnapshot, c: AppSnapshot)
    ensures !NewerThan(a, a)
    ensures NewerThan(b, a) ==> !NewerThan(a, b) && a.revision <= b.revision
    ensures NewerThan(c, b) && NewerThan(b, a) ==> NewerThan(c, a)
  {}
}
