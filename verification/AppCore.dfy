/** The application core: the state machine behind one lock, its published snapshot, and single-use
    removal confirmations bound to a revision. Callers are serialized, as the runtime actor does.
*/
module AppCore {
  import opened Domain
  import opened Registry
  import opened Snapshot
  import opened StateMachine

  datatype Impact = Impact(deletesLocalCredential: bool, signsOut: bool)

  datatype TokenState = TokenState(key: PublicKey, revision: nat, expiresAt: nat, impact: Impact)

  datatype Token = Token(id: nat, state: TokenState)

  datatype Core = Core(machine: Machine, tokens: map<nat, TokenState>, nextToken: nat)

  const INITIAL: Core := Core(BOOT, map[], 1)
  const LIFETIME: nat := 300

  /** What removing `key` would do, as the snapshot tells. */
  predicate ImpactIsRight(s: AppSnapshot, key: PublicKey, impact: Impact) {
    && Has(s.identities, key)
    && impact.deletesLocalCredential == (Find(s.identities, key).value.availability != CredentialMissing)
    && impact.signsOut == (s.active.Some? && s.active.value.identity.key == key)
  }

  function ImpactOf(s: AppSnapshot, key: PublicKey): (impact: Impact)
    requires Has(s.identities, key)
    ensures ImpactIsRight(s, key, impact)
  {
    Impact(Find(s.identities, key).value.availability != CredentialMissing,
           s.active.Some? && s.active.value.identity.key == key)
  }

  function Issued(c: Core, key: PublicKey, now: nat): Result<Token> {
    var s := c.machine.snapshot;
    if !Has(s.identities, key) then Err(IdentityNotFound)
    else if c.nextToken >= MAX_U64 || now + LIFETIME > MAX_I64 then Err(InvalidApplicationState)
    else Ok(Token(c.nextToken, TokenState(key, s.revision, now + LIFETIME, ImpactOf(s, key))))
  }

  /** The counter moves on before the expiry is computed, so a failed issue may still use up an id. */
  function AfterIssue(c: Core, key: PublicKey, now: nat): Core {
    if !Has(c.machine.snapshot.identities, key) || c.nextToken >= MAX_U64 then c
    else
      var issued := Issued(c, key, now);
      c.(nextToken := c.nextToken + 1,
      tokens := if issued.Ok? then c.tokens[issued.value.id := issued.value.state] else c.tokens)
  }

  function Consumed(c: Core, token: Token, now: nat): Result<PublicKey> {
    if token.id !in c.tokens || c.tokens[token.id] != token.state
       || c.machine.snapshot.revision != token.state.revision || now > token.state.expiresAt then
      Err(InvalidApplicationState)
    else Ok(token.state.key)
  }

  datatype Event =
    | Transit(t: Transition)
    | Issue(key: PublicKey, now: nat)
    | Consume(token: Token, at: nat)
    | Cancel(token: Token)

  function Step(c: Core, e: Event, relays: Relays): Core {
    match e
    case Transit(t) => c.(machine := Next(c.machine, t, relays))
    case Issue(key, now) => AfterIssue(c, key, now)
    case Consume(token, _) => c.(tokens := c.tokens - {token.id})
    case Cancel(token) => c.(tokens := c.tokens - {token.id})
  }

  function Run(events: seq<Event>, relays: Relays): Core {
    if events == [] then INITIAL else Step(Run(events[..|events| - 1], relays), events[|events| - 1], relays)
  }

  // ---- The core as the code runs it ----

  class ApplicationCore {
    const relays: Relays
    const machine: StateMachine
    var tokens: map<nat, TokenState>
    var nextToken: nat
    var published: AppSnapshot

    ghost function View(): Core
      reads this, machine
    {
      Core(machine.View(), tokens, nextToken)
    }

    /** What callers see is what the machine holds. */
    ghost predicate Consistent()
      reads this, machine
    {
      published == machine.snapshot
    }

    constructor (relays: Relays)
      ensures View() == INITIAL && Consistent() && this.relays == relays && fresh(machine)
    {
      this.relays := relays;
      var m := new StateMachine();
      machine, tokens, nextToken, published := m, map[], 1, BOOTING;
    }

    method ApplyTransition(t: Transition) returns (r: Result<AppSnapshot>)
      requires Consistent()
      modifies this, machine
      ensures View() == Step(old(View()), Transit(t), relays) && Consistent()
      ensures r == Outcome(old(View()).machine, t, relays) && (r.Ok? ==> r.value == machine.snapshot)
    {
      r := machine.Apply(t, relays);
      if r.Ok? { published := r.value; }
    }

    method IssueRemovalToken(key: PublicKey, now: nat) returns (r: Result<Token>)
      modifies this`tokens, this`nextToken
      ensures View() == Step(old(View()), Issue(key, now), relays)
      ensures r == Issued(old(View()), key, now)
      ensures r.Ok? <==>
                && (exists i :: 0 <= i < |machine.snapshot.identities| && machine.snapshot.identities[i].key == key)
                && old(nextToken) < MAX_U64 && now + 300 <= MAX_I64
      ensures match r
              case Ok(token) =>
                && token.id == old(nextToken) && token.state.key == key
                && token.state.revision == machine.snapshot.revision && token.state.expiresAt == now + 300
                && ImpactIsRight(machine.snapshot, key, token.state.impact)
                && tokens == old(tokens)[token.id := token.state] && nextToken == token.id + 1
              case Err(problem) =>
                && tokens == old(tokens)
                && (problem == IdentityNotFound <==> key !in Keys(machine.snapshot.identities))
                && nextToken == if problem != IdentityNotFound && old(nextToken) < MAX_U64 then old(nextToken) + 1
                                else old(nextToken)
    {
      var s := machine.snapshot;
      Registered(s.identities, key);
      if !Has(s.identities, key) { return Err(IdentityNotFound); }
      var deletes := Find(s.identities, key).value.availability != CredentialMissing;
      var id := nextToken;
      if id >= MAX_U64 { return Err(InvalidApplicationState); }
      nextToken := id + 1;
      if now + LIFETIME > MAX_I64 { return Err(InvalidApplicationState); }
      var state := TokenState(key, s.revision, now + LIFETIME,
                              Impact(deletes, s.active.Some? && s.active.value.identity.key == key));
      tokens := tokens[id := state];
      return Ok(Token(id, state));
    }

    method ConsumeRemovalToken(token: Token, now: nat) returns (r: Result<PublicKey>)
      modifies this`tokens
      ensures View() == Step(old(View()), Consume(token, now), relays)
      ensures r == Consumed(old(View()), token, now)
      ensures r.Ok? <==>
                && token.id in old(tokens) && old(tokens)[token.id] == token.state
                && token.state.revision == machine.snapshot.revision && now <= token.state.expiresAt
      ensures tokens == old(tokens) - {token.id} && (r.Ok? ==> r.value == token.state.key)
    {
      var stored := if token.id in tokens then Some(tokens[token.id]) else None;
      tokens := tokens - {token.id};
      if stored != Some(token.state) || machine.snapshot.revision != token.state.revision
         || now > token.state.expiresAt {
        return Err(InvalidApplicationState);
      }
      return Ok(token.state.key);
    }

    method CancelRemovalToken(token: Token) returns (removed: bool)
      modifies this`tokens
      ensures View() == Step(old(View()), Cancel(token), relays)
      ensures removed == (token.id in old(tokens)) && tokens == old(tokens) - {token.id}
    {
      removed := token.id in tokens;
      tokens := tokens - {token.id};
    }
  }

  lemma Registered(records: Records, key: PublicKey)
    ensures Has(records, key) <==> exists i :: 0 <= i < |records| && records[i].key == key
    ensures Has(records, key) <==> key in Keys(records)
  {
    FindSound(records, key);
  }

  // ---- Every run ----

  lemma {:induction false} RunIsValid(events: seq<Event>, relays: Relays)
    ensures var s := Run(events, relays).machine.snapshot; SnapshotValid(s) && s.revision <= MAX_U64
  {
    if events != [] {
      RunIsValid(events[..|events| - 1], relays);
      var last := events[|events| - 1];
      if last.Transit? { StepKeepsValid(Run(events[..|events| - 1], relays).machine, last.t, relays); }
    }
  }

  /** Between two moments of a run, either nothing happened to the snapshot or its revision rose. */
  lemma {:induction false} RevisionRises(events: seq<Event>, i: nat, j: nat, relays: Relays)
    requires i <= j <= |events|
    ensures var earlier, later := Run(events[..i], relays).machine.snapshot, Run(events[..j], relays).machine.snapshot;
            earlier == later || earlier.revision < later.revision
    ensures Run(events[..i], relays).nextToken <= Run(events[..j], relays).nextToken
    decreases j
  {
    if i < j {
      RevisionRises(events, i, j - 1, relays);
      RunStep(events, j, relays);
      RunIsValid(events[..j - 1], relays);
      StepRises(Run(events[..j - 1], relays), events[j - 1], relays);
      hide Run; hide Step;
    }
  }

  lemma RunStep(events: seq<Event>, j: nat, relays: Relays)
    requires 0 < j <= |events|
    ensures Run(events[..j], relays) == Step(Run(events[..j - 1], relays), events[j - 1], relays)
  {
    assert events[..j][..j - 1] == events[..j - 1];
    hide Step;
  }

  lemma StepRises(c: Core, e: Event, relays: Relays)
    requires SnapshotValid(c.machine.snapshot) && c.machine.snapshot.revision <= MAX_U64
    ensures var earlier, later := c.machine.snapshot, Step(c, e, relays).machine.snapshot;
            earlier == later || earlier.revision < later.revision
    ensures c.nextToken <= Step(c, e, relays).nextToken
  {
    if e.Transit? { StepKeepsValid(c.machine, e.t, relays); }
    hide Next; hide Issued; hide Find;
  }

  predicate Touches(e: Event, id: nat) {
    (e.Consume? || e.Cancel?) && e.token.id == id
  }

  /** Event `i` issued `token`, and no event after it up to `n` tried to consume or cancel its id. */
  ghost predicate IssuedAt(events: seq<Event>, i: nat, n: nat, token: Token, relays: Relays) {
    && i < n <= |events|
    && events[i].Issue?
    && Issued(Run(events[..i], relays), events[i].key, events[i].now) == Ok(token)
    && forall k :: i < k < n ==> !Touches(events[k], token.id)
  }

  /** Every stored token was issued and left alone since. */
  lemma {:induction false} StoredTokensAreIssued(events: seq<Event>, n: nat, id: nat, relays: Relays)
    requires n <= |events| && id in Run(events[..n], relays).tokens
    ensures id < Run(events[..n], relays).nextToken
    ensures exists i: nat :: IssuedAt(events, i, n, Token(id, Run(events[..n], relays).tokens[id]), relays)
  {
    hide Find; hide Next;
    assert n > 0;
    assert events[..n][..n - 1] == events[..n - 1];
    var before, e := Run(events[..n - 1], relays), events[n - 1];
    var state := Run(events[..n], relays).tokens[id];
    if e.Issue? && Issued(before, e.key, e.now) == Ok(Token(id, state)) {
      assert IssuedAt(events, n - 1, n, Token(id, state), relays);
    } else {
      assert id in before.tokens && before.tokens[id] == state && !Touches(e, id);
      StoredTokensAreIssued(events, n - 1, id, relays);
      var i: nat :| IssuedAt(events, i, n - 1, Token(id, state), relays);
      assert IssuedAt(events, i, n, Token(id, state), relays);
    }
  }

  /** A token that is consumed was issued, was not touched since, is at most 300 seconds old, and the
      whole snapshot is the one it was issued for: the target is still registered and the stated impact
      is still right. */
  lemma ConsumedTokenIsCurrent(events: seq<Event>, j: nat, relays: Relays)
    requires j < |events| && events[j].Consume?
    requires Consumed(Run(events[..j], relays), events[j].token, events[j].at).Ok?
    ensures exists i: nat ::
              && IssuedAt(events, i, j, events[j].token, relays)
              && events[i].key == events[j].token.state.key
              && events[j].at <= events[i].now + 300
              && Run(events[..i], relays).machine.snapshot == Run(events[..j], relays).machine.snapshot
    ensures ImpactIsRight(Run(events[..j], relays).machine.snapshot, events[j].token.state.key,
                          events[j].token.state.impact)
  {
    var now, token := Run(events[..j], relays), events[j].token;
    StoredTokensAreIssued(events, j, token.id, relays);
    var i: nat :| IssuedAt(events, i, j, Token(token.id, now.tokens[token.id]), relays);
    RevisionRises(events, i, j, relays);
  }

  /** A token issued by event `i` stays stored while nobody tries to consume or cancel its id. */
  lemma {:induction false} IssuedStaysStored(events: seq<Event>, i: nat, n: nat, token: Token, relays: Relays)
    requires IssuedAt(events, i, n, token, relays)
    ensures var c := Run(events[..n], relays);
            token.id in c.tokens && c.tokens[token.id] == token.state && token.id < c.nextToken
  {
    hide Find; hide Next;
    assert events[..n][..n - 1] == events[..n - 1];
    if i == n - 1 {
      assert events[..i + 1][..i] == events[..i];
    } else {
      assert IssuedAt(events, i, n - 1, token, relays);
      IssuedStaysStored(events, i, n - 1, token, relays);
      assert !Touches(events[n - 1], token.id);
    }
  }

  /** Exactly when a token that was issued and left alone since is accepted: within 300 seconds of its
      issue and while the whole snapshot is the one it was issued for. */
  lemma IssuedTokenIsConsumedIff(events: seq<Event>, i: nat, j: nat, at: nat, token: Token, relays: Relays)
    requires IssuedAt(events, i, j, token, relays)
    ensures Consumed(Run(events[..j], relays), token, at).Ok? <==>
              && at <= events[i].now + 300
              && Run(events[..j], relays).machine.snapshot == Run(events[..i], relays).machine.snapshot
    ensures token.state.key == events[i].key
  {
    IssuedStaysStored(events, i, j, token, relays);
    RevisionRises(events, i, j, relays);
  }

  /** After any attempt to consume or cancel an issued id, successful or not, no token with that id is
      ever consumed. */
  lemma TouchedTokenIsSpent(events: seq<Event>, j: nat, k: nat, relays: Relays)
    requires j < k < |events| && events[k].Consume? && Touches(events[j], events[k].token.id)
    requires events[k].token.id < Run(events[..j], relays).nextToken
    ensures Consumed(Run(events[..k], relays), events[k].token, events[k].at).Err?
  {
    var id := events[k].token.id;
    if id in Run(events[..k], relays).tokens {
      StoredTokensAreIssued(events, k, id, relays);
      var i: nat :| IssuedAt(events, i, k, Token(id, Run(events[..k], relays).tokens[id]), relays);
      RevisionRises(events, j, i, relays);
    }
  }

  /** No id is consumed successfully twice. */
  lemma TokenIsConsumedOnce(events: seq<Event>, j: nat, k: nat, relays: Relays)
    requires j < k < |events| && events[j].Consume? && events[k].Consume? && events[j].token.id == events[k].token.id
    requires Consumed(Run(events[..j], relays), events[j].token, events[j].at).Ok?
    ensures Consumed(Run(events[..k], relays), events[k].token, events[k].at).Err?
  {
    StoredTokensAreIssued(events, j, events[j].token.id, relays);
    TouchedTokenIsSpent(events, j, k, relays);
  }
}
