/** Accounting of availability discovery: admitted requests, per-target progress, outcomes and receipts.

    Counts are 16-bit, so every addition below carries the obligation that it does not overflow.
*/
module Discovery {
  newtype u16 = x: int | 0 <= x < 0x10000

  const MAX_TARGETS: nat := 16
  const MAX_FETCH_CALLS: nat := 4
  const FETCH_RESERVATION: nat := 8_388_608
  const MAX_PER_TARGET: u16 := 64
  const MAX_RETURNED: u16 := 1_024

  datatype Fault = Capacity | InvalidInput | ScopeMismatch | StaleQuery

  datatype Admission<+T> = Admitted(value: T) | Refused(fault: Fault)

  type Fingerprint = string

  datatype Scope = Scope(
    owner: nat, contextId: nat, storeGeneration: nat, sourceRevision: nat, projectionGeneration: nat,
    sessionGeneration: nat)

  datatype Request = Request(id: nat, scope: Scope, targets: seq<Fingerprint>, deadline: nat)

  datatype State = NotRequested | Complete | Partial | Unavailable | FailedRetryable | FailedTerminal | Cancelled

  datatype Reason = NoReason | BudgetExhausted | DeadlineExpired | Stopped

  datatype ProgressFields = ProgressFields(state: State, reason: Reason, returned: u16)

  /** Reason and count agree with the state. */
  predicate Consistent(p: ProgressFields) {
    match p.state
    case NotRequested | Unavailable => p.reason.NoReason? && p.returned == 0
    case Complete | FailedRetryable | FailedTerminal => p.reason.NoReason?
    case Partial => !p.reason.Stopped?
    case Cancelled => p.reason.Stopped?
  }

  /** Values exist only through their constructors, so each type carries what its constructor checks. */
  type Progress = p: ProgressFields | p.returned <= MAX_PER_TARGET && Consistent(p)
    witness ProgressFields(NotRequested, NoReason, 0)

  /** Admits the progress given if it counts at most sixty-four events, is stopped exactly if it is
      cancelled, gives any other reason only for a partial state, and counts nothing where nothing was
      asked or reached. */
  function NewProgress(state: State, reason: Reason, returned: u16): (r: Admission<Progress>)
    ensures r.Admitted? <==>
            && returned <= 64 && (reason.Stopped? <==> state.Cancelled?)
            && (reason.BudgetExhausted? || reason.DeadlineExpired? ==> state.Partial?)
            && (state.NotRequested? || state.Unavailable? ==> returned == 0)
    ensures r.Admitted? ==> r.value == ProgressFields(state, reason, returned)
    ensures r.Refused? ==> r.fault == if returned > 64 then Capacity else InvalidInput
  {
    var fields := ProgressFields(state, reason, returned);
    if returned > MAX_PER_TARGET then Refused(Capacity)
    else if !Consistent(fields) then Refused(InvalidInput)
    else Admitted(fields)
  }

  datatype TargetFields = TargetFields(target: Fingerprint, listings: Progress, profiles: Progress, deletions: Progress)

  function Sum(t: TargetFields): u16 {
    t.listings.returned + t.profiles.returned + t.deletions.returned
  }

  type TargetOutcome = t: TargetFields | Sum(t) <= MAX_PER_TARGET
    witness
      var none: Progress := ProgressFields(NotRequested, NoReason, 0);
      TargetFields("", none, none, none)

  function NewTarget(target: Fingerprint, listings: Progress, profiles: Progress,
                     deletions: Progress): (r: Admission<TargetOutcome>)
    ensures r.Admitted? <==> listings.returned as int + profiles.returned as int + deletions.returned as int <= 64
    ensures r.Admitted? ==> r.value == TargetFields(target, listings, profiles, deletions)
    ensures r.Refused? ==> r.fault == Capacity
  {
    var fields := TargetFields(target, listings, profiles, deletions);
    if Sum(fields) > MAX_PER_TARGET then Refused(Capacity) else Admitted(fields)
  }

  datatype UsageFields = UsageFields(fetchCalls: nat, returned: u16)

  type Usage = u: UsageFields |
      u.fetchCalls <= MAX_FETCH_CALLS && u.returned <= MAX_RETURNED && (u.fetchCalls == 0 ==> u.returned == 0)
    witness UsageFields(0, 0)

  function NewUsage(fetchCalls: nat, returned: u16): (r: Admission<Usage>)
    ensures r.Admitted? <==> fetchCalls <= 4 && returned <= 1_024 && (returned > 0 ==> fetchCalls > 0)
    ensures r.Admitted? ==> r.value == UsageFields(fetchCalls, returned)
    ensures r == Refused(Capacity) <==> fetchCalls > 4 || returned > 1_024
  {
    if fetchCalls > MAX_FETCH_CALLS || returned > MAX_RETURNED then Refused(Capacity)
    else if fetchCalls == 0 && returned != 0 then Refused(InvalidInput)
    else Admitted(UsageFields(fetchCalls, returned))
  }

  /** Eight mebibytes a call, so never more than thirty-two. */
  function ReservedRawBytes(u: Usage): (bytes: nat)
    ensures bytes == 8_388_608 * u.fetchCalls <= 33_554_432
  {
    u.fetchCalls * FETCH_RESERVATION
  }

  /** Some element occurs among those before it. */
  predicate Repeats(s: seq<Fingerprint>) {
    s != [] && (s[|s| - 1] in s[..|s| - 1] || Repeats(s[..|s| - 1]))
  }

  ghost predicate Distinct(s: seq<Fingerprint>) {
    forall i, j :: 0 <= i < j < |s| ==> s[i] != s[j]
  }

  /** Looking each target up among those before it is the same as pairwise distinctness. */
  lemma {:induction false} RepeatsIff(s: seq<Fingerprint>)
    ensures Repeats(s) <==> !Distinct(s)
  {
    if s != [] {
      var front, last := s[..|s| - 1], |s| - 1;
      RepeatsIff(front);
      if s[last] in front {
        var i :| 0 <= i < |front| && front[i] == s[last];
        assert s[i] == s[last];
      } else if Distinct(front) {
        forall i, j | 0 <= i < j < |s| ensures s[i] != s[j] {
          if j < last { assert front[i] != front[j]; } else { assert front[i] in front; }
        }
      } else {
        var i, j :| 0 <= i < j < |front| && front[i] == front[j];
        assert s[i] == s[j];
      }
    }
  }

  /** Admits exactly the request given, if it has at most sixteen targets, no two alike, and a deadline in
      range; too many targets is the one refusal for capacity. */
  function NewRequest(id: nat, scope: Scope, targets: seq<Fingerprint>, deadline: nat): (r: Admission<Request>)
    ensures r == Admitted(Request(id, scope, targets, deadline)) <==>
            |targets| <= 16 && Distinct(targets) && 1 <= deadline <= 30_000
    ensures r.Admitted? ==> r.value == Request(id, scope, targets, deadline)
    ensures r == Refused(Capacity) <==> |targets| > 16
  {
    RepeatsIff(targets);
    if |targets| > MAX_TARGETS then Refused(Capacity)
    else if Repeats(targets) || !(1 <= deadline <= 30_000) then Refused(InvalidInput)
    else Admitted(Request(id, scope, targets, deadline))
  }

  predicate RequestValid(r: Request) {
    |r.targets| <= MAX_TARGETS && !Repeats(r.targets) && 1 <= r.deadline <= 30_000
  }

  datatype Outcome<T> = Outcome(request: Request, usage: Usage, targets: seq<TargetOutcome>, items: seq<T>)

  function Names(targets: seq<TargetOutcome>): (names: seq<Fingerprint>)
    ensures |names| == |targets|
    ensures forall i :: 0 <= i < |targets| ==> names[i] == targets[i].target
  {
    if targets == [] then [] else Names(targets[..|targets| - 1]) + [targets[|targets| - 1].target]
  }

  /** The 16-bit total. At most sixteen sums of at most sixty-four cannot overflow. */
  function Total(targets: seq<TargetOutcome>): (total: u16)
    requires |targets| <= MAX_TARGETS
    ensures total as int <= 64 * |targets|
  {
    if targets == [] then 0
    else
      var last := |targets| - 1;
      Total(targets[..last]) + Sum(targets[last])
  }

  predicate HasComplete(t: TargetOutcome) {
    t.listings.state.Complete? || t.profiles.state.Complete? || t.deletions.state.Complete?
  }

  predicate Requested(request: Request, targets: seq<TargetOutcome>) {
    forall i :: 0 <= i < |targets| ==> targets[i].target in request.targets
  }

  function NewOutcome<T>(request: Request, usage: Usage, targets: seq<TargetOutcome>,
                         items: seq<T>): Admission<Outcome<T>> {
    if |targets| > MAX_TARGETS || |items| > MAX_RETURNED as int then Refused(Capacity)
    else if Repeats(Names(targets)) then Refused(InvalidInput)
    else if |targets| != |request.targets| || !Requested(request, targets) then Refused(ScopeMismatch)
    else if Total(targets) != usage.returned || |items| > Total(targets) as int
            || (usage.fetchCalls == 0 && exists i :: 0 <= i < |targets| && HasComplete(targets[i]))
            || (request.targets == [] && usage.fetchCalls != 0) then
      Refused(InvalidInput)
    else Admitted(Outcome(request, usage, targets, items))
  }

  // ---- One-sided checks give full agreement ----

  function Elements(s: seq<Fingerprint>): set<Fingerprint> {
    set x | x in s
  }

  lemma {:induction false} DistinctSize(s: seq<Fingerprint>)
    ensures Repeats(s) <==> |Elements(s)| < |s|
    ensures |Elements(s)| <= |s|
    ensures !Repeats(s) ==> multiset(s) == multiset(Elements(s))
  {
    if s != [] {
      var front, last := s[..|s| - 1], s[|s| - 1];
      DistinctSize(front);
      assert s == front + [last];
      assert Elements(s) == Elements(front) + {last};
    }
  }

  /** The pigeonhole step: distinct, of equal length and contained is a permutation. */
  lemma ContainedIsPermutation(a: seq<Fingerprint>, b: seq<Fingerprint>)
    requires !Repeats(a) && !Repeats(b) && |a| == |b|
    requires forall x :: x in a ==> x in b
    ensures multiset(a) == multiset(b)
  {
    DistinctSize(a);
    DistinctSize(b);
    SameSize(Elements(a), Elements(b));
  }

  lemma {:induction false} SameSize(a: set<Fingerprint>, b: set<Fingerprint>)
    requires a <= b && |a| == |b|
    ensures a == b
  {
    if a != {} {
      var x :| x in a;
      SameSize(a - {x}, b - {x});
      assert a == (a - {x}) + {x} && b == (b - {x}) + {x};
    }
  }

  /** The exact sum of the per-target counts, without any width. */
  function ExactTotal(targets: seq<TargetOutcome>): nat {
    if targets == [] then 0
    else
      var last := targets[|targets| - 1];
      ExactTotal(targets[..|targets| - 1])
      + (last.listings.returned as nat + last.profiles.returned as nat + last.deletions.returned as nat)
  }

  lemma {:induction false} TotalIsExact(targets: seq<TargetOutcome>)
    requires |targets| <= MAX_TARGETS
    ensures Total(targets) as nat == ExactTotal(targets)
  {
    if targets != [] { TotalIsExact(targets[..|targets| - 1]); }
  }

  /** No stream of any target is complete. */
  ghost predicate AllIncomplete(targets: seq<TargetOutcome>) {
    forall i :: 0 <= i < |targets| ==>
      && !targets[i].listings.state.Complete? && !targets[i].profiles.state.Complete?
      && !targets[i].deletions.state.Complete?
  }

  /** What an admitted outcome guarantees. */
  ghost predicate Accounted<T>(o: Outcome<T>) {
    && |o.targets| <= 16
    && multiset(Names(o.targets)) == multiset(o.request.targets)
    && ExactTotal(o.targets) == o.usage.returned as nat
    && |o.items| <= ExactTotal(o.targets)
    && (o.usage.fetchCalls == 0 ==> AllIncomplete(o.targets))
    && (o.request.targets == [] ==> o.usage.fetchCalls == 0 && o.items == [])
  }

  /** An outcome is admitted exactly if it answers each requested target once and its counts add up. */
  lemma AdmittedIffAccounted<T>(request: Request, usage: Usage, targets: seq<TargetOutcome>, items: seq<T>)
    requires RequestValid(request)
    ensures var o := Outcome(request, usage, targets, items);
            && (NewOutcome(request, usage, targets, items).Admitted? <==> Accounted(o))
            && (NewOutcome(request, usage, targets, items).Admitted? ==>
                  NewOutcome(request, usage, targets, items).value == o)
  {
    AdmittedIffPasses(request, usage, targets, items);
    PassesIffAccounted(Outcome(request, usage, targets, items));
    hide Passes; hide Accounted; hide Repeats; hide Total; hide HasComplete; hide Requested; hide Names;
  }

  /** All checks on an outcome at once. */
  ghost predicate Passes(request: Request, usage: Usage, targets: seq<TargetOutcome>, items: nat) {
    && |targets| <= 16 && items <= 1_024 && !Repeats(Names(targets)) && |targets| == |request.targets|
    && Requested(request, targets) && Total(targets) == usage.returned && items <= Total(targets) as nat
    && (usage.fetchCalls == 0 ==> AllIncomplete(targets)) && (request.targets == [] ==> usage.fetchCalls == 0)
  }

  lemma AdmittedIffPasses<T>(request: Request, usage: Usage, targets: seq<TargetOutcome>, items: seq<T>)
    ensures NewOutcome(request, usage, targets, items).Admitted? <==> Passes(request, usage, targets, |items|)
  {
    CompleteIff(targets);
    hide Repeats; hide Total; hide HasComplete; hide Requested; hide Names; hide AllIncomplete;
  }

  lemma PassesIffAccounted<T>(o: Outcome<T>)
    requires RequestValid(o.request)
    ensures Passes(o.request, o.usage, o.targets, |o.items|) <==> Accounted(o)
  {
    NamesAgreeIff(o.request, o.targets);
    if |o.targets| <= 16 { TotalIsExact(o.targets); }
    hide Repeats; hide RequestValid; hide Requested; hide Names; hide AllIncomplete;
    if o.request.targets == [] && |o.targets| == 0 { assert ExactTotal(o.targets) == 0; }
    hide Total; hide ExactTotal;
  }

  lemma CompleteIff(targets: seq<TargetOutcome>)
    ensures (exists i :: 0 <= i < |targets| && HasComplete(targets[i])) <==> !AllIncomplete(targets)
  {
    hide HasComplete;
    if exists i :: 0 <= i < |targets| && HasComplete(targets[i]) {
      SomeComplete(targets);
    } else {
      NoneComplete(targets);
    }
    hide AllIncomplete;
  }

  lemma NoneComplete(targets: seq<TargetOutcome>)
    requires forall i :: 0 <= i < |targets| ==> !HasComplete(targets[i])
    ensures AllIncomplete(targets)
  {}

  lemma SomeComplete(targets: seq<TargetOutcome>)
    requires exists i :: 0 <= i < |targets| && HasComplete(targets[i])
    ensures !AllIncomplete(targets)
  {}

  /** The checks on targets say that they are the requested ones, each once. */
  lemma NamesAgreeIff(request: Request, targets: seq<TargetOutcome>)
    requires RequestValid(request)
    ensures !Repeats(Names(targets)) && |targets| == |request.targets| && Requested(request, targets)
       <==> multiset(Names(targets)) == multiset(request.targets)
    ensures multiset(Names(targets)) == multiset(request.targets) ==> |targets| <= 16
  {
    var names := Names(targets);
    assert forall i :: 0 <= i < |targets| ==> names[i] == targets[i].target;
    if multiset(names) == multiset(request.targets) {
      PermutedAgree(names, request.targets);
      forall i | 0 <= i < |targets| ensures targets[i].target in request.targets { assert names[i] in names; }
    } else if !Repeats(names) {
      TargetsAgreeIff(request.targets, names);
      hide Repeats; hide Names;
    }
  }

  /** Why an outcome is refused: too many targets or items, else other targets than the requested ones,
      each answered once; everything else is an invalid input. */
  lemma RefusedIff<T>(request: Request, usage: Usage, targets: seq<TargetOutcome>, items: seq<T>)
    requires RequestValid(request)
    ensures var r := NewOutcome(request, usage, targets, items);
            var bounded := |targets| <= 16 && |items| <= 1_024;
            && (r == Refused(Capacity) <==> !bounded)
            && (r == Refused(ScopeMismatch) <==>
                bounded && Distinct(Names(targets)) && multiset(Names(targets)) != multiset(request.targets))
            && r != Refused(StaleQuery)
  {
    NamesAgreeIff(request, targets);
    RepeatsIff(Names(targets));
    hide Total; hide Names; hide Repeats; hide Distinct; hide Requested;
  }

  lemma PermutedAgree(a: seq<Fingerprint>, b: seq<Fingerprint>)
    requires multiset(a) == multiset(b) && !Repeats(b)
    ensures |a| == |b| && !Repeats(a) && forall x :: x in a ==> x in b
  {
    assert |multiset(a)| == |multiset(b)|;
    forall x ensures x in a <==> x in b { assert x in multiset(a) <==> x in multiset(b); }
    assert Elements(a) == Elements(b);
    DistinctSize(a);
    DistinctSize(b);
  }

  // ---- Streams ----

  datatype Stream = Listings | Profiles | Deletions

  function StateOf(t: TargetOutcome, stream: Stream): State {
    match stream
    case Listings => t.listings.state
    case Profiles => t.profiles.state
    case Deletions => t.deletions.state
  }

  function StreamState(targets: seq<TargetOutcome>, stream: Stream): State {
    if targets == [] then NotRequested
    else
      var state := StateOf(targets[0], stream);
      if forall i :: 0 <= i < |targets| ==> StateOf(targets[i], stream) == state then state else Partial
  }

  /** A stream over a nonempty selection has a state other than partial exactly if every target has it;
      in particular it is complete exactly if every target is. An empty selection is never complete. */
  lemma StreamStateIsUnanimous(targets: seq<TargetOutcome>, stream: Stream, state: State)
    requires state != Partial
    ensures StreamState(targets, stream) == state <==>
            if targets == [] then state == NotRequested
            else match stream
                 case Listings => forall i :: 0 <= i < |targets| ==> targets[i].listings.state == state
                 case Profiles => forall i :: 0 <= i < |targets| ==> targets[i].profiles.state == state
                 case Deletions => forall i :: 0 <= i < |targets| ==> targets[i].deletions.state == state
  {
    if targets != [] && StreamState(targets, stream) != state && StateOf(targets[0], stream) == state {
      var i :| 0 <= i < |targets| && StateOf(targets[i], stream) != state;
    }
  }

  // ---- Receipts ----

  datatype CommandResult<T> =
    | Completed(outcome: Outcome<T>)
    | Rejected
    | Conflicted(revision: nat)
    | TimedOut
    | Closed
    | Failed(fault: Fault)

  datatype Receipt<T> = Receipt(request: nat, result: CommandResult<T>)

  function ValidateCurrent(original: Scope, current: Scope): Admission<()> {
    if original.owner != current.owner || original.contextId != current.contextId then Refused(ScopeMismatch)
    else if original.storeGeneration != current.storeGeneration || original.sourceRevision != current.sourceRevision
            || original.projectionGeneration != current.projectionGeneration
            || original.sessionGeneration != current.sessionGeneration then
      Refused(StaleQuery)
    else Admitted(())
  }

  function ValidateOutcomeRequest(expected: Request, returned: Request): Admission<()> {
    if expected.id != returned.id || expected.deadline != returned.deadline then Refused(InvalidInput)
    else
      match ValidateCurrent(expected.scope, returned.scope)
      case Refused(fault) => Refused(fault)
      case Admitted(_) =>
        if |expected.targets| != |returned.targets|
           || (exists i :: 0 <= i < |returned.targets| && returned.targets[i] !in expected.targets) then
          Refused(ScopeMismatch)
        else Admitted(())
  }

  /** The receipt that a submitter is given. `submission` is the receipt of the submitted command, whose
      ticket was for request `ticket`; `current` is the scope admitted when the receipt is collected. */
  function Collect<T>(request: Request, ticket: nat, submission: Receipt<T>, current: Admission<Scope>): Receipt<T> {
    var receipt := if ticket == request.id then submission else Receipt(request.id, Failed(InvalidInput));
    match current
    case Refused(fault) => Receipt(request.id, Failed(fault))
    case Admitted(scope) =>
      match ValidateCurrent(request.scope, scope)
      case Refused(fault) => Receipt(request.id, Failed(fault))
      case Admitted(_) =>
        if receipt.request != request.id then Receipt(request.id, Failed(InvalidInput))
        else if receipt.result.Completed?
                && ValidateOutcomeRequest(request, receipt.result.outcome.request).Refused? then
          Receipt(request.id, Failed(ValidateOutcomeRequest(request, receipt.result.outcome.request).fault))
        else receipt
  }

  /** The scope is no longer the one of the request; another owner or context outranks a newer state. */
  predicate Outdated(original: Scope, current: Scope, fault: Fault) {
    && original != current
    && (fault == ScopeMismatch <==> original.owner != current.owner || original.contextId != current.contextId)
    && (fault == StaleQuery <==> original.owner == current.owner && original.contextId == current.contextId)
  }

  lemma CurrentIff(original: Scope, current: Scope)
    ensures ValidateCurrent(original, current).Admitted? <==> original == current
    ensures original != current ==> Outdated(original, current, ValidateCurrent(original, current).fault)
  {}

  /** When the submitted receipt is handed out: the scope is still the original one, the ticket and the
      receipt are for this request, and a completed outcome is for it too, target by target. */
  ghost predicate Handed<T>(request: Request, ticket: nat, submission: Receipt<T>, current: Admission<Scope>) {
    && current == Admitted(request.scope) && ticket == request.id && submission.request == request.id
    && (submission.result.Completed? ==>
          var returned := submission.result.outcome.request;
          && returned.id == request.id && returned.deadline == request.deadline && returned.scope == request.scope
          && multiset(returned.targets) == multiset(request.targets))
  }

  /** Why it is not handed out, the first reason in this order. */
  ghost predicate Withheld<T>(request: Request, ticket: nat, submission: Receipt<T>, current: Admission<Scope>,
                              fault: Fault) {
    match current
    case Refused(refusal) => fault == refusal
    case Admitted(scope) =>
      if scope != request.scope then Outdated(request.scope, scope, fault)
      else if ticket != request.id || submission.request != request.id then fault == InvalidInput
      else if !submission.result.Completed? then false
      else
        var returned := submission.result.outcome.request;
        if returned.id != request.id || returned.deadline != request.deadline then fault == InvalidInput
        else if returned.scope != request.scope then Outdated(request.scope, returned.scope, fault)
        else multiset(returned.targets) != multiset(request.targets) && fault == ScopeMismatch
  }

  /** Every submission is handed out as it is, or replaced by a failure under the original id, with the
      fault that says why: exactly one of the two. */
  lemma CollectedIff<T>(request: Request, ticket: nat, submission: Receipt<T>, current: Admission<Scope>)
    requires RequestValid(request)
    requires submission.result.Completed? ==> RequestValid(submission.result.outcome.request)
    ensures var receipt := Collect(request, ticket, submission, current);
            if Handed(request, ticket, submission, current) then receipt == submission
            else && receipt.request == request.id && receipt.result.Failed?
                 && Withheld(request, ticket, submission, current, receipt.result.fault)
  {
    if current.Admitted? { CurrentIff(request.scope, current.value); }
    if submission.result.Completed? {
      var returned := submission.result.outcome.request;
      CurrentIff(request.scope, returned.scope);
      TargetsAgreeIff(request.targets, returned.targets);
    }
    hide ValidateCurrent; hide Outdated; hide RequestValid;
  }

  lemma TargetsAgreeIff(expected: seq<Fingerprint>, returned: seq<Fingerprint>)
    requires !Repeats(expected) && !Repeats(returned)
    ensures multiset(returned) == multiset(expected) <==>
            |expected| == |returned| && forall i :: 0 <= i < |returned| ==> returned[i] in expected
  {
    if multiset(returned) == multiset(expected) {
      PermutedAgree(returned, expected);
      forall i | 0 <= i < |returned| ensures returned[i] in expected { assert returned[i] in returned; }
    } else if |expected| == |returned| && forall i :: 0 <= i < |returned| ==> returned[i] in expected {
      ContainedIsPermutation(returned, expected);
      assert false;
    }
  }

  /** A receipt always carries the original id. A completed one answers exactly the original targets
      under the original deadline and a scope that is still current. */
  lemma CompletedReceiptIsBound<T>(request: Request, ticket: nat, submission: Receipt<T>, current: Admission<Scope>)
    requires RequestValid(request)
    requires submission.result.Completed? ==>
               RequestValid(submission.result.outcome.request) && Accounted(submission.result.outcome)
    ensures var receipt := Collect(request, ticket, submission, current);
            && receipt.request == request.id
            && (receipt.result.Completed? ==>
                  var outcome := receipt.result.outcome;
                  && receipt == submission && ticket == request.id && current == Admitted(request.scope)
                  && outcome.request.deadline == request.deadline && outcome.request.scope == request.scope
                  && multiset(outcome.request.targets) == multiset(request.targets)
                  && multiset(Names(outcome.targets)) == multiset(request.targets))
  {
    CollectedIff(request, ticket, submission, current);
  }
}
