/** The serialized metadata of a discovery outcome and its structural bound. All of it is ASCII, so
    characters are bytes. */
module DiscoveryMetadata {
  import opened Domain
  import opened Discovery

  const ENVELOPE_MAX: nat := 384
  const TARGET_MAX: nat := 384
  const FINGERPRINT_BYTES: nat := 64

  function StateLabel(state: State): (s: string)
    ensures |s| <= 16
  {
    match state
    case NotRequested => "not_requested"
    case Complete => "complete"
    case Partial => "partial"
    case Unavailable => "unavailable"
    case FailedRetryable => "failed_retryable"
    case FailedTerminal => "failed_terminal"
    case Cancelled => "cancelled"
  }

  function ReasonLabel(reason: Reason): (s: string)
    ensures |s| <= 16
  {
    match reason
    case NoReason => "none"
    case BudgetExhausted => "budget_exhausted"
    case DeadlineExpired => "deadline_expired"
    case Stopped => "stopped"
  }

  function Digit(n: nat): char
    requires n < 10
  {
    ('0' as int + n) as char
  }

  function Decimal(n: nat): string {
    if n < 10 then [Digit(n)] else Decimal(n / 10) + [Digit(n % 10)]
  }

  function Pow10(k: nat): nat {
    if k == 0 then 1 else 10 * Pow10(k - 1)
  }

  lemma {:induction false} DecimalLength(n: nat, digits: nat)
    requires digits >= 1 && n < Pow10(digits)
    ensures |Decimal(n)| <= digits
  {
    if n >= 10 {
      assert Pow10(1) == 10 * Pow10(0);
      DecimalLength(n / 10, digits - 1);
    }
  }

  function ProgressJson(p: Progress): (s: string)
    ensures |s| <= 70
  {
    var returned := Decimal(p.returned as nat);
    assert |returned| <= 2 by { DecimalLength(p.returned as nat, 2); }
    hide Decimal;
    StateField() + StateLabel(p.state) + ReasonField() + ReasonLabel(p.reason) + ReturnedField() + returned + "}"
  }

  function StateField(): (s: string) ensures |s| == 10 { "{\"state\":\"" }
  function ReasonField(): (s: string) ensures |s| == 12 && s[0] == '"' { "\",\"reason\":\"" }
  function ReturnedField(): (s: string) ensures |s| == 13 && s[0] == '"' { "\",\"returned\":" }

  function TargetField(): (s: string) ensures |s| == 11 && s[0] == '{' { "{\"target\":\"" }
  function TargetListings(): (s: string) ensures |s| == 13 && s[0] == '"' { "\",\"listings\":" }
  function TargetProfiles(): (s: string) ensures |s| == 12 { ",\"profiles\":" }
  function TargetDeletions(): (s: string) ensures |s| == 13 { ",\"deletions\":" }

  function TargetJson(t: TargetOutcome): (s: string)
    ensures s != "" && s[0] == '{' && |s| <= |t.target| + 260
  {
    TargetField() + t.target + TargetListings() + ProgressJson(t.listings)
    + TargetProfiles() + ProgressJson(t.profiles) + TargetDeletions() + ProgressJson(t.deletions) + "}"
  }

  function Separator(): (s: string) ensures |s| == 1 && s[0] == ',' { "," }
  function Closing(): (s: string) ensures |s| == 2 && s[0] == ']' { "]}" }

  /** The targets in the given order, separated by commas. */
  function TargetsJson(targets: seq<TargetOutcome>): (s: string)
    ensures (forall i :: 0 <= i < |targets| ==> |targets[i].target| == FINGERPRINT_BYTES) ==>
              |s| <= TARGET_MAX * |targets|
  {
    if targets == [] then ""
    else
      var last := |targets| - 1;
      TargetsJson(targets[..last]) + (if last != 0 then Separator() else "") + TargetJson(targets[last])
  }

  function VersionField(): (s: string) ensures |s| == 27 { "{\"version\":1,\"fetch_calls\":" }
  function ReservedField(): (s: string) ensures |s| == 22 && s[0] == ',' { ",\"reserved_raw_bytes\":" }
  function EventsField(): (s: string) ensures |s| == 19 && s[0] == ',' { ",\"returned_events\":" }
  function ItemsField(): (s: string) ensures |s| == 18 && s[0] == ',' { ",\"retained_items\":" }
  function ListingsField(): (s: string) ensures |s| == 13 && s[0] == ',' { ",\"listings\":\"" }
  function ProfilesField(): (s: string) ensures |s| == 14 && s[0] == '"' { "\",\"profiles\":\"" }
  function DeletionsField(): (s: string) ensures |s| == 15 && s[0] == '"' { "\",\"deletions\":\"" }
  function TargetsField(): (s: string) ensures |s| == 13 && s[0] == '"' { "\",\"targets\":[" }

  function CountsJson(calls: string, reserved: string, returned: string, items: string): (s: string)
    ensures |s| == 86 + |calls| + |reserved| + |returned| + |items|
  {
    VersionField() + calls + ReservedField() + reserved + EventsField() + returned + ItemsField() + items
  }

  function StatesJson(targets: seq<TargetOutcome>): (s: string)
    ensures |s| <= 103
  {
    ListingsField() + StateLabel(StreamState(targets, Listings)) + ProfilesField()
    + StateLabel(StreamState(targets, Profiles))
    + DeletionsField() + StateLabel(StreamState(targets, Deletions)) + TargetsField()
  }

  function EnvelopeJson<T>(o: Outcome<T>): string {
    CountsJson(Decimal(o.usage.fetchCalls), Decimal(ReservedRawBytes(o.usage)), Decimal(o.usage.returned as nat),
               Decimal(|o.items|))
    + StatesJson(o.targets)
  }

  function Json<T>(o: Outcome<T>): string {
    EnvelopeJson(o) + TargetsJson(o.targets) + Closing()
  }

  lemma EnvelopeBound<T>(o: Outcome<T>)
    requires Accounted(o)
    ensures |EnvelopeJson(o)| <= 206
  {
    assert Pow10(1) == 10 && Pow10(4) == 10_000 && Pow10(8) == 100_000_000 by {
      assert Pow10(2) == 100 && Pow10(3) == 1_000 && Pow10(5) == 100_000 && Pow10(6) == 1_000_000
             && Pow10(7) == 10_000_000;
    }
    DecimalLength(o.usage.fetchCalls, 1);
    DecimalLength(ReservedRawBytes(o.usage), 8);
    DecimalLength(o.usage.returned as nat, 4);
    DecimalLength(|o.items|, 4);
  }

  /** The metadata of every admitted outcome fits the structural bound, and so 6,528 bytes. */
  lemma MetadataIsBounded<T>(o: Outcome<T>)
    requires Accounted(o)
    requires forall i :: 0 <= i < |o.targets| ==> |o.targets[i].target| == FINGERPRINT_BYTES
    ensures |Json(o)| <= ENVELOPE_MAX + TARGET_MAX * |o.targets| <= 6_528
  {
    EnvelopeBound(o);
  }

  /** Serializes target by target. */
  method MetadataJson<T>(o: Outcome<T>) returns (json: string)
    ensures json == Json(o)
  {
    hide *;
    json := EnvelopeJson(o);
    ghost var envelope := json;
    TargetsStep(o.targets, envelope);
    var i := 0;
    while i < |o.targets|
      invariant 0 <= i <= |o.targets| && json == envelope + TargetsJson(o.targets[..i])
    {
      TargetsNext(o.targets, i, envelope);
      if i != 0 { json := json + Separator(); }
      json := json + TargetJson(o.targets[i]);
      i := i + 1;
    }
    assert o.targets[..i] == o.targets;
    JsonIs(o);
    json := json + Closing();
  }

  lemma TargetsStep(targets: seq<TargetOutcome>, envelope: string)
    ensures envelope + TargetsJson(targets[..0]) == envelope
  {}

  lemma TargetsNext(targets: seq<TargetOutcome>, i: nat, envelope: string)
    requires i < |targets|
    ensures envelope + TargetsJson(targets[..i + 1])
         == (if i != 0 then envelope + TargetsJson(targets[..i]) + Separator()
             else envelope + TargetsJson(targets[..i]))
            + TargetJson(targets[i])
  {
    hide TargetJson; hide Separator;
    assert targets[..i + 1][..i] == targets[..i];
    if i == 0 { assert TargetsJson(targets[..0]) == ""; }
  }

  lemma JsonIs<T>(o: Outcome<T>)
    ensures Json(o) == EnvelopeJson(o) + TargetsJson(o.targets) + Closing()
  {}

  // ---- What a reader finds ----

  /** The state that a label stands for. */
  function ReadState(text: string): Option<State> {
    if text == "not_requested" then Some(NotRequested)
    else if text == "complete" then Some(Complete)
    else if text == "partial" then Some(Partial)
    else if text == "unavailable" then Some(State.Unavailable)
    else if text == "failed_retryable" then Some(FailedRetryable)
    else if text == "failed_terminal" then Some(FailedTerminal)
    else if text == "cancelled" then Some(Cancelled)
    else None
  }

  function ReadReason(text: string): Option<Reason> {
    if text == "none" then Some(NoReason)
    else if text == "budget_exhausted" then Some(BudgetExhausted)
    else if text == "deadline_expired" then Some(DeadlineExpired)
    else if text == "stopped" then Some(Stopped)
    else None
  }

  /** The number that a decimal text stands for. */
  function ReadDecimal(digits: string): int {
    if digits == "" then 0
    else 10 * ReadDecimal(digits[..|digits| - 1]) + (digits[|digits| - 1] as int - '0' as int)
  }

  lemma {:induction false} NumbersReadBack(n: nat)
    ensures ReadDecimal(Decimal(n)) == n
  {
    var digits := Decimal(n);
    var front := digits[..|digits| - 1];
    if n >= 10 {
      assert front == Decimal(n / 10);
      NumbersReadBack(n / 10);
    } else {
      assert front == "";
    }
    assert digits[|digits| - 1] == Digit(n % 10);
  }

  /** Every label stands for its own state or reason. */
  lemma LabelsReadBack(state: State, reason: Reason)
    ensures ReadState(StateLabel(state)) == Some(state) && ReadReason(ReasonLabel(reason)) == Some(reason)
  {}

  /** A target object between its field names, its streams in this order. */
  lemma TargetReads(t: TargetOutcome)
    ensures TargetJson(t)
         == "{\"target\":\"" + t.target + "\",\"listings\":" + ProgressJson(t.listings)
            + ",\"profiles\":" + ProgressJson(t.profiles) + ",\"deletions\":" + ProgressJson(t.deletions) + "}"
    ensures forall p: Progress {:trigger ProgressJson(p)} ::
              ProgressJson(p) == "{\"state\":\"" + StateLabel(p.state) + "\",\"reason\":\"" + ReasonLabel(p.reason)
                                 + "\",\"returned\":" + Decimal(p.returned as nat) + "}"
  {
    hide StateLabel; hide ReasonLabel; hide Decimal;
  }

  /** The whole document between its field names: the counts, the state of each stream over all targets,
      and the targets. */
  lemma MetadataReads<T>(o: Outcome<T>)
    ensures Json(o)
         == "{\"version\":1,\"fetch_calls\":" + Decimal(o.usage.fetchCalls)
            + ",\"reserved_raw_bytes\":" + Decimal(8_388_608 * o.usage.fetchCalls)
            + ",\"returned_events\":" + Decimal(o.usage.returned as nat)
            + ",\"retained_items\":" + Decimal(|o.items|)
            + ",\"listings\":\"" + StateLabel(StreamState(o.targets, Listings))
            + "\",\"profiles\":\"" + StateLabel(StreamState(o.targets, Profiles))
            + "\",\"deletions\":\"" + StateLabel(StreamState(o.targets, Deletions))
            + "\",\"targets\":[" + TargetsJson(o.targets) + "]}"
  {
    hide Decimal; hide StateLabel; hide StreamState; hide TargetsJson;
  }

  // ---- The metadata is unambiguous ----

  lemma Cancel(p: string, x: string, y: string)
    requires p + x == p + y
    ensures x == y
  {
    assert (p + x)[|p|..] == x && (p + y)[|p|..] == y;
  }

  /** Two texts that end at the first `d` are equal if what they begin is. */
  lemma SplitAt(a: string, x: string, b: string, y: string, d: char)
    requires a + x == b + y && d !in a && d !in b && x != "" && x[0] == d && y != "" && y[0] == d
    ensures a == b && x == y
  {
    assert (a + x)[|a|] == d && (b + y)[|b|] == d;
    assert |a| == |b|;
    assert (a + x)[..|a|] == a && (b + y)[..|b|] == b;
    assert (a + x)[|a|..] == x && (b + y)[|b|..] == y;
  }

  lemma {:induction false} DecimalDigits(n: nat, c: char)
    requires c in Decimal(n)
    ensures '0' <= c <= '9'
  {
    if n >= 10 && c in Decimal(n / 10) { DecimalDigits(n / 10, c); }
  }

  lemma {:induction false} DecimalIsInjective(n: nat, m: nat)
    requires Decimal(n) == Decimal(m)
    ensures n == m
  {
    var a, b := Decimal(n), Decimal(m);
    assert a[|a| - 1] == Digit(n % 10) && b[|b| - 1] == Digit(m % 10);
    LongDecimal(n);
    LongDecimal(m);
    if n >= 10 {
      assert a[..|a| - 1] == Decimal(n / 10) && b[..|b| - 1] == Decimal(m / 10);
      DecimalIsInjective(n / 10, m / 10);
    }
  }

  lemma LongDecimal(n: nat)
    ensures |Decimal(n)| >= 1 && (n >= 10 <==> |Decimal(n)| >= 2)
  {
    if n >= 10 { assert |Decimal(n / 10)| >= 1; }
  }

  lemma DecimalsSplit(n: nat, x: string, m: nat, y: string, d: char)
    requires Decimal(n) + x == Decimal(m) + y && !('0' <= d <= '9') && x != "" && x[0] == d && y != "" && y[0] == d
    ensures n == m && x == y
  {
    if d in Decimal(n) { DecimalDigits(n, d); }
    if d in Decimal(m) { DecimalDigits(m, d); }
    SplitAt(Decimal(n), x, Decimal(m), y, d);
    DecimalIsInjective(n, m);
  }

  lemma StateLabels(a: State, b: State)
    ensures '"' !in StateLabel(a) && (StateLabel(a) == StateLabel(b) ==> a == b)
  {}

  lemma ReasonLabels(a: Reason, b: Reason)
    ensures '"' !in ReasonLabel(a) && (ReasonLabel(a) == ReasonLabel(b) ==> a == b)
  {
    assert ReasonLabel(BudgetExhausted)[0] == 'b' && ReasonLabel(DeadlineExpired)[0] == 'd';
  }

  lemma StatesSplit(a: State, x: string, b: State, y: string)
    requires StateLabel(a) + x == StateLabel(b) + y && x != "" && x[0] == '"' && y != "" && y[0] == '"'
    ensures a == b && x == y
  {
    StateLabels(a, b);
    StateLabels(b, a);
    hide StateLabel;
    SplitAt(StateLabel(a), x, StateLabel(b), y, '"');
  }

  lemma ReasonsSplit(a: Reason, x: string, b: Reason, y: string)
    requires ReasonLabel(a) + x == ReasonLabel(b) + y && x != "" && x[0] == '"' && y != "" && y[0] == '"'
    ensures a == b && x == y
  {
    ReasonLabels(a, b);
    ReasonLabels(b, a);
    hide ReasonLabel;
    SplitAt(ReasonLabel(a), x, ReasonLabel(b), y, '"');
  }

  /** A progress object and what follows it, nested as a reader meets its parts. */
  function ProgressThen(p: Progress, rest: string): string {
    var returned := ReturnedField() + (Decimal(p.returned as nat) + ("}" + rest));
    StateField() + (StateLabel(p.state) + (ReasonField() + (ReasonLabel(p.reason) + returned)))
  }

  lemma ProgressIsThen(p: Progress, rest: string)
    ensures ProgressJson(p) + rest == ProgressThen(p, rest)
  {
    hide StateField; hide StateLabel; hide ReasonField; hide ReasonLabel; hide ReturnedField; hide Decimal;
  }

  lemma ProgressSplit(p: Progress, x: string, q: Progress, y: string)
    requires ProgressJson(p) + x == ProgressJson(q) + y
    ensures p == q && x == y
  {
    ProgressIsThen(p, x);
    ProgressIsThen(q, y);
    hide StateField; hide StateLabel; hide ReasonField; hide ReasonLabel; hide ReturnedField; hide Decimal;
    hide ProgressJson;
    var p3, q3 := Decimal(p.returned as nat) + ("}" + x), Decimal(q.returned as nat) + ("}" + y);
    var p2, q2 := ReasonLabel(p.reason) + (ReturnedField() + p3), ReasonLabel(q.reason) + (ReturnedField() + q3);
    var p1, q1 := StateLabel(p.state) + (ReasonField() + p2), StateLabel(q.state) + (ReasonField() + q2);
    Cancel(StateField(), p1, q1);
    StatesSplit(p.state, ReasonField() + p2, q.state, ReasonField() + q2);
    Cancel(ReasonField(), p2, q2);
    ReasonsSplit(p.reason, ReturnedField() + p3, q.reason, ReturnedField() + q3);
    Cancel(ReturnedField(), p3, q3);
    DecimalsSplit(p.returned as nat, "}" + x, q.returned as nat, "}" + y, '}');
    Cancel("}", x, y);
  }

  /** A target object and what follows it. */
  function TargetThen(t: TargetOutcome, rest: string): string {
    var deletions := TargetDeletions() + (ProgressJson(t.deletions) + ("}" + rest));
    var profiles := TargetProfiles() + (ProgressJson(t.profiles) + deletions);
    TargetField() + (t.target + (TargetListings() + (ProgressJson(t.listings) + profiles)))
  }

  lemma TargetIsThen(t: TargetOutcome, rest: string)
    ensures TargetJson(t) + rest == TargetThen(t, rest)
  {
    hide TargetField; hide TargetListings; hide TargetProfiles; hide TargetDeletions; hide ProgressJson;
  }

  /** Fingerprints are hexadecimal, so none holds a quote. */
  predicate Unquoted(t: TargetOutcome) {
    '"' !in t.target
  }

  lemma TargetSplit(t: TargetOutcome, x: string, u: TargetOutcome, y: string)
    requires TargetJson(t) + x == TargetJson(u) + y && Unquoted(t) && Unquoted(u)
    ensures t == u && x == y
  {
    TargetIsThen(t, x);
    TargetIsThen(u, y);
    hide TargetField; hide TargetListings; hide TargetProfiles; hide TargetDeletions; hide ProgressJson;
    hide TargetJson;
    var t4, u4 := ProgressJson(t.deletions) + ("}" + x), ProgressJson(u.deletions) + ("}" + y);
    var t3 := ProgressJson(t.profiles) + (TargetDeletions() + t4);
    var u3 := ProgressJson(u.profiles) + (TargetDeletions() + u4);
    var t2 := ProgressJson(t.listings) + (TargetProfiles() + t3);
    var u2 := ProgressJson(u.listings) + (TargetProfiles() + u3);
    Cancel(TargetField(), t.target + (TargetListings() + t2), u.target + (TargetListings() + u2));
    SplitAt(t.target, TargetListings() + t2, u.target, TargetListings() + u2, '"');
    Cancel(TargetListings(), t2, u2);
    ProgressSplit(t.listings, TargetProfiles() + t3, u.listings, TargetProfiles() + u3);
    Cancel(TargetProfiles(), t3, u3);
    ProgressSplit(t.profiles, TargetDeletions() + t4, u.profiles, TargetDeletions() + u4);
    Cancel(TargetDeletions(), t4, u4);
    ProgressSplit(t.deletions, "}" + x, u.deletions, "}" + y);
    Cancel("}", x, y);
  }

  /** The targets after the first, each behind its separator, and the end of the list. */
  function FollowingJson(targets: seq<TargetOutcome>): (s: string)
    ensures s != "" && s[0] == if targets == [] then ']' else ','
  {
    if targets == [] then Closing() else Separator() + (TargetJson(targets[0]) + FollowingJson(targets[1..]))
  }

  lemma OneLonger(targets: seq<TargetOutcome>, t: TargetOutcome)
    requires targets != []
    ensures TargetsJson(targets + [t]) == TargetsJson(targets) + Separator() + TargetJson(t)
  {
    assert (targets + [t])[..|targets|] == targets;
    hide TargetJson;
  }

  lemma Nested(a: string, b: string, c: string, d: string)
    ensures a + b + c + d == a + (b + (c + d))
  {}

  lemma {:induction false} ListIs(targets: seq<TargetOutcome>, more: seq<TargetOutcome>)
    ensures targets != [] ==> TargetsJson(targets + more) + Closing() == TargetsJson(targets) + FollowingJson(more)
    decreases |more|
  {
    hide TargetJson; hide Separator; hide Closing; hide TargetsJson;
    if more == [] {
      assert targets + more == targets;
    } else if targets != [] {
      var longer := targets + [more[0]];
      ListIs(longer, more[1..]);
      assert longer + more[1..] == targets + more;
      OneLonger(targets, more[0]);
      Nested(TargetsJson(targets), Separator(), TargetJson(more[0]), FollowingJson(more[1..]));
    }
  }

  lemma {:induction false} FollowingSplit(a: seq<TargetOutcome>, b: seq<TargetOutcome>)
    requires FollowingJson(a) == FollowingJson(b)
    requires forall t :: t in a || t in b ==> Unquoted(t)
    ensures a == b
  {
    hide TargetJson;
    if a != [] && b != [] {
      hide Separator; hide Closing;
      Cancel(Separator(), TargetJson(a[0]) + FollowingJson(a[1..]), TargetJson(b[0]) + FollowingJson(b[1..]));
      TargetSplit(a[0], FollowingJson(a[1..]), b[0], FollowingJson(b[1..]));
      FollowingSplit(a[1..], b[1..]);
      assert a == [a[0]] + a[1..] && b == [b[0]] + b[1..];
    }
  }

  lemma TargetsSplit(a: seq<TargetOutcome>, b: seq<TargetOutcome>)
    requires TargetsJson(a) + Closing() == TargetsJson(b) + Closing()
    requires forall t :: t in a || t in b ==> Unquoted(t)
    ensures a == b
  {
    FirstOf(a);
    FirstOf(b);
    hide TargetsJson; hide TargetJson; hide FollowingJson;
    if a != [] && b != [] {
      TargetSplit(a[0], FollowingJson(a[1..]), b[0], FollowingJson(b[1..]));
      FollowingSplit(a[1..], b[1..]);
      assert a == [a[0]] + a[1..] && b == [b[0]] + b[1..];
    }
  }

  lemma JustOne(t: TargetOutcome)
    ensures TargetsJson([t]) == TargetJson(t)
  {
    hide TargetJson;
    assert [t][..0] == [] && TargetsJson([]) == "";
  }

  lemma FirstOf(a: seq<TargetOutcome>)
    ensures if a == [] then TargetsJson(a) + Closing() == Closing()
            else && TargetsJson(a) + Closing() == TargetJson(a[0]) + FollowingJson(a[1..])
                 && (TargetsJson(a) + Closing())[0] == '{'
  {
    hide TargetJson; hide FollowingJson; hide Closing;
    if a != [] {
      ListIs([a[0]], a[1..]);
      assert [a[0]] + a[1..] == a;
      JustOne(a[0]);
      hide TargetsJson;
    }
  }

  /** The envelope and what follows it. */
  function EnvelopeThen<T>(o: Outcome<T>, rest: string): string {
    var items := ItemsField() + (Decimal(|o.items|) + (StatesJson(o.targets) + rest));
    var returned := EventsField() + (Decimal(o.usage.returned as nat) + items);
    VersionField() + (Decimal(o.usage.fetchCalls) + (ReservedField() + (Decimal(ReservedRawBytes(o.usage)) + returned)))
  }

  lemma EnvelopeIsThen<T>(o: Outcome<T>, rest: string)
    ensures EnvelopeJson(o) + rest == EnvelopeThen(o, rest)
  {
    hide VersionField; hide ReservedField; hide EventsField; hide ItemsField; hide Decimal; hide StatesJson;
  }

  lemma StatesBegin(targets: seq<TargetOutcome>)
    ensures StatesJson(targets) != "" && StatesJson(targets)[0] == ','
  {
    hide ListingsField; hide ProfilesField; hide DeletionsField; hide TargetsField; hide StateLabel;
  }

  lemma CountsSplit<T>(o: Outcome<T>, x: string, p: Outcome<T>, y: string)
    requires EnvelopeJson(o) + x == EnvelopeJson(p) + y
    ensures o.usage == p.usage && |o.items| == |p.items| && StatesJson(o.targets) + x == StatesJson(p.targets) + y
  {
    EnvelopeIsThen(o, x);
    EnvelopeIsThen(p, y);
    StatesBegin(o.targets);
    StatesBegin(p.targets);
    hide VersionField; hide ReservedField; hide EventsField; hide ItemsField; hide Decimal; hide StatesJson;
    hide EnvelopeJson; hide ReservedRawBytes;
    var o4, p4 := StatesJson(o.targets) + x, StatesJson(p.targets) + y;
    var o3, p3 := Decimal(|o.items|) + o4, Decimal(|p.items|) + p4;
    var o2 := Decimal(o.usage.returned as nat) + (ItemsField() + o3);
    var p2 := Decimal(p.usage.returned as nat) + (ItemsField() + p3);
    var o1 := Decimal(ReservedRawBytes(o.usage)) + (EventsField() + o2);
    var p1 := Decimal(ReservedRawBytes(p.usage)) + (EventsField() + p2);
    Cancel(VersionField(), Decimal(o.usage.fetchCalls) + (ReservedField() + o1),
           Decimal(p.usage.fetchCalls) + (ReservedField() + p1));
    DecimalsSplit(o.usage.fetchCalls, ReservedField() + o1, p.usage.fetchCalls, ReservedField() + p1, ',');
    Cancel(ReservedField(), o1, p1);
    DecimalsSplit(ReservedRawBytes(o.usage), EventsField() + o2, ReservedRawBytes(p.usage), EventsField() + p2, ',');
    Cancel(EventsField(), o2, p2);
    DecimalsSplit(o.usage.returned as nat, ItemsField() + o3, p.usage.returned as nat, ItemsField() + p3, ',');
    Cancel(ItemsField(), o3, p3);
    DecimalsSplit(|o.items|, o4, |p.items|, p4, ',');
  }

  function StatesThen(targets: seq<TargetOutcome>, rest: string): string {
    var deletions := DeletionsField() + (StateLabel(StreamState(targets, Deletions)) + (TargetsField() + rest));
    var profiles := ProfilesField() + (StateLabel(StreamState(targets, Profiles)) + deletions);
    ListingsField() + (StateLabel(StreamState(targets, Listings)) + profiles)
  }

  lemma StatesAreThen(targets: seq<TargetOutcome>, rest: string)
    ensures StatesJson(targets) + rest == StatesThen(targets, rest)
  {
    hide ListingsField; hide ProfilesField; hide DeletionsField; hide TargetsField; hide StateLabel;
  }

  lemma StatesJsonSplit(a: seq<TargetOutcome>, x: string, b: seq<TargetOutcome>, y: string)
    requires StatesJson(a) + x == StatesJson(b) + y
    ensures x == y
  {
    StatesAreThen(a, x);
    StatesAreThen(b, y);
    hide ListingsField; hide ProfilesField; hide DeletionsField; hide TargetsField; hide StateLabel; hide StatesJson;
    hide StreamState;
    var a3 := StateLabel(StreamState(a, Deletions)) + (TargetsField() + x);
    var b3 := StateLabel(StreamState(b, Deletions)) + (TargetsField() + y);
    var a2 := StateLabel(StreamState(a, Profiles)) + (DeletionsField() + a3);
    var b2 := StateLabel(StreamState(b, Profiles)) + (DeletionsField() + b3);
    var a1 := StateLabel(StreamState(a, Listings)) + (ProfilesField() + a2);
    var b1 := StateLabel(StreamState(b, Listings)) + (ProfilesField() + b2);
    Cancel(ListingsField(), a1, b1);
    StatesSplit(StreamState(a, Listings), ProfilesField() + a2, StreamState(b, Listings), ProfilesField() + b2);
    Cancel(ProfilesField(), a2, b2);
    StatesSplit(StreamState(a, Profiles), DeletionsField() + a3, StreamState(b, Profiles), DeletionsField() + b3);
    Cancel(DeletionsField(), a3, b3);
    StatesSplit(StreamState(a, Deletions), TargetsField() + x, StreamState(b, Deletions), TargetsField() + y);
    Cancel(TargetsField(), x, y);
  }

  /** Equal metadata means equal accounting: usage, number of retained items, and every target with its
      progress, in order. */
  lemma MetadataIsUnambiguous<T>(o: Outcome<T>, p: Outcome<T>)
    requires Json(o) == Json(p) && forall t :: t in o.targets || t in p.targets ==> Unquoted(t)
    ensures o.usage == p.usage && |o.items| == |p.items| && o.targets == p.targets
  {
    var x, y := TargetsJson(o.targets) + Closing(), TargetsJson(p.targets) + Closing();
    hide EnvelopeJson; hide TargetsJson; hide Closing; hide StatesJson;
    assert Json(o) == EnvelopeJson(o) + x && Json(p) == EnvelopeJson(p) + y;
    CountsSplit(o, x, p, y);
    StatesJsonSplit(o.targets, x, p.targets, y);
    TargetsSplit(o.targets, p.targets);
  }
}
