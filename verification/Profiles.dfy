/** Profiles: which kind-0 event wins, the cache that keeps the winner, and overlapping refreshes. */
module Profiles {
  import opened Domain
  import opened Snapshot
  import SM = StateMachine
  import AppCore

  datatype Candidate = Candidate(event: nat, author: PublicKey, createdAt: nat, metadata: Metadata)

  // ---- Selection ----

  /** The replaceable-event rule: later wins, and of two equally late events the lower id. */
  predicate Beats(a: Candidate, b: Candidate) {
    a.createdAt > b.createdAt || (a.createdAt == b.createdAt && a.event < b.event)
  }

  function Better(selected: Candidate, candidate: Candidate): Candidate {
    if Beats(candidate, selected) then candidate else selected
  }

  function SelectLatest(candidates: seq<Candidate>): Option<Candidate> {
    if candidates == [] then None
    else
      var last := candidates[|candidates| - 1];
      match SelectLatest(candidates[..|candidates| - 1])
      case None => Some(last)
      case Some(selected) => Some(Better(selected, last))
  }

  /** An event id identifies an event. */
  ghost predicate IdsIdentify(candidates: seq<Candidate>) {
    forall a, b :: a in candidates && b in candidates && a.event == b.event ==> a == b
  }

  /** The winner is one of the candidates; every other one is older, or as old with a higher id. */
  ghost predicate Wins(candidates: seq<Candidate>, winner: Candidate) {
    && winner in candidates
    && forall c :: c in candidates ==>
         || c == winner || c.createdAt < winner.createdAt
         || (c.createdAt == winner.createdAt && winner.event < c.event)
  }

  lemma {:induction false} SelectedWins(candidates: seq<Candidate>)
    requires IdsIdentify(candidates)
    ensures SelectLatest(candidates).None? <==> candidates == []
    ensures candidates != [] ==> Wins(candidates, SelectLatest(candidates).value)
  {
    if candidates != [] {
      var front, last := candidates[..|candidates| - 1], candidates[|candidates| - 1];
      hide IdsIdentify; hide Wins; hide Better;
      FrontMembers(candidates);
      SelectedWins(front);
      if front != [] {
        BetterWins(candidates, front, SelectLatest(front).value, last);
      } else {
        OnlyWins(candidates, last);
      }
    }
  }

  lemma FrontMembers(candidates: seq<Candidate>)
    requires candidates != []
    ensures var front, last := candidates[..|candidates| - 1], candidates[|candidates| - 1];
            && (forall c :: c in candidates <==> c in front || c == last)
            && (IdsIdentify(candidates) ==> IdsIdentify(front))
  {
    assert candidates == candidates[..|candidates| - 1] + [candidates[|candidates| - 1]];
  }

  lemma OnlyWins(candidates: seq<Candidate>, last: Candidate)
    requires forall c :: c in candidates <==> c == last
    ensures Wins(candidates, last)
  {}

  lemma BetterWins(candidates: seq<Candidate>, front: seq<Candidate>, selected: Candidate, last: Candidate)
    requires IdsIdentify(candidates) && Wins(front, selected)
    requires forall c :: c in candidates <==> c in front || c == last
    ensures Wins(candidates, Better(selected, last))
  {
    assert selected in candidates && last in candidates;
  }

  /** Selection depends only on which events were seen, not on their order or number. */
  lemma SelectionIgnoresOrder(a: seq<Candidate>, b: seq<Candidate>)
    requires IdsIdentify(a) && forall c :: c in a <==> c in b
    ensures SelectLatest(a) == SelectLatest(b)
  {
    SelectedWins(a);
    SelectedWins(b);
    assert a == [] <==> b == [] by {
      assert a != [] ==> a[0] in b;
      assert b != [] ==> b[0] in a;
    }
    if a != [] { assert Wins(b, SelectLatest(b).value); }
  }

  // ---- The cache ----

  type Cache = map<PublicKey, Candidate>

  /** Saving replaces a cached profile only by one that beats it. */
  function Save(cache: Cache, candidate: Candidate): Cache {
    if candidate.author in cache then cache[candidate.author := Better(cache[candidate.author], candidate)]
    else cache[candidate.author := candidate]
  }

  function Shown(cache: Cache, key: PublicKey): Option<Metadata> {
    if key in cache then Some(cache[key].metadata) else None
  }

  function SaveAll(cache: Cache, candidates: seq<Candidate>): Cache {
    if candidates == [] then cache
    else Save(SaveAll(cache, candidates[..|candidates| - 1]), candidates[|candidates| - 1])
  }

  function By(author: PublicKey, candidates: seq<Candidate>): seq<Candidate> {
    if candidates == [] then []
    else
      var last, earlier := candidates[|candidates| - 1], By(author, candidates[..|candidates| - 1]);
      if last.author == author then earlier + [last] else earlier
  }

  function CachedFor(cache: Cache, author: PublicKey): seq<Candidate> {
    if author in cache then [cache[author]] else []
  }

  /** Saving one event after the other caches for each author the event that selection would choose
      among all of them and the one cached before. */
  lemma {:induction false} SavingSelects(cache: Cache, candidates: seq<Candidate>, author: PublicKey)
    ensures var saved, all := SaveAll(cache, candidates), CachedFor(cache, author) + By(author, candidates);
            SelectLatest(all) == if author in saved then Some(saved[author]) else None
  {
    var all := CachedFor(cache, author) + By(author, candidates);
    if candidates != [] {
      var front, last := candidates[..|candidates| - 1], candidates[|candidates| - 1];
      SavingSelects(cache, front, author);
      if last.author == author { assert all[..|all| - 1] == CachedFor(cache, author) + By(author, front); }
    } else if author in cache {
      assert all == [cache[author]] && SelectLatest(all[..0]).None?;
    }
  }

  // ---- Refreshes ----

  datatype Fetch = Fetched(candidate: Option<Candidate>, complete: bool) | FetchFailed(problem: Problem)

  /** The in-memory session and the profile cache. */
  datatype Display = Display(machine: SM.Machine, cache: Cache)

  function Replacing(a: ActiveIdentity, relay: RelayState, state: ProfileState, profile: Option<Metadata>,
                     problem: Option<Problem>): SM.Transition {
    SM.UpdateActiveIdentity(a.identity.key, ActiveIdentity(a.identity, relay, state, profile), problem)
  }

  const PARTIAL: Problem := OtherProblem(1)

  /** Marks the active profile as loading. */
  function Loading(a: ActiveIdentity): SM.Transition {
    Replacing(a, Connecting, ProfileState.Loading, a.profile, None)
  }

  function CacheAfter(cache: Cache, fetch: Fetch): Cache {
    if fetch.Fetched? && fetch.candidate.Some? then Save(cache, fetch.candidate.value) else cache
  }

  /** How a completed refresh of the active identity is published, after the cache was updated. */
  function Settled(a: ActiveIdentity, fetch: Fetch, cache: Cache): SM.Transition {
    match fetch
    case FetchFailed(problem) => Replacing(a, Degraded, ProfileError(problem), a.profile, Some(problem))
    case Fetched(candidate, complete) =>
      var relay, problem := if complete then Connected else Degraded, if complete then None else Some(PARTIAL);
      match candidate
      case None => Replacing(a, relay, if a.profile.Some? then Cached else EmptyProfile, a.profile, problem)
      case Some(c) =>
        var winning := if a.identity.key in cache then cache[a.identity.key].metadata else c.metadata;
        Replacing(a, relay, Fresh, Some(winning), problem)
  }

  function BeginRefresh(d: Display, relays: Relays): Display {
    match d.machine.snapshot.active
    case None => d
    case Some(a) => d.(machine := SM.Next(d.machine, Loading(a), relays))
  }

  /** Completes a refresh begun for `key`; it is discarded if another identity is active by now. */
  function CompleteRefresh(d: Display, key: PublicKey, fetch: Fetch, relays: Relays): Display {
    var active := d.machine.snapshot.active;
    if active.None? || active.value.identity.key != key then d
    else
      var cache := CacheAfter(d.cache, fetch);
      Display(SM.Next(d.machine, Settled(active.value, fetch, cache), relays), cache)
  }

  /** The active profile is the cached one. */
  ghost predicate ShowsCache(d: Display) {
    d.machine.snapshot.active.Some? ==>
      d.machine.snapshot.active.value.profile == Shown(d.cache, d.machine.snapshot.active.value.identity.key)
  }

  /** The update of an active session is accepted and replaces just the active identity. */
  lemma UpdateIsAccepted(m: SM.Machine, a: ActiveIdentity, b: ActiveIdentity, problem: Option<Problem>, relays: Relays)
    requires SnapshotValid(m.snapshot) && m.snapshot.session.Active? && m.snapshot.active == Some(a)
    requires b.identity == a.identity && m.snapshot.revision < MAX_U64
    ensures var next := SM.Next(m, SM.UpdateActiveIdentity(a.identity.key, b, problem), relays);
            && next.pending == m.pending && SnapshotValid(next.snapshot)
            && next.snapshot == m.snapshot.(revision := m.snapshot.revision + 1, lifecycle := Ready,
                                            runtimeSession := None, active := Some(b), problem := problem)
  {
    ValidatesIsValid(m.snapshot.identities, m.snapshot.selected, Active, Some(b));
    hide Validates;
  }

  /** Completing a refresh with an event of the active identity, or over a cached profile, keeps the
      displayed profile equal to the cached winner; an event by another author with nothing cached is
      the one case in which it does not. */
  lemma CompletionShowsCacheIff(d: Display, fetch: Fetch, relays: Relays)
    requires ShowsCache(d) && SnapshotValid(d.machine.snapshot) && d.machine.snapshot.session.Active?
    requires d.machine.snapshot.revision < MAX_U64
    ensures var key := d.machine.snapshot.active.value.identity.key;
            ShowsCache(CompleteRefresh(d, key, fetch, relays)) <==>
            (fetch.Fetched? && fetch.candidate.Some? ==> fetch.candidate.value.author == key || key in d.cache)
  {
    var a := d.machine.snapshot.active.value;
    var cache := CacheAfter(d.cache, fetch);
    var t := Settled(a, fetch, cache);
    UpdateIsAccepted(d.machine, a, t.active, t.update, relays);
    hide SM.Next;
  }

  /** A completion that the core refuses, because the session is being activated or the revisions are
      used up, has already written the cache: the display then lags behind exactly if the event is the
      key's own and changes the cached profile. */
  lemma RefusedCompletionLags(d: Display, fetch: Fetch, relays: Relays)
    requires ShowsCache(d) && d.machine.snapshot.active.Some? && d.machine.snapshot.revision <= MAX_U64
    requires !d.machine.snapshot.session.Active? || d.machine.snapshot.revision == MAX_U64
    ensures var key := d.machine.snapshot.active.value.identity.key;
            var after := CompleteRefresh(d, key, fetch, relays);
            && after.machine.snapshot == d.machine.snapshot && after.cache == CacheAfter(d.cache, fetch)
            && (ShowsCache(after) <==>
                !(&& fetch.Fetched? && fetch.candidate.Some? && fetch.candidate.value.author == key
                  && (key in d.cache ==> && Beats(fetch.candidate.value, d.cache[key])
                                         && fetch.candidate.value.metadata != d.cache[key].metadata)))
  {
    hide Validates;
  }

  /** What a display says of the active identity, apart from which identity it is. */
  datatype Report = Report(relay: RelayState, state: ProfileState, profile: Option<Metadata>,
                           problem: Option<Problem>)

  ghost predicate Reports(before: Display, after: Display, report: Report) {
    && before.machine.snapshot.active.Some?
    && after.machine.snapshot == before.machine.snapshot.(
         revision := before.machine.snapshot.revision + 1, lifecycle := Ready, runtimeSession := None,
         active := Some(ActiveIdentity(before.machine.snapshot.active.value.identity, report.relay, report.state,
                                       report.profile)),
         problem := report.problem)
  }

  /** A begun refresh shows the relays connecting and the profile loading, with the profile kept and no
      problem. */
  lemma BegunIsLoading(d: Display, relays: Relays)
    requires SnapshotValid(d.machine.snapshot) && d.machine.snapshot.session.Active?
    requires d.machine.snapshot.revision < MAX_U64
    ensures var profile := d.machine.snapshot.active.value.profile;
            Reports(d, BeginRefresh(d, relays), Report(Connecting, ProfileState.Loading, profile, None))
  {
    var a := d.machine.snapshot.active.value;
    UpdateIsAccepted(d.machine, a, Loading(a).active, None, relays);
    hide SM.Next;
  }

  /** What a completed refresh shows. A failed fetch keeps the profile and shows the problem twice; a
      complete one shows the relays connected, a partial one degraded with the partial result as problem;
      an event makes the cached winner's profile fresh; no event keeps what was shown. A completion for
      another key changes nothing. */
  lemma CompletedShows(d: Display, fetch: Fetch, other: PublicKey, relays: Relays)
    requires SnapshotValid(d.machine.snapshot) && d.machine.snapshot.session.Active?
    requires d.machine.snapshot.revision < MAX_U64
    ensures other != d.machine.snapshot.active.value.identity.key ==> CompleteRefresh(d, other, fetch, relays) == d
    ensures var a := d.machine.snapshot.active.value;
            var after := CompleteRefresh(d, a.identity.key, fetch, relays);
            match fetch
            case FetchFailed(problem) =>
              Reports(d, after, Report(Degraded, ProfileError(problem), a.profile, Some(problem)))
            case Fetched(None, true) =>
              Reports(d, after, Report(Connected, if a.profile.Some? then Cached else EmptyProfile, a.profile, None))
            case Fetched(None, false) =>
              Reports(d, after, Report(Degraded, if a.profile.Some? then Cached else EmptyProfile, a.profile,
                                       Some(OtherProblem(1))))
            case Fetched(Some(c), complete) =>
              var shown := if a.identity.key in after.cache then after.cache[a.identity.key].metadata else c.metadata;
              Reports(d, after, if complete then Report(Connected, Fresh, Some(shown), None)
                                else Report(Degraded, Fresh, Some(shown), Some(OtherProblem(1))))
  {
    var a := d.machine.snapshot.active.value;
    var t := Settled(a, fetch, CacheAfter(d.cache, fetch));
    UpdateIsAccepted(d.machine, a, t.active, t.update, relays);
    hide SM.Next;
  }

  datatype Event =
    | Begin
    | Complete(key: PublicKey, fetch: Fetch)
    | Select(key: PublicKey)
    | Raise(problem: Option<Problem>)

  function Step(d: Display, e: Event, relays: Relays): Display {
    match e
    case Begin => BeginRefresh(d, relays)
    case Complete(key, fetch) => CompleteRefresh(d, key, fetch, relays)
    case Select(key) => d.(machine := SM.Next(d.machine, SM.SelectKey(key), relays))
    case Raise(problem) => d.(machine := SM.Next(d.machine, SM.SetProblem(problem), relays))
  }

  function After(d: Display, events: seq<Event>, relays: Relays): Display {
    if events == [] then d else Step(After(d, events[..|events| - 1], relays), events[|events| - 1], relays)
  }

  /** A relay answers a request for a key with events of that key only. */
  predicate Answers(e: Event) {
    e.Complete? && e.fetch.Fetched? && e.fetch.candidate.Some? ==> e.fetch.candidate.value.author == e.key
  }

  ghost predicate Steady(d: Display, key: PublicKey) {
    && SnapshotValid(d.machine.snapshot) && d.machine.snapshot.session.Active?
    && d.machine.snapshot.active.Some? && d.machine.snapshot.active.value.identity.key == key
    && ShowsCache(d)
  }

  lemma StepStaysSteady(d: Display, e: Event, key: PublicKey, relays: Relays)
    requires Steady(d, key) && Answers(e) && d.machine.snapshot.revision < MAX_U64
    ensures Steady(Step(d, e, relays), key)
    ensures Step(d, e, relays).machine.snapshot.revision <= d.machine.snapshot.revision + 1
    ensures Step(d, e, relays).cache == if e.Complete? && e.key == key then CacheAfter(d.cache, e.fetch) else d.cache
  {
    var a := d.machine.snapshot.active.value;
    match e
    case Begin =>
      UpdateIsAccepted(d.machine, a, Loading(a).active, None, relays);
      hide SM.Next;
    case Complete(k, fetch) =>
      if k == key {
        CompletionShowsCacheIff(d, fetch, relays);
        var t := Settled(a, fetch, CacheAfter(d.cache, fetch));
        UpdateIsAccepted(d.machine, a, t.active, t.update, relays);
      }
      hide SM.Next;
    case Select(k) =>
      SM.StepKeepsValid(d.machine, SM.SelectKey(k), relays);
      hide Validates;
    case Raise(problem) =>
      SM.StepKeepsValid(d.machine, SM.SetProblem(problem), relays);
      hide Validates;
  }

  /** The events that reached the cache, in the order of completion. */
  function Arrived(key: PublicKey, events: seq<Event>): seq<Candidate> {
    if events == [] then []
    else
      var last, earlier := events[|events| - 1], Arrived(key, events[..|events| - 1]);
      if last.Complete? && last.key == key && last.fetch.Fetched? && last.fetch.candidate.Some? then
        earlier + [last.fetch.candidate.value]
      else earlier
  }

  /** Profiles converge. Whatever the order of begun and completed refreshes of one active identity, the
      displayed profile is at every moment the cached winner, which is the latest of all events that
      arrived and the one cached before. */
  lemma {:induction false} DisplayConverges(d: Display, events: seq<Event>, key: PublicKey, relays: Relays)
    requires Steady(d, key) && d.machine.snapshot.revision + |events| <= MAX_U64
    requires forall i :: 0 <= i < |events| ==> Answers(events[i])
    ensures var now := After(d, events, relays);
            && Steady(now, key) && now.machine.snapshot.revision <= d.machine.snapshot.revision + |events|
            && now.cache == SaveAll(d.cache, Arrived(key, events))
  {
    if events != [] {
      var front, last := events[..|events| - 1], events[|events| - 1];
      DisplayConverges(d, front, key, relays);
      StepStaysSteady(After(d, front, relays), last, key, relays);
      var all := Arrived(key, events);
      hide Steady; hide Step;
      if |all| > |Arrived(key, front)| { assert all[..|all| - 1] == Arrived(key, front); }
    }
  }

  /** Two orders of the same arrivals end with the same displayed profile. */
  lemma OrdersAgree(d: Display, first: seq<Event>, second: seq<Event>, key: PublicKey, relays: Relays)
    requires Steady(d, key)
    requires d.machine.snapshot.revision + |first| <= MAX_U64 && d.machine.snapshot.revision + |second| <= MAX_U64
    requires forall i :: 0 <= i < |first| ==> Answers(first[i])
    requires forall i :: 0 <= i < |second| ==> Answers(second[i])
    requires IdsIdentify(CachedFor(d.cache, key) + Arrived(key, first))
    requires forall c :: c in Arrived(key, first) <==> c in Arrived(key, second)
    ensures var one, other := After(d, first, relays), After(d, second, relays);
            && Steady(one, key) && Steady(other, key)
            && one.machine.snapshot.active.value.profile == other.machine.snapshot.active.value.profile
  {
    DisplayConverges(d, first, key, relays);
    DisplayConverges(d, second, key, relays);
    SavingSelects(d.cache, Arrived(key, first), key);
    SavingSelects(d.cache, Arrived(key, second), key);
    OwnArrivals(key, first);
    OwnArrivals(key, second);
    SelectionIgnoresOrder(CachedFor(d.cache, key) + Arrived(key, first),
                          CachedFor(d.cache, key) + Arrived(key, second));
  }

  lemma {:induction false} OwnArrivals(key: PublicKey, events: seq<Event>)
    requires forall i :: 0 <= i < |events| ==> Answers(events[i])
    ensures By(key, Arrived(key, events)) == Arrived(key, events)
  {
    if events != [] {
      var front := events[..|events| - 1];
      OwnArrivals(key, front);
      var all := Arrived(key, events);
      if |all| > |Arrived(key, front)| { assert all[..|all| - 1] == Arrived(key, front); }
    }
  }

  // ---- Refreshes as the code runs them ----

  datatype Plan = Plan(key: PublicKey, active: ActiveIdentity, revision: nat)

  datatype RefreshStatus = Success | Offline | InvalidData

  function StatusOf(problem: Problem): RefreshStatus {
    if problem.InvalidProfileMetadata? || problem.ProfileRefreshFailed? then InvalidData else Offline
  }

  /** The profile repository. `budget` is the number of calls that still succeed; a call without budget
      fails and changes nothing. */
  class Repository {
    var cached: Cache
    var statuses: map<PublicKey, RefreshStatus>
    var budget: nat

    /** Every cached profile has the status of its last refresh. */
    ghost predicate Valid()
      reads this
    {
      statuses.Keys == cached.Keys
    }

    constructor (calls: nat)
      ensures Valid() && cached == map[] && budget == calls
    {
      cached, statuses, budget := map[], map[], calls;
    }

    /** Inserts, or updates where the new event is later, or as late with a lower id. */
    method SaveProfile(candidate: Candidate) returns (r: Result<()>)
      requires Valid()
      modifies this
      ensures Valid() && (r.Err? ==> r.error == Unavailable && budget == 0)
      ensures cached == if r.Ok? then Save(old(cached), candidate) else old(cached)
      ensures statuses == if r.Ok? && cached != old(cached) then old(statuses)[candidate.author := Success]
                          else old(statuses)
    {
      if budget == 0 { return Err(Unavailable); }
      budget := budget - 1;
      var key := candidate.author;
      if key !in cached {
        cached, statuses := cached[key := candidate], statuses[key := Success];
      } else if candidate.createdAt > cached[key].createdAt
                || (candidate.createdAt == cached[key].createdAt && candidate.event < cached[key].event) {
        cached, statuses := cached[key := candidate], statuses[key := Success];
        assert cached[key] != old(cached)[key];
      } else {
        assert cached[key := cached[key]] == cached;
      }
      return Ok(());
    }

    method LoadProfile(key: PublicKey) returns (r: Result<Option<Candidate>>)
      requires Valid()
      modifies this`budget
      ensures match r
              case Ok(found) => found == if key in cached then Some(cached[key]) else None
              case Err(problem) => problem == Unavailable && budget == 0
    {
      if budget == 0 { return Err(Unavailable); }
      budget := budget - 1;
      return Ok(if key in cached then Some(cached[key]) else None);
    }

    /** Notes how a refresh ended beside a cached profile, without touching the profile. */
    method RecordStatus(key: PublicKey, status: RefreshStatus) returns (r: Result<()>)
      requires Valid()
      modifies this`statuses, this`budget
      ensures Valid() && (r.Err? ==> r.error == Unavailable && budget == 0)
      ensures statuses == if r.Ok? && key in cached then old(statuses)[key := status] else old(statuses)
    {
      if budget == 0 { return Err(Unavailable); }
      budget := budget - 1;
      if key in cached { statuses := statuses[key := status]; }
      return Ok(());
    }
  }

  method BeginProfileRefresh(core: AppCore.ApplicationCore, profiles: Repository) returns (r: Result<Option<Plan>>)
    requires core.Consistent()
    modifies core, core.machine
    ensures core.Consistent()
    ensures Display(core.machine.View(), profiles.cached)
         == BeginRefresh(old(Display(core.machine.View(), profiles.cached)), core.relays)
    ensures r == Ok(None) <==> old(core.machine.snapshot.active.None?)
    ensures r.Ok? && r.value.Some? ==>
              && old(core.machine.snapshot.active) == Some(r.value.value.active)
              && r.value.value.key == r.value.value.active.identity.key
              && r.value.value.revision == core.machine.snapshot.revision
  {
    hide SM.Next; hide SM.Outcome;
    var active := core.published.active;
    if active.None? { return Ok(None); }
    var loading := core.ApplyTransition(Loading(active.value));
    if loading.Err? { return Err(loading.error); }
    return Ok(Some(Plan(active.value.identity.key, active.value, loading.value.revision)));
  }

  /** Completes a refresh. Without a storage failure it does exactly what `CompleteRefresh` says. If the
      event cannot be saved nothing changes; if the winner cannot be loaded it is cached but not shown;
      if the outcome of a failed fetch cannot be noted, the failure is shown all the same. */
  method CompleteProfileRefresh(core: AppCore.ApplicationCore, profiles: Repository, plan: Plan, fetch: Fetch)
    returns (r: Result<AppSnapshot>)
    requires core.Consistent() && profiles.Valid()
    modifies core, core.machine, profiles
    ensures core.Consistent() && profiles.Valid() && (r.Ok? ==> r.value == core.machine.snapshot)
    ensures var before := old(Display(core.machine.View(), profiles.cached));
            var after := Display(core.machine.View(), profiles.cached);
            || after == CompleteRefresh(before, plan.key, fetch, core.relays)
            || (r == Err(Unavailable) && profiles.budget == 0 && after.machine == before.machine
                && (after.cache == before.cache || after.cache == CacheAfter(before.cache, fetch)))
    ensures var current := old(core.machine.snapshot.active);
            var noted := old(profiles.statuses);
            r.Ok? ==>
              if current.None? || current.value.identity.key != plan.key then profiles.statuses == noted
              else match fetch
                   case FetchFailed(problem) =>
                     var status := if problem.InvalidProfileMetadata? || problem.ProfileRefreshFailed? then InvalidData
                                   else Offline;
                     profiles.statuses == if plan.key in profiles.cached then noted[plan.key := status] else noted
                   case Fetched(Some(c), _) =>
                     profiles.statuses == if profiles.cached != old(profiles.cached) then noted[c.author := Success]
                                          else noted
                   case Fetched(None, _) => profiles.statuses == noted
  {
    hide SM.Next; hide SM.Outcome;
    var active := core.published.active;
    if active.None? || active.value.identity.key != plan.key { return Ok(core.published); }
    var current := active.value;
    match fetch {
      case Fetched(candidate, complete) =>
        var relay, problem := if complete then Connected else Degraded, if complete then None else Some(PARTIAL);
        match candidate {
          case Some(found) =>
            var saved := profiles.SaveProfile(found);
            if saved.Err? { return Err(saved.error); }
            var cached := profiles.LoadProfile(plan.key);
            if cached.Err? { return Err(cached.error); }
            var winning := if cached.value.Some? then cached.value.value.metadata else found.metadata;
            r := Publish(core, Replacing(current, relay, Fresh, Some(winning), problem));
          case None =>
            var state := if current.profile.Some? then Cached else EmptyProfile;
            r := Publish(core, Replacing(current, relay, state, current.profile, problem));
        }
      case FetchFailed(problem) =>
        r := Publish(core, Replacing(current, Degraded, ProfileError(problem), current.profile, Some(problem)));
        if r.Err? { return; }
        var noted := profiles.RecordStatus(plan.key, StatusOf(problem));
        if noted.Err? { return Err(noted.error); }
    }
  }

  method Publish(core: AppCore.ApplicationCore, t: SM.Transition) returns (r: Result<AppSnapshot>)
    requires core.Consistent()
    modifies core, core.machine
    ensures core.Consistent() && core.machine.View() == SM.Next(old(core.machine.View()), t, core.relays)
    ensures r.Ok? ==> r.value == core.machine.snapshot
  {
    hide Validates;
    r := core.ApplyTransition(t);
  }
}
