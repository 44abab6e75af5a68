/** From the state machine to its subscribers: every change of a run of the machine, bound to the runtime
    session as the actor binds it, becomes a publication of every open channel.
*/
module Publication {
  import opened Domain
  import opened Snapshot
  import SM = StateMachine
  import opened ChangeStream
  import opened ChangeHub

  /** A settled snapshot: bound to the process and its session generation. */
  function Bound(s: AppSnapshot, incarnation: nat, generation: nat): AppSnapshot {
    s.(runtimeSession := Some(SessionBinding(incarnation, generation)))
  }

  /** A step that changes the snapshot gives a newer one, whatever binding both are given. */
  lemma ChangedIsNewer(m: SM.Machine, t: SM.Transition, relays: Relays, binding: Option<SessionBinding>)
    requires SnapshotValid(m.snapshot) && m.snapshot.revision <= MAX_U64
    ensures var next := SM.Next(m, t, relays).snapshot;
            next != m.snapshot ==>
              NewerThan(next.(runtimeSession := binding), m.snapshot.(runtimeSession := binding))
  {
    SM.StepKeepsValid(m, t, relays);
    hide SM.Next;
  }

  /** The same under a session generation that does not fall; a generation that rises is news by itself. */
  lemma SettledIsNewer(m: SM.Machine, t: SM.Transition, relays: Relays, incarnation: nat, before: nat, after: nat)
    requires SnapshotValid(m.snapshot) && m.snapshot.revision <= MAX_U64 && before <= after
    ensures var next := SM.Next(m, t, relays).snapshot;
            NewerThan(Bound(next, incarnation, after), Bound(m.snapshot, incarnation, before))
            <==> next != m.snapshot || before < after
  {
    SM.StepKeepsValid(m, t, relays);
    hide SM.Next;
  }

  ghost predicate Rising(generations: seq<nat>) {
    forall i, j :: 0 <= i <= j < |generations| ==> generations[i] <= generations[j]
  }

  /** The changes of a run: each settled snapshot that differs from the one before in content or
      generation, with the revision before it. */
  ghost function Changes(m: SM.Machine, ts: seq<SM.Transition>, relays: Relays, incarnation: nat,
                         generations: seq<nat>): seq<Change>
    requires |generations| == |ts| + 1
  {
    if ts == [] then []
    else
      var n := |ts|;
      var earlier := Changes(m, ts[..n - 1], relays, incarnation, generations[..n]);
      var s, next := SM.After(m, ts[..n - 1], relays).snapshot, SM.After(m, ts, relays).snapshot;
      if next == s && generations[n] == generations[n - 1] then earlier
      else earlier + [Change(Bound(next, incarnation, generations[n]), Some(s.revision))]
  }

  /** The channel after the settled snapshot of every step of the run was published to it. */
  ghost function Told(c: Channel, m: SM.Machine, ts: seq<SM.Transition>, relays: Relays, incarnation: nat,
                      generations: seq<nat>): Channel
    requires |generations| == |ts| + 1
  {
    if ts == [] then c
    else
      var n := |ts|;
      Offered(Told(c, m, ts[..n - 1], relays, incarnation, generations[..n]),
              Bound(SM.After(m, ts, relays).snapshot, incarnation, generations[n]))
  }

  /** Publishing after every step of a run makes exactly its changes publications, in order: no change is
      ignored and no repetition published, and the cell holds the last settled snapshot. */
  lemma {:induction false} RunIsPublished(c: Channel, m: SM.Machine, ts: seq<SM.Transition>, relays: Relays,
                                          incarnation: nat, generations: seq<nat>)
    requires |generations| == |ts| + 1 && Rising(generations)
    requires SnapshotValid(m.snapshot) && m.snapshot.revision <= MAX_U64
    requires c.open && c.sending.None? && c.cell.snapshot == Bound(m.snapshot, incarnation, generations[0])
    ensures var told := Told(c, m, ts, relays, incarnation, generations);
            && told.open && told.sending.None?
            && told.published == c.published + Changes(m, ts, relays, incarnation, generations)
            && told.cell.snapshot == Bound(SM.After(m, ts, relays).snapshot, incarnation, generations[|ts|])
  {
    if ts != [] {
      var n := |ts|;
      RunIsPublished(c, m, ts[..n - 1], relays, incarnation, generations[..n]);
      StepIsNewer(m, ts, relays, incarnation, generations);
      var told := Told(c, m, ts[..n - 1], relays, incarnation, generations[..n]);
      var s, next := SM.After(m, ts[..n - 1], relays).snapshot, SM.After(m, ts, relays).snapshot;
      var news := next != s || generations[n] != generations[n - 1];
      var change := Change(Bound(next, incarnation, generations[n]), Some(s.revision));
      assert Told(c, m, ts, relays, incarnation, generations) == Offered(told, change.snapshot);
      assert Changes(m, ts, relays, incarnation, generations)
          == Changes(m, ts[..n - 1], relays, incarnation, generations[..n]) + if news then [change] else [];
      OfferedIs(told, change.snapshot);
      hide SM.After; hide NewerThan; hide Offered; hide Rising; hide Told; hide Changes;
    }
  }

  lemma StepIsNewer(m: SM.Machine, ts: seq<SM.Transition>, relays: Relays, incarnation: nat, generations: seq<nat>)
    requires |generations| == |ts| + 1 && Rising(generations) && ts != []
    requires SnapshotValid(m.snapshot) && m.snapshot.revision <= MAX_U64
    ensures var n := |ts|;
            var s, next := SM.After(m, ts[..n - 1], relays).snapshot, SM.After(m, ts, relays).snapshot;
            NewerThan(Bound(next, incarnation, generations[n]), Bound(s, incarnation, generations[n - 1]))
            <==> !(next == s && generations[n] == generations[n - 1])
  {
    var n := |ts|;
    SM.RunIsValid(m, ts[..n - 1], relays);
    SettledIsNewer(SM.After(m, ts[..n - 1], relays), ts[n - 1], relays, incarnation, generations[n - 1],
                   generations[n]);
    hide SM.Next; hide NewerThan;
  }

  /** One publication: a newer snapshot is retained and recorded with the revision before it. */
  lemma OfferedIs(c: Channel, snapshot: AppSnapshot)
    requires c.open && c.sending.None?
    ensures var after, change := Offered(c, snapshot), Change(snapshot, Some(c.cell.snapshot.revision));
            && after.open && after.sending.None?
            && (if NewerThan(snapshot, c.cell.snapshot) then
                  && after.cell == change && after.published == c.published + [change]
                  && after.queue == if |c.queue| < c.capacity then c.queue + [change] else c.queue
                else after == c)
  {
    hide NewerThan;
  }
}
