/** One subscription of the ordered change stream as interleaved steps of publisher and receiver.

    The publisher keeps the newest change in a one-slot cell and then tries to enqueue it; a full queue
    drops it. The receiver tries the queue, reads the cell and waits on the queue. Any step may fall
    between any two others, except that publishing, unsubscribing and closing exclude each other.
*/
module ChangeStream {
  import opened Domain
  import opened Snapshot

  datatype Change = Change(snapshot: AppSnapshot, previous: Option<nat>)

  predicate RecoversGapAfter(change: Change, observed: nat) {
    change.previous.Some? && change.previous.value != observed
  }

  /** Where the receiver stands: outside `receive`, about to try the queue, about to read the cell
      having seen the queue open or closed, waiting on the queue, or told that the stream has ended. */
  datatype Stage = Idle | Trying | Reading(queueOpen: bool) | Waiting | Ended

  /** `sending` is a change in the cell that was not offered to the queue yet. The last two fields
      record what was published since the subscription and what was delivered. */
  datatype Channel = Channel(
    capacity: nat,
    queue: seq<Change>,
    cell: Change,
    open: bool,
    sending: Option<Change>,
    stage: Stage,
    last: Option<AppSnapshot>,
    published: seq<Change>,
    delivered: seq<Change>)

  /** A new subscription: the current snapshot is both retained and enqueued. */
  function Subscribed(latest: AppSnapshot, capacity: nat): Channel {
    var initial := Change(latest, None);
    Channel(capacity, [initial], initial, true, None, Idle, None, [initial], [])
  }

  datatype Step = Write(snapshot: AppSnapshot) | Enqueue | Disconnect | Start | TryQueue | ReadCell | Wake | Cancel

  /** A step that is not enabled changes nothing. */
  function Next(c: Channel, step: Step): Channel {
    match step
    case Write(snapshot) =>
      if !c.open || c.sending.Some? || !NewerThan(snapshot, c.cell.snapshot) then c
      else
        var change := Change(snapshot, Some(c.cell.snapshot.revision));
        c.(cell := change, sending := Some(change), published := c.published + [change])
    case Enqueue =>
      if c.sending.None? then c
      else c.(sending := None, queue := if |c.queue| < c.capacity then c.queue + [c.sending.value] else c.queue)
    case Disconnect => if c.sending.Some? then c else c.(open := false)
    case Start => if c.stage.Idle? || c.stage.Ended? then c.(stage := Trying) else c
    case TryQueue =>
      if !c.stage.Trying? then c
      else if c.queue == [] then c.(stage := Reading(c.open))
      else Offer(c.(queue := c.queue[1..]), c.queue[0], Trying)
    case ReadCell =>
      if !c.stage.Reading? then c else Offer(c, c.cell, if c.stage.queueOpen then Waiting else Ended)
    case Wake =>
      if !c.stage.Waiting? then c
      else if c.queue != [] then Offer(c.(queue := c.queue[1..]), c.queue[0], Trying)
      else if c.open then c
      else c.(stage := Trying)
    case Cancel => if c.stage.Waiting? then c.(stage := Idle) else c
  }

  predicate Stale(c: Channel, change: Change) {
    c.last.Some? && !NewerThan(change.snapshot, c.last.value)
  }

  /** Delivers a change that is newer than the last delivered one; otherwise `receive` goes on at `otherwise`. */
  function Offer(c: Channel, change: Change, otherwise: Stage): Channel {
    if Stale(c, change) then c.(stage := otherwise)
    else c.(stage := Idle, last := Some(change.snapshot), delivered := c.delivered + [change])
  }

  function After(c: Channel, steps: seq<Step>): Channel {
    if steps == [] then c else Next(After(c, steps[..|steps| - 1]), steps[|steps| - 1])
  }

  // ---- What every step keeps ----

  ghost predicate Increasing(changes: seq<Change>) {
    forall i, j :: 0 <= i < j < |changes| ==> NewerThan(changes[j].snapshot, changes[i].snapshot)
  }

  ghost predicate Within(changes: seq<Change>, published: seq<Change>) {
    forall i :: 0 <= i < |changes| ==> changes[i] in published
  }

  /** Every publication is newer than all before and names the revision just before it. */
  ghost predicate Chained(published: seq<Change>) {
    && published != [] && published[0].previous.None?
    && Increasing(published)
    && forall i :: 0 < i < |published| ==> published[i].previous == Some(published[i - 1].snapshot.revision)
  }

  function Newest(c: Channel): (newest: Change)
    requires c.published != []
  {
    c.published[|c.published| - 1]
  }

  ghost predicate Publishing(c: Channel) {
    && c.capacity >= 1 && Chained(c.published) && c.cell == Newest(c)
    && (c.sending.Some? ==> c.open && c.sending == Some(c.cell))
  }

  ghost predicate Queued(c: Channel) {
    && Increasing(c.queue) && Within(c.queue, c.published)
    && (c.sending.Some? ==> c.cell !in c.queue)
  }

  ghost predicate Delivering(c: Channel) {
    && Increasing(c.delivered) && Within(c.delivered, c.published)
    && (if c.delivered == [] then c.last.None? else c.last == Some(c.delivered[|c.delivered| - 1].snapshot))
    && (if c.delivered == [] then
          c.queue != [] && c.published != [] && c.queue[0] == c.published[0] && (c.stage.Idle? || c.stage.Trying?)
        else c.published != [] && c.delivered[0] == c.published[0])
  }

  ghost predicate Current(c: Channel) {
    c.delivered != [] && c.published != [] && c.delivered[|c.delivered| - 1] == Newest(c)
  }

  ghost predicate TailKept(c: Channel) {
    && (c.stage == Reading(false) ==> !c.open && c.queue == [])
    && (c.stage.Ended? ==> !c.open && c.queue == [] && Current(c))
    && (c.stage.Waiting? && c.queue == [] && c.sending.None? ==> Current(c))
  }

  ghost predicate Invariant(c: Channel) {
    Publishing(c) && Queued(c) && Delivering(c) && TailKept(c)
  }

  /** Something published that is not newer than the newest is the newest, and everything else is older. */
  lemma NewestIsLast(c: Channel, change: Change)
    requires Chained(c.published) && change in c.published
    ensures change == Newest(c) || NewerThan(Newest(c).snapshot, change.snapshot)
  {}

  lemma WriteKeeps(c: Channel, snapshot: AppSnapshot)
    requires Invariant(c)
    ensures Invariant(Next(c, Write(snapshot)))
  {
    if c.open && c.sending.None? && NewerThan(snapshot, c.cell.snapshot) {
      var next := Next(c, Write(snapshot));
      forall i | 0 <= i < |c.published| ensures NewerThan(snapshot, c.published[i].snapshot) {
        NewestIsLast(c, c.published[i]);
        NewerIsStrictOrder(c.published[i].snapshot, c.cell.snapshot, snapshot);
      }
      if next.cell in c.queue { NewerIsStrictOrder(snapshot, snapshot, snapshot); }
      hide NewerThan;
    }
  }

  lemma QueueGrows(c: Channel)
    requires Publishing(c) && Queued(c) && c.sending.Some?
    ensures Increasing(c.queue + [c.cell]) && Within(c.queue + [c.cell], c.published)
  {}

  lemma EnqueueKeeps(c: Channel)
    requires Invariant(c)
    ensures Invariant(Next(c, Enqueue))
  {
    if c.sending.Some? { QueueGrows(c); }
    hide NewerThan; hide Increasing; hide Within; hide Chained;
  }

  /** A change that is not stale extends the delivered sequence. */
  lemma OfferKeeps(c: Channel, change: Change)
    requires Invariant(c) && change in c.published && !Stale(c, change)
    ensures Increasing(c.delivered + [change]) && Within(c.delivered + [change], c.published)
  {
    forall i | 0 <= i < |c.delivered| ensures NewerThan(change.snapshot, c.delivered[i].snapshot) {
      NewerIsStrictOrder(c.delivered[i].snapshot, c.delivered[|c.delivered| - 1].snapshot, change.snapshot);
    }
  }

  /** Taking the head of the queue. */
  lemma PopKeeps(c: Channel)
    requires Invariant(c) && c.queue != [] && (c.stage.Trying? || c.stage.Waiting?)
    ensures Invariant(Offer(c.(queue := c.queue[1..]), c.queue[0], Trying))
  {
    if !Stale(c, c.queue[0]) { OfferKeeps(c, c.queue[0]); }
    hide NewerThan;
  }

  /** Reading the cell: a stale cell means that the newest change was delivered. */
  lemma ReadKeeps(c: Channel)
    requires Invariant(c) && c.stage.Reading?
    ensures Invariant(Next(c, ReadCell))
  {
    if Stale(c, c.cell) {
      NewestIsLast(c, c.delivered[|c.delivered| - 1]);
    } else {
      OfferKeeps(c, c.cell);
    }
    hide NewerThan;
  }

  lemma StepKeeps(c: Channel, step: Step)
    requires Invariant(c)
    ensures Invariant(Next(c, step))
  {
    match step
    case Write(snapshot) => WriteKeeps(c, snapshot);
    case Enqueue => EnqueueKeeps(c);
    case TryQueue => if c.stage.Trying? && c.queue != [] { PopKeeps(c); }
    case ReadCell => if c.stage.Reading? { ReadKeeps(c); }
    case Wake => if c.stage.Waiting? && c.queue != [] { PopKeeps(c); }
    case _ =>
  }

  lemma {:induction false} RunKeeps(latest: AppSnapshot, capacity: nat, steps: seq<Step>)
    requires capacity >= 1
    ensures Invariant(After(Subscribed(latest, capacity), steps))
  {
    if steps != [] {
      RunKeeps(latest, capacity, steps[..|steps| - 1]);
      StepKeeps(After(Subscribed(latest, capacity), steps[..|steps| - 1]), steps[|steps| - 1]);
    }
  }

  // ---- What subscribers rely on ----

  /** The receiver waits on an empty queue with no publish in progress, or was told that the stream ended. */
  predicate Resting(c: Channel) {
    c.stage.Ended? || (c.stage.Waiting? && c.queue == [] && c.sending.None?)
  }

  /** No interleaving loses the tail: a resting receiver has delivered the newest change. */
  lemma TailIsKept(latest: AppSnapshot, capacity: nat, steps: seq<Step>)
    requires capacity >= 1
    requires Resting(After(Subscribed(latest, capacity), steps))
    ensures var c := After(Subscribed(latest, capacity), steps);
            && c.delivered != [] && c.published != []
            && c.delivered[|c.delivered| - 1] == c.published[|c.published| - 1]
            && c.last == Some(c.published[|c.published| - 1].snapshot)
  {
    RunKeeps(latest, capacity, steps);
  }

  /** The place of a change among the publications. */
  ghost function Position(published: seq<Change>, change: Change): (i: nat)
    requires change in published
    ensures i < |published| && published[i] == change
  {
    var i: nat :| i < |published| && published[i] == change;
    i
  }

  lemma PositionIs(published: seq<Change>, i: nat)
    requires Increasing(published) && i < |published|
    ensures Position(published, published[i]) == i
  {}

  lemma PositionRises(published: seq<Change>, a: Change, b: Change)
    requires Increasing(published) && a in published && b in published && NewerThan(b.snapshot, a.snapshot)
    ensures Position(published, a) < Position(published, b)
  {}

  /** Deliveries are a subsequence of the publications, in order and without repetition, starting with
      the snapshot current at subscription. */
  lemma DeliveredIsSubsequence(latest: AppSnapshot, capacity: nat, steps: seq<Step>)
    requires capacity >= 1
    ensures var c := After(Subscribed(latest, capacity), steps);
            && Within(c.delivered, c.published)
            && (forall i, j :: 0 <= i < j < |c.delivered| ==>
                                 Position(c.published, c.delivered[i]) < Position(c.published, c.delivered[j]))
            && (c.delivered != [] ==> c.delivered[0] == Change(latest, None))
  {
    RunKeeps(latest, capacity, steps);
    FirstPublication(latest, capacity, steps);
    var c := After(Subscribed(latest, capacity), steps);
    forall i, j | 0 <= i < j < |c.delivered|
      ensures Position(c.published, c.delivered[i]) < Position(c.published, c.delivered[j])
    {
      PositionRises(c.published, c.delivered[i], c.delivered[j]);
    }
  }

  lemma {:induction false} FirstPublication(latest: AppSnapshot, capacity: nat, steps: seq<Step>)
    ensures var c := After(Subscribed(latest, capacity), steps);
            c.published != [] && c.published[0] == Change(latest, None)
  {
    if steps != [] { FirstPublication(latest, capacity, steps[..|steps| - 1]); }
  }

  /** The gap flag is exact: a delivery is flagged against the previous one if and only if some skipped
      publication has another revision than that one. */
  lemma GapFlagIsExact(latest: AppSnapshot, capacity: nat, steps: seq<Step>, k: nat)
    requires capacity >= 1 && 1 <= k < |After(Subscribed(latest, capacity), steps).delivered|
    ensures var c := After(Subscribed(latest, capacity), steps);
            var observed := c.delivered[k - 1].snapshot.revision;
            && c.delivered[k - 1] in c.published && c.delivered[k] in c.published
            && (RecoversGapAfter(c.delivered[k], observed) <==>
                exists i :: Position(c.published, c.delivered[k - 1]) < i < Position(c.published, c.delivered[k])
                            && c.published[i].snapshot.revision != observed)
  {
    RunKeeps(latest, capacity, steps);
    var c := After(Subscribed(latest, capacity), steps);
    var a, b := Position(c.published, c.delivered[k - 1]), Position(c.published, c.delivered[k]);
    PositionRises(c.published, c.delivered[k - 1], c.delivered[k]);
    assert c.delivered[k].previous == Some(c.published[b - 1].snapshot.revision);
    forall i, j | 0 <= i <= j < |c.published|
      ensures c.published[i].snapshot.revision <= c.published[j].snapshot.revision
    {
      if i < j { NewerIsStrictOrder(c.published[i].snapshot, c.published[j].snapshot, c.published[j].snapshot); }
    }
    hide NewerThan;
    if RecoversGapAfter(c.delivered[k], c.delivered[k - 1].snapshot.revision) {
      assert a < b - 1 < b;
    }
  }

  /** The queue never exceeds its capacity. */
  lemma {:induction false} QueueIsBounded(latest: AppSnapshot, capacity: nat, steps: seq<Step>)
    requires capacity >= 1
    ensures |After(Subscribed(latest, capacity), steps).queue| <= capacity
    ensures After(Subscribed(latest, capacity), steps).capacity == capacity
  {
    hide NewerThan;
    if steps != [] { QueueIsBounded(latest, capacity, steps[..|steps| - 1]); }
  }

  /** No change is offered to a full queue in the course of these steps. */
  ghost predicate Roomy(c: Channel, steps: seq<Step>) {
    forall i :: 0 <= i < |steps| && steps[i].Enqueue? && After(c, steps[..i]).sending.Some? ==>
                  |After(c, steps[..i]).queue| < c.capacity
  }

  /** Something at least as new as the change was delivered. */
  ghost predicate PassedBy(c: Channel, change: Change) {
    c.last.Some? && !NewerThan(change.snapshot, c.last.value)
  }

  ghost predicate Accounted(c: Channel) {
    forall i :: 0 <= i < |c.published| ==>
                  c.published[i] in c.queue || c.sending == Some(c.published[i]) || PassedBy(c, c.published[i])
  }

  /** Only a full queue drops a change: while there is room, every publication is queued, about to be, or
      followed by a delivery that is at least as new. */
  lemma {:induction false} RoomLosesNothing(latest: AppSnapshot, capacity: nat, steps: seq<Step>)
    requires capacity >= 1 && Roomy(Subscribed(latest, capacity), steps)
    ensures Accounted(After(Subscribed(latest, capacity), steps))
  {
    var start := Subscribed(latest, capacity);
    if steps != [] {
      var front, last := steps[..|steps| - 1], steps[|steps| - 1];
      assert forall i :: 0 <= i < |front| ==> front[..i] == steps[..i];
      RoomLosesNothing(latest, capacity, front);
      QueueIsBounded(latest, capacity, front);
      RunKeeps(latest, capacity, front);
      assert last.Enqueue? && After(start, front).sending.Some? ==> |After(start, front).queue| < capacity;
      StepAccounts(After(start, front), last);
    }
  }

  lemma StepAccounts(c: Channel, step: Step)
    requires Accounted(c) && Invariant(c) && (step.Enqueue? && c.sending.Some? ==> |c.queue| < c.capacity)
    ensures Accounted(Next(c, step))
  {
    var next := Next(c, step);
    LastRises(c, step);
    hide Invariant;
    forall i | 0 <= i < |next.published|
      ensures next.published[i] in next.queue || next.sending == Some(next.published[i])
              || PassedBy(next, next.published[i])
    {
      var change := next.published[i];
      if i < |c.published| {
        assert change == c.published[i];
        if PassedBy(c, change) {
          if next.last != c.last { NewerIsStrictOrder(c.last.value, next.last.value, change.snapshot); }
        } else if change in c.queue && change !in next.queue {
          HeadIsTaken(c, step, change);
        }
      }
    }
  }

  /** The last delivered snapshot only gives way to a newer one. */
  lemma LastRises(c: Channel, step: Step)
    ensures var next := Next(c, step);
            next.last == c.last || (next.last.Some? && (c.last.Some? ==> NewerThan(next.last.value, c.last.value)))
  {
    hide NewerThan;
  }

  lemma HeadIsTaken(c: Channel, step: Step, change: Change)
    requires change in c.queue && change !in Next(c, step).queue
    ensures PassedBy(Next(c, step), change)
  {
    assert c.queue == [c.queue[0]] + c.queue[1..];
    assert change == c.queue[0];
    NewerIsStrictOrder(change.snapshot, change.snapshot, change.snapshot);
    hide NewerThan;
  }

  // ---- Refinement ----

  /** The simple stream: publications, deliveries, and how many publications are behind the receiver. */
  datatype Stream = Stream(published: seq<Change>, delivered: seq<Change>, passed: nat)

  ghost function Abstract(c: Channel): Stream
    requires c.delivered != [] ==> c.delivered[|c.delivered| - 1] in c.published
  {
    Stream(c.published, c.delivered,
           if c.delivered == [] then 0 else Position(c.published, c.delivered[|c.delivered| - 1]) + 1)
  }

  ghost predicate Publishes(a: Stream, b: Stream) {
    && |b.published| == |a.published| + 1 && b.published[..|a.published|] == a.published
    && b.delivered == a.delivered && b.passed == a.passed
  }

  /** One later publication is delivered, the first one first; those in between are passed over. */
  ghost predicate DeliversAt(a: Stream, b: Stream, k: nat) {
    && a.passed <= k < |a.published| && (a.delivered == [] ==> k == 0)
    && b == Stream(a.published, a.delivered + [a.published[k]], k + 1)
  }

  ghost predicate StreamStep(a: Stream, b: Stream) {
    a == b || Publishes(a, b) || exists k: nat :: DeliversAt(a, b, k)
  }

  /** Every step of the coalescing channel is a step of the simple stream or invisible in it, and the
      channel rests only where the simple stream has nothing left to deliver. */
  lemma StepRefines(c: Channel, step: Step)
    requires Invariant(c)
    ensures Invariant(Next(c, step)) && StreamStep(Abstract(c), Abstract(Next(c, step)))
    ensures Resting(c) ==> Abstract(c).passed == |c.published|
  {
    StepKeeps(c, step);
    OneAtATime(c, step);
    var next := Next(c, step);
    hide Next; hide NewerThan; hide StreamStep; hide Queued; hide Chained;
    if Resting(c) { RestingHasPassed(c); }
    if next.published != c.published {
      PublicationRefines(c, next);
    } else if next.delivered != c.delivered {
      DeliveryRefines(c, next);
    } else {
      SilentRefines(c, next);
    }
  }

  lemma RestingHasPassed(c: Channel)
    requires Invariant(c) && Resting(c)
    ensures Abstract(c).passed == |c.published|
  {}

  lemma OneAtATime(c: Channel, step: Step)
    ensures var next := Next(c, step);
            || (next.published == c.published && next.delivered == c.delivered)
            || (next.published == c.published && |next.delivered| == |c.delivered| + 1
                && next.delivered[..|c.delivered|] == c.delivered)
            || (next.delivered == c.delivered && |next.published| == |c.published| + 1
                && next.published[..|c.published|] == c.published)
  {}

  lemma PublicationRefines(c: Channel, next: Channel)
    requires Invariant(c) && Invariant(next) && next.delivered == c.delivered
    requires |next.published| == |c.published| + 1 && next.published[..|c.published|] == c.published
    ensures StreamStep(Abstract(c), Abstract(next))
  {
    if c.delivered != [] {
      var i := Position(c.published, c.delivered[|c.delivered| - 1]);
      assert next.published[i] == next.published[..|c.published|][i];
      PositionIs(next.published, i);
    }
    assert Publishes(Abstract(c), Abstract(next));
  }

  lemma SilentRefines(c: Channel, next: Channel)
    requires Invariant(c) && next.published == c.published && next.delivered == c.delivered
    ensures Delivering(next) ==> StreamStep(Abstract(c), Abstract(next))
  {}

  lemma DeliveryRefines(c: Channel, next: Channel)
    requires Invariant(c) && Invariant(next) && next.published == c.published
    requires |next.delivered| == |c.delivered| + 1 && next.delivered[..|c.delivered|] == c.delivered
    ensures StreamStep(Abstract(c), Abstract(next))
  {
    var change := next.delivered[|c.delivered|];
    var k := Position(c.published, change);
    if c.delivered == [] {
      PositionIs(c.published, 0);
    } else {
      PositionRises(c.published, c.delivered[|c.delivered| - 1], change);
    }
    assert next.delivered == c.delivered + [change];
    assert DeliversAt(Abstract(c), Abstract(next), k);
  }

  /** So every run of the channel is a run of the simple stream. */
  lemma RunRefines(latest: AppSnapshot, capacity: nat, steps: seq<Step>, i: nat)
    requires capacity >= 1 && i < |steps|
    ensures var start := Subscribed(latest, capacity);
            var before, after := After(start, steps[..i]), After(start, steps[..i + 1]);
            && Invariant(before) && Invariant(after) && StreamStep(Abstract(before), Abstract(after))
            && (Resting(after) ==> Abstract(after).passed == |after.published|)
  {
    hide Invariant; hide StreamStep; hide Next;
    RunKeeps(latest, capacity, steps[..i]);
    RunKeeps(latest, capacity, steps[..i + 1]);
    assert steps[..i + 1][..i] == steps[..i];
    StepRefines(After(Subscribed(latest, capacity), steps[..i]), steps[i]);
    var after := After(Subscribed(latest, capacity), steps[..i + 1]);
    if Resting(after) { RestingHasPassed(after); }
  }
}
