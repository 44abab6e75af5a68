/** The change stream as the code runs it: a publisher with one link per subscriber, and receivers. */
module ChangeHub {
  import opened Domain
  import opened Snapshot
  import opened ChangeStream

  /** The bounded queue and the one-slot cell that a subscriber and its receiver share. */
  class Link {
    const id: nat
    const capacity: nat
    var queue: seq<Change>
    var cell: Change
    var senderOpen: bool
    var receiverOpen: bool
    ghost var published: seq<Change>

    constructor (id: nat, initial: Change, capacity: nat)
      ensures Half() == Subscribed(initial.snapshot, capacity).(cell := initial, queue := [initial],
                        published := [initial])
      ensures receiverOpen && this.id == id
    {
      this.id := id;
      this.capacity, senderOpen, receiverOpen := capacity, true, true;
      queue, cell, published := [initial], initial, [initial];
    }

    /** The link as the half of a channel that no receiver has used yet. */
    ghost function Half(): Channel
      reads this
    {
      Channel(capacity, queue, cell, senderOpen, None, Idle, None, published, [])
    }

    /** Replaces the retained change, then enqueues it unless the queue is full. The result tells
        whether the receiver still exists. */
    method Accept(change: Change) returns (kept: bool)
      requires senderOpen && NewerThan(change.snapshot, cell.snapshot)
      requires change.previous == Some(cell.snapshot.revision)
      modifies this`cell, this`queue, this`published
      ensures kept == receiverOpen
      ensures kept ==> Half() == Offered(old(Half()), change.snapshot)
      ensures cell == change
    {
      cell := change;
      published := published + [change];
      if !receiverOpen { return false; }
      if |queue| < capacity { queue := queue + [change]; }
      return true;
    }
  }

  datatype Receipt = Delivered(change: Change) | Finished | Pending

  function StageOf(r: Receipt): Stage {
    match r
    case Delivered(_) => Idle
    case Finished => ChangeStream.Ended
    case Pending => Waiting
  }

  predicate OfReceiver(step: Step) {
    step.Start? || step.TryQueue? || step.ReadCell? || step.Wake? || step.Cancel?
  }

  class Receiver {
    const link: Link
    var last: Option<AppSnapshot>
    ghost var delivered: seq<Change>

    constructor (link: Link)
      ensures this.link == link && last.None? && delivered == []
    {
      this.link, last, delivered := link, None, [];
    }

    ghost function View(): Channel
      reads this, link
    {
      link.Half().(last := last, delivered := delivered)
    }

    /** What a call of `receive`, or the rest of one, from `before` on amounts to: steps of the receiver,
        and unless it delivers, the newest change has been delivered before. */
    twostate predicate Received(before: Channel, r: Receipt, steps: seq<Step>)
      reads this, link
    {
      && (forall i :: 0 <= i < |steps| ==> OfReceiver(steps[i]))
      && After(before, steps) == View().(stage := StageOf(r))
      && Invariant(View().(stage := StageOf(r)))
      && match r
         case Delivered(change) => delivered == old(delivered) + [change]
         case Finished => !link.senderOpen && Current(View()) && delivered == old(delivered)
         case Pending => link.senderOpen && Current(View()) && delivered == old(delivered)
    }

    /** A call from its begin to its end or its first suspension. */
    method Receive() returns (r: Receipt, ghost steps: seq<Step>)
      requires Invariant(View())
      modifies this, link`queue
      ensures Received(old(View()), r, steps) && Invariant(View())
    {
      hide Invariant; hide Next; hide After; hide Current;
      Started(View());
      steps := [Start];
      r, steps := Continue(View(), steps);
      IdleAgain(View(), StageOf(r));
    }

    /** A suspended call that is polled again, to its end or its next suspension. */
    method Resume() returns (r: Receipt, ghost steps: seq<Step>)
      requires Invariant(View().(stage := Waiting))
      modifies this, link`queue
      ensures Received(old(View()).(stage := Waiting), r, steps) && Invariant(View())
    {
      hide Invariant; hide Next; hide After; hide Current;
      ghost var waiting := View().(stage := Waiting);
      Woken(waiting);
      steps := [Wake];
      if |link.queue| > 0 {
        var change := link.queue[0];
        link.queue := link.queue[1..];
        var newer := DeliverNewer(change);
        if newer {
          IdleAgain(View(), Idle);
          return Delivered(change), steps;
        }
      } else if link.senderOpen {
        IdleAgain(View(), Waiting);
        return Pending, steps;
      }
      r, steps := Continue(waiting, steps);
      IdleAgain(View(), StageOf(r));
    }

    /** The loop of `receive`, entered after `before` by `done`. */
    method Continue(ghost before: Channel, ghost done: seq<Step>) returns (r: Receipt, ghost steps: seq<Step>)
      requires Invariant(View().(stage := Trying)) && After(before, done) == View().(stage := Trying)
      requires forall i :: 0 <= i < |done| ==> OfReceiver(done[i])
      modifies this, link`queue
      ensures Received(before, r, steps)
    {
      hide Invariant; hide Next; hide After; hide Current;
      steps := done;
      while |link.queue| > 0
        invariant delivered == old(delivered)
        invariant Invariant(View().(stage := Trying))
        invariant After(before, steps) == View().(stage := Trying)
        invariant forall i :: 0 <= i < |steps| ==> OfReceiver(steps[i])
        decreases |link.queue|
      {
        var change := link.queue[0];
        Popped(View().(stage := Trying));
        OneMore(before, steps, TryQueue);
        steps := steps + [TryQueue];
        link.queue := link.queue[1..];
        var newer := DeliverNewer(change);
        if newer { return Delivered(change), steps; }
      }
      var queueOpen := link.senderOpen;
      Read(View().(stage := Trying));
      OneMore(before, steps, TryQueue);
      OneMore(before, steps + [TryQueue], ReadCell);
      steps := steps + [TryQueue] + [ReadCell];
      var retained := link.cell;
      var newer := DeliverNewer(retained);
      if newer { return Delivered(retained), steps; }
      if !queueOpen { return Finished, steps; }
      return Pending, steps;
    }

    method DeliverNewer(change: Change) returns (newer: bool)
      modifies this
      ensures newer == !old(Stale(View(), change))
      ensures last == (if newer then Some(change.snapshot) else old(last))
      ensures delivered == (if newer then old(delivered) + [change] else old(delivered))
    {
      if last.Some? && !NewerThan(change.snapshot, last.value) { return false; }
      last := Some(change.snapshot);
      delivered := delivered + [change];
      return true;
    }
  }

  /** What one publication does to one link. */
  function Offered(c: Channel, snapshot: AppSnapshot): Channel {
    Next(Next(c, Write(snapshot)), Enqueue)
  }

  /** The links whose receiver still exists. */
  ghost function Live(subscribers: seq<Link>): seq<Link>
    reads subscribers
  {
    if subscribers == [] then []
    else
      var last := |subscribers| - 1;
      Live(subscribers[..last]) + if subscribers[last].receiverOpen then [subscribers[last]] else []
  }

  class OrderedSnapshotChanges {
    var latest: AppSnapshot
    var nextSubscription: nat
    var subscribers: seq<Link>
    var closed: bool
    ghost var links: set<Link>

    /** The link is open and retains `snapshot`. */
    static ghost predicate Shows(link: Link, snapshot: AppSnapshot)
      reads link
    {
      link.senderOpen && link.cell.snapshot == snapshot
    }

    /** Subscribers are in the order of their identifiers, and each retains the latest snapshot.
        `links` holds every link that publishing may change. */
    ghost predicate Valid()
      reads this, links
    {
      && 1 <= nextSubscription <= MAX_U64
      && (closed ==> subscribers == [])
      && (forall i :: 0 <= i < |subscribers| ==>
                        subscribers[i] in links && subscribers[i].id < nextSubscription
                            && Shows(subscribers[i], latest))
      && (forall i, j :: 0 <= i < j < |subscribers| ==> subscribers[i].id < subscribers[j].id)
    }

    constructor (initial: AppSnapshot)
      ensures Valid() && links == {} && latest == initial && subscribers == [] && !closed && nextSubscription == 1
    {
      latest, nextSubscription, subscribers, closed, links := initial, 1, [], false, {};
    }

    /** Registers a consumer; refused only when closed or out of identifiers. */
    method Subscribe(capacity: nat) returns (r: Option<Receiver>)
      requires Valid() && capacity >= 1
      modifies this
      ensures Valid() && latest == old(latest) && closed == old(closed) && fresh(links - old(links))
      ensures r.None? <==> old(closed || nextSubscription == MAX_U64)
      ensures r.None? ==> subscribers == old(subscribers) && nextSubscription == old(nextSubscription)
      ensures r.Some? ==>
                && fresh(r.value) && fresh(r.value.link) && r.value.link.id == old(nextSubscription)
                && subscribers == old(subscribers) + [r.value.link]
                && r.value.link.capacity == capacity && r.value.link.queue == [Change(old(latest), None)]
                && r.value.link.cell == Change(old(latest), None) && r.value.last.None?
                && r.value.View() == Subscribed(latest, capacity) && Invariant(r.value.View())
    {
      if closed { return None; }
      var id := nextSubscription;
      if nextSubscription == MAX_U64 { return None; }
      nextSubscription := id + 1;
      var link := new Link(id, Change(latest, None), capacity);
      var receiver := new Receiver(link);
      subscribers, links := subscribers + [link], links + {link};
      r := Some(receiver);
    }

    /** Drops the sender of subscription `id`, which stood at position `at`, and leaves every other link alone. */
    method Unsubscribe(id: nat) returns (removed: bool, ghost at: nat)
      requires Valid()
      modifies this`subscribers, links
      ensures Valid()
      ensures if removed then
                && at < |old(subscribers)| && old(subscribers)[at].id == id
                && subscribers == old(subscribers)[..at] + old(subscribers)[at + 1..]
                && old(subscribers)[at].Half() == old(Next(subscribers[at].Half(), Disconnect))
              else
                subscribers == old(subscribers) && forall i :: 0 <= i < |subscribers| ==> subscribers[i].id != id
      ensures forall i :: 0 <= i < |old(subscribers)| && !(removed && i == at) ==>
                            old(subscribers)[i].Half() == old(subscribers[i].Half())
    {
      var i := 0;
      while i < |subscribers| && subscribers[i].id != id
        invariant 0 <= i <= |subscribers|
        invariant forall j :: 0 <= j < i ==> subscribers[j].id != id
      {
        i := i + 1;
      }
      removed, at := i < |subscribers|, i;
      if removed {
        subscribers[i].senderOpen := false;
        subscribers := subscribers[..i] + subscribers[i + 1..];
      }
    }

    /** Publishes a newer snapshot to every live subscriber; ignores any other snapshot. */
    method Publish(snapshot: AppSnapshot)
      requires Valid()
      modifies this`latest, this`subscribers, links
      ensures Valid()
      ensures latest == if !closed && NewerThan(snapshot, old(latest)) then snapshot else old(latest)
      ensures subscribers == old(Live(subscribers))
      ensures forall i :: 0 <= i < |old(subscribers)| && old(subscribers[i].receiverOpen) ==>
                            old(subscribers)[i].Half() == old(Offered(subscribers[i].Half(), snapshot))
    {
      hide NewerThan; hide Offered; hide Live; hide Next;
      var kept: seq<Link>;
      ghost var at: seq<nat>;
      kept, at := Reclaim();
      subscribers := kept;
      OfferNewer(snapshot);
    }

    method OfferNewer(snapshot: AppSnapshot)
      requires Valid() && forall k :: 0 <= k < |subscribers| ==> subscribers[k].receiverOpen
      modifies this`latest, this`subscribers, links
      ensures Valid() && subscribers == old(subscribers)
      ensures latest == if !closed && NewerThan(snapshot, old(latest)) then snapshot else old(latest)
      ensures forall k :: 0 <= k < |subscribers| ==>
                            subscribers[k].Half() == old(Offered(subscribers[k].Half(), snapshot))
    {
      hide NewerThan; hide Offered; hide Live; hide Next;
      if closed || !NewerThan(snapshot, latest) {
        forall k | 0 <= k < |subscribers| ensures Offered(subscribers[k].Half(), snapshot) == subscribers[k].Half() {
          Ignored(subscribers[k].Half(), snapshot);
        }
        return;
      }
      var change := Change(snapshot, Some(latest.revision));
      ghost var shown := latest;
      latest := snapshot;
      var kept := Distribute(change, shown);
      subscribers := kept;
    }

    /** The subscribers whose receiver still exists. Such a subscriber moves from `i` to `at[i]`. */
    method Reclaim() returns (kept: seq<Link>, ghost at: seq<nat>)
      requires Valid()
      ensures kept == Live(subscribers) && |kept| <= |subscribers|
      ensures forall k :: 0 <= k < |kept| ==>
                            kept[k].receiverOpen && kept[k].id < nextSubscription && Shows(kept[k], latest)
                                && kept[k] in links
      ensures forall j, k :: 0 <= j < k < |kept| ==> kept[j].id < kept[k].id
      ensures |at| == |subscribers|
      ensures forall i :: 0 <= i < |at| && subscribers[i].receiverOpen ==>
                            at[i] < |kept| && kept[at[i]] == subscribers[i]
    {
      hide Live;
      NoneLive(subscribers);
      kept, at := [], [];
      var i := 0;
      while i < |subscribers|
        invariant 0 <= i <= |subscribers| && |kept| <= i && kept == Live(subscribers[..i]) && |at| == i
        invariant forall k :: 0 <= k < |kept| ==>
                                kept[k].receiverOpen && kept[k].id < nextSubscription && Shows(kept[k], latest)
                                    && kept[k] in links
        invariant forall j, k :: 0 <= j < k < |kept| ==> kept[j].id < kept[k].id
        invariant i < |subscribers| ==> forall k :: 0 <= k < |kept| ==> kept[k].id < subscribers[i].id
        invariant forall j :: 0 <= j < i && subscribers[j].receiverOpen ==>
                                at[j] < |kept| && kept[at[j]] == subscribers[j]
      {
        LiveNext(subscribers, i);
        at := at + [|kept|];
        if subscribers[i].receiverOpen { kept := kept + [subscribers[i]]; }
        i := i + 1;
      }
      assert subscribers[..i] == subscribers;
    }

    /** Offers a change to every subscriber and returns those that still exist. */
    method Distribute(change: Change, ghost shown: AppSnapshot) returns (kept: seq<Link>)
      requires forall i :: 0 <= i < |subscribers| ==>
                             subscribers[i] in links && Shows(subscribers[i], shown) && subscribers[i].receiverOpen
      requires forall i, j :: 0 <= i < j < |subscribers| ==> subscribers[i].id < subscribers[j].id
      requires NewerThan(change.snapshot, shown) && change.previous == Some(shown.revision)
      modifies links
      ensures kept == subscribers
      ensures forall i :: 0 <= i < |subscribers| ==>
                            && Shows(subscribers[i], change.snapshot)
                            && subscribers[i].Half() == old(Offered(subscribers[i].Half(), change.snapshot))
    {
      hide NewerThan; hide Offered; hide Next;
      kept := [];
      var i := 0;
      while i < |subscribers|
        invariant 0 <= i <= |subscribers| && kept == subscribers[..i]
        invariant forall j :: i <= j < |subscribers| ==>
                                subscribers[j].Half() == old(subscribers[j].Half()) && subscribers[j].receiverOpen
        invariant forall j :: 0 <= j < i ==> Shows(subscribers[j], change.snapshot)
        invariant forall j :: 0 <= j < i ==>
                                subscribers[j].Half() == old(Offered(subscribers[j].Half(), change.snapshot))
      {
        assert old(Shows(subscribers[i], shown)) && subscribers[i].Half() == old(subscribers[i].Half());
        var open := subscribers[i].Accept(change);
        if open { kept := kept + [subscribers[i]]; }
        i := i + 1;
      }
    }

    method Close()
      requires Valid()
      modifies this`closed, this`subscribers, links
      ensures Valid() && closed && subscribers == []
      ensures forall i :: 0 <= i < |old(subscribers)| ==>
                            old(subscribers)[i].Half() == old(Next(subscribers[i].Half(), Disconnect))
    {
      closed := true;
      var i := 0;
      while i < |subscribers|
        invariant 0 <= i <= |subscribers| && subscribers == old(subscribers) && closed
        invariant forall j :: 0 <= j < |subscribers| ==>
                                subscribers[j].Half() == if j < i then old(Next(subscribers[j].Half(), Disconnect))
                                else old(subscribers[j].Half())
      {
        subscribers[i].senderOpen := false;
        i := i + 1;
      }
      subscribers := [];
    }
  }

  lemma NoneLive(subscribers: seq<Link>)
    ensures Live(subscribers[..0]) == []
  {}

  lemma LiveNext(subscribers: seq<Link>, i: nat)
    requires i < |subscribers|
    ensures Live(subscribers[..i + 1]) ==
            if subscribers[i].receiverOpen then Live(subscribers[..i]) + [subscribers[i]] else Live(subscribers[..i])
  {
    assert subscribers[..i + 1][..i] == subscribers[..i];
  }

  lemma Ignored(c: Channel, snapshot: AppSnapshot)
    requires c.sending.None? && (!c.open || !NewerThan(snapshot, c.cell.snapshot))
    ensures Offered(c, snapshot) == c
  {}

  lemma Started(c: Channel)
    requires Invariant(c) && c.stage.Idle?
    ensures After(c, [Start]) == c.(stage := Trying) && Invariant(c.(stage := Trying))
  {}

  lemma Popped(c: Channel)
    requires Invariant(c) && c.stage.Trying? && c.queue != []
    ensures Next(c, TryQueue) == Offer(c.(queue := c.queue[1..]), c.queue[0], Trying) && Invariant(Next(c, TryQueue))
  {
    StepKeeps(c, TryQueue);
  }

  lemma Read(c: Channel)
    requires Invariant(c) && c.stage.Trying? && c.queue == []
    ensures var next := Next(Next(c, TryQueue), ReadCell);
            && next == Offer(c, c.cell, if c.open then Waiting else ChangeStream.Ended)
            && Invariant(next)
            && (Stale(c, c.cell) ==> Current(next.(stage := Idle)))
  {
    StepKeeps(c, TryQueue);
    StepKeeps(Next(c, TryQueue), ReadCell);
    if Stale(c, c.cell) { NewestIsLast(c, c.delivered[|c.delivered| - 1]); }
  }

  /** The wake-up step: the head of the queue, another round if the sender is gone, or nothing. */
  lemma Woken(c: Channel)
    requires Invariant(c) && c.stage.Waiting?
    ensures After(c, [Wake]) ==
            if c.queue != [] then Offer(c.(queue := c.queue[1..]), c.queue[0], Trying)
            else if c.open then c
            else c.(stage := Trying)
    ensures Invariant(After(c, [Wake]))
    ensures c.queue == [] && c.open && c.sending.None? ==> Current(c.(stage := Idle))
  {
    hide Invariant; hide Next; hide After; hide Current;
    WakeIs(c);
    StepKeeps(c, Wake);
    RestIsCurrent(c);
  }

  lemma WakeIs(c: Channel)
    requires c.stage.Waiting?
    ensures After(c, [Wake]) == Next(c, Wake) ==
            if c.queue != [] then Offer(c.(queue := c.queue[1..]), c.queue[0], Trying)
            else if c.open then c
            else c.(stage := Trying)
  {
    assert [Wake][..0] == [];
    hide Offer;
  }

  lemma RestIsCurrent(c: Channel)
    requires Invariant(c) && c.stage.Waiting?
    ensures c.queue == [] && c.sending.None? ==> Current(c.(stage := Idle))
  {
    hide Publishing; hide Queued; hide Delivering;
  }

  lemma IdleAgain(c: Channel, stage: Stage)
    requires Invariant(c.(stage := stage))
    ensures Invariant(c.(stage := Idle))
  {
    IdleKeeps(c.(stage := stage));
  }

  lemma OneMore(c: Channel, steps: seq<Step>, step: Step)
    ensures After(c, steps + [step]) == Next(After(c, steps), step)
  {}

  /** A receiver may always be taken out of `receive` again. */
  lemma IdleKeeps(c: Channel)
    requires Invariant(c)
    ensures Invariant(c.(stage := Idle))
  {}
}
