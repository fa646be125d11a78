/** The queue of a virtual tap within one up period.  The same code serves both directions, `Write`
    and `Recv` over virtC/virtQ, `Send` and `Read` over kernC/kernQ. */
module VirtualTap {
  import opened Bytes

  /** A Go channel with a buffer: a send on a full one would block. */
  class Chan {
    const cap: nat
    var items: seq<seq<byte>>

    constructor (cap: nat)
      ensures this.cap == cap && items == []
    {
      this.cap, items := cap, [];
    }

    /** The precondition is what keeps the sender from blocking. */
    method Send(x: seq<byte>)
      requires |items| < cap
      modifies this
      ensures items == old(items) + [x]
    {
      items := items + [x];
    }

    method Receive() returns (x: seq<byte>)
      requires items != []
      modifies this
      ensures x == old(items)[0] && items == old(items)[1..]
    {
      x := items[0];
      items := items[1..];
    }
  }

  /** One direction: the counter, what is queued, the readers that took an item and have not yet
      counted it off, and, for the specification, all that was accepted and all that was taken. */
  datatype Lane = Lane(count: int, queue: seq<seq<byte>>, holding: set<nat>,
                       accepted: seq<seq<byte>>, taken: seq<seq<byte>>, drops: nat)

  const EMPTY: Lane := Lane(0, [], {}, [], [], 0)

  datatype Event = Put(data: seq<byte>) | Take(reader: nat) | CountOff(reader: nat)

  /** A reader blocks on an empty queue; it counts off only what it took. */
  predicate Enabled(l: Lane, e: Event) {
    match e
    case Put(_) => true
    case Take(r) => l.queue != [] && r !in l.holding
    case CountOff(r) => r in l.holding
  }

  function Step(l: Lane, cap: int, e: Event): Lane
    requires Enabled(l, e)
  {
    match e
    case Put(data) =>
      if l.count >= cap then l.(drops := l.drops + 1)
      else l.(count := l.count + 1, queue := l.queue + [data], accepted := l.accepted + [data])
    case Take(r) => l.(queue := l.queue[1..], taken := l.taken + [l.queue[0]], holding := l.holding + {r})
    case CountOff(r) => l.(count := l.count - 1, holding := l.holding - {r})
  }

  ghost predicate Inv(l: Lane, cap: int) {
    && l.count == |l.queue| + |l.holding| && (l.count <= cap || l.count == 0)
    && l.accepted == l.taken + l.queue
  }

  ghost predicate Run(cap: int, lanes: seq<Lane>, events: seq<Event>) {
    && |lanes| == |events| + 1 && lanes[0] == EMPTY
    && forall i :: 0 <= i < |events| ==> Enabled(lanes[i], events[i]) && lanes[i + 1] == Step(lanes[i], cap, events[i])
  }

  lemma StepKeeps(l: Lane, cap: int, e: Event)
    requires Inv(l, cap) && Enabled(l, e)
    ensures Inv(Step(l, cap, e), cap)
  {
    if e.Take? {
      assert l.queue == [l.queue[0]] + l.queue[1..];
    }
  }

  lemma {:induction false} RunKeeps(cap: int, lanes: seq<Lane>, events: seq<Event>, i: nat)
    requires Run(cap, lanes, events) && i < |lanes|
    ensures Inv(lanes[i], cap)
  {
    if i > 0 {
      RunKeeps(cap, lanes, events, i - 1);
      StepKeeps(lanes[i - 1], cap, events[i - 1]);
    }
  }

  /** Under any interleaving the counter is the queued items plus those taken and not yet counted
      off, so an item that passes the counter test finds room in the channel and the sender never
      blocks with the lock held; what was received is a prefix of what was accepted, in order. */
  lemma NeverBlocks(cap: int, lanes: seq<Lane>, events: seq<Event>, i: nat)
    requires Run(cap, lanes, events) && i < |lanes|
    ensures var l := lanes[i];
            && l.count == |l.queue| + |l.holding|
            && (l.count < cap ==> |l.queue| < cap)
            && l.taken <= l.accepted && l.accepted[|l.taken|..] == l.queue
  {
    RunKeeps(cap, lanes, events, i);
  }

  /** Event `i` is a write that found room: queued items and items not yet counted off are below the
      limit. */
  predicate Fits(cap: int, l: Lane, e: Event) { e.Put? && |l.queue| + |l.holding| < cap }

  /** The data of the first `n` events that are writes with room, in order. */
  function Written(cap: int, lanes: seq<Lane>, events: seq<Event>, n: nat): seq<seq<byte>>
    requires n <= |events| <= |lanes|
  {
    if n == 0 then []
    else Written(cap, lanes, events, n - 1) + (if Fits(cap, lanes[n - 1], events[n - 1]) then [events[n - 1].data] else [])
  }

  /** How many of the first `n` events are writes without room, and how many are receives. */
  function Refused(cap: int, lanes: seq<Lane>, events: seq<Event>, n: nat): nat
    requires n <= |events| <= |lanes|
  {
    if n == 0 then 0
    else
      var e := events[n - 1];
      Refused(cap, lanes, events, n - 1) + (if e.Put? && !Fits(cap, lanes[n - 1], e) then 1 else 0)
  }

  function Taken(events: seq<Event>, n: nat): nat
    requires n <= |events|
  {
    if n == 0 then 0 else Taken(events, n - 1) + (if events[n - 1].Take? then 1 else 0)
  }

  /** In every run what was accepted is, in order, the data of exactly those writes that found room,
      all other writes are counted as drops, and the readers have received the oldest of them, one
      for each receive. */
  lemma {:induction false} WritesArrive(cap: int, lanes: seq<Lane>, events: seq<Event>, i: nat)
    requires Run(cap, lanes, events) && i < |lanes|
    ensures var l := lanes[i];
            && l.accepted == Written(cap, lanes, events, i) && l.drops == Refused(cap, lanes, events, i)
            && |l.taken| == Taken(events, i) <= |l.accepted| && l.taken == l.accepted[..|l.taken|]
            && l.queue == l.accepted[|l.taken|..]
  {
    RunKeeps(cap, lanes, events, i);
    if i > 0 {
      WritesArrive(cap, lanes, events, i - 1);
      RunKeeps(cap, lanes, events, i - 1);
    }
  }

  /** The tap of one up period; each method is what one critical section or channel operation does. */
  class Tap {
    const bufSize: nat
    const queue: Chan
    var count: int
    var drops: nat
    ghost var holding: set<nat>
    ghost var accepted: seq<seq<byte>>
    ghost var taken: seq<seq<byte>>

    ghost function Now(): Lane reads this, queue { Lane(count, queue.items, holding, accepted, taken, drops) }

    ghost predicate Valid() reads this, queue { queue.cap == bufSize && Inv(Now(), bufSize) }

    constructor Up(bufSize: nat)
      ensures Valid() && this.bufSize == bufSize && Now() == EMPTY && fresh(queue)
    {
      this.bufSize := bufSize;
      queue := new Chan(bufSize);
      count, drops, holding, accepted, taken := 0, 0, {}, [], [];
    }

    /** Under the lock: drop when the counter is at the limit, else count and send. */
    method Write(p: seq<byte>) returns (n: nat)
      requires Valid()
      modifies this, queue
      ensures Valid() && Now() == Step(old(Now()), bufSize, Put(p))
      ensures if |old(queue.items)| + |holding| < bufSize
              then n == |p| && queue.items == old(queue.items) + [p] && drops == old(drops)
              else n == 0 && queue.items == old(queue.items) && drops == old(drops) + 1
    {
      StepKeeps(Now(), bufSize, Put(p));
      if count >= bufSize {
        drops := drops + 1;
        return 0;
      }
      count := count + 1;
      queue.Send(p);
      accepted := accepted + [p];
      return |p|;
    }

    /** The channel receive of `Recv`, outside the lock. */
    method RecvTake(ghost reader: nat) returns (data: seq<byte>)
      requires Valid() && Enabled(Now(), Take(reader))
      modifies this, queue
      ensures Valid() && Now() == Step(old(Now()), bufSize, Take(reader)) && data == old(queue.items)[0]
    {
      StepKeeps(Now(), bufSize, Take(reader));
      data := queue.Receive();
      holding, taken := holding + {reader}, taken + [data];
    }

    /** The second critical section of `Recv`. */
    method RecvDone(ghost reader: nat)
      requires Valid() && Enabled(Now(), CountOff(reader))
      modifies this
      ensures Valid() && Now() == Step(old(Now()), bufSize, CountOff(reader))
    {
      StepKeeps(Now(), bufSize, CountOff(reader));
      count := count - 1;
      holding := holding - {reader};
    }
  }
}
