/** The in-memory event bus: bounded subscriber buffers that drop when full. */
module MemBuses {
  import opened Sequences
  import opened Events

  /** What a buffer holds after an event is offered: dropped when the buffer is full or the subscription closed. */
  function Offered(capacity: nat, closed: bool, buffer: seq<Event>, event: Event): seq<Event> {
    if closed || |buffer| >= capacity then buffer else buffer + [event]
  }

  /** A subscription: a bounded channel and its closed flag. */
  class MemSub {
    const capacity: nat
    var buffer: seq<Event>
    var closed: bool

    constructor (capacity: nat)
      ensures this.capacity == capacity && buffer == [] && !closed
    {
      this.capacity, buffer, closed := capacity, [], false;
    }

    method Send(event: Event)
      modifies this`buffer
      ensures buffer == Offered(capacity, closed, old(buffer), event)
      ensures buffer == old(buffer) + if !closed && |old(buffer)| < capacity then [event] else []
      ensures |old(buffer)| <= capacity ==> |buffer| <= capacity
    {
      if closed {
        return;
      }
      if |buffer| < capacity {
        buffer := buffer + [event];
      }
    }

    /** Closing twice is the same as closing once; what is buffered stays readable. */
    method Close()
      modifies this`closed
      ensures closed
    {
      if !closed {
        closed := true;
      }
    }

    /** The next buffered event; none once a closed channel is drained. A receive on an open empty channel waits. */
    method Receive() returns (event: Option<Event>)
      requires buffer != [] || closed
      modifies this`buffer
      ensures old(buffer) != [] ==> event == Some(old(buffer)[0]) && buffer == old(buffer)[1..]
      ensures old(buffer) == [] ==> event == None && buffer == []
    {
      if buffer == [] {
        return None;
      }
      event := Some(buffer[0]);
      buffer := buffer[1..];
    }
  }

  const DEFAULT_BUFFER := 256

  class MemBus {
    const bufSize: nat
    var subs: map<string, seq<MemSub>>
    var globalSubs: seq<MemSub>
    var closed: bool

    /** No subscription is registered twice. */
    ghost predicate Valid()
      reads this`subs, this`globalSubs
    {
      && NoDup(globalSubs)
      && (forall run :: run in subs ==> NoDup(subs[run]))
      && (forall run, sub :: run in subs && sub in subs[run] ==> sub !in globalSubs)
      && (forall run, other, sub :: run in subs && other in subs && sub in subs[run] && sub in subs[other] ==> run == other)
    }

    /** The subscriptions an event of the run goes to. */
    ghost function Matching(run: string): set<MemSub>
      reads this`subs, this`globalSubs
    {
      Elements(Lookup(subs, run)) + Elements(globalSubs)
    }

    ghost function All(): set<MemSub>
      reads this`subs, this`globalSubs
    {
      (set run, sub | run in subs && sub in subs[run] :: sub) + Elements(globalSubs)
    }

    constructor (size: int)
      ensures Valid() && subs == map[] && globalSubs == [] && !closed
      ensures bufSize == if size <= 0 then DEFAULT_BUFFER else size
    {
      bufSize := if size <= 0 then DEFAULT_BUFFER else size;
      subs, globalSubs, closed := map[], [], false;
    }

    /** Every matching subscription is offered the event exactly once; a closed bus offers it to nobody. */
    method Publish(run: string, event: Event)
      requires Valid()
      modifies Matching(run)
      ensures forall sub :: sub in Matching(run) ==>
                sub.closed == old(sub.closed)
                && sub.buffer == if closed then old(sub.buffer)
                                 else Offered(sub.capacity, old(sub.closed), old(sub.buffer), event)
    {
      if closed {
        return;
      }
      SendAll(Lookup(subs, run), event);
      SendAll(globalSubs, event);
    }

    method Subscribe(run: string) returns (sub: MemSub)
      requires Valid()
      modifies this`subs
      ensures Valid() && fresh(sub) && sub.capacity == bufSize && sub.buffer == [] && !sub.closed
      ensures subs == old(subs)[run := Lookup(old(subs), run) + [sub]]
      ensures sub in Matching(run) && forall other :: other != run ==> Matching(other) == old(Matching(other))
    {
      sub := new MemSub(bufSize);
      ExtendNoDup(Lookup(subs, run), sub);
      subs := subs[run := Lookup(subs, run) + [sub]];
    }

    method SubscribeAll() returns (sub: MemSub)
      requires Valid()
      modifies this`globalSubs
      ensures Valid() && fresh(sub) && sub.capacity == bufSize && sub.buffer == [] && !sub.closed
      ensures globalSubs == old(globalSubs) + [sub]
      ensures forall run :: sub in Matching(run)
    {
      sub := new MemSub(bufSize);
      ExtendNoDup(globalSubs, sub);
      globalSubs := globalSubs + [sub];
    }

    /** Closes the bus and every subscription; buffered events stay. */
    method Close()
      requires Valid()
      modifies this`closed, All()
      ensures closed && forall sub :: sub in All() ==> sub.closed && sub.buffer == old(sub.buffer)
    {
      closed := true;
      var runs := subs.Keys;
      while runs != {}
        invariant closed && subs == old(subs) && runs <= subs.Keys
        invariant forall run, sub :: run in subs && run !in runs && sub in subs[run] ==> sub.closed
        invariant forall sub :: sub in All() ==> sub.buffer == old(sub.buffer)
        decreases runs
      {
        var run :| run in runs;
        forall sub | sub in subs[run]
          ensures sub in old(All())
        {
          assert run in old(subs) && sub in old(subs)[run];
        }
        CloseAll(subs[run]);
        runs := runs - {run};
      }
      CloseAll(globalSubs);
      forall sub | sub in All()
        ensures sub.closed
      {
        if sub !in globalSubs {
          var run :| run in subs && sub in subs[run];
        }
      }
    }
  }

  method SendAll(list: seq<MemSub>, event: Event)
    requires NoDup(list)
    modifies list
    ensures forall sub :: sub in list ==>
              sub.closed == old(sub.closed) && sub.buffer == Offered(sub.capacity, old(sub.closed), old(sub.buffer), event)
  {
    var i := 0;
    while i < |list|
      invariant 0 <= i <= |list|
      invariant forall k :: 0 <= k < |list| ==> list[k].closed == old(list[k].closed)
      invariant forall k :: 0 <= k < i ==>
                  list[k].buffer == Offered(list[k].capacity, list[k].closed, old(list[k].buffer), event)
      invariant forall k :: i <= k < |list| ==> list[k].buffer == old(list[k].buffer)
    {
      list[i].Send(event);
      i := i + 1;
    }
  }

  method CloseAll(list: seq<MemSub>)
    modifies list
    ensures forall sub :: sub in list ==> sub.closed
    ensures forall sub :: sub in list ==> sub.buffer == old(sub.buffer)
    ensures forall sub :: sub in list && old(sub.closed) ==> sub.closed
  {
    var i := 0;
    while i < |list|
      invariant 0 <= i <= |list|
      invariant forall k :: 0 <= k < i ==> list[k].closed
      invariant forall k :: 0 <= k < |list| ==> list[k].buffer == old(list[k].buffer)
      invariant forall k :: 0 <= k < |list| && old(list[k].closed) ==> list[k].closed
    {
      list[i].Close();
      i := i + 1;
    }
  }
}
