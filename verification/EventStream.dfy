/**
 The server-sent event stream of one run: subscribe, replay what is stored, then follow the live
 subscription, skipping what was already sent.
 */
module EventStreams {
  import opened Sequences
  import opened Events
  import opened MemBuses

  /** What has been written, the highest sequence number sent, and whether run.finished was among it. */
  datatype Progress = Progress(written: seq<Event>, lastSeq: nat, finished: bool)

  /** Sequence numbers strictly increase, starting above the cursor. */
  ghost predicate Increasing(events: seq<Event>, after: nat) {
    && (forall i :: 0 <= i < |events| ==> events[i].number > after)
    && (forall i, j :: 0 <= i < j < |events| ==> events[i].number < events[j].number)
  }

  lemma IncreasingExtend(events: seq<Event>, after: nat, e: Event)
    requires Increasing(events, after)
    requires e.number > if events == [] then after else events[|events| - 1].number
    ensures Increasing(events + [e], after)
  {
  }

  /** One stored event is replayed. */
  function Replay(p: Progress, e: Event): Progress {
    if p.finished then p
    else Progress(p.written + [e], if e.number > p.lastSeq then e.number else p.lastSeq, e.kind.RunFinished?)
  }

  /** One live event arrives. */
  function Follow(p: Progress, e: Event): Progress {
    if p.finished || e.number <= p.lastSeq then p else Progress(p.written + [e], e.number, e.kind.RunFinished?)
  }

  ghost function ReplayAll(p: Progress, events: seq<Event>): Progress {
    if events == [] then p else Replay(ReplayAll(p, events[..|events| - 1]), events[|events| - 1])
  }

  ghost function FollowAll(p: Progress, events: seq<Event>): Progress {
    if events == [] then p else Follow(FollowAll(p, events[..|events| - 1]), events[|events| - 1])
  }

  lemma ReplayNextEvent(p: Progress, events: seq<Event>, i: nat)
    requires i < |events|
    ensures ReplayAll(p, events[..i + 1]) == Replay(ReplayAll(p, events[..i]), events[i])
    ensures FollowAll(p, events[..i + 1]) == Follow(FollowAll(p, events[..i]), events[i])
  {
    assert events[..i + 1][..i] == events[..i];
  }

  /** Nothing is written after run.finished. */
  lemma {:induction false} FinishedStays(p: Progress, events: seq<Event>, i: nat)
    requires i <= |events|
    ensures ReplayAll(p, events[..i]).finished ==> ReplayAll(p, events) == ReplayAll(p, events[..i])
    ensures FollowAll(p, events[..i]).finished ==> FollowAll(p, events) == FollowAll(p, events[..i])
    decreases |events| - i
  {
    if i < |events| {
      ReplayNextEvent(p, events, i);
      FinishedStays(p, events, i + 1);
    } else {
      assert events[..i] == events;
    }
  }

  /** Progress whose numbers increase and whose cursor is the last of them. */
  ghost predicate Sorted(p: Progress, after: nat) {
    && Increasing(p.written, after)
    && p.lastSeq == if p.written == [] then after else p.written[|p.written| - 1].number
  }

  lemma NothingSent(after: nat)
    ensures Sorted(Progress([], after, false), after)
    ensures forall p :: ReplayAll(p, []) == p
  {
  }

  lemma ReplaySorted(p: Progress, after: nat, events: seq<Event>, i: nat)
    requires Increasing(events, after) && i < |events|
    requires p.written == events[..i] && Sorted(p, after) && !p.finished
    ensures Sorted(Replay(p, events[i]), after) && Replay(p, events[i]).written == events[..i + 1]
  {
    TakeNext(events, i);
    IncreasingExtend(p.written, after, events[i]);
  }

  lemma FollowSorted(p: Progress, after: nat, e: Event)
    requires Sorted(p, after) && !p.finished && e.number > p.lastSeq
    ensures Sorted(Follow(p, e), after) && Follow(p, e) == Progress(p.written + [e], e.number, e.kind.RunFinished?)
  {
    IncreasingExtend(p.written, after, e);
  }

  lemma NothingFollowed(p: Progress)
    ensures FollowAll(p, []) == p
  {
  }

  /** What a request handler keeps while it streams. Failures are a closed connection or a write error. */
  class Stream {
    var written: seq<Event>
    var lastSeq: nat
    ghost var finished: bool

    ghost function View(): Progress
      reads this
    {
      Progress(written, lastSeq, finished)
    }

    constructor (after: nat)
      ensures View() == Progress([], after, false) && Sorted(View(), after)
    {
      written, lastSeq, finished := [], after, false;
    }

    /** Writes the listed events, stopping at run.finished or at the first failure. */
    method ReplayStored(events: seq<Event>, after: nat, fails: nat -> bool) returns (done: bool, failed: bool)
      requires Increasing(events, after)
      requires View() == Progress([], after, false)
      modifies this
      ensures Sorted(View(), after) && done == finished && (done ==> !failed)
      ensures failed ==> exists i :: 0 <= i < |events| && fails(i)
      ensures !failed ==> View() == ReplayAll(old(View()), events)
      ensures written <= events
    {
      hide Increasing, Sorted, ReplayAll;
      NothingSent(after);
      var i := 0;
      while i < |events|
        invariant 0 <= i <= |events|
        invariant View() == ReplayAll(old(View()), events[..i]) && !finished
        invariant written == events[..i] && Sorted(View(), after)
      {
        if fails(i) {
          return false, true;
        }
        ReplayNextEvent(old(View()), events, i);
        ReplaySorted(View(), after, events, i);
        written := written + [events[i]];
        if events[i].number > lastSeq {
          lastSeq := events[i].number;
        }
        if events[i].kind.RunFinished? {
          finished := true;
          FinishedStays(old(View()), events, i + 1);
          return true, false;
        }
        i := i + 1;
      }
      assert events[..i] == events;
      done, failed := false, false;
    }

    /** Follows the events received from the subscription, whatever they are, until run.finished or a failure. */
    method StreamLive(feed: seq<Event>, ghost after: nat, fails: nat -> bool) returns (failed: bool)
      requires Sorted(View(), after) && !finished
      modifies this
      ensures Sorted(View(), after) && old(written) <= written
      ensures failed ==> exists i :: 0 <= i < |feed| && fails(i)
      ensures !failed ==> View() == FollowAll(old(View()), feed)
    {
      hide Sorted, FollowAll;
      NothingFollowed(View());
      var i := 0;
      while i < |feed|
        invariant 0 <= i <= |feed|
        invariant View() == FollowAll(old(View()), feed[..i]) && !finished
        invariant Sorted(View(), after) && old(written) <= written
      {
        ReplayNextEvent(old(View()), feed, i);
        if feed[i].number <= lastSeq {
          i := i + 1;
          continue;
        }
        if fails(i) {
          return true;
        }
        FollowSorted(View(), after, feed[i]);
        written := written + [feed[i]];
        lastSeq := feed[i].number;
        if feed[i].kind.RunFinished? {
          finished := true;
          FinishedStays(old(View()), feed, i + 1);
          return false;
        }
        i := i + 1;
      }
      assert feed[..i] == feed;
      failed := false;
    }
  }

  /**
   Both phases. Whatever is stored, whatever arrives on the subscription and whenever the connection
   breaks, the sequence numbers written strictly increase and stay above the cursor.
   */
  method Serve(after: nat, stored: seq<Event>, feed: seq<Event>, fails: nat -> bool, failsLive: nat -> bool)
    returns (written: seq<Event>)
    requires Increasing(stored, after)
    ensures Increasing(written, after)
    ensures (forall i :: !fails(i) && !failsLive(i)) ==>
              written == FollowAll(ReplayAll(Progress([], after, false), stored), feed).written
  {
    var stream := new Stream(after);
    var done, failed := stream.ReplayStored(stored, after, fails);
    if done {
      FinishedStays(stream.View(), feed, 0);
      assert feed[..0] == [];
    }
    if !done && !failed {
      failed := stream.StreamLive(feed, after, failsLive);
    }
    written := stream.written;
  }

  // ----- what two phases write

  ghost function Served(after: nat, listed: seq<Event>, feed: seq<Event>): Progress {
    FollowAll(ReplayAll(Progress([], after, false), listed), feed)
  }

  /** Position j of the feed brings something higher than the cursor, the listing and everything before it. */
  ghost predicate IsNew(after: nat, listed: seq<Event>, feed: seq<Event>, j: nat) {
    && j < |feed|
    && feed[j].number > after
    && (forall e :: e in listed ==> e.number < feed[j].number)
    && (forall i :: 0 <= i < j ==> feed[i].number < feed[j].number)
  }

  ghost predicate BringsNew(after: nat, listed: seq<Event>, feed: seq<Event>, e: Event) {
    exists j: nat :: IsNew(after, listed, feed, j) && feed[j] == e
  }

  /** No event above the cursor is numbered higher than a run.finished above it. */
  ghost predicate EndsRun(after: nat, e: Event, f: Event) {
    f.kind.RunFinished? && f.number > after ==> e.number <= f.number
  }

  ghost predicate FinishIsLast(after: nat, events: seq<Event>) {
    forall e, f :: e in events && f in events ==> EndsRun(after, e, f)
  }

  lemma ReplayOneMore(after: nat, listed: seq<Event>, last: nat, p: Progress)
    requires last < |listed| && Increasing(listed, after) && FinishIsLast(after, listed)
    requires p.written == listed[..last] && Sorted(p, after)
    requires p.finished ==> last > 0 && listed[last - 1].kind.RunFinished?
    ensures Replay(p, listed[last]).written == listed[..last + 1] && Sorted(Replay(p, listed[last]), after)
    ensures Replay(p, listed[last]).finished <==> listed[last].kind.RunFinished?
  {
    if last > 0 {
      assert listed[last - 1] in listed && listed[last] in listed;
      assert EndsRun(after, listed[last], listed[last - 1]);
    }
    ReplaySorted(p, after, listed, last);
  }

  lemma {:induction false} ReplaysAll(after: nat, listed: seq<Event>)
    requires Increasing(listed, after) && FinishIsLast(after, listed)
    ensures var p := ReplayAll(Progress([], after, false), listed);
            && p.written == listed && Sorted(p, after)
            && (p.finished <==> listed != [] && listed[|listed| - 1].kind.RunFinished?)
  {
    if listed != [] {
      var last := |listed| - 1;
      FinishAmongFewer(after, listed[..last], listed);
      ReplaysAll(after, listed[..last]);
      hide FinishIsLast, Increasing, Sorted, Replay;
      ReplayOneMore(after, listed, last, ReplayAll(Progress([], after, false), listed[..last]));
      assert listed[..last + 1] == listed;
    }
  }

  /** What the cursor of the stream says after following `feed`. */
  ghost predicate Tops(after: nat, listed: seq<Event>, feed: seq<Event>, p: Progress) {
    && p.lastSeq >= after
    && (forall e :: e in listed + feed ==> e.number <= p.lastSeq)
    && (p.lastSeq == after || exists e :: e in listed + feed && e.number == p.lastSeq)
    && (p.finished ==> exists f :: f in listed + feed && f.number == p.lastSeq > after && f.kind.RunFinished?)
  }

  /** Exactly the listed events and those that bring something new. */
  ghost predicate WritesExactly(after: nat, listed: seq<Event>, feed: seq<Event>, p: Progress) {
    forall e :: e in p.written <==> e in listed || BringsNew(after, listed, feed, e)
  }

  lemma ReplayedTops(after: nat, listed: seq<Event>)
    requires Increasing(listed, after) && FinishIsLast(after, listed)
    ensures Tops(after, listed, [], Served(after, listed, []))
    ensures WritesExactly(after, listed, [], Served(after, listed, []))
  {
    ReplaysAll(after, listed);
    hide ReplayAll, FinishIsLast;
    assert listed + [] == listed;
    if listed != [] {
      LastIsTop(listed, after);
    }
  }

  lemma LastIsTop(listed: seq<Event>, after: nat)
    requires Increasing(listed, after) && listed != []
    ensures listed[|listed| - 1] in listed && listed[|listed| - 1].number > after
    ensures forall e :: e in listed ==> e.number <= listed[|listed| - 1].number
  {
  }

  /** Where the feed is lower than the cursor there is nothing new, and above it there is. */
  lemma NewIffAbove(after: nat, listed: seq<Event>, feed: seq<Event>, e: Event, p: Progress)
    requires Tops(after, listed, feed, p)
    ensures IsNew(after, listed, feed + [e], |feed|) <==> e.number > p.lastSeq
  {
    var longer := feed + [e];
    forall x | x in listed + feed
      ensures x in listed || exists i :: 0 <= i < |feed| && longer[i] == x
    {
      if x !in listed {
        var i :| 0 <= i < |feed| && feed[i] == x;
        assert longer[i] == x;
      }
    }
    forall i | 0 <= i < |feed|
      ensures longer[i] in listed + feed
    {
      assert feed[i] in listed + feed;
    }
  }

  lemma BringsMore(after: nat, listed: seq<Event>, feed: seq<Event>, e: Event, x: Event)
    ensures BringsNew(after, listed, feed + [e], x) <==>
              BringsNew(after, listed, feed, x) || (x == e && IsNew(after, listed, feed + [e], |feed|))
  {
    var longer := feed + [e];
    forall j: nat | j < |feed|
      ensures IsNew(after, listed, longer, j) <==> IsNew(after, listed, feed, j)
    {
      assert forall i :: 0 <= i <= j ==> longer[i] == feed[i];
    }
    if BringsNew(after, listed, feed, x) {
      var j: nat :| IsNew(after, listed, feed, j) && feed[j] == x;
      assert IsNew(after, listed, longer, j) && longer[j] == x;
    }
    if BringsNew(after, listed, longer, x) {
      var j: nat :| IsNew(after, listed, longer, j) && longer[j] == x;
      assert j < |feed| ==> IsNew(after, listed, feed, j) && feed[j] == x;
    }
  }

  lemma FollowTops(after: nat, listed: seq<Event>, feed: seq<Event>, e: Event, p: Progress)
    requires Tops(after, listed, feed, p) && FinishIsLast(after, listed + (feed + [e]))
    ensures Tops(after, listed, feed + [e], Follow(p, e))
    ensures e.number > p.lastSeq ==> !p.finished
  {
    var all := listed + (feed + [e]);
    assert forall x :: x in all <==> x in listed + feed || x == e;
    if p.finished {
      var f :| f in listed + feed && f.number == p.lastSeq > after && f.kind.RunFinished?;
      assert EndsRun(after, e, f);
    }
  }

  lemma FollowExactly(after: nat, listed: seq<Event>, feed: seq<Event>, e: Event, p: Progress)
    requires WritesExactly(after, listed, feed, p)
    requires IsNew(after, listed, feed + [e], |feed|) <==> e.number > p.lastSeq
    requires e.number > p.lastSeq ==> !p.finished
    ensures WritesExactly(after, listed, feed + [e], Follow(p, e))
  {
    hide IsNew, BringsNew;
    forall x
      ensures BringsNew(after, listed, feed + [e], x) <==>
                BringsNew(after, listed, feed, x) || (x == e && e.number > p.lastSeq)
    {
      BringsMore(after, listed, feed, e, x);
    }
  }

  lemma FinishAmongFewer(after: nat, events: seq<Event>, more: seq<Event>)
    requires FinishIsLast(after, more) && forall e :: e in events ==> e in more
    ensures FinishIsLast(after, events)
  {
  }

  /** Which events a stream writes, for every listing and every feed. */
  lemma {:induction false} ServedExactly(after: nat, listed: seq<Event>, feed: seq<Event>)
    requires Increasing(listed, after) && FinishIsLast(after, listed + feed)
    ensures Tops(after, listed, feed, Served(after, listed, feed))
    ensures WritesExactly(after, listed, feed, Served(after, listed, feed))
  {
    hide Tops, FinishIsLast, IsNew, WritesExactly, ReplayAll, Increasing;
    if feed == [] {
      assert listed + feed == listed;
      ReplayedTops(after, listed);
    } else {
      var front, e := feed[..|feed| - 1], feed[|feed| - 1];
      SplitLast(feed);
      FinishAmongFewer(after, listed + front, listed + feed);
      ServedExactly(after, listed, front);
      var p := Served(after, listed, front);
      FollowTops(after, listed, front, e, p);
      NewIffAbove(after, listed, front, e, p);
      FollowExactly(after, listed, front, e, p);
    }
  }

  /** Whatever comes in, the numbers written increase, and run.finished is the end. */
  ghost predicate Ends(p: Progress) {
    forall i :: 0 <= i < |p.written| && p.written[i].kind.RunFinished? ==> p.finished && i == |p.written| - 1
  }

  lemma {:induction false} FollowsSorted(after: nat, p: Progress, feed: seq<Event>)
    requires Sorted(p, after) && Ends(p)
    ensures Sorted(FollowAll(p, feed), after) && Ends(FollowAll(p, feed))
  {
    if feed != [] {
      FollowsSorted(after, p, feed[..|feed| - 1]);
      var q, e := FollowAll(p, feed[..|feed| - 1]), feed[|feed| - 1];
      if !q.finished && e.number > q.lastSeq {
        IncreasingExtend(q.written, after, e);
      }
    }
  }

  lemma ReplayStepSorted(after: nat, p: Progress, listed: seq<Event>, last: nat)
    requires last < |listed| && Increasing(listed, after) && Sorted(p, after) && Ends(p)
    requires !p.finished ==> p.written == listed[..last]
    ensures Sorted(Replay(p, listed[last]), after) && Ends(Replay(p, listed[last]))
    ensures !Replay(p, listed[last]).finished ==> Replay(p, listed[last]).written == listed[..last + 1]
  {
    if !p.finished {
      ReplaySorted(p, after, listed, last);
    }
  }

  lemma {:induction false} ReplaysSorted(after: nat, listed: seq<Event>)
    requires Increasing(listed, after)
    ensures var p := ReplayAll(Progress([], after, false), listed);
            Sorted(p, after) && Ends(p) && (!p.finished ==> p.written == listed)
  {
    if listed != [] {
      var last := |listed| - 1;
      ReplaysSorted(after, listed[..last]);
      hide Increasing, Sorted, Ends, Replay;
      ReplayStepSorted(after, ReplayAll(Progress([], after, false), listed[..last]), listed, last);
      assert listed[..last + 1] == listed;
    }
  }

  // ----- filtering

  /** The events of a run that are in the pool and above the cursor, in run order. */
  ghost function Kept(run: seq<Event>, pool: set<Event>, after: nat): seq<Event> {
    if run == [] then []
    else
      var last := run[|run| - 1];
      Kept(run[..|run| - 1], pool, after) + if last in pool && last.number > after then [last] else []
  }

  ghost predicate Ascending(run: seq<Event>) {
    forall i, j :: 0 <= i < j < |run| ==> run[i].number < run[j].number
  }

  lemma {:induction false} KeptMembers(run: seq<Event>, pool: set<Event>, after: nat, e: Event)
    ensures e in Kept(run, pool, after) <==> e in run && e in pool && e.number > after
  {
    if run != [] {
      KeptMembers(run[..|run| - 1], pool, after, e);
      assert run == run[..|run| - 1] + [run[|run| - 1]];
    }
  }

  lemma {:induction false} KeptIncreasing(run: seq<Event>, pool: set<Event>, after: nat)
    requires Ascending(run)
    ensures Increasing(Kept(run, pool, after), after)
  {
    if run != [] {
      var front, last := run[..|run| - 1], run[|run| - 1];
      KeptIncreasing(front, pool, after);
      forall i | 0 <= i < |Kept(front, pool, after)|
        ensures Kept(front, pool, after)[i].number < last.number
      {
        KeptMembers(front, pool, after, Kept(front, pool, after)[i]);
      }
    }
  }

  /** The run's events above the cursor: what a complete stream consists of. */
  ghost function Later(run: seq<Event>, after: nat): seq<Event> {
    Kept(run, Elements(run), after)
  }

  lemma IncreasingHead(a: seq<Event>, b: seq<Event>, after: nat)
    requires Increasing(a, after) && Increasing(b, after) && a != [] && Elements(a) == Elements(b)
    ensures b != [] && a[|a| - 1] == b[|b| - 1]
    ensures Elements(a[..|a| - 1]) == Elements(b[..|b| - 1])
  {
    var x := a[|a| - 1];
    assert x in Elements(b);
    var y := b[|b| - 1];
    assert y in Elements(a);
    DropLast(a, after);
    DropLast(b, after);
  }

  lemma DropLast(a: seq<Event>, after: nat)
    requires Increasing(a, after) && a != []
    ensures Elements(a[..|a| - 1]) == Elements(a) - {a[|a| - 1]}
    ensures forall e :: e in a ==> e.number <= a[|a| - 1].number
  {
    assert a == a[..|a| - 1] + [a[|a| - 1]];
  }

  lemma NoElements(a: seq<Event>)
    ensures Elements(a) == {} <==> a == []
  {
    if a != [] {
      assert a[0] in Elements(a);
    }
  }

  /** Increasing numbers make a list of events unique. */
  lemma {:induction false} IncreasingDetermined(a: seq<Event>, b: seq<Event>, after: nat)
    requires Increasing(a, after) && Increasing(b, after) && Elements(a) == Elements(b)
    ensures a == b
  {
    NoElements(a);
    NoElements(b);
    if a != [] {
      IncreasingHead(a, b, after);
      IncreasingDetermined(a[..|a| - 1], b[..|b| - 1], after);
      assert a == a[..|a| - 1] + [a[|a| - 1]] && b == b[..|b| - 1] + [b[|b| - 1]];
    }
  }

  // ----- the stream beside its producer

  /**
   A run's events in number order; the orders in which they are published and stored, which differ from
   it and from each other when several goroutines emit at once; the requested cursor; the subscriber's
   buffer size.
   */
  datatype Session = Session(run: seq<Event>, publishing: seq<Event>, storing: seq<Event>, after: nat, capacity: nat)

  /** Numbers are given out once, and every event is published once and stored once. */
  ghost predicate Proper(c: Session) {
    && Ascending(c.run)
    && multiset(c.publishing) == multiset(c.run)
    && multiset(c.storing) == multiset(c.run)
  }

  datatype StreamPhase = Idle | Subscribed | Replaying | Live

  /**
   The run publishes and stores its events while the handler subscribes, lists and streams. The marks
   record how many events were published at Subscribe, stored at List, and published up to the last one
   taken from the subscription.
   */
  datatype StreamState = StreamState(
    published: nat,
    stored: nat,
    phase: StreamPhase,
    buffer: seq<Event>,
    dropped: bool,
    listed: seq<Event>,
    replayed: nat,
    progress: Progress,
    subscribedAt: nat,
    listedAt: nat,
    taken: nat)

  datatype StreamAction = PublishNext | StoreNext | Subscribe | ListStored | ReplayNext | GoLive | ReceiveNext

  ghost function StreamInitial(c: Session): StreamState {
    StreamState(0, 0, Idle, [], false, [], 0, Progress([], c.after, false), 0, 0, 0)
  }

  /** What EventStore.List answers once the first k events of the storing order are stored. */
  ghost function Listed(c: Session, k: nat): seq<Event>
    requires k <= |c.storing|
  {
    Kept(c.run, Elements(c.storing[..k]), c.after)
  }

  ghost predicate StreamEnabled(c: Session, s: StreamState, a: StreamAction) {
    match a
    case PublishNext => s.published < |c.publishing|
    case StoreNext => s.stored < |c.storing|
    case Subscribe => s.phase == Idle
    case ListStored => s.phase == Subscribed && s.stored <= |c.storing|
    case ReplayNext => s.phase == Replaying && s.replayed < |s.listed| && !s.progress.finished
    case GoLive => s.phase == Replaying && s.replayed == |s.listed| && !s.progress.finished
    case ReceiveNext => s.phase == Live && s.buffer != [] && !s.progress.finished
  }

  ghost function StreamStep(c: Session, s: StreamState, a: StreamAction): StreamState
    requires StreamEnabled(c, s, a)
  {
    match a
    case PublishNext =>
      var s' := s.(published := s.published + 1);
      if s.phase == Idle || s.progress.finished then s'
      else s'.(buffer := Offered(c.capacity, false, s.buffer, c.publishing[s.published]),
               dropped := s.dropped || |s.buffer| >= c.capacity)
    case StoreNext => s.(stored := s.stored + 1)
    case Subscribe => s.(phase := Subscribed, subscribedAt := s.published, taken := s.published)
    case ListStored => s.(phase := Replaying, listed := Listed(c, s.stored), listedAt := s.stored)
    case ReplayNext => s.(replayed := s.replayed + 1, progress := Replay(s.progress, s.listed[s.replayed]))
    case GoLive => s.(phase := Live)
    case ReceiveNext => s.(buffer := s.buffer[1..], taken := s.taken + 1, progress := Follow(s.progress, s.buffer[0]))
  }

  ghost predicate StreamLegal(c: Session, actions: seq<StreamAction>)
    decreases |actions|, 0
  {
    actions == [] ||
    (var front := actions[..|actions| - 1];
     StreamLegal(c, front) && StreamEnabled(c, StreamPlay(c, front), actions[|actions| - 1]))
  }

  ghost function StreamPlay(c: Session, actions: seq<StreamAction>): StreamState
    requires StreamLegal(c, actions)
    decreases |actions|
  {
    if actions == [] then StreamInitial(c)
    else StreamStep(c, StreamPlay(c, actions[..|actions| - 1]), actions[|actions| - 1])
  }

  // ----- invariant

  ghost predicate Bounded(c: Session, s: StreamState) {
    && s.published <= |c.publishing| && s.stored <= |c.storing| && s.listedAt <= |c.storing|
    && s.subscribedAt <= s.taken <= s.published
  }

  /** The subscription holds exactly what was published and not yet taken. */
  ghost predicate Holds(c: Session, s: StreamState)
    requires Bounded(c, s)
  {
    s.buffer == c.publishing[s.taken..s.published]
  }

  ghost predicate Waits(c: Session, s: StreamState)
    requires Bounded(c, s)
  {
    s.taken == s.subscribedAt && (!s.progress.finished ==> Holds(c, s))
  }

  /** As long as nothing was dropped, progress is a function of what was listed and of what was received. */
  ghost predicate InStep(c: Session, s: StreamState) {
    && Bounded(c, s)
    && var start := Progress([], c.after, false);
       match s.phase
       case Idle => s.buffer == [] && s.taken == 0 && s.replayed == 0 && s.progress == start
       case Subscribed => s.progress == start && s.replayed == 0 && Waits(c, s)
       case Replaying =>
         && s.listed == Listed(c, s.listedAt) && s.replayed <= |s.listed|
         && s.progress == ReplayAll(start, s.listed[..s.replayed]) && Waits(c, s)
       case Live =>
         && s.progress == Served(c.after, Listed(c, s.listedAt), c.publishing[s.subscribedAt..s.taken])
         && (!s.progress.finished ==> Holds(c, s))
  }

  lemma SliceExtend<T>(s: seq<T>, i: nat, j: nat)
    requires i <= j < |s|
    ensures s[i..j + 1] == s[i..j] + [s[j]]
    ensures s[i..j + 1][..j - i] == s[i..j]
  {
  }

  lemma SliceTail<T>(s: seq<T>, i: nat, j: nat)
    requires i < j <= |s|
    ensures s[i..j][0] == s[i] && s[i..j][1..] == s[i + 1..j]
  {
  }

  lemma PublishInStep(c: Session, s: StreamState)
    requires InStep(c, s) && StreamEnabled(c, s, PublishNext)
    ensures var s' := StreamStep(c, s, PublishNext); s'.dropped || InStep(c, s')
  {
    hide Listed, ReplayAll, Served;
    SliceExtend(c.publishing, s.taken, s.published);
  }

  lemma GoLiveInStep(c: Session, s: StreamState)
    requires InStep(c, s) && StreamEnabled(c, s, GoLive)
    ensures InStep(c, StreamStep(c, s, GoLive))
  {
    hide Listed, ReplayAll;
    assert s.listed[..|s.listed|] == s.listed;
    assert c.publishing[s.subscribedAt..s.taken] == [];
  }

  lemma ReceiveInStep(c: Session, s: StreamState)
    requires InStep(c, s) && StreamEnabled(c, s, ReceiveNext)
    ensures InStep(c, StreamStep(c, s, ReceiveNext))
  {
    hide Listed, ReplayAll;
    SliceTail(c.publishing, s.taken, s.published);
    SliceExtend(c.publishing, s.subscribedAt, s.taken);
  }

  lemma StepInStep(c: Session, s: StreamState, a: StreamAction)
    requires InStep(c, s) && StreamEnabled(c, s, a)
    ensures var s' := StreamStep(c, s, a); s'.dropped || InStep(c, s')
  {
    match a
    case PublishNext => PublishInStep(c, s);
    case StoreNext =>
    case Subscribe =>
    case ListStored =>
    case ReplayNext => ReplayNextEvent(Progress([], c.after, false), s.listed, s.replayed);
    case GoLive => GoLiveInStep(c, s);
    case ReceiveNext => ReceiveInStep(c, s);
  }

  lemma DropsStay(c: Session, s: StreamState, a: StreamAction)
    requires StreamEnabled(c, s, a) && s.dropped
    ensures StreamStep(c, s, a).dropped
  {
  }

  /** Whatever the publishing and storing orders and the interleaving. */
  lemma {:induction false} RunsStayInStep(c: Session, actions: seq<StreamAction>)
    requires StreamLegal(c, actions) && !StreamPlay(c, actions).dropped
    ensures InStep(c, StreamPlay(c, actions))
  {
    if actions != [] {
      var front, a := actions[..|actions| - 1], actions[|actions| - 1];
      var s := StreamPlay(c, front);
      hide InStep;
      if s.dropped {
        DropsStay(c, s, a);
      } else {
        RunsStayInStep(c, front);
        StepInStep(c, s, a);
      }
    }
  }

  // ----- completeness

  /** The handler has returned after run.finished, or has nothing left to wait for. */
  ghost predicate Settled(c: Session, s: StreamState) {
    || s.progress.finished
    || (s.phase == Live && s.published == |c.publishing| && s.buffer == [])
  }

  ghost predicate Marked(c: Session, s: StreamState) {
    s.listedAt <= |c.storing| && s.subscribedAt <= |c.publishing|
  }

  /** A settled stream wrote what its listing and everything published since Subscribe amount to. */
  lemma SettledServed(c: Session, s: StreamState)
    requires InStep(c, s) && Settled(c, s)
    ensures Marked(c, s)
    ensures s.progress == Served(c.after, Listed(c, s.listedAt), c.publishing[s.subscribedAt..])
  {
    hide Listed, ReplayAll;
    var start, feed := Progress([], c.after, false), c.publishing[s.subscribedAt..];
    if s.phase == Replaying {
      FinishedStays(start, s.listed, s.replayed);
      FinishedStays(ReplayAll(start, s.listed), feed, 0);
      assert feed[..0] == [];
    } else if s.phase == Live {
      assert feed[..s.taken - s.subscribedAt] == c.publishing[s.subscribedAt..s.taken];
      if s.progress.finished {
        FinishedStays(ReplayAll(start, Listed(c, s.listedAt)), feed, s.taken - s.subscribedAt);
      } else {
        assert s.taken == |c.publishing|;
        assert feed[..|feed|] == feed;
      }
    }
  }

  /** Above the cursor and not in the listing. */
  ghost predicate Unlisted(c: Session, s: StreamState, e: Event)
    requires Marked(c, s)
  {
    e in c.run && e.number > c.after && e !in c.storing[..s.listedAt]
  }

  /** Published before Subscribe and stored only after List. */
  ghost predicate Missed(c: Session, s: StreamState, e: Event)
    requires Marked(c, s)
  {
    Unlisted(c, s, e) && e in c.publishing[..s.subscribedAt]
  }

  /** A higher-numbered event was listed, or published between Subscribe and this one. */
  ghost predicate Overtaken(c: Session, s: StreamState, e: Event)
    requires Marked(c, s)
  {
    && Unlisted(c, s, e)
    && exists j :: s.subscribedAt <= j < |c.publishing| && c.publishing[j] == e && OvertakenAt(c, s, j)
  }

  ghost predicate OvertakenAt(c: Session, s: StreamState, j: nat)
    requires Marked(c, s) && s.subscribedAt <= j < |c.publishing|
  {
    || (exists f :: f in Listed(c, s.listedAt) && f.number > c.publishing[j].number)
    || (exists i :: s.subscribedAt <= i < j && c.publishing[i].number > c.publishing[j].number)
  }

  lemma ProperOrder(c: Session)
    requires Proper(c)
    ensures |c.publishing| == |c.run| && |c.storing| == |c.run|
    ensures forall e :: e in c.publishing <==> e in c.run
    ensures forall i, j :: 0 <= i < j < |c.publishing| ==> c.publishing[i].number != c.publishing[j].number
  {
    assert |multiset(c.publishing)| == |multiset(c.run)| == |multiset(c.storing)|;
    assert forall e :: e in c.publishing <==> e in multiset(c.publishing);
    forall e | e in c.publishing
      ensures multiset(c.publishing)[e] == 1
    {
      assert e in multiset(c.run);
      NoDupMultiset(c.run, e);
    }
    MultisetNoDup(c.publishing);
    forall i, j | 0 <= i < j < |c.publishing|
      ensures c.publishing[i].number != c.publishing[j].number
    {
      assert c.publishing[i] in multiset(c.run) && c.publishing[j] in multiset(c.run);
      SameNumberSameEvent(c.run, c.publishing[i], c.publishing[j]);
    }
  }

  lemma SameNumberSameEvent(run: seq<Event>, e: Event, f: Event)
    requires Ascending(run) && e in run && f in run
    ensures e.number == f.number ==> e == f
  {
  }

  /** What is fed after Subscribe: above the cursor, unlisted and not overtaken is what is new. */
  lemma NewIffNotOvertaken(c: Session, s: StreamState, e: Event)
    requires Proper(c) && Marked(c, s) && Unlisted(c, s, e)
    ensures BringsNew(c.after, Listed(c, s.listedAt), c.publishing[s.subscribedAt..], e)
            <==> !Missed(c, s, e) && !Overtaken(c, s, e)
  {
    ProperOrder(c);
    var at := s.subscribedAt;
    var listed, feed := Listed(c, s.listedAt), c.publishing[at..];
    forall f | f in listed
      ensures f.number != e.number
    {
      KeptMembers(c.run, Elements(c.storing[..s.listedAt]), c.after, f);
      SameNumberSameEvent(c.run, e, f);
    }
    hide Listed, Kept;
    var k :| 0 <= k < |c.publishing| && c.publishing[k] == e;
    if k < at {
      assert c.publishing[..at][k] == e;
      forall j: nat | j < |feed|
        ensures feed[j] != e
      {
        assert feed[j] == c.publishing[at + j];
      }
    } else {
      PublishedSince(c, at, k);
      NewAt(c, s, k);
    }
  }

  lemma PublishedSince(c: Session, at: nat, k: nat)
    requires at <= k < |c.publishing|
    requires forall i, j :: 0 <= i < j < |c.publishing| ==> c.publishing[i].number != c.publishing[j].number
    ensures c.publishing[k] !in c.publishing[..at]
    ensures forall j :: at <= j < |c.publishing| && c.publishing[j] == c.publishing[k] ==> j == k
    ensures forall j: nat :: j < |c.publishing[at..]| && c.publishing[at..][j] == c.publishing[k] ==> j == k - at
  {
  }

  lemma NewAt(c: Session, s: StreamState, k: nat)
    requires Marked(c, s) && s.subscribedAt <= k < |c.publishing| && c.publishing[k].number > c.after
    requires forall i, j :: 0 <= i < j < |c.publishing| ==> c.publishing[i].number != c.publishing[j].number
    requires forall f :: f in Listed(c, s.listedAt) ==> f.number != c.publishing[k].number
    ensures IsNew(c.after, Listed(c, s.listedAt), c.publishing[s.subscribedAt..], k - s.subscribedAt)
            <==> !OvertakenAt(c, s, k)
  {
    hide Listed;
    var at := s.subscribedAt;
    var feed := c.publishing[at..];
    assert forall i :: 0 <= i < |feed| ==> feed[i] == c.publishing[at + i];
    if IsNew(c.after, Listed(c, s.listedAt), feed, k - at) {
      forall i | at <= i < k
        ensures c.publishing[i].number < c.publishing[k].number
      {
        assert feed[i - at].number < feed[k - at].number;
      }
    }
  }

  /** The finish is last among the run's events, and so among those listed or fed. */
  lemma FinishAmongServed(c: Session, s: StreamState)
    requires Proper(c) && Marked(c, s) && FinishIsLast(c.after, c.run)
    ensures FinishIsLast(c.after, Listed(c, s.listedAt) + c.publishing[s.subscribedAt..])
  {
    ProperOrder(c);
    var all := Listed(c, s.listedAt) + c.publishing[s.subscribedAt..];
    forall e | e in all
      ensures e in c.run
    {
      KeptMembers(c.run, Elements(c.storing[..s.listedAt]), c.after, e);
    }
  }

  /**
   Exactly which events a settled, undropped stream lacks, for every order of publishing and storing:
   those missed between Subscribe and List, and those overtaken by a higher number.
   */
  lemma LossesExplained(c: Session, actions: seq<StreamAction>, e: Event)
    requires Proper(c) && FinishIsLast(c.after, c.run) && StreamLegal(c, actions)
    requires !StreamPlay(c, actions).dropped && Settled(c, StreamPlay(c, actions))
    requires e in c.run && e.number > c.after
    ensures Marked(c, StreamPlay(c, actions))
    ensures e !in StreamPlay(c, actions).progress.written <==>
              Missed(c, StreamPlay(c, actions), e) || Overtaken(c, StreamPlay(c, actions), e)
  {
    var s := StreamPlay(c, actions);
    RunsStayInStep(c, actions);
    SettledServed(c, s);
    FinishAmongServed(c, s);
    hide InStep, Settled, StreamPlay, StreamLegal, FinishIsLast, Proper, Kept, Served, BringsNew, Overtaken;
    ListedIncreasing(c, s);
    ServedExactly(c.after, Listed(c, s.listedAt), c.publishing[s.subscribedAt..]);
    ListedMembers(c, s, e);
    if e in c.storing[..s.listedAt] {
      ListedIsSafe(c, s, e);
    } else {
      NewIffNotOvertaken(c, s, e);
    }
  }

  lemma ListedIsSafe(c: Session, s: StreamState, e: Event)
    requires Marked(c, s) && e in c.storing[..s.listedAt]
    ensures !Missed(c, s, e) && !Overtaken(c, s, e)
  {
  }

  lemma ListedIncreasing(c: Session, s: StreamState)
    requires Proper(c) && Marked(c, s)
    ensures Increasing(Listed(c, s.listedAt), c.after)
  {
    KeptIncreasing(c.run, Elements(c.storing[..s.listedAt]), c.after);
  }

  lemma ListedMembers(c: Session, s: StreamState, e: Event)
    requires Marked(c, s)
    ensures e in Listed(c, s.listedAt) <==> e in c.run && e.number > c.after && e in c.storing[..s.listedAt]
  {
    KeptMembers(c.run, Elements(c.storing[..s.listedAt]), c.after, e);
  }

  ghost predicate NothingMissed(c: Session, s: StreamState)
    requires Marked(c, s)
  {
    forall e :: e in c.run ==> !Missed(c, s, e)
  }

  ghost predicate NoneOvertaken(c: Session, s: StreamState)
    requires Marked(c, s)
  {
    forall e :: e in c.run ==> !Overtaken(c, s, e)
  }

  /** A stream is complete exactly when no event above the cursor is missing from it. */
  lemma CompleteIffNoneLost(c: Session, actions: seq<StreamAction>)
    requires Proper(c) && StreamLegal(c, actions)
    requires !StreamPlay(c, actions).dropped && Settled(c, StreamPlay(c, actions))
    ensures var written := StreamPlay(c, actions).progress.written;
            && (written == Later(c.run, c.after) <==> forall e :: e in c.run && e.number > c.after ==> e in written)
            && (written == Later(c.run, c.after) ==> FinishIsLast(c.after, c.run))
  {
    var s := StreamPlay(c, actions);
    RunsStayInStep(c, actions);
    SettledServed(c, s);
    ServedWithin(c, s);
    hide InStep, Settled, StreamPlay, StreamLegal, Served, Listed;
    var written := s.progress.written;
    KeptIncreasing(c.run, Elements(c.run), c.after);
    forall e
      ensures e in Later(c.run, c.after) <==> e in c.run && e.number > c.after
    {
      KeptMembers(c.run, Elements(c.run), c.after, e);
    }
    hide Later, Proper;
    if forall e :: e in c.run && e.number > c.after ==> e in written {
      assert Elements(written) == Elements(Later(c.run, c.after));
      IncreasingDetermined(written, Later(c.run, c.after), c.after);
    }
    if written == Later(c.run, c.after) {
      FinishEndsWritten(c.after, c.run, s.progress);
    }
  }

  /** What is written increases, comes from the run, and has run.finished at its end only. */
  lemma ServedWithin(c: Session, s: StreamState)
    requires Proper(c) && Marked(c, s)
    requires s.progress == Served(c.after, Listed(c, s.listedAt), c.publishing[s.subscribedAt..])
    ensures Sorted(s.progress, c.after) && Ends(s.progress)
    ensures forall e :: e in s.progress.written ==> e in c.run && e.number > c.after
  {
    ListedIncreasing(c, s);
    ProperOrder(c);
    var listed, feed := Listed(c, s.listedAt), c.publishing[s.subscribedAt..];
    ReplaysSorted(c.after, listed);
    FollowsSorted(c.after, ReplayAll(Progress([], c.after, false), listed), feed);
    forall e | e in s.progress.written
      ensures e in c.run && e.number > c.after
    {
      WrittenFrom(c.after, listed, feed, e);
      ListedMembers(c, s, e);
    }
  }

  lemma {:induction false} WrittenFrom(after: nat, listed: seq<Event>, feed: seq<Event>, e: Event)
    requires e in Served(after, listed, feed).written
    ensures e in listed || e in feed
  {
    if feed == [] {
      ReplayedFrom(Progress([], after, false), listed, e);
    } else if e != feed[|feed| - 1] {
      WrittenFrom(after, listed, feed[..|feed| - 1], e);
    }
  }

  lemma {:induction false} ReplayedFrom(p: Progress, listed: seq<Event>, e: Event)
    requires e in ReplayAll(p, listed).written
    ensures e in p.written || e in listed
  {
    if listed != [] && e != listed[|listed| - 1] {
      ReplayedFrom(p, listed[..|listed| - 1], e);
    }
  }

  lemma FinishEndsWritten(after: nat, run: seq<Event>, p: Progress)
    requires Sorted(p, after) && Ends(p)
    requires forall e :: e in run && e.number > after ==> e in p.written
    ensures FinishIsLast(after, run)
  {
    forall e, f | e in run && f in run && f.kind.RunFinished? && f.number > after
      ensures e.number <= f.number
    {
      var i :| 0 <= i < |p.written| && p.written[i] == f;
      if e.number > after {
        var j :| 0 <= j < |p.written| && p.written[j] == e;
      }
    }
  }

  /**
   Without drops, and for every order of publishing and storing, a settled stream is exactly the run's
   events above the cursor if and only if no such event was published before Subscribe yet stored only
   after List, none was overtaken by a higher number, and none is numbered above run.finished.
   */
  lemma StreamIsComplete(c: Session, actions: seq<StreamAction>)
    requires Proper(c) && StreamLegal(c, actions)
    requires !StreamPlay(c, actions).dropped && Settled(c, StreamPlay(c, actions))
    ensures Marked(c, StreamPlay(c, actions))
    ensures StreamPlay(c, actions).progress.written == Later(c.run, c.after) <==>
              && NothingMissed(c, StreamPlay(c, actions))
              && NoneOvertaken(c, StreamPlay(c, actions))
              && FinishIsLast(c.after, c.run)
  {
    var s := StreamPlay(c, actions);
    RunsStayInStep(c, actions);
    SettledServed(c, s);
    CompleteIffNoneLost(c, actions);
    hide InStep, Settled, StreamPlay, StreamLegal, Served, Later, FinishIsLast, Proper;
    if FinishIsLast(c.after, c.run) {
      forall e | e in c.run && e.number > c.after
        ensures e !in s.progress.written <==> Missed(c, s, e) || Overtaken(c, s, e)
      {
        LossesExplained(c, actions, e);
      }
    }
  }

  // ----- how many events can be missed

  /** How far the run and the handler's marks are, in every state. */
  ghost predicate Within(c: Session, s: StreamState) {
    && s.published <= |c.publishing| && s.stored <= |c.storing|
    && s.subscribedAt <= s.published && s.listedAt <= s.stored
  }

  lemma {:induction false} RunsStayWithin(c: Session, actions: seq<StreamAction>)
    requires StreamLegal(c, actions)
    ensures Within(c, StreamPlay(c, actions))
  {
    if actions != [] {
      RunsStayWithin(c, actions[..|actions| - 1]);
    }
  }

  /** Published among the first p, not stored among the first k. */
  ghost function Unstored(c: Session, p: nat, k: nat): set<Event>
    requires p <= |c.publishing| && k <= |c.storing|
  {
    Elements(c.publishing[..p]) - Elements(c.storing[..k])
  }

  /** At most w events are published and not yet stored. */
  ghost predicate FewInFlight(c: Session, s: StreamState, w: nat) {
    Within(c, s) && |Unstored(c, s.published, s.stored)| <= w
  }

  /** At no time are more than w events published and not yet stored; with w == 0 events are stored first. */
  ghost predicate StoresWithin(c: Session, actions: seq<StreamAction>, w: nat)
    requires StreamLegal(c, actions)
  {
    forall k :: 0 <= k <= |actions| && StreamLegal(c, actions[..k]) ==> FewInFlight(c, StreamPlay(c, actions[..k]), w)
  }

  lemma StoresWithinPrefix(c: Session, actions: seq<StreamAction>, w: nat)
    requires StreamLegal(c, actions) && StoresWithin(c, actions, w)
    ensures FewInFlight(c, StreamPlay(c, actions), w)
    ensures actions != [] ==> StoresWithin(c, actions[..|actions| - 1], w)
  {
    assert actions[..|actions|] == actions;
    if actions != [] {
      var front := actions[..|actions| - 1];
      forall k | 0 <= k <= |front| && StreamLegal(c, front[..k])
        ensures FewInFlight(c, StreamPlay(c, front[..k]), w)
      {
        assert front[..k] == actions[..k];
      }
    }
  }

  lemma UnstoredShrinks(c: Session, p: nat, k: nat, k': nat)
    requires p <= |c.publishing| && k <= k' <= |c.storing|
    ensures |Unstored(c, p, k')| <= |Unstored(c, p, k)|
  {
    assert forall e :: e in c.storing[..k] ==> e in c.storing[..k'];
    SubsetCardinality(Unstored(c, p, k'), Unstored(c, p, k));
  }

  /** What was published at Subscribe and is not stored, or not listed, is at most what was in flight then. */
  ghost predicate FewLeftBehind(c: Session, s: StreamState, w: nat) {
    && Within(c, s)
    && |Unstored(c, s.subscribedAt, s.stored)| <= w
    && (s.phase == Replaying || s.phase == Live ==> |Unstored(c, s.subscribedAt, s.listedAt)| <= w)
  }

  lemma FewLeftBehindStep(c: Session, s: StreamState, a: StreamAction, w: nat)
    requires StreamEnabled(c, s, a) && FewLeftBehind(c, s, w) && FewInFlight(c, s, w)
    ensures FewLeftBehind(c, StreamStep(c, s, a), w)
  {
    hide Unstored, Listed, Replay, Follow;
    if a == StoreNext {
      UnstoredShrinks(c, s.subscribedAt, s.stored, s.stored + 1);
    }
  }

  lemma {:induction false} FewUnlisted(c: Session, actions: seq<StreamAction>, w: nat)
    requires StreamLegal(c, actions) && StoresWithin(c, actions, w)
    ensures FewLeftBehind(c, StreamPlay(c, actions), w)
  {
    hide StoresWithin, FewLeftBehind, FewInFlight;
    if actions == [] {
      NoneUnstored(c);
    } else {
      var front := actions[..|actions| - 1];
      StoresWithinPrefix(c, actions, w);
      StoresWithinPrefix(c, front, w);
      FewUnlisted(c, front, w);
      FewLeftBehindStep(c, StreamPlay(c, front), actions[|actions| - 1], w);
    }
  }

  lemma NoneUnstored(c: Session)
    ensures forall w: nat :: FewLeftBehind(c, StreamInitial(c), w)
  {
  }

  ghost function MissedEvents(c: Session, s: StreamState): set<Event>
    requires Marked(c, s)
  {
    set e | e in c.run && Missed(c, s, e)
  }

  ghost function OvertakenEvents(c: Session, s: StreamState): set<Event>
    requires Marked(c, s)
  {
    set e | e in c.run && Overtaken(c, s, e)
  }

  ghost function LostEvents(c: Session, s: StreamState): set<Event> {
    set e | e in c.run && e.number > c.after && e !in s.progress.written
  }

  /**
   With at most w events in flight between publishing and storing, no more than w are missed between
   Subscribe and List; anything else a settled, undropped stream lacks was overtaken.
   */
  lemma LossIsBounded(c: Session, actions: seq<StreamAction>, w: nat)
    requires Proper(c) && FinishIsLast(c.after, c.run) && StreamLegal(c, actions) && StoresWithin(c, actions, w)
    requires !StreamPlay(c, actions).dropped && Settled(c, StreamPlay(c, actions))
    ensures Marked(c, StreamPlay(c, actions)) && |MissedEvents(c, StreamPlay(c, actions))| <= w
    ensures LostEvents(c, StreamPlay(c, actions))
         == MissedEvents(c, StreamPlay(c, actions)) + OvertakenEvents(c, StreamPlay(c, actions))
  {
    var s := StreamPlay(c, actions);
    RunsStayInStep(c, actions);
    SettledServed(c, s);
    FewUnlisted(c, actions, w);
    SettledPhase(c, s);
    hide InStep, Settled, StreamPlay, StreamLegal, StoresWithin, FinishIsLast, Proper;
    SubsetCardinality(MissedEvents(c, s), Unstored(c, s.subscribedAt, s.listedAt));
    forall e | e in c.run && e.number > c.after
      ensures e !in s.progress.written <==> Missed(c, s, e) || Overtaken(c, s, e)
    {
      LossesExplained(c, actions, e);
    }
  }

  lemma SettledPhase(c: Session, s: StreamState)
    requires InStep(c, s) && Settled(c, s)
    ensures s.phase == Replaying || s.phase == Live
  {
  }

  /** Storing before publishing misses nothing, in whatever order. */
  lemma StoreFirstMissesNothing(c: Session, actions: seq<StreamAction>)
    requires Proper(c) && StreamLegal(c, actions) && StoresWithin(c, actions, 0)
    requires !StreamPlay(c, actions).dropped && Settled(c, StreamPlay(c, actions))
    ensures Marked(c, StreamPlay(c, actions)) && NothingMissed(c, StreamPlay(c, actions))
  {
    var s := StreamPlay(c, actions);
    RunsStayInStep(c, actions);
    SettledServed(c, s);
    SettledPhase(c, s);
    FewUnlisted(c, actions, 0);
    hide InStep, Settled, StreamPlay, StreamLegal, StoresWithin;
    forall e | e in c.run
      ensures !Missed(c, s, e)
    {
      assert e !in Unstored(c, s.subscribedAt, s.listedAt);
    }
  }

  // ----- one emitter: publishing and storing in number order

  /** Only one goroutine emits, so that events are published and stored in the order of their numbers. */
  ghost predicate InOrder(c: Session) {
    Ascending(c.run) && c.publishing == c.run && c.storing == c.run
  }

  lemma PrefixIndex(run: seq<Event>, i: nat, k: nat)
    requires Ascending(run) && i < |run| && k <= |run|
    ensures run[i] in run[..k] <==> i < k
  {
    assert i < k ==> run[..k][i] == run[i];
  }

  lemma InOrderListed(c: Session, s: StreamState, j: nat, f: Event)
    requires InOrder(c) && Marked(c, s) && j < |c.run| && Unlisted(c, s, c.run[j]) && f in Listed(c, s.listedAt)
    ensures f.number < c.run[j].number
  {
    PrefixIndex(c.run, j, s.listedAt);
    ListedMembers(c, s, f);
    var i :| 0 <= i < s.listedAt && c.run[i] == f;
  }

  lemma InOrderNoneOvertaken(c: Session, s: StreamState)
    requires InOrder(c) && Marked(c, s)
    ensures Proper(c) && NoneOvertaken(c, s)
  {
    forall j: nat, f | s.subscribedAt <= j < |c.run| && Unlisted(c, s, c.run[j]) && f in Listed(c, s.listedAt)
      ensures f.number < c.run[j].number
    {
      InOrderListed(c, s, j, f);
    }
    hide Listed;
  }

  /** In order, what is lost is what lies between the two marks. */
  lemma InOrderMissed(c: Session, s: StreamState)
    requires InOrder(c) && Marked(c, s)
    ensures NothingMissed(c, s) <==> forall i :: s.listedAt <= i < s.subscribedAt ==> c.run[i].number <= c.after
  {
    forall i | 0 <= i < |c.run|
      ensures Missed(c, s, c.run[i]) <==> s.listedAt <= i < s.subscribedAt && c.run[i].number > c.after
    {
      PrefixIndex(c.run, i, s.listedAt);
      PrefixIndex(c.run, i, s.subscribedAt);
    }
    hide Missed;
    if NothingMissed(c, s) {
      forall i | s.listedAt <= i < s.subscribedAt
        ensures c.run[i].number <= c.after
      {
        assert c.run[i] in c.run;
      }
    }
  }

  /** The exact condition for one emitter. */
  lemma InOrderStreamIsComplete(c: Session, actions: seq<StreamAction>)
    requires InOrder(c) && FinishIsLast(c.after, c.run) && StreamLegal(c, actions)
    requires !StreamPlay(c, actions).dropped && Settled(c, StreamPlay(c, actions))
    ensures Marked(c, StreamPlay(c, actions))
    ensures StreamPlay(c, actions).progress.written == Later(c.run, c.after) <==>
              forall i :: StreamPlay(c, actions).listedAt <= i < StreamPlay(c, actions).subscribedAt ==>
                            c.run[i].number <= c.after
  {
    var s := StreamPlay(c, actions);
    hide StreamPlay, StreamLegal, Settled, FinishIsLast, Later;
    StreamIsComplete(c, actions);
    InOrderNoneOvertaken(c, s);
    InOrderMissed(c, s);
  }

  /** One emitter that stores before it publishes: every undropped, settled stream is complete. */
  lemma StoreFirstIsComplete(c: Session, actions: seq<StreamAction>)
    requires InOrder(c) && FinishIsLast(c.after, c.run) && StreamLegal(c, actions) && StoresWithin(c, actions, 0)
    requires !StreamPlay(c, actions).dropped && Settled(c, StreamPlay(c, actions))
    ensures StreamPlay(c, actions).progress.written == Later(c.run, c.after)
  {
    var s := StreamPlay(c, actions);
    hide StreamPlay, StreamLegal, Settled, FinishIsLast, Later, StoresWithin;
    StoreFirstMissesNothing(c, actions);
    InOrderNoneOvertaken(c, s);
    StreamIsComplete(c, actions);
  }

  /** One emitter that publishes before it stores: an undropped, settled stream lacks at most one event. */
  lemma PublishFirstLosesAtMostOne(c: Session, actions: seq<StreamAction>)
    requires InOrder(c) && FinishIsLast(c.after, c.run) && StreamLegal(c, actions) && StoresWithin(c, actions, 1)
    requires !StreamPlay(c, actions).dropped && Settled(c, StreamPlay(c, actions))
    ensures |LostEvents(c, StreamPlay(c, actions))| <= 1
  {
    var s := StreamPlay(c, actions);
    hide StreamPlay, StreamLegal, Settled, FinishIsLast, StoresWithin;
    LossIsBounded(c, actions, 1);
    InOrderNoneOvertaken(c, s);
    hide Overtaken;
    assert OvertakenEvents(c, s) == {};
    assert LostEvents(c, s) == MissedEvents(c, s);
  }

  // ----- buffers

  /** A buffer that can hold the whole run never drops. */
  lemma {:induction false} RoomyBufferNeverDrops(c: Session, actions: seq<StreamAction>)
    requires Proper(c) && StreamLegal(c, actions) && c.capacity >= |c.run|
    ensures !StreamPlay(c, actions).dropped
  {
    if actions != [] {
      var front := actions[..|actions| - 1];
      RoomyBufferNeverDrops(c, front);
      RunsStayInStep(c, front);
      HeldWithinRun(c, StreamPlay(c, front));
      ProperOrder(c);
      hide InStep;
    }
  }

  lemma HeldWithinRun(c: Session, s: StreamState)
    requires InStep(c, s)
    ensures s.published <= |c.publishing|
    ensures !s.progress.finished && s.phase != Idle ==> |s.buffer| <= s.published
  {
  }

  // ----- witnesses

  /** Nothing is stored before it is published. */
  ghost predicate PublishesFirst(c: Session, actions: seq<StreamAction>)
    requires StreamLegal(c, actions)
  {
    forall k :: 0 <= k <= |actions| && StreamLegal(c, actions[..k]) ==> StoredWasPublished(c, StreamPlay(c, actions[..k]))
  }

  ghost predicate StoredWasPublished(c: Session, s: StreamState) {
    Within(c, s) && Elements(c.storing[..s.stored]) <= Elements(c.publishing[..s.published])
  }

  ghost predicate InTurn(s: StreamState, w: nat) {
    s.stored <= s.published <= s.stored + w
  }

  /** Storing follows publishing, at most w events behind. */
  ghost predicate TakesTurns(c: Session, actions: seq<StreamAction>, w: nat)
    requires StreamLegal(c, actions)
  {
    forall k :: 0 <= k <= |actions| && StreamLegal(c, actions[..k]) ==> InTurn(StreamPlay(c, actions[..k]), w)
  }

  lemma InTurnIsClose(c: Session, s: StreamState, w: nat)
    requires c.publishing == c.storing && Within(c, s) && InTurn(s, w)
    ensures FewInFlight(c, s, w) && StoredWasPublished(c, s)
  {
    var gap := c.publishing[s.stored..s.published];
    assert c.publishing[..s.published] == c.publishing[..s.stored] + gap;
    ElementsCardinality(gap);
    SubsetCardinality(Unstored(c, s.published, s.stored), Elements(gap));
  }

  lemma TurnsAreClose(c: Session, actions: seq<StreamAction>, w: nat)
    requires c.publishing == c.storing && StreamLegal(c, actions) && TakesTurns(c, actions, w)
    ensures StoresWithin(c, actions, w) && PublishesFirst(c, actions)
  {
    forall k | 0 <= k <= |actions| && StreamLegal(c, actions[..k])
      ensures FewInFlight(c, StreamPlay(c, actions[..k]), w) && StoredWasPublished(c, StreamPlay(c, actions[..k]))
    {
      RunsStayWithin(c, actions[..k]);
      InTurnIsClose(c, StreamPlay(c, actions[..k]), w);
    }
  }

  lemma NothingPlayed(c: Session, w: nat)
    ensures StreamLegal(c, []) && StreamPlay(c, []) == StreamInitial(c) && TakesTurns(c, [], w)
  {
  }

  lemma PlayedOn(c: Session, actions: seq<StreamAction>, s: StreamState, a: StreamAction, w: nat)
    returns (actions': seq<StreamAction>, s': StreamState)
    requires StreamLegal(c, actions) && StreamPlay(c, actions) == s && StreamEnabled(c, s, a)
    requires TakesTurns(c, actions, w) && InTurn(StreamStep(c, s, a), w)
    ensures StreamLegal(c, actions') && StreamPlay(c, actions') == s' && s' == StreamStep(c, s, a)
    ensures TakesTurns(c, actions', w)
  {
    TakeOfAppend(actions, a, 0);
    actions', s' := actions + [a], StreamStep(c, s, a);
    forall k | 0 <= k <= |actions'| && StreamLegal(c, actions'[..k])
      ensures InTurn(StreamPlay(c, actions'[..k]), w)
    {
      if k <= |actions| {
        TakeOfAppend(actions, a, k);
      } else {
        assert actions'[..k] == actions';
      }
    }
  }

  lemma NothingListed(c: Session)
    ensures Listed(c, 0) == []
  {
    forall e
      ensures e !in Listed(c, 0)
    {
      KeptMembers(c.run, Elements(c.storing[..0]), c.after, e);
    }
    NoElements(Listed(c, 0));
  }

  /** A settled stream that lost an event is not complete. */
  lemma LostIsIncomplete(c: Session, written: seq<Event>, e: Event)
    requires e in c.run && e.number > c.after && e !in written
    ensures written != Later(c.run, c.after)
  {
    KeptMembers(c.run, Elements(c.run), c.after, e);
  }

  /** One emitter that publishes each event before it stores it: a stream can lose one for good. */
  lemma PublishFirstLosesAnEvent() returns (c: Session, actions: seq<StreamAction>)
    ensures InOrder(c) && FinishIsLast(c.after, c.run) && StreamLegal(c, actions)
    ensures StoresWithin(c, actions, 1) && PublishesFirst(c, actions)
    ensures !StreamPlay(c, actions).dropped && Settled(c, StreamPlay(c, actions))
    ensures StreamPlay(c, actions).progress.written != Later(c.run, c.after)
  {
    var started, finished := Event(1, RunStarted), Event(2, RunFinished);
    c := Session([started, finished], [started, finished], [started, finished], 0, 256);
    actions := LosesTheFirst(c, started, finished);
    hide StreamPlay, StreamLegal, Later, StoresWithin, PublishesFirst, TakesTurns;
    assert started in c.run;
    LostIsIncomplete(c, StreamPlay(c, actions).progress.written, started);
    TurnsAreClose(c, actions, 1);
  }

  lemma LosesTheFirst(c: Session, started: Event, finished: Event) returns (actions: seq<StreamAction>)
    requires started == Event(1, RunStarted) && finished == Event(2, RunFinished)
    requires c.run == c.publishing == c.storing == [started, finished] && c.after == 0 && c.capacity == 256
    ensures StreamLegal(c, actions) && TakesTurns(c, actions, 1) && !StreamPlay(c, actions).dropped
    ensures StreamPlay(c, actions).progress == Progress([finished], 2, true)
  {
    NothingPlayed(c, 1);
    NothingListed(c);
    hide StreamPlay, StreamLegal, TakesTurns, Listed;
    var s;
    actions, s := PlayedOn(c, [], StreamInitial(c), PublishNext, 1);
    actions, s := PlayedOn(c, actions, s, Subscribe, 1);
    actions, s := PlayedOn(c, actions, s, ListStored, 1);
    actions, s := PlayedOn(c, actions, s, GoLive, 1);
    actions, s := PlayedOn(c, actions, s, StoreNext, 1);
    actions, s := PlayedOn(c, actions, s, PublishNext, 1);
    actions, s := PlayedOn(c, actions, s, ReceiveNext, 1);
  }

  /** Two emitters at once: an event published after a higher number is lost, although nothing was missed. */
  lemma OvertakenEventIsLost() returns (c: Session, actions: seq<StreamAction>)
    ensures Proper(c) && FinishIsLast(c.after, c.run) && StreamLegal(c, actions)
    ensures StoresWithin(c, actions, 2) && PublishesFirst(c, actions)
    ensures !StreamPlay(c, actions).dropped && Settled(c, StreamPlay(c, actions))
    ensures Marked(c, StreamPlay(c, actions)) && NothingMissed(c, StreamPlay(c, actions))
    ensures StreamPlay(c, actions).progress.written != Later(c.run, c.after)
  {
    var a, b, d := Event(1, NodeOutput("a")), Event(2, NodeOutput("b")), Event(3, RunFinished);
    c := Session([a, b, d], [b, a, d], [b, a, d], 0, 256);
    SwappedIsProper(c, a, b, d);
    hide Proper, FinishIsLast, Ascending;
    actions := LosesTheSlower(c, a, b, d);
    hide StreamPlay, StreamLegal, Later, StoresWithin, PublishesFirst, TakesTurns, NothingMissed;
    assert a in c.run;
    LostIsIncomplete(c, StreamPlay(c, actions).progress.written, a);
    TurnsAreClose(c, actions, 2);
    SubscribedFirst(c, StreamPlay(c, actions));
  }

  lemma SwappedIsProper(c: Session, a: Event, b: Event, d: Event)
    requires a == Event(1, NodeOutput("a")) && b == Event(2, NodeOutput("b")) && d == Event(3, RunFinished)
    requires c.run == [a, b, d] && c.publishing == c.storing == [b, a, d]
    ensures Proper(c) && FinishIsLast(c.after, c.run)
  {
    assert multiset(c.run) == multiset{a, b, d} == multiset{b, a, d} == multiset(c.publishing);
  }

  lemma SubscribedFirst(c: Session, s: StreamState)
    requires Marked(c, s) && s.subscribedAt == 0
    ensures NothingMissed(c, s)
  {
  }

  /** Going live before anything is emitted. */
  lemma LiveFromTheStart(c: Session, w: nat) returns (actions: seq<StreamAction>, s: StreamState)
    ensures StreamLegal(c, actions) && TakesTurns(c, actions, w) && s == StreamPlay(c, actions)
    ensures s == StreamInitial(c).(phase := Live)
  {
    NothingPlayed(c, w);
    NothingListed(c);
    hide StreamPlay, StreamLegal, TakesTurns, Listed;
    actions, s := PlayedOn(c, [], StreamInitial(c), Subscribe, w);
    actions, s := PlayedOn(c, actions, s, ListStored, w);
    actions, s := PlayedOn(c, actions, s, GoLive, w);
  }

  lemma LosesTheSlower(c: Session, a: Event, b: Event, d: Event) returns (actions: seq<StreamAction>)
    requires a == Event(1, NodeOutput("a")) && b == Event(2, NodeOutput("b")) && d == Event(3, RunFinished)
    requires c.publishing == c.storing == [b, a, d] && c.after == 0 && c.capacity == 256
    ensures StreamLegal(c, actions) && TakesTurns(c, actions, 2) && !StreamPlay(c, actions).dropped
    ensures StreamPlay(c, actions).progress == Progress([b, d], 3, true)
    ensures StreamPlay(c, actions).subscribedAt == 0 && StreamPlay(c, actions).listedAt == 0
  {
    hide StreamPlay, StreamLegal, TakesTurns, Listed;
    var s;
    actions, s := LiveFromTheStart(c, 2);
    actions, s := PlayedOn(c, actions, s, PublishNext, 2);
    actions, s := PlayedOn(c, actions, s, ReceiveNext, 2);
    actions, s := PlayedOn(c, actions, s, PublishNext, 2);
    actions, s := PlayedOn(c, actions, s, ReceiveNext, 2);
    actions, s := PlayedOn(c, actions, s, StoreNext, 2);
    actions, s := PlayedOn(c, actions, s, PublishNext, 2);
    actions, s := PlayedOn(c, actions, s, ReceiveNext, 2);
  }
}
