/**
 The workflow scheduler: a poll loop that starts due schedules, Start and Stop that launch and end
 it, and the runs it leaves behind. Each action is one step of one goroutine; which schedules are due,
 and how long runs and store calls take, is left open.
 */
module Scheduling {
  import opened Sequences

  /** Where a poll loop stands while it works through due schedules. */
  datatype PollPhase = Resting | Preparing(id: string) | Marked(id: string)

  datatype Loop = Loop(cancelled: bool, phase: PollPhase)

  /**
   `current` is the loop that Start installed and Stop takes out; `loops` are the loops still alive;
   `waiting` are the loops that a Stop has taken out without having returned nil yet; `active` is the
   scheduler's set of marked schedules; `runs` are the runs in flight.
   */
  datatype Scheduler = Scheduler(
    current: Option<nat>,
    loops: map<nat, Loop>,
    next: nat,
    waiting: set<nat>,
    active: set<string>,
    runs: multiset<string>)

  datatype Action =
    | Start
    | Stop
    | Cancel(loop: nat)
    | StopReturns(loop: nat)
    | Exit(loop: nat)
    | Check(loop: nat, id: string)
    | Abandon(loop: nat)
    | Mark(loop: nat)
    | Spawn(loop: nat)
    | Finish(id: string)

  ghost function Fresh(): Scheduler {
    Scheduler(None, map[], 0, {}, {}, multiset{})
  }

  predicate Enabled(s: Scheduler, a: Action) {
    match a
    case Start => true
    case Stop => true
    case Cancel(l) => l in s.waiting
    case StopReturns(l) => l in s.waiting && l !in s.loops
    case Exit(l) => l in s.loops && s.loops[l].cancelled && s.loops[l].phase.Resting?
    case Check(l, id) => l in s.loops && s.loops[l].phase.Resting?
    case Abandon(l) => l in s.loops && s.loops[l].phase.Preparing?
    case Mark(l) => l in s.loops && s.loops[l].phase.Preparing?
    case Spawn(l) => l in s.loops && s.loops[l].phase.Marked?
    case Finish(id) => s.runs[id] > 0
  }

  ghost function WithPhase(s: Scheduler, l: nat, phase: PollPhase): Scheduler
    requires l in s.loops
  {
    s.(loops := s.loops[l := s.loops[l].(phase := phase)])
  }

  ghost function Step(s: Scheduler, a: Action): Scheduler
    requires Enabled(s, a)
  {
    match a
    case Start =>
      if s.current.Some? then s
      else s.(current := Some(s.next), loops := s.loops[s.next := Loop(false, Resting)], next := s.next + 1)
    case Stop =>
      if s.current.None? then s else s.(current := None, waiting := s.waiting + {s.current.value})
    case Cancel(l) =>
      if l in s.loops then s.(loops := s.loops[l := s.loops[l].(cancelled := true)]) else s
    case StopReturns(l) => s.(waiting := s.waiting - {l})
    case Exit(l) => s.(loops := s.loops - {l})
    case Check(l, id) => if id in s.active then s else WithPhase(s, l, Preparing(id))
    case Abandon(l) => WithPhase(s, l, Resting)
    case Mark(l) =>
      var id := s.loops[l].phase.id;
      WithPhase(s, l, Marked(id)).(active := s.active + {id})
    case Spawn(l) =>
      var id := s.loops[l].phase.id;
      WithPhase(s, l, Resting).(runs := s.runs + multiset{id})
    case Finish(id) => s.(runs := s.runs - multiset{id}, active := s.active - {id})
  }

  /** The scheduler object. Each method is a locked section or a goroutine step, and performs exactly its action. */
  class WorkflowScheduler {
    var current: Option<nat>
    var loops: map<nat, Loop>
    var next: nat
    var waiting: set<nat>
    var active: set<string>
    var runs: multiset<string>

    function View(): Scheduler
      reads this
    {
      Scheduler(current, loops, next, waiting, active, runs)
    }

    constructor ()
      ensures View() == Fresh()
    {
      current, loops, next, waiting, active, runs := None, map[], 0, {}, {}, multiset{};
    }

    /** Launches a poll loop unless one is installed. */
    method Launch()
      modifies this
      ensures View() == Step(old(View()), Start)
    {
      if current.Some? {
        return;
      }
      current := Some(next);
      loops := loops[next := Loop(false, Resting)];
      next := next + 1;
    }

    /** Takes the installed loop out; the caller then cancels it and waits for it to end. */
    method BeginStop() returns (stopped: Option<nat>)
      modifies this
      ensures View() == Step(old(View()), Stop) && stopped == old(current)
    {
      stopped := current;
      current := None;
      if stopped.Some? {
        waiting := waiting + {stopped.value};
      }
    }

    method CancelLoop(loop: nat)
      requires Enabled(View(), Cancel(loop))
      modifies this`loops
      ensures View() == Step(old(View()), Cancel(loop))
    {
      if loop in loops {
        loops := loops[loop := loops[loop].(cancelled := true)];
      }
    }

    method IsScheduleActive(id: string) returns (found: bool)
      ensures found <==> id in active
    {
      found := id in active;
    }

    method SetPhase(loop: nat, phase: PollPhase)
      requires loop in loops
      modifies this`loops
      ensures View() == WithPhase(old(View()), loop, phase)
    {
      loops := loops[loop := loops[loop].(phase := phase)];
    }

    /** The loop looks at a due schedule: one that is still active is skipped. */
    method CheckDue(loop: nat, id: string)
      requires Enabled(View(), Check(loop, id))
      modifies this
      ensures View() == Step(old(View()), Check(loop, id))
    {
      var overlap := IsScheduleActive(id);
      if !overlap {
        SetPhase(loop, Preparing(id));
      }
    }

    method MarkScheduleActive(loop: nat)
      requires Enabled(View(), Mark(loop))
      modifies this
      ensures View() == Step(old(View()), Mark(loop))
    {
      var id := loops[loop].phase.id;
      active := active + {id};
      SetPhase(loop, Marked(id));
    }

    method SpawnRun(loop: nat)
      requires Enabled(View(), Spawn(loop))
      modifies this
      ensures View() == Step(old(View()), Spawn(loop))
    {
      var id := loops[loop].phase.id;
      runs := runs + multiset{id};
      SetPhase(loop, Resting);
    }

    method AbandonSchedule(loop: nat)
      requires Enabled(View(), Abandon(loop))
      modifies this
      ensures View() == Step(old(View()), Abandon(loop))
    {
      SetPhase(loop, Resting);
    }

    /** The cancelled loop returns. */
    method LoopEnds(loop: nat)
      requires Enabled(View(), Exit(loop))
      modifies this
      ensures View() == Step(old(View()), Exit(loop))
    {
      loops := loops - {loop};
    }

    /** The loop has ended: its Stop returns nil. */
    method EndStop(loop: nat)
      requires Enabled(View(), StopReturns(loop))
      modifies this
      ensures View() == Step(old(View()), StopReturns(loop))
    {
      waiting := waiting - {loop};
    }

    /** A run's deferred unmark. */
    method UnmarkScheduleActive(id: string)
      requires Enabled(View(), Finish(id))
      modifies this
      ensures View() == Step(old(View()), Finish(id))
    {
      runs := runs - multiset{id};
      active := active - {id};
    }
  }

  ghost predicate Legal(actions: seq<Action>)
    decreases |actions|, 0
  {
    actions == [] ||
    (var front := actions[..|actions| - 1];
     Legal(front) && Enabled(After(front), actions[|actions| - 1]))
  }

  ghost function After(actions: seq<Action>): Scheduler
    requires Legal(actions)
    decreases |actions|
  {
    if actions == [] then Fresh() else Step(After(actions[..|actions| - 1]), actions[|actions| - 1])
  }

  // ----- what holds in every run

  /** Loop numbers are fresh, an installed loop is alive and uncancelled, and every other live loop awaits its Stop. */
  ghost predicate Tracked(s: Scheduler) {
    && (forall l :: l in s.loops || l in s.waiting ==> l < s.next)
    && (s.current.Some? ==> s.current.value in s.loops && s.current.value !in s.waiting
                            && !s.loops[s.current.value].cancelled)
    && (forall l :: l in s.loops && s.current != Some(l) ==> l in s.waiting)
  }

  lemma TrackedStep(s: Scheduler, a: Action)
    requires Tracked(s) && Enabled(s, a)
    ensures Tracked(Step(s, a))
  {
  }

  lemma {:induction false} RunsStayTracked(actions: seq<Action>)
    requires Legal(actions)
    ensures Tracked(After(actions))
  {
    if actions != [] {
      RunsStayTracked(actions[..|actions| - 1]);
      TrackedStep(After(actions[..|actions| - 1]), actions[|actions| - 1]);
    }
  }

  // ----- how a loop ends

  /**
   The loops in terms of what has happened. A launched loop is alive until it exits; it is cancelled once a
   Cancel has named it, and exits only then; and a Stop that took it out waits until it has returned, which
   it does once, after the exit.
   */
  ghost predicate Recorded(actions: seq<Action>, s: Scheduler, l: nat) {
    && (l in s.loops <==> l < s.next && Exit(l) !in actions)
    && (l in s.loops ==> (s.loops[l].cancelled <==> Cancel(l) in actions))
    && (Exit(l) in actions ==> Cancel(l) in actions)
    && (StopReturns(l) in actions ==> Exit(l) in actions)
    && (l in s.waiting <==> l < s.next && s.current != Some(l) && StopReturns(l) !in actions)
    && (l >= s.next ==> Cancel(l) !in actions)
  }

  lemma Extends(actions: seq<Action>, a: Action, b: Action)
    ensures b in actions + [a] <==> b in actions || b == a
  {
  }

  lemma RecordedStep(actions: seq<Action>, s: Scheduler, a: Action, l: nat)
    requires Recorded(actions, s, l) && Tracked(s) && Enabled(s, a)
    ensures Recorded(actions + [a], Step(s, a), l)
  {
    Extends(actions, a, Exit(l));
    Extends(actions, a, Cancel(l));
    Extends(actions, a, StopReturns(l));
  }

  lemma {:induction false} LoopsAreRecorded(actions: seq<Action>, l: nat)
    requires Legal(actions)
    ensures Recorded(actions, After(actions), l)
  {
    if actions != [] {
      var front := actions[..|actions| - 1];
      LoopsAreRecorded(front, l);
      RunsStayTracked(front);
      RecordedStep(front, After(front), actions[|actions| - 1], l);
      SplitLast(actions);
    }
  }

  /** A loop ends only if a Cancel named it. */
  lemma EndsOnlyIfCancelled(actions: seq<Action>, l: nat)
    requires Legal(actions) && l < After(actions).next && l !in After(actions).loops
    ensures Cancel(l) in actions
  {
    LoopsAreRecorded(actions, l);
  }

  /** A step that a poll loop takes by itself. */
  predicate IsOwnStep(a: Action, l: nat) {
    a == Abandon(l) || a == Mark(l) || a == Spawn(l) || a == Exit(l)
  }

  /** What loop l has brought about so far by itself. */
  ghost predicate Alone(actions: seq<Action>, later: seq<Action>, l: nat, s: Scheduler) {
    && actions <= later && Legal(later) && After(later) == s
    && forall i :: |actions| <= i < |later| ==> IsOwnStep(later[i], l)
  }

  lemma AloneStep(actions: seq<Action>, later: seq<Action>, l: nat, s: Scheduler, a: Action)
    returns (later': seq<Action>, s': Scheduler)
    requires Alone(actions, later, l, s) && Enabled(s, a) && IsOwnStep(a, l)
    ensures Alone(actions, later', l, s') && s' == Step(s, a) && |later'| == |later| + 1
  {
    later', s' := Then(later, s, a);
  }

  /**
   Cancellation works: once a Cancel has named a loop, at most two further steps of that loop alone end it,
   and the Stop that waits for it can then return.
   */
  lemma CancelledLoopEnds(actions: seq<Action>, l: nat) returns (later: seq<Action>)
    requires Legal(actions) && Cancel(l) in actions
    ensures actions <= later && |later| <= |actions| + 2 && Legal(later)
    ensures forall i :: |actions| <= i < |later| ==> IsOwnStep(later[i], l)
    ensures l !in After(later).loops
    ensures StopReturns(l) in actions || Enabled(After(later), StopReturns(l))
  {
    var s := After(actions);
    LoopsAreRecorded(actions, l);
    RunsStayTracked(actions);
    assert Alone(actions, actions, l, s);
    hide Alone;
    later := actions;
    if l in s.loops {
      match s.loops[l].phase {
        case Resting =>
        case Preparing(_) => later, s := AloneStep(actions, later, l, s, Abandon(l));
        case Marked(_) => later, s := AloneStep(actions, later, l, s, Spawn(l));
      }
      later, s := AloneStep(actions, later, l, s, Exit(l));
    }
    AloneMeans(actions, later, l, s);
  }

  lemma AloneMeans(actions: seq<Action>, later: seq<Action>, l: nat, s: Scheduler)
    requires Alone(actions, later, l, s)
    ensures actions <= later && Legal(later) && After(later) == s
    ensures forall i :: |actions| <= i < |later| ==> IsOwnStep(later[i], l)
  {
  }

  // ----- one loop at a time

  ghost predicate OneLoop(s: Scheduler) {
    forall l, k :: l in s.loops && k in s.loops ==> l == k
  }

  /** The k-th action starts a loop while another one is alive. */
  ghost predicate LaunchesBeside(actions: seq<Action>, k: nat)
    requires Legal(actions) && k < |actions|
  {
    && actions[k] == Start && Legal(actions[..k])
    && After(actions[..k]).current.None? && After(actions[..k]).loops != map[]
  }

  /** No Start launches a loop beside a live one. */
  ghost predicate Apart(actions: seq<Action>)
    requires Legal(actions)
  {
    forall k :: 0 <= k < |actions| ==> !LaunchesBeside(actions, k)
  }

  lemma {:induction false} LegalPrefix(actions: seq<Action>, k: nat)
    requires Legal(actions) && k <= |actions|
    ensures Legal(actions[..k])
    decreases |actions|
  {
    if k == |actions| {
      assert actions[..k] == actions;
    } else {
      LegalPrefix(actions[..|actions| - 1], k);
      assert actions[..|actions| - 1][..k] == actions[..k];
    }
  }

  lemma ApartPrefix(actions: seq<Action>, n: nat)
    requires Legal(actions) && n <= |actions| && Apart(actions)
    ensures Legal(actions[..n]) && Apart(actions[..n])
  {
    LegalPrefix(actions, n);
    forall k | 0 <= k < n
      ensures !LaunchesBeside(actions[..n], k)
    {
      assert actions[..n][..k] == actions[..k];
      assert !LaunchesBeside(actions, k);
    }
  }

  lemma ApartBefore(actions: seq<Action>)
    requires actions != [] && Legal(actions) && Apart(actions)
    ensures Apart(actions[..|actions| - 1])
    ensures actions[|actions| - 1] == Start ==>
              After(actions[..|actions| - 1]).current.Some? || After(actions[..|actions| - 1]).loops == map[]
  {
    ApartPrefix(actions, |actions| - 1);
    assert !LaunchesBeside(actions, |actions| - 1);
  }

  /** As long as no loop is launched beside a live one, at most one is alive. */
  lemma {:induction false} AtMostOneLoop(actions: seq<Action>)
    requires Legal(actions) && Apart(actions)
    ensures OneLoop(After(actions))
  {
    if actions != [] {
      ApartBefore(actions);
      AtMostOneLoop(actions[..|actions| - 1]);
    }
  }

  /** Nobody calls Start while an earlier Stop has not returned nil. */
  ghost predicate Patient(actions: seq<Action>)
    requires Legal(actions)
  {
    forall k :: 0 <= k < |actions| && actions[k] == Start && Legal(actions[..k]) ==> After(actions[..k]).waiting == {}
  }

  /** Waiting for every Stop is enough. */
  lemma PatientIsApart(actions: seq<Action>)
    requires Legal(actions) && Patient(actions)
    ensures Apart(actions)
  {
    forall k | 0 <= k < |actions|
      ensures !LaunchesBeside(actions, k)
    {
      if actions[k] == Start && Legal(actions[..k]) {
        RunsStayTracked(actions[..k]);
      }
    }
  }

  // ----- one run per schedule

  /**
   A schedule is active exactly while the loop has marked it or its run is in flight; it has at most
   one run; and a schedule about to be marked is not active.
   */
  ghost predicate Exclusive(s: Scheduler) {
    && (forall id :: id in s.active <==> s.runs[id] > 0 || IsMarked(s, id))
    && (forall id :: s.runs[id] <= 1)
    && (forall id :: IsMarked(s, id) ==> s.runs[id] == 0)
    && (forall l :: l in s.loops && s.loops[l].phase.Preparing? ==> s.loops[l].phase.id !in s.active)
  }

  ghost predicate IsMarked(s: Scheduler, id: string) {
    exists l :: l in s.loops && s.loops[l].phase == Marked(id)
  }

  lemma ExclusiveLoopStep(s: Scheduler, a: Action)
    requires Exclusive(s) && OneLoop(s) && Tracked(s) && Enabled(s, a) && !a.Start? && !a.Finish?
    ensures Exclusive(Step(s, a))
  {
    var s' := Step(s, a);
    forall id
      ensures IsMarked(s', id) <==> if a.Mark? && id == s.loops[a.loop].phase.id then true
                                    else if a.Spawn? && id == s.loops[a.loop].phase.id then false
                                    else IsMarked(s, id)
    {
      if IsMarked(s, id) {
        var l :| l in s.loops && s.loops[l].phase == Marked(id);
        if l in s'.loops && s'.loops[l].phase == Marked(id) {
          assert IsMarked(s', id);
        }
      }
      if a.Mark? && id == s.loops[a.loop].phase.id {
        assert s'.loops[a.loop].phase == Marked(id);
      }
    }
  }

  lemma ExclusiveOtherStep(s: Scheduler, a: Action)
    requires Exclusive(s) && Tracked(s) && Enabled(s, a) && (a.Start? || a.Finish?)
    ensures Exclusive(Step(s, a))
  {
    var s' := Step(s, a);
    forall id
      ensures IsMarked(s', id) <==> IsMarked(s, id)
    {
      if IsMarked(s, id) {
        var l :| l in s.loops && s.loops[l].phase == Marked(id);
        assert s'.loops[l].phase == Marked(id);
      }
    }
  }

  /**
   As long as no loop is launched beside a live one, whatever the interleaving of polls, starts, stops
   and completions, no schedule ever has two runs in flight, and `active` is exact.
   */
  lemma {:induction false} RunsDoNotOverlap(actions: seq<Action>)
    requires Legal(actions) && Apart(actions)
    ensures Exclusive(After(actions))
  {
    if actions != [] {
      var front, a := actions[..|actions| - 1], actions[|actions| - 1];
      ApartBefore(actions);
      RunsDoNotOverlap(front);
      AtMostOneLoop(front);
      RunsStayTracked(front);
      hide Exclusive, OneLoop, Tracked;
      if a.Start? || a.Finish? {
        ExclusiveOtherStep(After(front), a);
      } else {
        ExclusiveLoopStep(After(front), a);
      }
    }
  }

  // ----- loops side by side

  lemma LaunchMakesTwo(actions: seq<Action>, k: nat) returns (l: nat, l': nat)
    requires Legal(actions) && k < |actions| && LaunchesBeside(actions, k)
    ensures Legal(actions[..k + 1]) && l != l'
    ensures l in After(actions[..k + 1]).loops && l' in After(actions[..k + 1]).loops
  {
    LegalPrefix(actions, k + 1);
    TakeNext(actions, k);
    TakeOfAppend(actions[..k], Start, 0);
    var s := After(actions[..k]);
    RunsStayTracked(actions[..k]);
    l :| l in s.loops;
    l' := s.next;
    assert After(actions[..k + 1]) == Step(s, Start);
  }

  /** At most one loop is alive at every point exactly when no Start launches one beside a live loop. */
  lemma LoopsOverlapIff(actions: seq<Action>)
    requires Legal(actions)
    ensures (forall k :: 0 <= k <= |actions| && Legal(actions[..k]) ==> OneLoop(After(actions[..k]))) <==> Apart(actions)
  {
    if Apart(actions) {
      forall k | 0 <= k <= |actions| && Legal(actions[..k])
        ensures OneLoop(After(actions[..k]))
      {
        ApartPrefix(actions, k);
        AtMostOneLoop(actions[..k]);
      }
    } else {
      var k :| 0 <= k < |actions| && LaunchesBeside(actions, k);
      var l, l' := LaunchMakesTwo(actions, k);
      assert !OneLoop(After(actions[..k + 1]));
    }
  }

  /** One more action. */
  lemma Then(actions: seq<Action>, s: Scheduler, a: Action) returns (actions': seq<Action>, s': Scheduler)
    requires Legal(actions) && After(actions) == s && Enabled(s, a)
    ensures actions' == actions + [a]
    ensures Legal(actions') && After(actions') == s' && s' == Step(s, a)
  {
    TakeOfAppend(actions, a, 0);
    actions', s' := actions + [a], Step(s, a);
  }

  ghost predicate StartFree(actions: seq<Action>) {
    Start !in actions
  }

  /** `later` continues `actions` without another Start. */
  ghost predicate Continues(actions: seq<Action>, later: seq<Action>) {
    actions <= later && StartFree(later[|actions|..])
  }

  lemma ContinuesOn(actions: seq<Action>, later: seq<Action>, a: Action)
    requires Continues(actions, later) && a != Start
    ensures Continues(actions, later + [a])
  {
    assert (later + [a])[|actions|..] == later[|actions|..] + [a];
  }

  /** What has been brought about so far by continuing without a Start. */
  ghost predicate Ahead(actions: seq<Action>, later: seq<Action>, s: Scheduler) {
    Continues(actions, later) && Legal(later) && After(later) == s
  }

  lemma GoOn(actions: seq<Action>, later: seq<Action>, s: Scheduler, a: Action) returns (later': seq<Action>, s': Scheduler)
    requires Ahead(actions, later, s) && Enabled(s, a) && a != Start
    ensures Ahead(actions, later', s') && s' == Step(s, a)
  {
    ContinuesOn(actions, later, a);
    later', s' := Then(later, s, a);
  }

  /** Any loop can be brought to rest, without touching the other loops or `active`. */
  lemma Rest(actions: seq<Action>, later: seq<Action>, s: Scheduler, l: nat) returns (later': seq<Action>, s': Scheduler)
    requires Ahead(actions, later, s) && l in s.loops
    ensures Ahead(actions, later', s') && s'.active == s.active && s'.loops.Keys == s.loops.Keys
    ensures s'.loops[l].phase.Resting? && forall k :: k in s.loops && k != l ==> s'.loops[k] == s.loops[k]
    ensures forall id :: s'.runs[id] >= s.runs[id]
  {
    hide Ahead;
    later', s' := later, s;
    match s.loops[l].phase
    case Resting =>
    case Preparing(_) => later', s' := GoOn(actions, later, s, Abandon(l));
    case Marked(_) => later', s' := GoOn(actions, later, s, Spawn(l));
  }

  /** A loop that prepares a schedule can mark it and start its run. */
  lemma MarkAndSpawn(actions: seq<Action>, later: seq<Action>, s: Scheduler, l: nat, id: string)
    returns (later': seq<Action>, s': Scheduler)
    requires Ahead(actions, later, s) && l in s.loops && s.loops[l].phase == Preparing(id)
    ensures Ahead(actions, later', s') && s'.runs == s.runs + multiset{id} && s'.loops.Keys == s.loops.Keys
    ensures forall k :: k in s.loops && k != l ==> s'.loops[k] == s.loops[k]
  {
    hide Ahead;
    later', s' := GoOn(actions, later, s, Mark(l));
    later', s' := GoOn(actions, later', s', Spawn(l));
  }

  /**
   Two live loops can start the same schedule twice: from every legal run that leaves two loops alive,
   and for every schedule not active then, a continuation without another Start has two of its runs in flight.
   */
  lemma TwoLoopsOverlap(actions: seq<Action>, l: nat, k: nat, id: string) returns (later: seq<Action>)
    requires Legal(actions) && l != k && l in After(actions).loops && k in After(actions).loops
    requires id !in After(actions).active
    ensures Continues(actions, later) && Legal(later) && After(later).runs[id] >= 2
  {
    var s := After(actions);
    assert Ahead(actions, actions, s);
    hide Ahead;
    later, s := Rest(actions, actions, s, l);
    later, s := Rest(actions, later, s, k);
    later, s := GoOn(actions, later, s, Check(l, id));
    later, s := GoOn(actions, later, s, Check(k, id));
    later, s := MarkAndSpawn(actions, later, s, l, id);
    later, s := MarkAndSpawn(actions, later, s, k, id);
    AheadMeans(actions, later, s);
  }

  lemma AheadMeans(actions: seq<Action>, later: seq<Action>, s: Scheduler)
    requires Ahead(actions, later, s)
    ensures Continues(actions, later) && Legal(later) && After(later) == s
  {
  }

  /** Without another Start, a schedule can get two runs in flight from here. */
  ghost predicate OverlapAhead(actions: seq<Action>, id: string) {
    exists later :: Continues(actions, later) && Legal(later) && After(later).runs[id] >= 2
  }

  ghost function Longer(names: set<string>): (n: nat)
    ensures forall id :: id in names ==> |id| < n
  {
    if names == {} then 0
    else
      var id :| id in names;
      var n := Longer(names - {id});
      if |id| < n then n else |id| + 1
  }

  /** There is always another schedule ID. */
  lemma SomeOtherId(names: set<string>) returns (id: string)
    ensures id !in names
  {
    id := seq(Longer(names), _ => 'x');
  }

  /** A continuation without a Start launches nothing. */
  lemma ContinuationIsApart(actions: seq<Action>, later: seq<Action>)
    requires Legal(actions) && Apart(actions) && Continues(actions, later) && Legal(later)
    ensures Apart(later)
  {
    forall k | 0 <= k < |later|
      ensures !LaunchesBeside(later, k)
    {
      if k < |actions| {
        assert later[..k] == actions[..k];
        assert !LaunchesBeside(actions, k);
      } else {
        assert later[k] == later[|actions|..][k - |actions|];
      }
    }
  }

  /**
   Runs of one schedule can come to overlap at some point of a run, without a further Start from there,
   if and only if some Start launched a loop beside one that had not ended.
   */
  lemma OverlapIffLaunchedBeside(actions: seq<Action>)
    requires Legal(actions)
    ensures (exists k, id :: 0 <= k <= |actions| && OverlapAhead(actions[..k], id)) <==> !Apart(actions)
  {
    if !Apart(actions) {
      var k :| 0 <= k < |actions| && LaunchesBeside(actions, k);
      var l, l' := LaunchMakesTwo(actions, k);
      var id := SomeOtherId(After(actions[..k + 1]).active);
      var later := TwoLoopsOverlap(actions[..k + 1], l, l', id);
      assert OverlapAhead(actions[..k + 1], id);
    } else {
      forall k, id | 0 <= k <= |actions|
        ensures !OverlapAhead(actions[..k], id)
      {
        ApartPrefix(actions, k);
        forall later | Continues(actions[..k], later) && Legal(later)
          ensures After(later).runs[id] <= 1
        {
          ContinuationIsApart(actions[..k], later);
          RunsDoNotOverlap(later);
        }
      }
    }
  }

  // ----- the scheduler itself, under any interleaving

  method Perform(sched: WorkflowScheduler, a: Action)
    requires Enabled(sched.View(), a)
    modifies sched
    ensures sched.View() == Step(old(sched.View()), a)
  {
    match a
    case Start => sched.Launch();
    case Stop => var stopped := sched.BeginStop();
    case Cancel(l) => sched.CancelLoop(l);
    case StopReturns(l) => sched.EndStop(l);
    case Exit(l) => sched.LoopEnds(l);
    case Check(l, id) => sched.CheckDue(l, id);
    case Abandon(l) => sched.AbandonSchedule(l);
    case Mark(l) => sched.MarkScheduleActive(l);
    case Spawn(l) => sched.SpawnRun(l);
    case Finish(id) => sched.UnmarkScheduleActive(id);
  }

  /** The wanted actions that are possible when their turn comes. */
  ghost function Possible(wanted: seq<Action>): (done: seq<Action>)
    ensures Legal(done)
  {
    if wanted == [] then []
    else
      var done, a := Possible(wanted[..|wanted| - 1]), wanted[|wanted| - 1];
      if Enabled(After(done), a) then
        assert (done + [a])[..|done|] == done;
        done + [a]
      else done
  }

  /**
   Any interleaving of callers, loops and runs; an action that cannot happen yet is passed over. If no
   Start launched a loop beside a live one, every schedule has at most one run in flight, the active set
   is exact, and at most one loop is alive. In any case loops end and Stops return as recorded.
   */
  method Interleave(wanted: seq<Action>) returns (sched: WorkflowScheduler)
    ensures fresh(sched) && sched.View() == After(Possible(wanted))
    ensures Apart(Possible(wanted)) ==>
              (forall id :: sched.runs[id] <= 1) && Exclusive(sched.View()) && OneLoop(sched.View())
    ensures forall l: nat :: Recorded(Possible(wanted), sched.View(), l)
  {
    hide Enabled, Step, Legal, After, Apart, Exclusive, OneLoop, Recorded;
    sched := new WorkflowScheduler();
    NothingPossible();
    var i := 0;
    while i < |wanted|
      invariant 0 <= i <= |wanted|
      invariant fresh(sched) && sched.View() == After(Possible(wanted[..i]))
    {
      PossibleNext(wanted, i);
      if Enabled(sched.View(), wanted[i]) {
        Perform(sched, wanted[i]);
      }
      i := i + 1;
    }
    assert wanted[..i] == wanted;
    forall l: nat
      ensures Recorded(Possible(wanted), sched.View(), l)
    {
      LoopsAreRecorded(Possible(wanted), l);
    }
    if Apart(Possible(wanted)) {
      RunsDoNotOverlap(Possible(wanted));
      AtMostOneLoop(Possible(wanted));
      AtMostOneRun(sched.View());
    }
  }

  lemma NothingPossible()
    ensures After(Possible([])) == Fresh()
  {
  }

  lemma PossibleNext(wanted: seq<Action>, i: nat)
    requires i < |wanted|
    ensures After(Possible(wanted[..i + 1]))
         == var s := After(Possible(wanted[..i])); if Enabled(s, wanted[i]) then Step(s, wanted[i]) else s
  {
    var done := Possible(wanted[..i]);
    assert wanted[..i + 1][..i] == wanted[..i];
    if Enabled(After(done), wanted[i]) {
      var done', s' := Then(done, After(done), wanted[i]);
    }
  }

  lemma AtMostOneRun(s: Scheduler)
    requires Exclusive(s)
    ensures forall id :: s.runs[id] <= 1
  {
  }
}
