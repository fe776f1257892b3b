/** Runtime events: numbering, and the grammar of a run's trace. */
module Events {

  datatype EventKind =
    | RunStarted
    | RunFinished
    | NodeStarted(node: string)
    | NodeFinished(node: string)
    | NodeFailed(node: string)
    | RouteDecision(node: string, targets: seq<string>)
    | StepPaused(node: string)
    | StepResumed(node: string)
    | StepSkipped(node: string)
    | StepAborted(node: string)
    | NodeOutput(node: string)

  datatype Event = Event(number: nat, kind: EventKind)

  ghost function Kinds(log: seq<Event>): (kinds: seq<EventKind>)
    ensures |kinds| == |log|
  {
    seq(|log|, i requires 0 <= i < |log| => log[i].kind)
  }

  /** The emitter of one run: a counter that numbers events and the events delivered so far. */
  class Emitter {
    var counter: nat
    var log: seq<Event>

    ghost predicate Valid()
      reads this
    {
      && counter == |log|
      && forall i :: 0 <= i < |log| ==> log[i].number == i + 1
    }

    ghost function Trace(): seq<EventKind>
      reads this
    {
      Kinds(log)
    }

    constructor ()
      ensures Valid() && log == []
    {
      counter, log := 0, [];
    }

    method Emit(kind: EventKind)
      requires Valid()
      modifies this
      ensures Valid()
      ensures Trace() == old(Trace()) + [kind]
    {
      counter := counter + 1;
      log := log + [Event(counter, kind)];
    }
  }

  /** Where a trace stands: before the run, between nodes, inside a node, after the run, or ill-formed. */
  datatype Phase = Before | Between | Inside(node: string) | After | Broken

  ghost function Advance(phase: Phase, kind: EventKind): Phase {
    match (phase, kind)
    case (Before, RunStarted) => Between
    case (Between, RunFinished) => After
    case (Between, NodeStarted(n)) => Inside(n)
    case (Between, RouteDecision(_, _)) => Between
    case (Between, StepPaused(_)) => Between
    case (Between, StepResumed(_)) => Between
    case (Between, StepSkipped(_)) => Between
    case (Between, StepAborted(_)) => Between
    case (Inside(n), NodeFinished(m)) => if n == m then Between else Broken
    case (Inside(n), NodeFailed(m)) => if n == m then Between else Broken
    case (Inside(n), NodeOutput(m)) => if n == m then phase else Broken
    case (_, _) => Broken
  }

  ghost function PhaseAfter(trace: seq<EventKind>): Phase {
    if trace == [] then Before
    else Advance(PhaseAfter(trace[..|trace| - 1]), trace[|trace| - 1])
  }

  /** The nodes that a trace starts, in order. */
  ghost function Started(trace: seq<EventKind>): seq<string> {
    if trace == [] then []
    else
      Started(trace[..|trace| - 1])
      + if trace[|trace| - 1].NodeStarted? then [trace[|trace| - 1].node] else []
  }

  lemma Emitted(trace: seq<EventKind>, kind: EventKind)
    ensures PhaseAfter(trace + [kind]) == Advance(PhaseAfter(trace), kind)
    ensures Started(trace + [kind]) == Started(trace) + if kind.NodeStarted? then [kind.node] else []
  {
    assert (trace + [kind])[..|trace|] == trace;
  }

  lemma {:induction false} PrefixNotBroken(trace: seq<EventKind>, i: nat)
    requires PhaseAfter(trace) != Broken && i <= |trace|
    ensures PhaseAfter(trace[..i]) != Broken
    decreases |trace|
  {
    if i == |trace| {
      assert trace[..i] == trace;
    } else {
      PrefixNotBroken(trace[..|trace| - 1], i);
      assert trace[..|trace| - 1][..i] == trace[..i];
    }
  }

  lemma StepAt(trace: seq<EventKind>, i: nat)
    requires i < |trace|
    ensures PhaseAfter(trace[..i + 1]) == Advance(PhaseAfter(trace[..i]), trace[i])
  {
    assert trace[..i + 1] == trace[..i] + [trace[i]];
    Emitted(trace[..i], trace[i]);
  }

  /** Nothing is started again before the node in progress is closed. */
  ghost predicate ClosedAt(trace: seq<EventKind>, i: nat, j: nat, node: string) {
    && i < j < |trace|
    && (trace[j] == NodeFinished(node) || trace[j] == NodeFailed(node))
    && forall k :: i < k < j ==> trace[k] == NodeOutput(node)
  }

  lemma {:induction false} OpenNodeCloses(trace: seq<EventKind>, i: nat, m: nat, node: string) returns (j: nat)
    requires i < m <= |trace| && PhaseAfter(trace) == After
    requires PhaseAfter(trace[..m]) == Inside(node)
    requires forall k :: i < k < m ==> trace[k] == NodeOutput(node)
    ensures ClosedAt(trace, i, j, node)
    decreases |trace| - m
  {
    assert trace[..|trace|] == trace;
    StepAt(trace, m);
    PrefixNotBroken(trace, m + 1);
    if trace[m] == NodeOutput(node) {
      j := OpenNodeCloses(trace, i, m + 1, node);
    } else {
      j := m;
    }
  }

  lemma {:induction false} NotAfterInside(trace: seq<EventKind>, i: nat)
    requires PhaseAfter(trace) == After && i < |trace|
    ensures PhaseAfter(trace[..i]) != After
    ensures i > 0 ==> PhaseAfter(trace[..i]) != Before
    ensures trace[i] == RunStarted <==> i == 0
    ensures trace[i] == RunFinished <==> i == |trace| - 1
  {
    StepAt(trace, i);
    PrefixNotBroken(trace, i + 1);
    if i > 0 {
      StepAt(trace, i - 1);
    }
    if i == |trace| - 1 {
      assert trace[..i + 1] == trace;
    } else {
      StepAt(trace, i + 1);
      PrefixNotBroken(trace, i + 2);
    }
  }

  /**
   What a complete trace looks like: run.started opens it and nothing else does, run.finished ends it
   and nothing else does, and every node.started is closed by a node.finished or node.failed of the
   same node with only that node's own output in between.
   */
  lemma CompleteTraceIsBracketed(trace: seq<EventKind>)
    requires PhaseAfter(trace) == After
    ensures |trace| >= 2
    ensures forall i :: 0 <= i < |trace| ==> (trace[i] == RunStarted <==> i == 0)
    ensures forall i :: 0 <= i < |trace| ==> (trace[i] == RunFinished <==> i == |trace| - 1)
    ensures forall i :: 0 <= i < |trace| && trace[i].NodeStarted? ==> exists j :: ClosedAt(trace, i, j, trace[i].node)
  {
    forall i | 0 <= i < |trace|
      ensures trace[i] == RunStarted <==> i == 0
      ensures trace[i] == RunFinished <==> i == |trace| - 1
    {
      NotAfterInside(trace, i);
    }
    forall i | 0 <= i < |trace| && trace[i].NodeStarted?
      ensures exists j :: ClosedAt(trace, i, j, trace[i].node)
    {
      StepAt(trace, i);
      PrefixNotBroken(trace, i + 1);
      var j := OpenNodeCloses(trace, i, i + 1, trace[i].node);
    }
    assert trace[0] == RunStarted;
  }
}
