/**
 The throttling emitter: deltas are coalesced per node and flushed by a background loop, everything
 else passes straight through. Each method is one atomic step of a caller or of the loop, so any
 sequence of calls is an interleaving.
 */
module Throttling {
  import opened Sequences

  /** A delta of a node, or any other event; `body` stands for the rest of the event. */
  datatype Emission = Delta(node: string, body: int) | Other(body: int)

  /** s can be obtained from t by leaving elements out. */
  ghost predicate Subsequence<T>(s: seq<T>, t: seq<T>) {
    || s == []
    || (t != [] && ((s[|s| - 1] == t[|t| - 1] && Subsequence(s[..|s| - 1], t[..|t| - 1])) || Subsequence(s, t[..|t| - 1])))
  }

  lemma SubsequenceGrows<T>(s: seq<T>, t: seq<T>, x: T)
    requires Subsequence(s, t)
    ensures Subsequence(s, t + [x]) && Subsequence(s + [x], t + [x])
  {
    TakeOfAppend(t, x, 0);
    TakeOfAppend(s, x, 0);
  }

  lemma {:induction false} SubsequenceDrops<T>(s: seq<T>, x: T, t: seq<T>)
    requires Subsequence(s + [x], t)
    ensures Subsequence(s, t)
    decreases |t|
  {
    var front, last := t[..|t| - 1], t[|t| - 1];
    TakeOfAppend(s, x, 0);
    assert t == front + [last];
    if Subsequence(s + [x], front) {
      SubsequenceDrops(s, x, front);
    }
    SubsequenceGrows(s, front, last);
  }

  /** The deltas of one node. */
  ghost function DeltasOf(log: seq<Emission>, node: string): seq<Emission> {
    if log == [] then []
    else
      var last := log[|log| - 1];
      DeltasOf(log[..|log| - 1], node) + if last.Delta? && last.node == node then [last] else []
  }

  ghost function Others(log: seq<Emission>): seq<Emission> {
    if log == [] then []
    else
      var last := log[|log| - 1];
      Others(log[..|log| - 1]) + if last.Other? then [last] else []
  }

  lemma LogGrows(log: seq<Emission>, e: Emission, node: string)
    ensures DeltasOf(log + [e], node) == if e.Delta? && e.node == node then DeltasOf(log, node) + [e] else DeltasOf(log, node)
    ensures Others(log + [e]) == if e.Other? then Others(log) + [e] else Others(log)
  {
    TakeOfAppend(log, e, 0);
  }

  ghost function Held(held: map<string, Emission>, node: string): seq<Emission> {
    if node in held then [held[node]] else []
  }

  /** What was or will still be forwarded for a node: a subsequence of the accepted deltas that ends in the latest. */
  ghost predicate KeepsUp(trail: seq<Emission>, accepted: seq<Emission>) {
    && Subsequence(trail, accepted)
    && (accepted != [] ==> trail != [] && trail[|trail| - 1] == accepted[|accepted| - 1])
  }

  ghost function Trail(forwarded: seq<Emission>, batch: map<string, Emission>, pending: map<string, Emission>, node: string)
    : seq<Emission>
  {
    DeltasOf(forwarded, node) + Held(batch, node) + Held(pending, node)
  }

  /** Passing another event through leaves every trail alone. */
  lemma TrailPassed(forwarded: seq<Emission>, batch: map<string, Emission>, pending: map<string, Emission>, e: Emission)
    requires e.Other?
    ensures forall node :: Trail(forwarded + [e], batch, pending, node) == Trail(forwarded, batch, pending, node)
    ensures Others(forwarded + [e]) == Others(forwarded) + [e]
  {
    forall node {
      LogGrows(forwarded, e, node);
    }
    LogGrows(forwarded, e, "");
  }

  /** So does moving the pending deltas to an empty batch. */
  lemma TrailSwapped(forwarded: seq<Emission>, pending: map<string, Emission>)
    ensures forall node :: Trail(forwarded, pending, map[], node) == Trail(forwarded, map[], pending, node)
  {
    forall node
      ensures Trail(forwarded, pending, map[], node) == Trail(forwarded, map[], pending, node)
    {
      Associate(DeltasOf(forwarded, node), [], [], []);
      Associate(DeltasOf(forwarded, node) + Held(pending, node), [], [], []);
    }
  }

  /** And so does forwarding a delta of the batch. */
  lemma TrailFlushed(forwarded: seq<Emission>, batch: map<string, Emission>, pending: map<string, Emission>, node: string)
    requires Keyed(batch) && node in batch
    ensures forall other :: Trail(forwarded + [batch[node]], batch - {node}, pending, other) == Trail(forwarded, batch, pending, other)
    ensures Others(forwarded + [batch[node]]) == Others(forwarded)
  {
    hide DeltasOf, Others;
    forall other
      ensures Trail(forwarded + [batch[node]], batch - {node}, pending, other) == Trail(forwarded, batch, pending, other)
    {
      LogGrows(forwarded, batch[node], other);
      Associate(DeltasOf(forwarded, other) + [batch[node]], [], [], []);
    }
    LogGrows(forwarded, batch[node], node);
  }

  ghost predicate Keyed(held: map<string, Emission>) {
    forall node :: node in held ==> held[node].Delta? && held[node].node == node
  }

  /** A newer delta replaces the pending one. */
  lemma Replaced(sent: seq<Emission>, old': seq<Emission>, accepted: seq<Emission>, e: Emission)
    requires KeepsUp(sent + old', accepted) && |old'| <= 1
    ensures KeepsUp(sent + [e], accepted + [e])
  {
    if |old'| == 1 {
      assert old' == [old'[0]];
      SubsequenceDrops(sent, old'[0], accepted);
    } else {
      assert sent + old' == sent;
    }
    SubsequenceGrows(sent, accepted, e);
  }

  datatype LoopPhase = Waiting | Flushing(final: bool) | Exited

  class ThrottledEmitter {
    var pending: map<string, Emission>
    var closed: bool
    var stopping: bool
    var phase: LoopPhase
    var batch: map<string, Emission>
    var forwarded: seq<Emission>
    ghost var accepted: seq<Emission>
    ghost var passed: seq<Emission>

    ghost predicate Valid()
      reads this
    {
      && Keyed(pending) && Keyed(batch)
      && (!phase.Flushing? ==> batch == map[])
      && (stopping ==> closed)
      && (phase == Exited || phase == Flushing(true) ==> stopping && pending == map[])
      && (forall node :: KeepsUp(Trail(forwarded, batch, pending, node), DeltasOf(accepted, node)))
      && Others(forwarded) == passed
    }

    constructor ()
      ensures Valid() && pending == map[] && !closed && !stopping && phase == Waiting
      ensures forwarded == [] && accepted == [] && passed == []
    {
      pending, batch, forwarded, accepted, passed := map[], map[], [], [], [];
      closed, stopping, phase := false, false, Waiting;
    }

    /** Hands an event to the wrapped emitter. */
    method Forward(e: Emission)
      modifies this`forwarded
      ensures forwarded == old(forwarded) + [e]
    {
      forwarded := forwarded + [e];
    }

    /** Other events pass through at once; deltas replace the pending one of their node until closed. */
    method Emit(e: Emission)
      requires Valid()
      modifies this
      ensures Valid()
      ensures closed == old(closed) && stopping == old(stopping) && phase == old(phase) && batch == old(batch)
      ensures e.Other? ==> forwarded == old(forwarded) + [e] && pending == old(pending)
      ensures e.Delta? ==> forwarded == old(forwarded) && pending == if closed then old(pending) else old(pending)[e.node := e]
      ensures accepted == old(accepted) + if e.Delta? && !closed then [e] else []
      ensures passed == old(passed) + if e.Other? then [e] else []
    {
      hide KeepsUp, DeltasOf, Others;
      if e.Other? {
        hide Trail;
        TrailPassed(forwarded, batch, pending, e);
        passed := passed + [e];
        Forward(e);
        return;
      }
      if closed {
        return;
      }
      forall node {
        LogGrows(accepted, e, node);
      }
      Replaced(DeltasOf(forwarded, e.node) + Held(batch, e.node), Held(pending, e.node), DeltasOf(accepted, e.node), e);
      pending := pending[e.node := e];
      accepted := accepted + [e];
    }

    /** The locked part of Close; only the first caller goes on to stop the loop. */
    method MarkClosed() returns (first: bool)
      requires Valid()
      modifies this`closed
      ensures Valid() && closed && first == !old(closed)
    {
      first := !closed;
      closed := true;
    }

    method SignalStop()
      requires Valid() && closed
      modifies this`stopping
      ensures Valid() && stopping
    {
      stopping := true;
    }

    /** The loop wakes up, on a tick or on the stop signal, and takes over whatever is pending. */
    method StartFlush(final: bool)
      requires Valid() && phase == Waiting && (final ==> stopping)
      modifies this`phase, this`batch, this`pending
      ensures Valid()
      ensures old(pending) == map[] ==>
                pending == map[] && batch == map[] && phase == if final then Exited else Waiting
      ensures old(pending) != map[] ==> pending == map[] && batch == old(pending) && phase == Flushing(final)
    {
      if pending == map[] {
        phase := if final then Exited else Waiting;
        return;
      }
      hide Trail, KeepsUp, Others, DeltasOf;
      TrailSwapped(forwarded, pending);
      batch, pending, phase := pending, map[], Flushing(final);
    }

    /** One event of the batch, in any order, reaches the wrapped emitter. */
    method FlushOne(node: string)
      requires Valid() && phase.Flushing? && node in batch
      modifies this`batch, this`forwarded
      ensures Valid() && batch == old(batch) - {node} && forwarded == old(forwarded) + [old(batch)[node]]
    {
      hide KeepsUp, DeltasOf, Others;
      hide Trail;
      TrailFlushed(forwarded, batch, pending, node);
      Forward(batch[node]);
      batch := batch - {node};
    }

    method FinishFlush()
      requires Valid() && phase.Flushing? && batch == map[]
      modifies this`phase
      ensures Valid() && phase == if old(phase).final then Exited else Waiting
    {
      phase := if phase.final then Exited else Waiting;
    }
  }

  datatype Step = EmitStep(e: Emission) | MarkStep | SignalStep | WakeStep(final: bool) | FlushStep(node: string) | FinishStep

  ghost predicate ClosedBy(closed: bool, steps: seq<Step>) {
    closed || MarkStep in steps
  }

  /** The deltas emitted before the emitter was closed. */
  ghost function AcceptedBy(closed: bool, steps: seq<Step>): seq<Emission> {
    if steps == [] then []
    else
      var front, last := steps[..|steps| - 1], steps[|steps| - 1];
      AcceptedBy(closed, front) + if last.EmitStep? && last.e.Delta? && !ClosedBy(closed, front) then [last.e] else []
  }

  /** The other events emitted, before or after closing. */
  ghost function PassedBy(steps: seq<Step>): seq<Emission> {
    if steps == [] then []
    else
      var front, last := steps[..|steps| - 1], steps[|steps| - 1];
      PassedBy(front) + if last.EmitStep? && last.e.Other? then [last.e] else []
  }

  lemma NextStep(closed: bool, steps: seq<Step>, i: nat)
    requires i < |steps|
    ensures AcceptedBy(closed, steps[..i + 1])
         == AcceptedBy(closed, steps[..i])
            + if steps[i].EmitStep? && steps[i].e.Delta? && !ClosedBy(closed, steps[..i]) then [steps[i].e] else []
    ensures PassedBy(steps[..i + 1]) == PassedBy(steps[..i]) + if steps[i].EmitStep? && steps[i].e.Other? then [steps[i].e] else []
    ensures ClosedBy(closed, steps[..i + 1]) <==> ClosedBy(closed, steps[..i]) || steps[i] == MarkStep
  {
    TakeNext(steps, i);
    assert steps[..i + 1][..i] == steps[..i];
  }

  /**
   Any interleaving of emits, closes, ticks and loop steps; a step that cannot happen yet is passed over.
   At every point the deltas forwarded for a node are a subsequence of those accepted for it and all
   other events went through once, in order. Once the loop has exited, which is what Close waits for,
   nothing is pending and each node's last forwarded delta is its last accepted one.
   */
  method Interleave(te: ThrottledEmitter, steps: seq<Step>)
    requires te.Valid()
    modifies te
    ensures te.Valid()
    ensures te.accepted == old(te.accepted) + AcceptedBy(old(te.closed), steps)
    ensures te.passed == old(te.passed) + PassedBy(steps)
    ensures forall node :: Subsequence(DeltasOf(te.forwarded, node), DeltasOf(te.accepted, node))
    ensures Others(te.forwarded) == te.passed
    ensures te.phase == Exited ==> te.pending == map[] && te.batch == map[]
    ensures te.phase == Exited ==> forall node :: KeepsUp(DeltasOf(te.forwarded, node), DeltasOf(te.accepted, node))
  {
    var i := 0;
    while i < |steps|
      invariant 0 <= i <= |steps| && te.Valid()
      invariant te.closed == ClosedBy(old(te.closed), steps[..i])
      invariant te.accepted == old(te.accepted) + AcceptedBy(old(te.closed), steps[..i])
      invariant te.passed == old(te.passed) + PassedBy(steps[..i])
    {
      NextStep(old(te.closed), steps, i);
      Perform(te, steps[i]);
      i := i + 1;
    }
    assert steps[..i] == steps;
    hide Subsequence, DeltasOf, Others;
    forall node
      ensures Subsequence(DeltasOf(te.forwarded, node), DeltasOf(te.accepted, node))
      ensures te.phase == Exited ==> KeepsUp(DeltasOf(te.forwarded, node), DeltasOf(te.accepted, node))
    {
      ForwardedIsAccepted(te.forwarded, te.batch, te.pending, te.accepted, node);
    }
  }

  lemma ForwardedIsAccepted(forwarded: seq<Emission>, batch: map<string, Emission>, pending: map<string, Emission>,
                            accepted: seq<Emission>, node: string)
    requires KeepsUp(Trail(forwarded, batch, pending, node), DeltasOf(accepted, node))
    ensures Subsequence(DeltasOf(forwarded, node), DeltasOf(accepted, node))
    ensures node !in batch && node !in pending ==> KeepsUp(DeltasOf(forwarded, node), DeltasOf(accepted, node))
  {
    hide Subsequence, DeltasOf;
    var sent := DeltasOf(forwarded, node);
    Associate(sent, [], [], []);
    if node in pending {
      SubsequenceDrops(sent + Held(batch, node), pending[node], DeltasOf(accepted, node));
    } else {
      Associate(sent + Held(batch, node), [], [], []);
    }
    if node in batch {
      SubsequenceDrops(sent, batch[node], DeltasOf(accepted, node));
    }
  }

  method Perform(te: ThrottledEmitter, step: Step)
    requires te.Valid()
    modifies te
    ensures te.Valid()
    ensures te.closed == (old(te.closed) || step == MarkStep)
    ensures te.accepted == old(te.accepted) + if step.EmitStep? && step.e.Delta? && !old(te.closed) then [step.e] else []
    ensures te.passed == old(te.passed) + if step.EmitStep? && step.e.Other? then [step.e] else []
  {
    match step
    case EmitStep(e) => te.Emit(e);
    case MarkStep => var first := te.MarkClosed();
    case SignalStep =>
      if te.closed {
        te.SignalStop();
      }
    case WakeStep(final) =>
      if te.phase == Waiting && (final ==> te.stopping) {
        te.StartFlush(final);
      }
    case FlushStep(node) =>
      if te.phase.Flushing? && node in te.batch {
        te.FlushOne(node);
      }
    case FinishStep =>
      if te.phase.Flushing? && te.batch == map[] {
        te.FinishFlush();
      }
  }

  /** Runs the loop to the end of the flush it is in. */
  method FinishBatch(te: ThrottledEmitter)
    requires te.Valid() && te.phase.Flushing?
    modifies te`batch, te`forwarded, te`phase
    ensures te.Valid() && te.phase == if old(te.phase).final then Exited else Waiting
  {
    while te.batch != map[]
      invariant te.Valid() && te.phase == old(te.phase)
      decreases |te.batch|
    {
      var node :| node in te.batch;
      te.FlushOne(node);
    }
    te.FinishFlush();
  }

  /**
   The Close call that performs the shutdown, from any state the loop can be in: it does return, and
   then every accepted delta has been forwarded or superseded by a later one that has.
   */
  method Close(te: ThrottledEmitter)
    requires te.Valid() && !te.closed
    modifies te`closed, te`stopping, te`batch, te`forwarded, te`phase, te`pending
    ensures te.Valid() && te.closed && te.phase == Exited && te.pending == map[]
    ensures forall node :: KeepsUp(DeltasOf(te.forwarded, node), DeltasOf(te.accepted, node))
  {
    var first := te.MarkClosed();
    te.SignalStop();
    if te.phase.Flushing? {
      FinishBatch(te);
    }
    if te.phase == Waiting {
      te.StartFlush(true);
    }
    if te.phase.Flushing? {
      FinishBatch(te);
    }
    hide Subsequence, DeltasOf, Others;
    forall node
      ensures KeepsUp(DeltasOf(te.forwarded, node), DeltasOf(te.accepted, node))
    {
      ForwardedIsAccepted(te.forwarded, te.batch, te.pending, te.accepted, node);
    }
  }
}
