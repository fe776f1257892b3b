/**
 The worklist loop of Kahn's algorithm, which the repository writes three times: over the adjacency
 maps of a built graph, over the edge list of a definition, and over `depends_on` declarations.
 Edges form a multigraph: parallel edges are counted once each.
 */
module Kahn {
  import opened Sequences
  import opened Digraphs

  ghost function EdgeSet<N>(E: seq<Edge<N>>): set<Edge<N>> {
    set e | e in E
  }

  /** Targets of the edges leaving u, in edge order. */
  function Targets<N(==)>(E: seq<Edge<N>>, u: N): seq<N> {
    if E == [] then []
    else Targets(E[..|E| - 1], u) + if E[|E| - 1].source == u then [E[|E| - 1].target] else []
  }

  /** Sources of the edges entering v, in edge order. */
  function Sources<N(==)>(E: seq<Edge<N>>, v: N): seq<N> {
    if E == [] then []
    else Sources(E[..|E| - 1], v) + if E[|E| - 1].target == v then [E[|E| - 1].source] else []
  }

  /** Number of edges entering v from outside `finished`. */
  ghost function OpenEdges<N>(E: seq<Edge<N>>, v: N, finished: set<N>): nat {
    if E == [] then 0
    else OpenEdges(E[..|E| - 1], v, finished)
         + if E[|E| - 1].target == v && E[|E| - 1].source !in finished then 1 else 0
  }

  lemma TargetsAppend<N>(E: seq<Edge<N>>, e: Edge<N>, u: N)
    ensures Targets(E + [e], u) == Targets(E, u) + if e.source == u then [e.target] else []
    ensures Sources(E + [e], u) == Sources(E, u) + if e.target == u then [e.source] else []
  {
    assert (E + [e])[..|E|] == E;
  }

  lemma {:induction false} TargetsMembership<N>(E: seq<Edge<N>>, u: N, v: N)
    ensures v in Targets(E, u) <==> Edge(u, v) in E
    ensures u in Sources(E, v) <==> Edge(u, v) in E
  {
    if E != [] {
      TargetsMembership(E[..|E| - 1], u, v);
      assert E == E[..|E| - 1] + [E[|E| - 1]];
    }
  }

  /** An edge appears equally often in the successor list of its source and the predecessor list of its target. */
  lemma {:induction false} TargetsMirrorSources<N>(E: seq<Edge<N>>, u: N, v: N)
    ensures multiset(Targets(E, u))[v] == multiset(E)[Edge(u, v)] == multiset(Sources(E, v))[u]
  {
    if E != [] {
      var front, e := E[..|E| - 1], E[|E| - 1];
      TargetsMirrorSources(front, u, v);
      SplitLast(E);
      CountOfAppend(front, e, Edge(u, v));
      CountOfAppend(Targets(front, u), e.target, v);
      CountOfAppend(Sources(front, v), e.source, u);
      Associate(Targets(front, u), [], [], []);
      Associate(Sources(front, v), [], [], []);
    }
  }

  /** Without parallel edges, neighbours are listed once. */
  lemma NeighboursDistinct<N(!new)>(E: seq<Edge<N>>, v: N)
    requires NoDup(E)
    ensures NoDup(Targets(E, v)) && NoDup(Sources(E, v))
  {
    forall x | x in Targets(E, v)
      ensures multiset(Targets(E, v))[x] == 1
    {
      TargetsMirrorSources(E, v, x);
      TargetsMembership(E, v, x);
      NoDupMultiset(E, Edge(v, x));
    }
    MultisetNoDup(Targets(E, v));
    forall x | x in Sources(E, v)
      ensures multiset(Sources(E, v))[x] == 1
    {
      TargetsMirrorSources(E, x, v);
      TargetsMembership(E, x, v);
      NoDupMultiset(E, Edge(x, v));
    }
    MultisetNoDup(Sources(E, v));
  }

  lemma {:induction false} OpenEdgesInitially<N>(E: seq<Edge<N>>, v: N)
    ensures OpenEdges(E, v, {}) == |Sources(E, v)|
  {
    if E != [] {
      OpenEdgesInitially(E[..|E| - 1], v);
    }
  }

  lemma {:induction false} NoEdgesNoNeighbours<N>(E: seq<Edge<N>>, id: N)
    requires forall e :: e in E ==> e.source != id && e.target != id
    ensures Targets(E, id) == [] && Sources(E, id) == []
  {
    if E != [] {
      NoEdgesNoNeighbours(E[..|E| - 1], id);
    }
  }

  /** Finishing u closes one edge into v per occurrence of v among u's targets. */
  lemma {:induction false} FinishingCloses<N>(E: seq<Edge<N>>, u: N, v: N, finished: set<N>)
    requires u !in finished
    ensures OpenEdges(E, v, finished) == OpenEdges(E, v, finished + {u}) + multiset(Targets(E, u))[v]
  {
    if E != [] {
      FinishingCloses(E[..|E| - 1], u, v, finished);
    }
  }

  lemma {:induction false} OpenEdgesPositive<N(!new)>(E: seq<Edge<N>>, v: N, finished: set<N>)
    ensures OpenEdges(E, v, finished) > 0 <==> exists u :: u !in finished && Edge(u, v) in E
  {
    if E != [] {
      OpenEdgesPositive(E[..|E| - 1], v, finished);
      var e := E[|E| - 1];
      assert E == E[..|E| - 1] + [e];
      if e.target == v && e.source !in finished {
        assert Edge(e.source, v) in E;
      }
    }
  }

  /** In-degrees and successor lists that reflect the given edges. */
  ghost predicate Counted<N>(E: seq<Edge<N>>, inDegree: map<N, int>, successors: map<N, seq<N>>) {
    && (forall v :: v in inDegree ==> inDegree[v] == |Sources(E, v)|)
    && (forall u :: u in inDegree ==> Lookup(successors, u) == Targets(E, u))
  }

  lemma CountOne<N>(E: seq<Edge<N>>, inDegree: map<N, int>, successors: map<N, seq<N>>, e: Edge<N>)
    requires Counted(E, inDegree, successors) && e.target in inDegree
    ensures Counted(E + [e], inDegree[e.target := inDegree[e.target] + 1],
                    successors[e.source := Lookup(successors, e.source) + [e.target]])
  {
    forall v | v in inDegree {
      TargetsAppend(E, e, v);
    }
  }

  /** What the callers set up before the loop: counts and successor lists taken from the same edges. */
  ghost predicate Prepared<N>(E: seq<Edge<N>>, inDegree: map<N, int>, successors: map<N, seq<N>>) {
    && (forall e :: e in E ==> e.source in inDegree && e.target in inDegree)
    && (forall v :: v in inDegree ==> inDegree[v] == OpenEdges(E, v, {}))
    && (forall u :: u in inDegree ==> Lookup(successors, u) == Targets(E, u))
  }

  /** The queue starts with exactly the nodes that no edge enters (possibly repeated). */
  ghost predicate SeededWithSources<N>(inDegree: map<N, int>, queue: seq<N>) {
    && Elements(queue) <= inDegree.Keys
    && forall v :: v in inDegree ==> (v in queue <==> inDegree[v] == 0)
  }

  ghost function Positive<N>(inDegree: map<N, int>): set<N> {
    set v | v in inDegree && inDegree[v] > 0
  }

  /** The loop's state between two iterations, when the queue started without repeats. */
  ghost predicate Consistent<N>(E: seq<Edge<N>>, inDegree: map<N, int>, order: seq<N>, queue: seq<N>) {
    && NoDup(order + queue)
    && Elements(order + queue) <= inDegree.Keys
    && (forall v :: v in inDegree ==> inDegree[v] == OpenEdges(E, v, Elements(order)))
    && (forall v :: v in inDegree ==> (v in order + queue <==> inDegree[v] == 0))
    && EdgesPointForward(EdgeSet(E), order)
  }

  /** The loop's state inside an iteration: `closed` are the targets of `current` decremented so far. */
  ghost predicate Closing<N>(E: seq<Edge<N>>, inDegree: map<N, int>, order: seq<N>, current: N, queue: seq<N>,
                             closed: seq<N>)
  {
    && NoDup(order + [current] + queue)
    && Elements(order + [current] + queue) <= inDegree.Keys
    && (forall v :: v in inDegree ==> inDegree[v] == OpenEdges(E, v, Elements(order)) - multiset(closed)[v])
    && (forall v :: v in inDegree ==> (v in order + [current] + queue <==> inDegree[v] == 0))
  }

  /**
   Drains the queue: each popped node is appended to the order and closes its outgoing edges; a node
   whose last open edge closes is queued. Terminates from any seeding; from a repeat-free one the
   order lists exactly the nodes that are not below a cycle, every edge pointing forward.
   */
  method Drain<N(==, !new)>(ghost E: seq<Edge<N>>, inDegree0: map<N, int>, successors: map<N, seq<N>>, queue0: seq<N>)
    returns (order: seq<N>, inDegree: map<N, int>)
    requires Prepared(E, inDegree0, successors)
    requires SeededWithSources(inDegree0, queue0)
    ensures inDegree.Keys == inDegree0.Keys
    ensures NoDup(queue0) ==> NoDup(order)
    ensures NoDup(queue0) ==> EdgesPointForward(EdgeSet(E), order)
    ensures NoDup(queue0) ==> forall v :: v in order <==> v in inDegree0 && !BelowCycle(EdgeSet(E), v)
    ensures NoDup(queue0) ==> forall v :: v in inDegree ==> (v in order <==> inDegree[v] <= 0)
  {
    order, inDegree := [], inDegree0;
    var queue := queue0;
    if NoDup(queue0) {
      assert order + queue == queue0;
      assert Elements(order) == {};
      assert Consistent(E, inDegree, order, queue);
    }
    while |queue| > 0
      invariant inDegree.Keys == inDegree0.Keys
      invariant Elements(queue) <= inDegree.Keys
      invariant NoDup(queue0) ==> Consistent(E, inDegree, order, queue)
      decreases |Positive(inDegree)| + |queue|
    {
      var current := queue[0];
      ghost var before := queue;
      queue := queue[1..];
      assert current in before;
      if NoDup(queue0) {
        StartClosing(E, inDegree, order, before);
      }
      inDegree, queue := CloseEdges(E, NoDup(queue0), order, current, Lookup(successors, current), inDegree, queue);
      if NoDup(queue0) {
        FinishClosing(E, inDegree, order, current, queue);
      }
      order := order + [current];
    }
    if NoDup(queue0) {
      Drained(E, inDegree, order);
    }
  }

  /** The inner loop: closes the edges of one popped node. */
  method CloseEdges<N(==, !new)>(ghost E: seq<Edge<N>>, ghost clean: bool, ghost order: seq<N>, current: N,
                                 targets: seq<N>, inDegree0: map<N, int>, queue0: seq<N>)
    returns (inDegree: map<N, int>, queue: seq<N>)
    requires targets == Targets(E, current)
    requires forall e :: e in E ==> e.target in inDegree0
    requires Elements(queue0) <= inDegree0.Keys
    requires clean ==> Closing(E, inDegree0, order, current, queue0, [])
    ensures inDegree.Keys == inDegree0.Keys
    ensures Elements(queue) <= inDegree.Keys
    ensures |Positive(inDegree)| + |queue| <= |Positive(inDegree0)| + |queue0|
    ensures clean ==> Closing(E, inDegree, order, current, queue, targets)
  {
    hide Closing;
    inDegree, queue := inDegree0, queue0;
    var i := 0;
    while i < |targets|
      invariant 0 <= i <= |targets|
      invariant inDegree.Keys == inDegree0.Keys
      invariant Elements(queue) <= inDegree.Keys
      invariant |Positive(inDegree)| + |queue| <= |Positive(inDegree0)| + |queue0|
      invariant clean ==> Closing(E, inDegree, order, current, queue, targets[..i])
    {
      var succ := targets[i];
      TargetsMembership(E, current, succ);
      PositiveStep(inDegree, succ);
      if clean {
        CloseOne(E, inDegree, order, current, queue, targets, i);
      }
      inDegree := inDegree[succ := inDegree[succ] - 1];
      if inDegree[succ] == 0 {
        queue := queue + [succ];
      }
      i := i + 1;
    }
    assert targets[..i] == targets;
  }

  lemma PositiveStep<N>(inDegree: map<N, int>, succ: N)
    requires succ in inDegree
    ensures var after := inDegree[succ := inDegree[succ] - 1];
            |Positive(after)| + (if after[succ] == 0 then 1 else 0) <= |Positive(inDegree)|
  {
    var after := inDegree[succ := inDegree[succ] - 1];
    if after[succ] == 0 {
      assert Positive(after) == Positive(inDegree) - {succ};
    } else {
      assert Positive(after) == Positive(inDegree);
    }
  }

  lemma StartClosing<N>(E: seq<Edge<N>>, inDegree: map<N, int>, order: seq<N>, queue: seq<N>)
    requires Consistent(E, inDegree, order, queue) && |queue| > 0
    ensures Closing(E, inDegree, order, queue[0], queue[1..], [])
  {
    assert order + [queue[0]] + queue[1..] == order + queue;
  }

  lemma CurrentIsNew<N>(order: seq<N>, current: N, queue: seq<N>)
    requires NoDup(order + [current] + queue)
    ensures current !in Elements(order)
  {
    NoDupAppend(order + [current], queue);
    NoDupAppend(order, [current]);
    assert current in Elements([current]);
  }

  /** An edge that is still to be closed keeps its target's count positive. */
  lemma StillOpen<N>(E: seq<Edge<N>>, inDegree: map<N, int>, order: seq<N>, current: N, queue: seq<N>,
                     targets: seq<N>, i: nat)
    requires targets == Targets(E, current) && i < |targets| && targets[i] in inDegree
    requires Closing(E, inDegree, order, current, queue, targets[..i])
    ensures inDegree[targets[i]] >= 1
  {
    assert targets == targets[..i] + [targets[i]] + targets[i + 1..];
    CurrentIsNew(order, current, queue);
    FinishingCloses(E, current, targets[i], Elements(order));
  }

  lemma CloseOne<N>(E: seq<Edge<N>>, inDegree: map<N, int>, order: seq<N>, current: N, queue: seq<N>,
                    targets: seq<N>, i: nat)
    requires targets == Targets(E, current) && i < |targets| && targets[i] in inDegree
    requires Closing(E, inDegree, order, current, queue, targets[..i])
    ensures var after := inDegree[targets[i] := inDegree[targets[i]] - 1];
            Closing(E, after, order, current, if after[targets[i]] == 0 then queue + [targets[i]] else queue,
                    targets[..i + 1])
  {
    hide NoDup, Targets, OpenEdges;
    var succ := targets[i];
    StillOpen(E, inDegree, order, current, queue, targets, i);
    TakeNext(targets, i);
    var listed := order + [current] + queue;
    ExtendNoDup(listed, succ);
    Associate(order + [current], queue, [succ], []);
  }

  lemma FinishClosing<N(!new)>(E: seq<Edge<N>>, inDegree: map<N, int>, order: seq<N>, current: N, queue: seq<N>)
    requires Closing(E, inDegree, order, current, queue, Targets(E, current))
    requires EdgesPointForward(EdgeSet(E), order)
    requires OpenEdges(E, current, Elements(order)) == 0
    ensures Consistent(E, inDegree, order + [current], queue)
  {
    var listed := order + [current];
    CurrentIsNew(order, current, queue);
    assert Elements(listed) == Elements(order) + {current};
    forall v | v in inDegree
      ensures inDegree[v] == OpenEdges(E, v, Elements(listed))
    {
      FinishingCloses(E, current, v, Elements(order));
    }
    forall k, e | 0 <= k < |listed| && e in EdgeSet(E) && e.target == listed[k]
      ensures e.source in listed[..k]
    {
      if k < |order| {
        assert listed[..k] == order[..k];
      } else {
        assert listed[..k] == order;
        OpenEdgesPositive(E, current, Elements(order));
        assert Edge(e.source, current) in E;
      }
    }
  }

  /** When the queue is empty, the nodes left out each wait for another left-out node. */
  lemma Drained<N(!new)>(E: seq<Edge<N>>, inDegree: map<N, int>, order: seq<N>)
    requires Consistent(E, inDegree, order, [])
    requires forall e :: e in E ==> e.source in inDegree && e.target in inDegree
    ensures NoDup(order) && EdgesPointForward(EdgeSet(E), order)
    ensures forall v :: v in inDegree ==> (v in order <==> inDegree[v] <= 0)
    ensures forall v :: v in order <==> v in inDegree && !BelowCycle(EdgeSet(E), v)
  {
    assert order + [] == order;
    var stuck := inDegree.Keys - Elements(order);
    forall w | w in stuck
      ensures HasPredecessorIn(EdgeSet(E), stuck, w)
    {
      OpenEdgesPositive(E, w, Elements(order));
      var u :| u !in Elements(order) && Edge(u, w) in E;
      assert u in stuck && Edge(u, w) in EdgeSet(E);
    }
    forall v
      ensures v in order <==> v in inDegree && !BelowCycle(EdgeSet(E), v)
    {
      if v in order {
        ForwardListingAvoidsCycles(EdgeSet(E), order, v);
      } else if v in inDegree {
        NoSourceMeansCycle(EdgeSet(E), stuck, v);
      }
    }
  }
}
