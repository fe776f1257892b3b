/**
 Laws of the sequential engine's FIFO worklist. A log records the nodes in the order they were
 dequeued and, for each, what was appended to the queue after it; the laws hold of every log,
 whatever the nodes, routers and step controller did to produce it.
 */
module Worklists {
  import opened Sequences
  import opened Digraphs
  import opened Kahn

  /** The part of a graph the worklist reads. */
  datatype Flow<N> = Flow(edges: seq<Edge<N>>, entry: N)
  {
    ghost function Successors(id: N): seq<N> {
      Targets(edges, id)
    }

    ghost function Predecessors(id: N): seq<N> {
      Sources(edges, id)
    }

    ghost function Links(): set<Edge<N>> {
      EdgeSet(edges)
    }
  }

  function Min(a: nat, b: nat): nat {
    if a <= b then a else b
  }

  ghost function Flatten<N(!new)>(lists: seq<seq<N>>): seq<N> {
    if lists == [] then [] else Flatten(lists[..|lists| - 1]) + lists[|lists| - 1]
  }

  ghost function Occurrences<N(!new)>(log: seq<N>, id: N): nat {
    multiset(log)[id]
  }

  /** How often a node is processed: a dequeued node is dropped once it has used up its hops. */
  ghost function Hops<N(!new)>(popped: seq<N>, maxHops: nat, id: N): nat {
    Min(maxHops, Occurrences(popped, id))
  }

  /** The i-th dequeued node had no hops left. */
  ghost predicate Capped<N(!new)>(popped: seq<N>, maxHops: nat, i: nat)
    requires i < |popped|
  {
    Occurrences(popped[..i], popped[i]) >= maxHops
  }

  /** The dequeued nodes that were processed. */
  ghost function Attempted<N(!new)>(popped: seq<N>, maxHops: nat): seq<N> {
    if popped == [] then []
    else
      var last := |popped| - 1;
      Attempted(popped[..last], maxHops) + if Capped(popped, maxHops, last) then [] else [popped[last]]
  }

  /**
   The state of the worklist: everything ever enqueued, in order, has been dequeued or is still in
   the queue; nothing was dequeued before it was enqueued; a node without hops left enqueues nothing;
   and a processed node enqueues only its graph successors.
   */
  ghost predicate IsLog<N(!new)>(g: Flow<N>, maxHops: nat, popped: seq<N>, appended: seq<seq<N>>, queue: seq<N>) {
    && |appended| == |popped|
    && popped + queue == [g.entry] + Flatten(appended)
    && (forall i :: 0 <= i < |popped| ==> i <= |Flatten(appended[..i])|)
    && (forall i :: 0 <= i < |popped| && Capped(popped, maxHops, i) ==> appended[i] == [])
    && (forall i, id :: 0 <= i < |popped| && id in appended[i] ==> id in g.Successors(popped[i]))
  }

  /** Every processed node enqueued all its successors: no router or gate narrowed the choice. */
  ghost predicate FollowsAll<N(!new)>(g: Flow<N>, maxHops: nat, popped: seq<N>, appended: seq<seq<N>>) {
    && |appended| == |popped|
    && forall i :: 0 <= i < |popped| ==> appended[i] == if Capped(popped, maxHops, i) then [] else g.Successors(popped[i])
  }

  /** The log of a completed run that follows every successor. */
  ghost predicate IsPlainLog<N(!new)>(g: Flow<N>, maxHops: nat, popped: seq<N>, appended: seq<seq<N>>) {
    && IsLog(g, maxHops, popped, appended, [])
    && FollowsAll(g, maxHops, popped, appended)
  }

  lemma AppendedAt<N(!new)>(g: Flow<N>, maxHops: nat, popped: seq<N>, appended: seq<seq<N>>, i: nat)
    requires FollowsAll(g, maxHops, popped, appended) && i < |popped|
    ensures |appended| == |popped|
    ensures appended[i] == if Occurrences(popped[..i], popped[i]) >= maxHops then [] else g.Successors(popped[i])
  {
  }

  lemma FlattenAppend<N(!new)>(lists: seq<seq<N>>, list: seq<N>)
    ensures Flatten(lists + [list]) == Flatten(lists) + list
  {
    assert (lists + [list])[..|lists|] == lists;
  }

  lemma {:induction false} FlattenPrefix<N(!new)>(lists: seq<seq<N>>, i: nat)
    requires i <= |lists|
    ensures Flatten(lists[..i]) <= Flatten(lists)
    decreases |lists|
  {
    if i == |lists| {
      assert lists[..i] == lists;
    } else {
      FlattenPrefix(lists[..|lists| - 1], i);
      assert lists[..|lists| - 1][..i] == lists[..i];
    }
  }

  lemma AllEnqueued<N(!new)>(g: Flow<N>, maxHops: nat, popped: seq<N>, appended: seq<seq<N>>)
    requires IsLog(g, maxHops, popped, appended, [])
    ensures popped == [g.entry] + Flatten(appended) && |appended| == |popped|
  {
    assert popped + [] == popped;
  }

  lemma LogStart<N(!new)>(g: Flow<N>, maxHops: nat)
    ensures IsLog(g, maxHops, [], [], [g.entry])
  {
  }

  /** Dequeuing one node and enqueuing what follows it. */
  lemma LogStep<N(!new)>(g: Flow<N>, maxHops: nat, popped: seq<N>, appended: seq<seq<N>>, head: N, queue: seq<N>,
                         list: seq<N>)
    requires IsLog(g, maxHops, popped, appended, [head] + queue)
    requires Occurrences(popped, head) >= maxHops ==> list == []
    requires forall id :: id in list ==> id in g.Successors(head)
    ensures IsLog(g, maxHops, popped + [head], appended + [list], queue + list)
  {
    hide Targets, Occurrences, Flatten, Capped;
    var popped', appended' := popped + [head], appended + [list];
    FlattenAppend(appended, list);
    QueueStep(popped, head, queue, list);
    assert |Flatten(appended)| == |popped| + |queue|;
    forall i | 0 <= i < |popped'|
      ensures i <= |Flatten(appended'[..i])|
      ensures Capped(popped', maxHops, i) <==> if i < |popped| then Capped(popped, maxHops, i) else Occurrences(popped, head) >= maxHops
    {
      TakeOfAppend(appended, list, i);
      CappedStep(popped, head, maxHops, i);
    }
  }

  lemma CappedStep<N(!new)>(popped: seq<N>, head: N, maxHops: nat, i: nat)
    requires i <= |popped|
    ensures Capped(popped + [head], maxHops, i)
         <==> if i < |popped| then Capped(popped, maxHops, i) else Occurrences(popped, head) >= maxHops
  {
    TakeOfAppend(popped, head, i);
  }

  lemma QueueStep<N(!new)>(popped: seq<N>, head: N, queue: seq<N>, list: seq<N>)
    ensures (popped + [head]) + (queue + list) == (popped + ([head] + queue)) + list
  {
  }

  lemma FollowsAllStep<N(!new)>(g: Flow<N>, maxHops: nat, popped: seq<N>, appended: seq<seq<N>>, head: N, list: seq<N>)
    requires FollowsAll(g, maxHops, popped, appended)
    requires list == if Occurrences(popped, head) >= maxHops then [] else g.Successors(head)
    ensures FollowsAll(g, maxHops, popped + [head], appended + [list])
  {
    hide Targets, Occurrences, Capped;
    forall i | 0 <= i < |popped + [head]|
      ensures Capped(popped + [head], maxHops, i)
           <==> if i < |popped| then Capped(popped, maxHops, i) else Occurrences(popped, head) >= maxHops
    {
      CappedStep(popped, head, maxHops, i);
    }
  }

  /** Anything dequeued after the first node was enqueued by an earlier dequeue. */
  lemma EnqueuedEarlier<N(!new)>(g: Flow<N>, maxHops: nat, popped: seq<N>, appended: seq<seq<N>>, queue: seq<N>,
                        i: nat) returns (j: nat)
    requires IsLog(g, maxHops, popped, appended, queue) && 0 < i < |popped|
    ensures j < i && popped[i] in appended[j]
  {
    var pushes := Flatten(appended[..i]);
    FlattenPrefix(appended, i);
    assert (popped + queue)[i] == ([g.entry] + Flatten(appended))[i];
    assert popped[i] == pushes[i - 1];
    j := FindInFlatten(appended[..i], i - 1);
  }

  lemma {:induction false} FindInFlatten<N(!new)>(lists: seq<seq<N>>, k: nat) returns (j: nat)
    requires k < |Flatten(lists)|
    ensures j < |lists| && Flatten(lists)[k] in lists[j]
  {
    var front := lists[..|lists| - 1];
    if k < |Flatten(front)| {
      j := FindInFlatten(front, k);
    } else {
      j := |lists| - 1;
      assert Flatten(lists)[k] == lists[j][k - |Flatten(front)|];
    }
  }

  lemma EnqueuedPosition<N(!new)>(appended: seq<seq<N>>, i: nat)
    requires i < |appended|
    ensures Flatten(appended[..i]) + appended[i] <= Flatten(appended)
  {
    hide Flatten;
    FlattenPrefix(appended, i + 1);
    TakeNext(appended, i);
    FlattenAppend(appended[..i], appended[i]);
  }

  /** What the i-th dequeue enqueues lies strictly beyond position i of the log. */
  lemma EnqueuedIsLater<N(!new)>(g: Flow<N>, maxHops: nat, popped: seq<N>, appended: seq<seq<N>>, i: nat, id: N)
    returns (j: nat)
    requires IsLog(g, maxHops, popped, appended, []) && i < |popped| && id in appended[i]
    ensures i < j < |popped| && popped[j] == id
  {
    AllEnqueued(g, maxHops, popped, appended);
    assert i <= |Flatten(appended[..i])|;
    hide IsLog, Flatten;
    var k :| 0 <= k < |appended[i]| && appended[i][k] == id;
    EnqueuedPosition(appended, i);
    PlacedAt(g.entry, Flatten(appended[..i]), appended[i], Flatten(appended), k);
    j := |Flatten(appended[..i])| + k + 1;
  }

  lemma PlacedAt<N(!new)>(first: N, before: seq<N>, list: seq<N>, all: seq<N>, k: nat)
    requires before + list <= all && k < |list|
    ensures |before| + k + 1 < |[first] + all| && ([first] + all)[|before| + k + 1] == list[k]
  {
    assert (before + list)[|before| + k] == list[k];
  }

  // ----- count equation

  ghost function HopsOver<N(!new)>(ids: seq<N>, popped: seq<N>, maxHops: nat): nat {
    if ids == [] then 0 else HopsOver(ids[..|ids| - 1], popped, maxHops) + Hops(popped, maxHops, ids[|ids| - 1])
  }

  lemma {:induction false} HopsOverStep<N(!new)>(ids: seq<N>, popped: seq<N>, maxHops: nat, id: N)
    ensures HopsOver(ids, popped + [id], maxHops)
         == HopsOver(ids, popped, maxHops) + if Occurrences(popped, id) >= maxHops then 0 else Occurrences(ids, id)
  {
    if ids != [] {
      HopsOverStep(ids[..|ids| - 1], popped, maxHops, id);
      assert ids == ids[..|ids| - 1] + [ids[|ids| - 1]];
    }
  }

  /** What one dequeue enqueues of a node. */
  lemma EnqueuesNext<N(!new)>(g: Flow<N>, maxHops: nat, popped: seq<N>, appended: seq<seq<N>>, id: N, k: nat)
    requires FollowsAll(g, maxHops, popped, appended) && k < |appended| == |popped|
    ensures Occurrences(Flatten(appended[..k + 1]), id)
         == Occurrences(Flatten(appended[..k]), id)
            + if Occurrences(popped[..k], popped[k]) >= maxHops then 0 else Occurrences(g.Predecessors(id), popped[k])
  {
    AppendedAt(g, maxHops, popped, appended, k);
    hide FollowsAll, Flatten, Targets, Sources;
    TakeNext(appended, k);
    FlattenAppend(appended[..k], appended[k]);
    TargetsMirrorSources(g.edges, popped[k], id);
  }

  lemma NothingEnqueued<N(!new)>(g: Flow<N>, maxHops: nat, appended: seq<seq<N>>, popped: seq<N>, id: N)
    ensures Occurrences(Flatten(appended[..0]), id) == HopsOver(g.Predecessors(id), popped[..0], maxHops)
  {
    assert popped[..0] == [];
    HopsOverNothing(g.Predecessors(id), maxHops);
  }

  lemma {:induction false} EnqueuesCounted<N(!new)>(g: Flow<N>, maxHops: nat, popped: seq<N>, appended: seq<seq<N>>,
                                           id: N, k: nat)
    requires FollowsAll(g, maxHops, popped, appended)
    requires k <= |appended| == |popped|
    ensures Occurrences(Flatten(appended[..k]), id) == HopsOver(g.Predecessors(id), popped[..k], maxHops)
  {
    hide FollowsAll, Flatten, HopsOver, Occurrences, Flow.Predecessors;
    if k == 0 {
      NothingEnqueued(g, maxHops, appended, popped, id);
    } else {
      EnqueuesCounted(g, maxHops, popped, appended, id, k - 1);
      EnqueuesNext(g, maxHops, popped, appended, id, k - 1);
      TakeNext(popped, k - 1);
      HopsOverStep(g.Predecessors(id), popped[..k - 1], maxHops, popped[k - 1]);
    }
  }

  lemma {:induction false} HopsOverNothing<N(!new)>(ids: seq<N>, maxHops: nat)
    ensures HopsOver(ids, [], maxHops) == 0
  {
    if ids != [] {
      HopsOverNothing(ids[..|ids| - 1], maxHops);
    }
  }

  /** A node is dequeued once per enqueue, plus once as the entry. */
  lemma DequeueCount<N(!new)>(g: Flow<N>, maxHops: nat, popped: seq<N>, appended: seq<seq<N>>, id: N)
    requires IsPlainLog(g, maxHops, popped, appended)
    ensures Occurrences(popped, id) == (if id == g.entry then 1 else 0) + HopsOver(g.Predecessors(id), popped, maxHops)
  {
    hide IsLog, FollowsAll, Flatten, HopsOver, Targets, Sources;
    AllEnqueued(g, maxHops, popped, appended);
    EnqueuesCounted(g, maxHops, popped, appended, id, |popped|);
    assert appended[..|popped|] == appended && popped[..|popped|] == popped;
    assert Occurrences(popped, id) == Occurrences([g.entry], id) + Occurrences(Flatten(appended), id);
  }

  /** A node's hops are, up to the cap, one for being the entry plus the hops of its predecessors. */
  lemma CountEquation<N(!new)>(g: Flow<N>, maxHops: nat, popped: seq<N>, appended: seq<seq<N>>, id: N)
    requires IsPlainLog(g, maxHops, popped, appended)
    ensures Hops(popped, maxHops, id)
         == Min(maxHops, (if id == g.entry then 1 else 0) + HopsOver(g.Predecessors(id), popped, maxHops))
  {
    hide IsPlainLog, HopsOver, Targets, Sources;
    DequeueCount(g, maxHops, popped, appended, id);
  }

  /** Processing a node once per hop: the processed nodes occur as often as they have hops. */
  lemma {:induction false} AttemptedCount<N(!new)>(popped: seq<N>, maxHops: nat, id: N)
    ensures Occurrences(Attempted(popped, maxHops), id) == Hops(popped, maxHops, id)
  {
    if popped != [] {
      var last := |popped| - 1;
      AttemptedCount(popped[..last], maxHops, id);
      TakeNext(popped, last);
      assert popped[..|popped|] == popped;
    }
  }

  lemma AttemptedStep<N(!new)>(popped: seq<N>, maxHops: nat, id: N)
    ensures Attempted(popped + [id], maxHops)
         == Attempted(popped, maxHops) + if Occurrences(popped, id) >= maxHops then [] else [id]
  {
    TakeOfAppend(popped, id, 0);
  }

  // ----- visited nodes

  lemma {:induction false} DequeuedIsReachable<N(!new)>(g: Flow<N>, maxHops: nat, popped: seq<N>, appended: seq<seq<N>>,
                                               queue: seq<N>, i: nat)
    requires IsLog(g, maxHops, popped, appended, queue) && i < |popped|
    ensures Reaches(g.Links(), g.entry, popped[i])
  {
    if i == 0 {
      assert (popped + queue)[0] == g.entry;
      ReachesSelf(g.Links(), g.entry);
    } else {
      var j := EnqueuedEarlier(g, maxHops, popped, appended, queue, i);
      DequeuedIsReachable(g, maxHops, popped, appended, queue, j);
      TargetsMembership(g.edges, popped[j], popped[i]);
      ReachesEdge(g.Links(), popped[j], popped[i]);
      ReachesTransitive(g.Links(), g.entry, popped[j], popped[i]);
    }
  }

  lemma FirstOccurrence<N(!new)>(popped: seq<N>, id: N) returns (i: nat)
    requires id in popped
    ensures i < |popped| && popped[i] == id && Occurrences(popped[..i], id) == 0
  {
    i := 0;
    while popped[i] != id
      invariant i < |popped| && id !in popped[..i]
      invariant id in popped
      decreases |popped| - i
    {
      assert popped[..i + 1] == popped[..i] + [popped[i]];
      assert popped == popped[..i + 1] + popped[i + 1..];
      i := i + 1;
    }
  }

  /** A completed run that follows every successor visits exactly what the entry can reach. */
  lemma VisitedIsReachable<N(!new)>(g: Flow<N>, maxHops: nat, popped: seq<N>, appended: seq<seq<N>>, id: N)
    requires maxHops >= 1
    requires IsPlainLog(g, maxHops, popped, appended)
    ensures id in popped <==> Reaches(g.Links(), g.entry, id)
    ensures id in popped <==> Hops(popped, maxHops, id) > 0
  {
    if id in popped {
      var i :| 0 <= i < |popped| && popped[i] == id;
      DequeuedIsReachable(g, maxHops, popped, appended, [], i);
    } else if Reaches(g.Links(), g.entry, id) {
      var p :| PathFromTo(g.Links(), p, g.entry, id);
      assert (popped + [])[0] == g.entry;
      assert popped[0] == g.entry;
      forall e | e in g.Links() && e.source in Elements(popped)
        ensures e.target in Elements(popped)
      {
        var i := FirstOccurrence(popped, e.source);
        TargetsMembership(g.edges, e.source, e.target);
        var j := EnqueuedIsLater(g, maxHops, popped, appended, i, e.target);
      }
      ClosedSetHoldsReachable(g.Links(), Elements(popped), p);
    }
  }

  // ----- runs in which the cap never binds

  ghost predicate Uncapped<N(!new)>(popped: seq<N>, maxHops: nat) {
    forall i :: 0 <= i < |popped| ==> !Capped(popped, maxHops, i)
  }

  /** Every execution of a node is followed by an execution of each of its successors. */
  lemma SuccessorsRunLater<N(!new)>(g: Flow<N>, maxHops: nat, popped: seq<N>, appended: seq<seq<N>>, i: nat, id: N)
    returns (j: nat)
    requires IsPlainLog(g, maxHops, popped, appended)
    requires Uncapped(popped, maxHops)
    requires i < |popped| && Edge(popped[i], id) in g.Links()
    ensures i < j < |popped| && popped[j] == id
  {
    TargetsMembership(g.edges, popped[i], id);
    j := EnqueuedIsLater(g, maxHops, popped, appended, i, id);
  }

  ghost predicate IsLastRun<N(!new)>(popped: seq<N>, i: nat, id: N) {
    i < |popped| && popped[i] == id && id !in popped[i + 1..]
  }

  /** The last execution of a node follows the last execution of each of its predecessors. */
  lemma LastRunsFollowPredecessors<N(!new)>(g: Flow<N>, maxHops: nat, popped: seq<N>, appended: seq<seq<N>>,
                                   p: N, i: nat, n: N, j: nat)
    requires IsPlainLog(g, maxHops, popped, appended)
    requires Uncapped(popped, maxHops)
    requires Edge(p, n) in g.Links() && IsLastRun(popped, i, p) && IsLastRun(popped, j, n)
    ensures i < j
  {
    var k := SuccessorsRunLater(g, maxHops, popped, appended, i, n);
    assert forall l :: j < l < |popped| ==> popped[l] == popped[j + 1..][l - j - 1];
  }

  lemma {:induction false} PathRunsLater<N(!new)>(g: Flow<N>, maxHops: nat, popped: seq<N>, appended: seq<seq<N>>,
                                         path: seq<N>, i: nat) returns (j: nat)
    requires IsPlainLog(g, maxHops, popped, appended)
    requires Uncapped(popped, maxHops)
    requires IsPath(g.Links(), path) && i < |popped| && popped[i] == path[0]
    ensures i <= j < |popped| && popped[j] == path[|path| - 1]
    ensures |path| >= 2 ==> i < j
    decreases |path|
  {
    if |path| == 1 {
      j := i;
    } else {
      PathTail(g.Links(), path);
      var k := SuccessorsRunLater(g, maxHops, popped, appended, i, path[1]);
      j := PathRunsLater(g, maxHops, popped, appended, path[1..], k);
    }
  }

  lemma {:induction false} NodeOnCycleStopsNever<N(!new)>(g: Flow<N>, maxHops: nat, popped: seq<N>,
                                                 appended: seq<seq<N>>, cycle: seq<N>, i: nat)
    requires IsPlainLog(g, maxHops, popped, appended)
    requires Uncapped(popped, maxHops)
    requires i < |popped| && PathFromTo(g.Links(), cycle, popped[i], popped[i])
    ensures |cycle| < 2
    decreases |popped| - i
  {
    if |cycle| >= 2 {
      var j := PathRunsLater(g, maxHops, popped, appended, cycle, i);
      NodeOnCycleStopsNever(g, maxHops, popped, appended, cycle, j);
    }
  }

  /** A cycle that the entry reaches always makes the cap bind: without it the run would not complete. */
  lemma ReachableCycleHitsCap<N(!new)>(g: Flow<N>, maxHops: nat, popped: seq<N>, appended: seq<seq<N>>, id: N)
    requires maxHops >= 1
    requires IsPlainLog(g, maxHops, popped, appended)
    requires Reaches(g.Links(), g.entry, id) && ReachesPlus(g.Links(), id, id)
    ensures !Uncapped(popped, maxHops)
  {
    if Uncapped(popped, maxHops) {
      VisitedIsReachable(g, maxHops, popped, appended, id);
      var i :| 0 <= i < |popped| && popped[i] == id;
      var cycle :| PathFromTo(g.Links(), cycle, id, id) && |cycle| >= 2;
      NodeOnCycleStopsNever(g, maxHops, popped, appended, cycle, i);
    }
  }

  // ----- determinism

  lemma DequeuedAt<N(!new)>(g: Flow<N>, maxHops: nat, popped: seq<N>, appended: seq<seq<N>>, i: nat)
    requires IsLog(g, maxHops, popped, appended, []) && i < |popped|
    ensures |appended| == |popped|
    ensures i < |[g.entry] + Flatten(appended[..i])| && popped[i] == ([g.entry] + Flatten(appended[..i]))[i]
  {
    FlattenPrefix(appended, i);
    AllEnqueued(g, maxHops, popped, appended);
  }

  lemma {:induction false} SameUpTo<N(!new)>(g: Flow<N>, maxHops: nat, popped: seq<N>, appended: seq<seq<N>>,
                                    popped': seq<N>, appended': seq<seq<N>>, k: nat)
    requires IsPlainLog(g, maxHops, popped, appended)
    requires IsPlainLog(g, maxHops, popped', appended')
    requires k <= |popped| && k <= |popped'|
    ensures popped[..k] == popped'[..k] && appended[..k] == appended'[..k]
  {
    if k > 0 {
      hide IsLog, FollowsAll, Flatten, Targets;
      var i := k - 1;
      SameUpTo(g, maxHops, popped, appended, popped', appended', i);
      DequeuedAt(g, maxHops, popped, appended, i);
      DequeuedAt(g, maxHops, popped', appended', i);
      AppendedAt(g, maxHops, popped, appended, i);
      AppendedAt(g, maxHops, popped', appended', i);
      TakeNext(popped, i);
      TakeNext(popped', i);
      TakeNext(appended, i);
      TakeNext(appended', i);
    }
  }

  /** The order of execution depends on the graph and the cap alone, not on what the nodes compute. */
  lemma LogIsDetermined<N(!new)>(g: Flow<N>, maxHops: nat, popped: seq<N>, appended: seq<seq<N>>,
                        popped': seq<N>, appended': seq<seq<N>>)
    requires IsPlainLog(g, maxHops, popped, appended)
    requires IsPlainLog(g, maxHops, popped', appended')
    ensures popped == popped' && appended == appended'
  {
    var k := Min(|popped|, |popped'|);
    SameUpTo(g, maxHops, popped, appended, popped', appended', k);
    LongerLogWouldNotStop(g, maxHops, popped, appended, k);
    LongerLogWouldNotStop(g, maxHops, popped', appended', k);
  }

  lemma LongerLogWouldNotStop<N(!new)>(g: Flow<N>, maxHops: nat, popped: seq<N>, appended: seq<seq<N>>, k: nat)
    requires IsLog(g, maxHops, popped, appended, []) && k <= |popped|
    ensures k < |popped| ==> |Flatten(appended[..k])| >= k
    ensures k == |popped| ==> |Flatten(appended[..k])| + 1 == k && appended[..k] == appended && popped[..k] == popped
  {
    assert appended[..|popped|] == appended;
    assert popped + [] == popped;
  }
}
