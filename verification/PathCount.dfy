/** When the sequential engine's hop limit binds on an acyclic graph: exactly where paths from the entry outnumber it. */
module PathCounts {
  import opened Sequences
  import opened Digraphs
  import opened Kahn
  import opened Worklists

  /** The number of paths from the entry to a node, added up along a topological order. */
  ghost function PathCount<N(!new)>(g: Flow<N>, order: seq<N>, id: N): nat
    decreases |order|, 0
  {
    if order == [] then 0
    else
      var front := order[..|order| - 1];
      if id == order[|order| - 1] then (if id == g.entry then 1 else 0) + PathsOver(g, front, g.Predecessors(id))
      else PathCount(g, front, id)
  }

  ghost function PathsOver<N(!new)>(g: Flow<N>, order: seq<N>, ids: seq<N>): nat
    decreases |order|, 1, |ids|
  {
    if ids == [] then 0 else PathsOver(g, order, ids[..|ids| - 1]) + PathCount(g, order, ids[|ids| - 1])
  }

  ghost predicate FewPaths<N(!new)>(g: Flow<N>, order: seq<N>, maxHops: nat) {
    forall id :: id in order ==> PathCount(g, order, id) <= maxHops
  }

  lemma TopologicalPrefix<N(!new)>(g: Flow<N>, order: seq<N>)
    requires order != [] && IsTopological(g.Links(), order)
    ensures IsTopological(g.Links(), order[..|order| - 1]) && order[|order| - 1] !in order[..|order| - 1]
  {
    var front := order[..|order| - 1];
    forall k, e | 0 <= k < |front| && e in g.Links() && e.target == front[k]
      ensures e.source in front[..k]
    {
      assert front[..k] == order[..k];
    }
  }

  lemma {:induction false} HopsArePaths<N(!new)>(g: Flow<N>, order: seq<N>, ids: seq<N>, popped: seq<N>, maxHops: nat)
    requires forall id :: id in ids ==> Occurrences(popped, id) == PathCount(g, order, id) <= maxHops
    ensures HopsOver(ids, popped, maxHops) == PathsOver(g, order, ids)
  {
    if ids != [] {
      SplitLast(ids);
      assert ids[|ids| - 1] in ids;
      HopsArePaths(g, order, ids[..|ids| - 1], popped, maxHops);
    }
  }

  /** Nodes are dequeued at most maxHops times in uncapped runs. */
  lemma UncappedOccurrences<N(!new)>(popped: seq<N>, maxHops: nat, id: N)
    requires Uncapped(popped, maxHops) && maxHops >= 1
    ensures Occurrences(popped, id) <= maxHops
  {
    if id in popped {
      var i := LastOccurrence(popped, id);
      assert !Capped(popped, maxHops, i);
      assert popped == popped[..i] + [id] + popped[i + 1..];
      assert multiset(popped)[id] == multiset(popped[..i])[id] + 1 + multiset(popped[i + 1..])[id];
    }
  }

  lemma LastOccurrence<N(!new)>(popped: seq<N>, id: N) returns (i: nat)
    requires id in popped
    ensures i < |popped| && popped[i] == id && id !in popped[i + 1..]
  {
    i := |popped| - 1;
    while popped[i] != id
      invariant i < |popped| && id !in popped[i + 1..] && id in popped
      decreases i
    {
      assert popped[i..] == [popped[i]] + popped[i + 1..];
      assert popped == popped[..i] + popped[i..];
      i := i - 1;
    }
  }

  /** Where the cap does not bind, a node is dequeued once per path. */
  lemma {:induction false} DequeuedOncePerPath<N(!new)>(g: Flow<N>, maxHops: nat, popped: seq<N>, appended: seq<seq<N>>,
                                               order: seq<N>, id: N)
    requires IsPlainLog(g, maxHops, popped, appended) && IsTopological(g.Links(), order) && id in order
    requires FewPaths(g, order, maxHops) || forall n :: Occurrences(popped, n) <= maxHops
    ensures Occurrences(popped, id) == PathCount(g, order, id)
    decreases |order|
  {
    var front, last := order[..|order| - 1], order[|order| - 1];
    TopologicalPrefix(g, order);
    SplitLast(order);
    if FewPaths(g, order, maxHops) {
      PrefixHasFewPaths(g, order, maxHops);
    }
    if id != last {
      DequeuedOncePerPath(g, maxHops, popped, appended, front, id);
    } else {
      var ps := g.Predecessors(id);
      forall p | p in ps
        ensures Occurrences(popped, p) == PathCount(g, front, p) <= maxHops
      {
        PredecessorInFront(g, order, p);
        DequeuedOncePerPath(g, maxHops, popped, appended, front, p);
      }
      hide IsPlainLog, HopsOver, PathsOver, Sources, FewPaths, Occurrences;
      HopsArePaths(g, front, ps, popped, maxHops);
      DequeueCount(g, maxHops, popped, appended, id);
    }
  }

  lemma PredecessorInFront<N(!new)>(g: Flow<N>, order: seq<N>, p: N)
    requires order != [] && IsTopological(g.Links(), order) && p in g.Predecessors(order[|order| - 1])
    ensures p in order[..|order| - 1]
  {
    var last := order[|order| - 1];
    TargetsMembership(g.edges, p, last);
    assert Edge(p, last) in g.Links();
  }

  lemma PrefixHasFewPaths<N(!new)>(g: Flow<N>, order: seq<N>, maxHops: nat)
    requires order != [] && IsTopological(g.Links(), order) && FewPaths(g, order, maxHops)
    ensures FewPaths(g, order[..|order| - 1], maxHops)
  {
    var front := order[..|order| - 1];
    TopologicalPrefix(g, order);
    forall id | id in front
      ensures PathCount(g, front, id) <= maxHops
    {
      assert id in order && PathCount(g, order, id) == PathCount(g, front, id);
    }
  }

  lemma BeforeIsFewer<N(!new)>(popped: seq<N>, i: nat)
    requires i < |popped|
    ensures Occurrences(popped[..i], popped[i]) < Occurrences(popped, popped[i])
  {
    assert popped == popped[..i] + [popped[i]] + popped[i + 1..];
    assert multiset(popped)[popped[i]] == multiset(popped[..i])[popped[i]] + 1 + multiset(popped[i + 1..])[popped[i]];
  }

  lemma UncappedHasFewPaths<N(!new)>(g: Flow<N>, maxHops: nat, popped: seq<N>, appended: seq<seq<N>>, order: seq<N>)
    requires maxHops >= 1 && IsPlainLog(g, maxHops, popped, appended) && IsTopological(g.Links(), order)
    requires Uncapped(popped, maxHops)
    ensures FewPaths(g, order, maxHops)
  {
    hide IsPlainLog, Occurrences;
    forall id
      ensures Occurrences(popped, id) <= maxHops
    {
      UncappedOccurrences(popped, maxHops, id);
    }
    hide Uncapped, IsTopological, PathCount;
    forall id | id in order
      ensures PathCount(g, order, id) <= maxHops
    {
      DequeuedOncePerPath(g, maxHops, popped, appended, order, id);
    }
  }

  lemma FewPathsIsUncapped<N(!new)>(g: Flow<N>, maxHops: nat, popped: seq<N>, appended: seq<seq<N>>, order: seq<N>)
    requires maxHops >= 1 && IsPlainLog(g, maxHops, popped, appended) && IsTopological(g.Links(), order)
    requires g.entry in order && forall e :: e in g.Links() ==> e.target in order
    requires FewPaths(g, order, maxHops)
    ensures Uncapped(popped, maxHops)
  {
    forall i | 0 <= i < |popped|
      ensures !Capped(popped, maxHops, i)
    {
      DequeuedInOrder(g, maxHops, popped, appended, order, i);
      hide IsLog, FollowsAll, IsTopological, Occurrences, PathCount;
      DequeuedOncePerPath(g, maxHops, popped, appended, order, popped[i]);
      BeforeIsFewer(popped, i);
    }
  }

  /**
   On an acyclic graph the cap never binds if and only if no node has more than maxHops paths from the
   entry: a condition on the graph alone.
   */
  lemma UncappedIffFewPaths<N(!new)>(g: Flow<N>, maxHops: nat, popped: seq<N>, appended: seq<seq<N>>, order: seq<N>)
    requires maxHops >= 1 && IsPlainLog(g, maxHops, popped, appended) && IsTopological(g.Links(), order)
    requires g.entry in order && forall e :: e in g.Links() ==> e.target in order
    ensures Uncapped(popped, maxHops) <==> FewPaths(g, order, maxHops)
  {
    hide IsPlainLog, IsTopological, Uncapped, FewPaths;
    if Uncapped(popped, maxHops) {
      UncappedHasFewPaths(g, maxHops, popped, appended, order);
    }
    if FewPaths(g, order, maxHops) {
      FewPathsIsUncapped(g, maxHops, popped, appended, order);
    }
  }

  lemma DequeuedInOrder<N(!new)>(g: Flow<N>, maxHops: nat, popped: seq<N>, appended: seq<seq<N>>, order: seq<N>, i: nat)
    requires IsLog(g, maxHops, popped, appended, []) && i < |popped|
    requires g.entry in order && forall e :: e in g.Links() ==> e.target in order
    ensures popped[i] in order
  {
    DequeuedIsReachable(g, maxHops, popped, appended, [], i);
    var p :| PathFromTo(g.Links(), p, g.entry, popped[i]);
    ClosedSetHoldsReachable(g.Links(), Elements(order), p);
    assert p[|p| - 1] in Elements(order);
  }

  /** So on such a graph the last execution of a node follows the last execution of each of its predecessors. */
  lemma FewPathsOrderLastRuns<N(!new)>(g: Flow<N>, maxHops: nat, popped: seq<N>, appended: seq<seq<N>>, order: seq<N>,
                              p: N, i: nat, n: N, j: nat)
    requires maxHops >= 1 && IsPlainLog(g, maxHops, popped, appended) && IsTopological(g.Links(), order)
    requires g.entry in order && forall e :: e in g.Links() ==> e.target in order
    requires FewPaths(g, order, maxHops)
    requires Edge(p, n) in g.Links() && IsLastRun(popped, i, p) && IsLastRun(popped, j, n)
    ensures i < j
  {
    UncappedIffFewPaths(g, maxHops, popped, appended, order);
    LastRunsFollowPredecessors(g, maxHops, popped, appended, p, i, n, j);
  }

  // ----- the count is of actual paths

  ghost function Extended<N>(paths: seq<seq<N>>, id: N): (r: seq<seq<N>>)
    ensures |r| == |paths|
  {
    seq(|paths|, i requires 0 <= i < |paths| => paths[i] + [id])
  }

  /** The paths that PathCount counts. */
  ghost function PathList<N(!new)>(g: Flow<N>, order: seq<N>, id: N): seq<seq<N>>
    decreases |order|, 0
  {
    if order == [] then []
    else
      var front := order[..|order| - 1];
      if id == order[|order| - 1]
      then (if id == g.entry then [[id]] else []) + PathListOver(g, front, g.Predecessors(id), id)
      else PathList(g, front, id)
  }

  ghost function PathListOver<N(!new)>(g: Flow<N>, order: seq<N>, ids: seq<N>, id: N): seq<seq<N>>
    decreases |order|, 1, |ids|
  {
    if ids == [] then []
    else PathListOver(g, order, ids[..|ids| - 1], id) + Extended(PathList(g, order, ids[|ids| - 1]), id)
  }

  lemma {:induction false} PathsCounted<N(!new)>(g: Flow<N>, order: seq<N>, id: N)
    ensures |PathList(g, order, id)| == PathCount(g, order, id)
    decreases |order|, 0
  {
    if order != [] {
      var front := order[..|order| - 1];
      if id == order[|order| - 1] {
        PathsOverCounted(g, front, g.Predecessors(id), id);
      } else {
        PathsCounted(g, front, id);
      }
    }
  }

  lemma {:induction false} PathsOverCounted<N(!new)>(g: Flow<N>, order: seq<N>, ids: seq<N>, id: N)
    ensures |PathListOver(g, order, ids, id)| == PathsOver(g, order, ids)
    decreases |order|, 1, |ids|
  {
    if ids != [] {
      PathsOverCounted(g, order, ids[..|ids| - 1], id);
      PathsCounted(g, order, ids[|ids| - 1]);
    }
  }

  /** A listed path to one of the nodes. */
  ghost predicate Through<N(!new)>(g: Flow<N>, order: seq<N>, ids: seq<N>, q: seq<N>) {
    exists p :: p in ids && q in PathList(g, order, p)
  }

  lemma ThroughLast<N(!new)>(g: Flow<N>, order: seq<N>, ids: seq<N>, q: seq<N>)
    requires ids != []
    ensures Through(g, order, ids, q) <==> Through(g, order, ids[..|ids| - 1], q) || q in PathList(g, order, ids[|ids| - 1])
  {
    hide PathList;
    SplitLast(ids);
    assert ids[|ids| - 1] in ids && forall p :: p in ids[..|ids| - 1] ==> p in ids;
  }

  /** A listed path over some of the nodes: it ends with id, after a listed path to one of them. */
  lemma {:induction false} PathListOverMembers<N(!new)>(g: Flow<N>, order: seq<N>, ids: seq<N>, id: N, q: seq<N>)
    ensures q in PathListOver(g, order, ids, id) <==>
              |q| >= 1 && q[|q| - 1] == id && Through(g, order, ids, q[..|q| - 1])
    decreases |ids|
  {
    if ids != [] {
      PathListOverMembers(g, order, ids[..|ids| - 1], id, q);
      ExtendedMembers(PathList(g, order, ids[|ids| - 1]), id, q);
      if |q| >= 1 {
        ThroughLast(g, order, ids, q[..|q| - 1]);
      }
    }
  }

  lemma ExtendedMembers<N>(paths: seq<seq<N>>, id: N, q: seq<N>)
    ensures q in Extended(paths, id) <==> |q| >= 1 && q[|q| - 1] == id && q[..|q| - 1] in paths
  {
    if q in Extended(paths, id) {
      var i :| 0 <= i < |paths| && Extended(paths, id)[i] == q;
      assert q[..|q| - 1] == paths[i];
    }
    if |q| >= 1 && q[|q| - 1] == id && q[..|q| - 1] in paths {
      var i :| 0 <= i < |paths| && paths[i] == q[..|q| - 1];
      assert q == paths[i] + [id];
      assert Extended(paths, id)[i] == q;
    }
  }

  /** A path is a shorter path and a last edge. */
  lemma PathFront<N(!new)>(E: set<Edge<N>>, q: seq<N>, u: N, v: N)
    requires |q| >= 2
    ensures PathFromTo(E, q, u, v) <==>
              PathFromTo(E, q[..|q| - 1], u, q[|q| - 2]) && q[|q| - 1] == v && Edge(q[|q| - 2], v) in E
  {
    var front := q[..|q| - 1];
    if PathFromTo(E, q, u, v) {
      SubPath(E, q, 0, |q| - 1);
      assert q[0..|q| - 1] == front;
      assert Edge(q[|q| - 2], q[|q| - 1]) in E;
    }
    if PathFromTo(E, front, u, q[|q| - 2]) && q[|q| - 1] == v && Edge(q[|q| - 2], v) in E {
      assert PathFromTo(E, [q[|q| - 2], v], q[|q| - 2], v);
      JoinPaths(E, front, [q[|q| - 2], v], u, q[|q| - 2], v);
      assert front + [q[|q| - 2], v][1..] == q;
    }
  }

  /** The list holds exactly the paths from the entry. */
  lemma {:induction false} PathListIsPaths<N(!new)>(g: Flow<N>, order: seq<N>, id: N, q: seq<N>)
    requires IsTopological(g.Links(), order) && id in order
    ensures q in PathList(g, order, id) <==> PathFromTo(g.Links(), q, g.entry, id)
    decreases |order|
  {
    var front, last := order[..|order| - 1], order[|order| - 1];
    TopologicalPrefix(g, order);
    SplitLast(order);
    if id != last {
      PathListIsPaths(g, front, id, q);
    } else {
      var ps := g.Predecessors(id);
      forall p | p in ps && |q| >= 1
        ensures q[..|q| - 1] in PathList(g, front, p) <==> PathFromTo(g.Links(), q[..|q| - 1], g.entry, p)
      {
        PredecessorInFront(g, order, p);
        PathListIsPaths(g, front, p, q[..|q| - 1]);
      }
      PathListOverMembers(g, front, ps, id, q);
      LastStep(g, front, id, q);
    }
  }

  lemma LastStep<N(!new)>(g: Flow<N>, front: seq<N>, id: N, q: seq<N>)
    requires forall p :: p in g.Predecessors(id) && |q| >= 1 ==>
               (q[..|q| - 1] in PathList(g, front, p) <==> PathFromTo(g.Links(), q[..|q| - 1], g.entry, p))
    requires q in PathListOver(g, front, g.Predecessors(id), id) <==>
               |q| >= 1 && q[|q| - 1] == id && Through(g, front, g.Predecessors(id), q[..|q| - 1])
    ensures PathFromTo(g.Links(), q, g.entry, id) <==>
              (id == g.entry && q == [id]) || q in PathListOver(g, front, g.Predecessors(id), id)
  {
    hide PathList, PathListOver, Sources;
    if |q| >= 2 {
      var p := q[|q| - 2];
      PathFront(g.Links(), q, g.entry, id);
      TargetsMembership(g.edges, p, id);
      forall r | r in g.Predecessors(id) && q[..|q| - 1] in PathList(g, front, r)
        ensures r == p
      {
        assert PathFromTo(g.Links(), q[..|q| - 1], g.entry, r);
      }
    }
  }

  lemma ExtendedDistinct<N>(paths: seq<seq<N>>, id: N)
    requires NoDup(paths)
    ensures NoDup(Extended(paths, id))
  {
    forall i, j | 0 <= i < j < |paths|
      ensures Extended(paths, id)[i] != Extended(paths, id)[j]
    {
      TakeOfAppend(paths[i], id, 0);
      TakeOfAppend(paths[j], id, 0);
    }
  }

  /** No path is listed twice, as no edge is. */
  lemma {:induction false} PathListDistinct<N(!new)>(g: Flow<N>, order: seq<N>, id: N)
    requires IsTopological(g.Links(), order) && id in order && NoDup(g.edges)
    ensures NoDup(PathList(g, order, id))
    decreases |order|, 0
  {
    var front, last := order[..|order| - 1], order[|order| - 1];
    TopologicalPrefix(g, order);
    SplitLast(order);
    if id != last {
      PathListDistinct(g, front, id);
    } else {
      var ps := g.Predecessors(id);
      NeighboursDistinct(g.edges, id);
      forall p | p in ps
        ensures p in front
      {
        PredecessorInFront(g, order, p);
      }
      PathListOverDistinct(g, front, ps, id);
      if id == g.entry {
        PathListOverMembers(g, front, ps, id, [id]);
        forall p | p in ps
          ensures [] !in PathList(g, front, p)
        {
          PathListIsPaths(g, front, p, []);
        }
        assert [id][..0] == [];
        NoDupAppend([[id]], PathListOver(g, front, ps, id));
      } else {
        assert [] + PathListOver(g, front, ps, id) == PathListOver(g, front, ps, id);
      }
    }
  }

  lemma {:induction false} PathListOverDistinct<N(!new)>(g: Flow<N>, order: seq<N>, ids: seq<N>, id: N)
    requires IsTopological(g.Links(), order) && NoDup(g.edges) && NoDup(ids) && forall p :: p in ids ==> p in order
    ensures NoDup(PathListOver(g, order, ids, id))
    decreases |order|, 1, |ids|
  {
    if ids != [] {
      var front, p := ids[..|ids| - 1], ids[|ids| - 1];
      SplitLast(ids);
      ExtendNoDup(front, p);
      PathListOverDistinct(g, order, front, id);
      PathListDistinct(g, order, p);
      ExtendedDistinct(PathList(g, order, p), id);
      forall q | q in PathListOver(g, order, front, id)
        ensures q !in Extended(PathList(g, order, p), id)
      {
        DifferentSources(g, order, front, p, id, q);
      }
      NoDupAppend(PathListOver(g, order, front, id), Extended(PathList(g, order, p), id));
    }
  }

  lemma DifferentSources<N(!new)>(g: Flow<N>, order: seq<N>, ids: seq<N>, p: N, id: N, q: seq<N>)
    requires IsTopological(g.Links(), order) && p in order && p !in ids && forall r :: r in ids ==> r in order
    requires q in PathListOver(g, order, ids, id)
    ensures q !in Extended(PathList(g, order, p), id)
  {
    PathListOverMembers(g, order, ids, id, q);
    ExtendedMembers(PathList(g, order, p), id, q);
    var r :| r in ids && q[..|q| - 1] in PathList(g, order, r);
    PathListIsPaths(g, order, r, q[..|q| - 1]);
    PathListIsPaths(g, order, p, q[..|q| - 1]);
  }

  /** PathCount is the number of paths from the entry: they can be listed without repeats, and there are that many. */
  lemma PathCountIsExact<N(!new)>(g: Flow<N>, order: seq<N>, id: N) returns (paths: seq<seq<N>>)
    requires IsTopological(g.Links(), order) && id in order && NoDup(g.edges)
    ensures |paths| == PathCount(g, order, id) && NoDup(paths)
    ensures forall q :: q in paths <==> PathFromTo(g.Links(), q, g.entry, id)
  {
    paths := PathList(g, order, id);
    PathsCounted(g, order, id);
    PathListDistinct(g, order, id);
    forall q
      ensures q in paths <==> PathFromTo(g.Links(), q, g.entry, id)
    {
      PathListIsPaths(g, order, id, q);
    }
  }
}
