/** Paths, reachability and cycles in a finite directed graph given by its edge set. */
module Digraphs {
  import opened Sequences

  datatype Edge<N> = Edge(source: N, target: N)

  ghost predicate IsPath<N>(E: set<Edge<N>>, p: seq<N>) {
    && |p| > 0
    && forall i, j :: 0 <= i < j < |p| && j == i + 1 ==> Edge(p[i], p[j]) in E
  }

  /** A path (possibly of length zero) from u to v. */
  ghost predicate PathFromTo<N>(E: set<Edge<N>>, p: seq<N>, u: N, v: N) {
    IsPath(E, p) && p[0] == u && p[|p| - 1] == v
  }

  ghost predicate Reaches<N(!new)>(E: set<Edge<N>>, u: N, v: N) {
    exists p :: PathFromTo(E, p, u, v)
  }

  /** Reachability along at least one edge. */
  ghost predicate ReachesPlus<N(!new)>(E: set<Edge<N>>, u: N, v: N) {
    exists p :: PathFromTo(E, p, u, v) && |p| >= 2
  }

  ghost predicate Cyclic<N(!new)>(E: set<Edge<N>>) {
    exists v :: ReachesPlus(E, v, v)
  }

  /** v lies on a cycle or downstream of one. */
  ghost predicate BelowCycle<N(!new)>(E: set<Edge<N>>, v: N) {
    exists c :: ReachesPlus(E, c, c) && Reaches(E, c, v)
  }

  lemma ReachesSelf<N(!new)>(E: set<Edge<N>>, u: N)
    ensures Reaches(E, u, u)
  {
    assert PathFromTo(E, [u], u, u);
  }

  lemma ReachesEdge<N(!new)>(E: set<Edge<N>>, u: N, v: N)
    requires Edge(u, v) in E
    ensures ReachesPlus(E, u, v) && Reaches(E, u, v)
  {
    assert PathFromTo(E, [u, v], u, v);
  }

  lemma PlusIsReaches<N(!new)>(E: set<Edge<N>>, u: N, v: N)
    requires ReachesPlus(E, u, v)
    ensures Reaches(E, u, v)
  {
  }

  lemma JoinPaths<N>(E: set<Edge<N>>, p: seq<N>, q: seq<N>, u: N, v: N, w: N)
    requires PathFromTo(E, p, u, v) && PathFromTo(E, q, v, w)
    ensures PathFromTo(E, p + q[1..], u, w)
    ensures |p + q[1..]| == |p| + |q| - 1
  {
    var r := p + q[1..];
    forall i, j | 0 <= i < j < |r| && j == i + 1
      ensures Edge(r[i], r[j]) in E
    {
      if j < |p| {
        assert r[i] == p[i] && r[j] == p[j];
      } else {
        assert r[j] == q[j - |p| + 1];
        assert r[i] == q[i - |p| + 1];
      }
    }
    assert |q| > 1 ==> r[|r| - 1] == q[|q| - 1];
  }

  lemma ReachesTransitive<N(!new)>(E: set<Edge<N>>, u: N, v: N, w: N)
    requires Reaches(E, u, v) && Reaches(E, v, w)
    ensures Reaches(E, u, w)
    ensures ReachesPlus(E, u, v) || ReachesPlus(E, v, w) ==> ReachesPlus(E, u, w)
  {
    var p :| PathFromTo(E, p, u, v);
    var q :| PathFromTo(E, q, v, w);
    JoinPaths(E, p, q, u, v, w);
    if ReachesPlus(E, u, v) {
      var p' :| PathFromTo(E, p', u, v) && |p'| >= 2;
      JoinPaths(E, p', q, u, v, w);
      assert PathFromTo(E, p' + q[1..], u, w);
    } else if ReachesPlus(E, v, w) {
      var q' :| PathFromTo(E, q', v, w) && |q'| >= 2;
      JoinPaths(E, p, q', u, v, w);
      assert PathFromTo(E, p + q'[1..], u, w);
    }
  }

  /** A path is a first edge followed by a shorter path. */
  lemma PathTail<N>(E: set<Edge<N>>, p: seq<N>)
    requires IsPath(E, p) && |p| >= 2
    ensures Edge(p[0], p[1]) in E
    ensures IsPath(E, p[1..])
  {
    var q := p[1..];
    assert forall i, j :: 0 <= i < j < |q| && j == i + 1 ==> q[i] == p[i + 1] && q[j] == p[j + 1];
  }

  lemma SubPath<N>(E: set<Edge<N>>, p: seq<N>, i: nat, j: nat)
    requires IsPath(E, p) && i < j <= |p|
    ensures PathFromTo(E, p[i..j], p[i], p[j - 1])
  {
    var q := p[i..j];
    assert forall k, l :: 0 <= k < l < |q| && l == k + 1 ==> q[k] == p[i + k] && q[l] == p[i + l];
  }

  lemma PathMonotone<N>(E: set<Edge<N>>, F: set<Edge<N>>, p: seq<N>)
    requires E <= F && IsPath(E, p)
    ensures IsPath(F, p)
  {
  }

  lemma CyclicMonotone<N(!new)>(E: set<Edge<N>>, F: set<Edge<N>>)
    requires E <= F && Cyclic(E)
    ensures Cyclic(F)
  {
    var v :| ReachesPlus(E, v, v);
    var p :| PathFromTo(E, p, v, v) && |p| >= 2;
    PathMonotone(E, F, p);
    assert PathFromTo(F, p, v, v);
    assert ReachesPlus(F, v, v);
  }

  /** Whatever is reachable is reachable without passing a node twice. */
  lemma {:induction false} SimplePath<N(!new)>(E: set<Edge<N>>, u: N, v: N, p: seq<N>) returns (q: seq<N>)
    requires PathFromTo(E, p, u, v)
    ensures PathFromTo(E, q, u, v) && NoDup(q)
    decreases |p|
  {
    if NoDup(p) {
      q := p;
    } else {
      var i, j :| 0 <= i < j < |p| && p[i] == p[j];
      SubPath(E, p, 0, i + 1);
      SubPath(E, p, j, |p|);
      JoinPaths(E, p[0..i + 1], p[j..|p|], u, p[i], v);
      q := SimplePath(E, u, v, p[0..i + 1] + p[j..|p|][1..]);
    }
  }

  /** A set closed under successors holds everything reachable from its members. */
  lemma {:induction false} ClosedSetHoldsReachable<N(!new)>(E: set<Edge<N>>, S: set<N>, p: seq<N>)
    requires forall e :: e in E && e.source in S ==> e.target in S
    requires IsPath(E, p) && p[0] in S
    ensures forall i :: 0 <= i < |p| ==> p[i] in S
    decreases |p|
  {
    if |p| >= 2 {
      PathTail(E, p);
      assert Edge(p[0], p[1]).target in S;
      ClosedSetHoldsReachable(E, S, p[1..]);
      forall i | 0 <= i < |p|
        ensures p[i] in S
      {
        if i > 0 { assert p[i] == p[1..][i - 1]; }
      }
    }
  }

  ghost predicate HasPredecessorIn<N(!new)>(E: set<Edge<N>>, S: set<N>, w: N) {
    exists u :: u in S && Edge(u, w) in E
  }

  /** No member of S is a source within S. */
  ghost predicate Sourceless<N(!new)>(E: set<Edge<N>>, S: set<N>) {
    forall w {:trigger HasPredecessorIn(E, S, w)} :: w in S ==> HasPredecessorIn(E, S, w)
  }

  /** Walks backwards inside S for n steps, ending at v. */
  lemma {:induction false} BackwardWalk<N(!new)>(E: set<Edge<N>>, S: set<N>, v: N, n: nat) returns (p: seq<N>)
    requires Sourceless(E, S)
    requires v in S
    ensures |p| == n + 1 && IsPath(E, p) && p[n] == v && Elements(p) <= S
  {
    if n == 0 {
      p := [v];
    } else {
      assert HasPredecessorIn(E, S, v);
      var u :| u in S && Edge(u, v) in E;
      var q := BackwardWalk(E, S, u, n - 1);
      assert PathFromTo(E, [u, v], u, v);
      JoinPaths(E, q, [u, v], q[0], u, v);
      p := q + [u, v][1..];
    }
  }

  /** If every member of a finite set has a predecessor in the set, all of it hangs below a cycle. */
  lemma NoSourceMeansCycle<N(!new)>(E: set<Edge<N>>, S: set<N>, v: N)
    requires Sourceless(E, S)
    requires v in S
    ensures BelowCycle(E, v) && Cyclic(E)
  {
    var p := BackwardWalk(E, S, v, |S|);
    var i, j := Pigeonhole(p, S);
    SubPath(E, p, i, j + 1);
    SubPath(E, p, i, |p|);
    assert PathFromTo(E, p[i..j + 1], p[i], p[i]);
    assert ReachesPlus(E, p[i], p[i]);
    assert Reaches(E, p[i], v);
  }

  /** In an acyclic graph, a part whose complement has no source of its own is everything. */
  lemma SourcelessRestIsEmpty<N(!new)>(E: set<Edge<N>>, all: set<N>, part: set<N>)
    requires part <= all && !Cyclic(E)
    requires Sourceless(E, all - part)
    ensures part == all
  {
    forall v | v in all
      ensures v in part
    {
      if v !in part {
        NoSourceMeansCycle(E, all - part, v);
      }
    }
  }

  /** Every edge into a listed node comes from an earlier listed node. */
  ghost predicate EdgesPointForward<N>(E: set<Edge<N>>, order: seq<N>) {
    forall k, e :: 0 <= k < |order| && e in E && e.target == order[k] ==> e.source in order[..k]
  }

  /** Lists nodes once, sources before targets. */
  ghost predicate IsTopological<N>(E: set<Edge<N>>, order: seq<N>) {
    NoDup(order) && EdgesPointForward(E, order)
  }

  /** A path that ends in a forward-listed node stays in the list, at increasing positions. */
  lemma {:induction false} PathClimbs<N>(E: set<Edge<N>>, order: seq<N>, p: seq<N>, k: nat) returns (i: nat)
    requires EdgesPointForward(E, order) && IsPath(E, p)
    requires k < |order| && order[k] == p[|p| - 1]
    ensures i < |order| && order[i] == p[0]
    ensures |p| >= 2 ==> i < k
    ensures |p| == 1 ==> i == k
    decreases |p|
  {
    if |p| == 1 {
      i := k;
    } else {
      PathTail(E, p);
      var j := PathClimbs(E, order, p[1..], k);
      assert Edge(p[0], p[1]) in E;
      assert p[0] in order[..j];
      i :| 0 <= i < j && order[i] == p[0];
    }
  }

  /** A duplicate-free forward listing contains no node below a cycle. */
  lemma ForwardListingAvoidsCycles<N(!new)>(E: set<Edge<N>>, order: seq<N>, v: N)
    requires EdgesPointForward(E, order) && NoDup(order) && v in order
    ensures !BelowCycle(E, v)
  {
    if BelowCycle(E, v) {
      var c :| ReachesPlus(E, c, c) && Reaches(E, c, v);
      var k :| 0 <= k < |order| && order[k] == v;
      var p :| PathFromTo(E, p, c, v);
      var i := PathClimbs(E, order, p, k);
      var q :| PathFromTo(E, q, c, c) && |q| >= 2;
      var j := PathClimbs(E, order, q, i);
      assert false;
    }
  }

  /** A graph is acyclic when a duplicate-free forward listing covers all edge targets. */
  lemma ForwardListingMeansAcyclic<N(!new)>(E: set<Edge<N>>, order: seq<N>)
    requires EdgesPointForward(E, order) && NoDup(order)
    requires forall e :: e in E ==> e.target in order
    ensures !Cyclic(E)
  {
    if Cyclic(E) {
      var v :| ReachesPlus(E, v, v);
      var p :| PathFromTo(E, p, v, v) && |p| >= 2;
      assert Edge(p[|p| - 2], p[|p| - 1]) in E;
      ReachesSelf(E, v);
      assert BelowCycle(E, v);
      ForwardListingAvoidsCycles(E, order, v);
      assert false;
    }
  }

  /** Nothing listed follows the last node of a forward listing. */
  lemma LastLeadsNowhere<N>(E: set<Edge<N>>, order: seq<N>, n: N)
    requires EdgesPointForward(E, order) && NoDup(order) && order != []
    requires n in order
    ensures Edge(order[|order| - 1], n) !in E
  {
    var k :| 0 <= k < |order| && order[k] == n;
    assert forall e :: e in E && e.target == order[k] ==> e.source in order[..k];
  }

  lemma CyclicIffBelowCycle<N(!new)>(E: set<Edge<N>>)
    ensures Cyclic(E) <==> exists v :: BelowCycle(E, v)
  {
    if Cyclic(E) {
      var v :| ReachesPlus(E, v, v);
      ReachesSelf(E, v);
      assert BelowCycle(E, v);
    }
  }
}
