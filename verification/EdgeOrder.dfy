/** The order the compiler sorts its edges in, and why sorting hides the order they were created in. */
module EdgeOrders {
  import opened Sequences
  import opened Definitions

  /** Lexicographic order of strings. */
  predicate Less(a: string, b: string) {
    if b == [] then false
    else if a == [] then true
    else a[0] < b[0] || (a[0] == b[0] && Less(a[1..], b[1..]))
  }

  lemma {:induction false} LessIsTotal(a: string, b: string)
    ensures Less(a, b) || Less(b, a) || a == b
  {
    if a != [] && b != [] {
      LessIsTotal(a[1..], b[1..]);
      assert a == [a[0]] + a[1..] && b == [b[0]] + b[1..];
    }
  }

  lemma {:induction false} LessIsStrict(a: string, b: string)
    ensures !(Less(a, b) && Less(b, a))
    ensures a == b ==> !Less(a, b)
  {
    if a != [] && b != [] {
      LessIsStrict(a[1..], b[1..]);
    }
  }

  lemma {:induction false} LessIsTransitive(a: string, b: string, c: string)
    requires Less(a, b) && Less(b, c)
    ensures Less(a, c)
  {
    if a != [] && a[0] == b[0] == c[0] {
      LessIsTransitive(a[1..], b[1..], c[1..]);
    }
  }

  /** The strings agree up to k, where a has the smaller character. */
  ghost predicate DiffersAt(a: string, b: string, k: nat) {
    k < |a| && k < |b| && a[..k] == b[..k] && a[k] < b[k]
  }

  /** A proper prefix comes first; otherwise the first difference decides. */
  lemma {:induction false} LessIsLexicographic(a: string, b: string)
    ensures Less(a, b) <==> a < b || exists k: nat :: DiffersAt(a, b, k)
  {
    if a != [] && b != [] {
      assert a == [a[0]] + a[1..] && b == [b[0]] + b[1..];
      LessIsLexicographic(a[1..], b[1..]);
      if a[0] < b[0] {
        assert DiffersAt(a, b, 0);
      }
      if a[0] == b[0] {
        forall k: nat
          ensures DiffersAt(a[1..], b[1..], k) <==> DiffersAt(a, b, k + 1)
        {
          DiffersLater(a, b, k);
        }
        if k: nat :| DiffersAt(a, b, k) {
          assert DiffersAt(a[1..], b[1..], k - 1);
        }
        assert a < b <==> a[1..] < b[1..];
      } else {
        forall k: nat
          ensures DiffersAt(a, b, k) ==> k == 0
        {
          DiffersAtOnce(a, b, k);
        }
      }
    }
  }

  lemma DiffersAtOnce(a: string, b: string, k: nat)
    requires a != [] && b != [] && a[0] != b[0]
    ensures DiffersAt(a, b, k) ==> k == 0
  {
    if 0 < k <= |a| && k <= |b| {
      assert a[..k][0] == a[0] && b[..k][0] == b[0];
    }
  }

  lemma DiffersLater(a: string, b: string, k: nat)
    requires a != [] && b != [] && a[0] == b[0]
    ensures DiffersAt(a[1..], b[1..], k) <==> DiffersAt(a, b, k + 1)
  {
    if k < |a| - 1 && k < |b| - 1 {
      assert a[..k + 1] == [a[0]] + a[1..][..k] && b[..k + 1] == [b[0]] + b[1..][..k];
      assert a[..k + 1][1..] == a[1..][..k] && b[..k + 1][1..] == b[1..][..k];
    }
  }

  /** By source, then target, then source handle, then target handle. */
  predicate EdgeLess(a: EdgeDef, b: EdgeDef) {
    if a.source != b.source then Less(a.source, b.source)
    else if a.target != b.target then Less(a.target, b.target)
    else if a.sourceHandle != b.sourceHandle then Less(a.sourceHandle, b.sourceHandle)
    else Less(a.targetHandle, b.targetHandle)
  }

  lemma EdgeLessIsTotal(a: EdgeDef, b: EdgeDef)
    ensures EdgeLess(a, b) || EdgeLess(b, a) || a == b
    ensures !(EdgeLess(a, b) && EdgeLess(b, a))
  {
    LessIsTotal(a.source, b.source);
    LessIsTotal(a.target, b.target);
    LessIsTotal(a.sourceHandle, b.sourceHandle);
    LessIsTotal(a.targetHandle, b.targetHandle);
    LessIsStrict(a.source, b.source);
    LessIsStrict(a.target, b.target);
    LessIsStrict(a.sourceHandle, b.sourceHandle);
    LessIsStrict(a.targetHandle, b.targetHandle);
    hide Less;
  }

  lemma Between(a: string, b: string, c: string)
    ensures Less(a, b) && Less(b, c) ==> Less(a, c) && a != c
  {
    if Less(a, b) && Less(b, c) {
      LessIsTransitive(a, b, c);
      LessIsStrict(a, c);
      LessIsStrict(a, b);
    }
  }

  lemma EdgeLessIsTransitive(a: EdgeDef, b: EdgeDef, c: EdgeDef)
    requires EdgeLess(a, b) && EdgeLess(b, c)
    ensures EdgeLess(a, c)
  {
    Between(a.source, b.source, c.source);
    Between(a.target, b.target, c.target);
    Between(a.sourceHandle, b.sourceHandle, c.sourceHandle);
    Between(a.targetHandle, b.targetHandle, c.targetHandle);
    hide Less;
  }

  ghost predicate NotAfter(a: EdgeDef, b: EdgeDef) {
    !EdgeLess(b, a)
  }

  ghost predicate Ordered(edges: seq<EdgeDef>) {
    forall i, j :: 0 <= i < j < |edges| ==> NotAfter(edges[i], edges[j])
  }

  ghost predicate AtMost(a: string, b: string) {
    a == b || Less(a, b)
  }

  /** Sources do not decrease; for the same source targets do not; then source handles; then target handles. */
  ghost predicate FieldsAscend(a: EdgeDef, b: EdgeDef) {
    && AtMost(a.source, b.source)
    && (a.source == b.source ==> AtMost(a.target, b.target))
    && (a.source == b.source && a.target == b.target ==> AtMost(a.sourceHandle, b.sourceHandle))
    && (a.source == b.source && a.target == b.target && a.sourceHandle == b.sourceHandle ==>
          AtMost(a.targetHandle, b.targetHandle))
  }

  lemma NotAfterAscends(a: EdgeDef, b: EdgeDef)
    ensures NotAfter(a, b) <==> FieldsAscend(a, b)
  {
    EdgeLessIsTotal(a, b);
    LessIsStrict(a.source, b.source);
    LessIsStrict(a.target, b.target);
    LessIsStrict(a.sourceHandle, b.sourceHandle);
    LessIsStrict(a.targetHandle, b.targetHandle);
    hide Less;
  }

  lemma NotAfterChains(a: EdgeDef, b: EdgeDef, c: EdgeDef)
    requires NotAfter(a, b) && NotAfter(b, c)
    ensures NotAfter(a, c)
  {
    EdgeLessIsTotal(a, b);
    EdgeLessIsTotal(b, c);
    if EdgeLess(c, a) && a != b && b != c {
      EdgeLessIsTransitive(a, b, c);
      EdgeLessIsTotal(a, c);
    }
  }

  /** Room for e at position j: everything before is not after e, and e is before what follows. */
  lemma Inserted(sorted: seq<EdgeDef>, e: EdgeDef, j: nat)
    requires Ordered(sorted) && j <= |sorted|
    requires j > 0 ==> NotAfter(sorted[j - 1], e)
    requires j < |sorted| ==> EdgeLess(e, sorted[j])
    ensures Ordered(sorted[..j] + [e] + sorted[j..])
  {
    hide EdgeLess;
    forall i | 0 <= i < j
      ensures NotAfter(sorted[i], e)
    {
      if i < j - 1 {
        NotAfterChains(sorted[i], sorted[j - 1], e);
      }
    }
    forall i | j <= i < |sorted|
      ensures NotAfter(e, sorted[i])
    {
      EdgeLessIsTotal(e, sorted[j]);
      if j < i {
        NotAfterChains(e, sorted[j], sorted[i]);
      }
    }
    hide NotAfter;
    var longer := sorted[..j] + [e] + sorted[j..];
    forall i, k | 0 <= i < k < |longer|
      ensures NotAfter(longer[i], longer[k])
    {
      assert longer[i] == if i < j then sorted[i] else if i == j then e else sorted[i - 1];
      assert longer[k] == if k < j then sorted[k] else if k == j then e else sorted[k - 1];
    }
  }

  /** The same edges in order. */
  method SortEdges(edges: seq<EdgeDef>) returns (sorted: seq<EdgeDef>)
    ensures multiset(sorted) == multiset(edges)
    ensures Ordered(sorted)
    ensures forall i, j :: 0 <= i < j < |sorted| ==> FieldsAscend(sorted[i], sorted[j])
  {
    hide EdgeLess, Ordered, FieldsAscend;
    sorted := [];
    NothingOrdered();
    var i := 0;
    while i < |edges|
      invariant 0 <= i <= |edges|
      invariant multiset(sorted) == multiset(edges[..i])
      invariant Ordered(sorted)
    {
      var j := |sorted|;
      while j > 0 && EdgeLess(edges[i], sorted[j - 1])
        invariant 0 <= j <= |sorted|
        invariant j < |sorted| ==> EdgeLess(edges[i], sorted[j])
      {
        j := j - 1;
      }
      TakeNext(edges, i);
      Inserted(sorted, edges[i], j);
      assert sorted == sorted[..j] + sorted[j..];
      sorted := sorted[..j] + [edges[i]] + sorted[j..];
      i := i + 1;
    }
    assert edges[..i] == edges;
    OrderedAscends(sorted);
  }

  lemma OrderedAscends(edges: seq<EdgeDef>)
    requires Ordered(edges)
    ensures forall i, j :: 0 <= i < j < |edges| ==> FieldsAscend(edges[i], edges[j])
  {
    forall i, j | 0 <= i < j < |edges|
      ensures FieldsAscend(edges[i], edges[j])
    {
      NotAfterAscends(edges[i], edges[j]);
    }
  }

  lemma NothingOrdered()
    ensures Ordered([])
  {
  }

  lemma FirstIsLeast(edges: seq<EdgeDef>, e: EdgeDef)
    requires Ordered(edges) && e in multiset(edges)
    ensures NotAfter(edges[0], e)
  {
    EdgeLessIsTotal(e, e);
  }

  lemma TailIsOrdered(edges: seq<EdgeDef>)
    requires Ordered(edges) && edges != []
    ensures Ordered(edges[1..])
  {
  }

  lemma WithoutFirst(edges: seq<EdgeDef>)
    requires edges != []
    ensures edges == [edges[0]] + edges[1..]
    ensures multiset(edges[1..]) == multiset(edges) - multiset{edges[0]}
    ensures edges[0] in multiset(edges)
  {
    assert edges == [edges[0]] + edges[1..];
  }

  /** Edges have one order only: whatever order they were created in, they are sorted into the same list. */
  lemma {:induction false} OrderIsUnique(a: seq<EdgeDef>, b: seq<EdgeDef>)
    requires Ordered(a) && Ordered(b) && multiset(a) == multiset(b)
    ensures a == b
  {
    hide Ordered, EdgeLess;
    assert |a| == |multiset(a)| && |b| == |multiset(b)|;
    if a != [] {
      WithoutFirst(a);
      WithoutFirst(b);
      FirstIsLeast(a, b[0]);
      FirstIsLeast(b, a[0]);
      EdgeLessIsTotal(a[0], b[0]);
      TailIsOrdered(a);
      TailIsOrdered(b);
      OrderIsUnique(a[1..], b[1..]);
    }
  }
}
