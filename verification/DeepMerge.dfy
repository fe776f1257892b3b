/** Deep merging of nested maps: exactly when the order of the inputs is irrelevant. */
module DeepMerging {
  import opened Sequences
  import opened Envelopes
  import opened Merging
  import opened NestedMaps

  /** Equal, or two maps whose shared keys hold compatible values. */
  ghost predicate Compatible(v: Value, w: Value)
    decreases v
  {
    || v == w
    || (v.Object? && w.Object? && forall k :: k in v.fields && k in w.fields ==> Compatible(v.fields[k], w.fields[k]))
  }

  lemma {:induction false} CompatibleSymmetric(v: Value, w: Value)
    requires Compatible(v, w)
    ensures Compatible(w, v)
    decreases v
  {
    if v != w {
      forall k | k in w.fields && k in v.fields
        ensures Compatible(w.fields[k], v.fields[k])
      {
        CompatibleSymmetric(v.fields[k], w.fields[k]);
      }
    }
  }

  lemma SharedCompatible(v: Value, w: Value, k: string)
    requires Compatible(v, w) && v.Object? && w.Object? && k in v.fields && k in w.fields
    ensures Compatible(v.fields[k], w.fields[k])
  {
  }

  lemma BothMaps(v: Value, w: Value)
    requires Compatible(v, w)
    ensures v.Object? <==> w.Object?
    ensures !v.Object? ==> v == w
  {
  }

  lemma OverlayAt(v: Value, w: Value, k: string)
    requires v.Object? && w.Object? && (k in v.fields || k in w.fields)
    ensures k in Overlay(v, w).fields
    ensures Overlay(v, w).fields[k]
         == if k in v.fields && k in w.fields then Overlay(v.fields[k], w.fields[k])
            else if k in w.fields then w.fields[k] else v.fields[k]
  {
  }

  lemma {:induction false} OverlayCommutes(v: Value, w: Value)
    requires Compatible(v, w)
    ensures Overlay(v, w) == Overlay(w, v)
    decreases v
  {
    BothMaps(v, w);
    if v.Object? {
      forall k | k in v.fields.Keys + w.fields.Keys
        ensures Overlay(v, w).fields[k] == Overlay(w, v).fields[k]
      {
        OverlayAt(v, w, k);
        OverlayAt(w, v, k);
        if k in v.fields && k in w.fields {
          SharedCompatible(v, w, k);
          OverlayCommutes(v.fields[k], w.fields[k]);
        }
      }
      assert Overlay(v, w).fields == Overlay(w, v).fields;
    }
  }

  /** A merge of two stays compatible with a third that was compatible with both. */
  lemma {:induction false} OverlayStaysCompatible(u: Value, v: Value, w: Value)
    requires Compatible(u, v) && Compatible(u, w) && Compatible(v, w)
    ensures Compatible(Overlay(u, v), w)
    decreases u
  {
    BothMaps(u, v);
    BothMaps(v, w);
    if u.Object? {
      forall k | k in Overlay(u, v).fields && k in w.fields
        ensures Compatible(Overlay(u, v).fields[k], w.fields[k])
      {
        OverlayAt(u, v, k);
        if k in u.fields {
          SharedCompatible(u, w, k);
        }
        if k in v.fields {
          SharedCompatible(v, w, k);
        }
        if k in u.fields && k in v.fields {
          SharedCompatible(u, v, k);
          OverlayStaysCompatible(u.fields[k], v.fields[k], w.fields[k]);
        }
      }
    }
  }

  lemma {:induction false} OverlayAssociates(u: Value, v: Value, w: Value)
    requires Compatible(u, v) && Compatible(u, w) && Compatible(v, w)
    ensures Overlay(Overlay(u, v), w) == Overlay(u, Overlay(v, w))
    decreases u
  {
    BothMaps(u, v);
    BothMaps(v, w);
    if u.Object? {
      var left, right := Overlay(Overlay(u, v), w), Overlay(u, Overlay(v, w));
      forall k | k in u.fields.Keys + v.fields.Keys + w.fields.Keys
        ensures left.fields[k] == right.fields[k]
      {
        AssociatesAt(u, v, w, k);
        if k in u.fields && k in v.fields && k in w.fields {
          SharedCompatible(u, v, k);
          SharedCompatible(u, w, k);
          SharedCompatible(v, w, k);
          OverlayAssociates(u.fields[k], v.fields[k], w.fields[k]);
        }
      }
      assert left.fields.Keys == right.fields.Keys;
      assert left.fields == right.fields;
    }
  }

  lemma AssociatesAt(u: Value, v: Value, w: Value, k: string)
    requires u.Object? && v.Object? && w.Object? && k in u.fields.Keys + v.fields.Keys + w.fields.Keys
    ensures k in Overlay(Overlay(u, v), w).fields && k in Overlay(u, Overlay(v, w)).fields
    ensures !(k in u.fields && k in v.fields && k in w.fields) ==>
              Overlay(Overlay(u, v), w).fields[k] == Overlay(u, Overlay(v, w)).fields[k]
    ensures k in u.fields && k in v.fields && k in w.fields ==>
              && Overlay(Overlay(u, v), w).fields[k] == Overlay(Overlay(u.fields[k], v.fields[k]), w.fields[k])
              && Overlay(u, Overlay(v, w)).fields[k] == Overlay(u.fields[k], Overlay(v.fields[k], w.fields[k]))
  {
    if k in u.fields || k in v.fields {
      OverlayAt(u, v, k);
    }
    if k in v.fields || k in w.fields {
      OverlayAt(v, w, k);
    }
    OverlayAt(Overlay(u, v), w, k);
    OverlayAt(u, Overlay(v, w), k);
  }

  // ----- folding the inputs

  /** The inputs overlaid from left to right. */
  ghost function Folded(inputs: seq<Vars>): (r: Value)
    ensures r.Object?
  {
    if inputs == [] then Object(map[]) else Overlay(Folded(inputs[..|inputs| - 1]), Object(inputs[|inputs| - 1]))
  }

  lemma OverlayEmpty(m: Vars)
    ensures Overlay(Object(map[]), Object(m)) == Object(m)
  {
    assert Overlay(Object(map[]), Object(m)).fields == m;
  }

  /** The deep merge is that fold. */
  lemma {:induction false} DeepMergeFolds(config: MergeConfig, inputs: seq<Vars>)
    requires config.policy.KeepLast? && config.deep
    ensures MergedAll(config, inputs) == Some(Folded(inputs).fields)
  {
    hide Overlay;
    if |inputs| == 1 {
      OverlayEmpty(inputs[0]);
      assert inputs[..0] == [];
    } else if |inputs| > 1 {
      DeepMergeFolds(config, inputs[..|inputs| - 1]);
    }
  }

  ghost predicate CompatibleAll(inputs: seq<Vars>) {
    forall i, j :: 0 <= i < |inputs| && 0 <= j < |inputs| ==> Compatible(Object(inputs[i]), Object(inputs[j]))
  }

  lemma CompatiblePart(inputs: seq<Vars>, part: seq<Vars>)
    requires CompatibleAll(inputs) && forall m :: m in part ==> m in inputs
    ensures CompatibleAll(part)
  {
    hide Compatible;
    forall i, j | 0 <= i < |part| && 0 <= j < |part|
      ensures Compatible(Object(part[i]), Object(part[j]))
    {
      assert part[i] in part && part[j] in part;
      var i' :| 0 <= i' < |inputs| && inputs[i'] == part[i];
      var j' :| 0 <= j' < |inputs| && inputs[j'] == part[j];
      assert Compatible(Object(inputs[i']), Object(inputs[j']));
    }
  }

  lemma {:induction false} FoldedCompatible(inputs: seq<Vars>, x: Vars)
    requires CompatibleAll(inputs + [x])
    ensures Compatible(Folded(inputs), Object(x))
  {
    if inputs != [] {
      var front, last := inputs[..|inputs| - 1], inputs[|inputs| - 1];
      var all := inputs + [x];
      assert all[|inputs| - 1] == last && all[|inputs|] == x;
      assert Compatible(Object(last), Object(x));
      assert front + [last] == inputs;
      CompatiblePart(all, front + [last]);
      CompatiblePart(all, front + [x]);
      hide Compatible, Overlay;
      FoldedCompatible(front, last);
      FoldedCompatible(front, x);
      OverlayStaysCompatible(Folded(front), Object(last), Object(x));
    }
  }

  lemma FoldedExtend(inputs: seq<Vars>, x: Vars)
    ensures Folded(inputs + [x]) == Overlay(Folded(inputs), Object(x))
  {
    TakeOfAppend(inputs, x, 0);
  }

  /** The last two inputs can be swapped. */
  lemma SwapLast(inputs: seq<Vars>, a: Vars, b: Vars)
    requires CompatibleAll(inputs + [a] + [b])
    ensures Folded(inputs + [a] + [b]) == Folded(inputs + [b] + [a])
  {
    var all := inputs + [a] + [b];
    assert all[|inputs|] == a && all[|inputs| + 1] == b;
    assert Compatible(Object(a), Object(b));
    CompatiblePart(all, inputs + [a]);
    CompatiblePart(all, inputs + [b]);
    hide Compatible, Overlay, Folded;
    FoldedCompatible(inputs, a);
    FoldedCompatible(inputs, b);
    CompatibleSymmetric(Object(a), Object(b));
    FoldedExtend(inputs, a);
    FoldedExtend(inputs + [a], b);
    FoldedExtend(inputs, b);
    FoldedExtend(inputs + [b], a);
    OverlayAssociates(Folded(inputs), Object(a), Object(b));
    OverlayAssociates(Folded(inputs), Object(b), Object(a));
    OverlayCommutes(Object(a), Object(b));
  }

  /** Any input can be moved to the end. */
  lemma {:induction false} MoveToEnd(p: seq<Vars>, a: Vars, q: seq<Vars>)
    requires CompatibleAll(p + [a] + q)
    ensures Folded(p + [a] + q) == Folded(p + q + [a])
    decreases |q|
  {
    if q == [] {
      assert p + [a] + q == p + q + [a];
    } else {
      var front, z := q[..|q| - 1], q[|q| - 1];
      var all := p + [a] + q;
      assert p + [a] + q == p + [a] + front + [z] && p + front + [z] == p + q;
      assert forall m :: m in p + [a] + front ==> m in all;
      assert forall m :: m in p + front + [a] + [z] ==> m in all;
      CompatiblePart(all, p + [a] + front);
      CompatiblePart(all, p + front + [a] + [z]);
      hide CompatibleAll, Folded;
      MoveToEnd(p, a, front);
      FoldedExtend(p + [a] + front, z);
      FoldedExtend(p + front + [a], z);
      SwapLast(p + front, a, z);
    }
  }

  lemma WithoutOne<T>(p: seq<T>, x: T, q: seq<T>, s: seq<T>)
    requires multiset(p + [x] + q) == multiset(s + [x])
    ensures multiset(p + q) == multiset(s)
  {
    assert multiset(p + [x] + q) == multiset(p + q) + multiset{x};
    assert multiset(s + [x]) == multiset(s) + multiset{x};
    assert multiset(p + q) == multiset(p + q) + multiset{x} - multiset{x};
  }

  lemma {:induction false} FoldIgnoresOrder(inputs: seq<Vars>, inputs': seq<Vars>)
    requires multiset(inputs) == multiset(inputs') && CompatibleAll(inputs)
    ensures Folded(inputs) == Folded(inputs')
    decreases |inputs'|
  {
    if inputs' == [] {
      assert |multiset(inputs)| == 0;
      assert inputs == [];
    } else {
      var front', x := inputs'[..|inputs'| - 1], inputs'[|inputs'| - 1];
      SplitLast(inputs');
      assert x in multiset(inputs);
      var i :| 0 <= i < |inputs| && inputs[i] == x;
      var p, q := inputs[..i], inputs[i + 1..];
      assert inputs == p + [x] + q;
      WithoutOne(p, x, q, front');
      CompatiblePart(inputs, p + q);
      hide CompatibleAll, Folded;
      MoveToEnd(p, x, q);
      FoldIgnoresOrder(p + q, front');
      FoldedExtend(p + q, x);
      FoldedExtend(front', x);
    }
  }

  // ----- and only then

  /** r holds everything v says: leaves at least. */
  ghost predicate Carries(r: Value, v: Value)
    decreases v
  {
    if v.Object? then r.Object? && forall k :: k in v.fields ==> k in r.fields && Carries(r.fields[k], v.fields[k])
    else r == v
  }

  lemma {:induction false} OverlayCarries(m: Value, v: Value)
    ensures Carries(Overlay(m, v), v)
    decreases v
  {
    if m.Object? && v.Object? {
      forall k | k in v.fields
        ensures k in Overlay(m, v).fields && Carries(Overlay(m, v).fields[k], v.fields[k])
      {
        OverlayAt(m, v, k);
        if k in m.fields {
          OverlayCarries(m.fields[k], v.fields[k]);
        } else {
          CarriesItself(v.fields[k]);
        }
      }
    } else {
      CarriesItself(v);
    }
  }

  lemma {:induction false} CarriesItself(v: Value)
    ensures Carries(v, v)
    decreases v
  {
    if v.Object? {
      forall k | k in v.fields
        ensures Carries(v.fields[k], v.fields[k])
      {
        CarriesItself(v.fields[k]);
      }
    }
  }

  lemma {:induction false} CarriedIsCompatible(r: Value, v: Value, w: Value)
    requires Carries(r, v) && Carries(r, w)
    ensures Compatible(v, w)
    decreases v
  {
    if v.Object? && w.Object? {
      forall k | k in v.fields && k in w.fields
        ensures Compatible(v.fields[k], w.fields[k])
      {
        CarriedIsCompatible(r.fields[k], v.fields[k], w.fields[k]);
      }
    }
  }

  /** With deep merging, arrival order is irrelevant exactly for inputs whose shared keys are compatible all the way down. */
  lemma DeepOrderIndependentIffCompatible(config: MergeConfig, inputs: seq<Vars>)
    requires config.policy.KeepLast? && config.deep
    ensures OrderIndependent(config, inputs) <==> CompatibleAll(inputs)
  {
    hide Compatible, Folded;
    if CompatibleAll(inputs) {
      forall a, b | multiset(a) == multiset(inputs) && multiset(b) == multiset(inputs)
        ensures MergedAll(config, a) == MergedAll(config, b)
      {
        FoldIgnoresOrder(inputs, a);
        FoldIgnoresOrder(inputs, b);
        DeepMergeFolds(config, a);
        DeepMergeFolds(config, b);
      }
    }
    if OrderIndependent(config, inputs) {
      forall i, j | 0 <= i < |inputs| && 0 <= j < |inputs|
        ensures Compatible(Object(inputs[i]), Object(inputs[j]))
      {
        LastIsCarried(config, inputs, i);
        LastIsCarried(config, inputs, j);
        MovedLastPermutes(inputs, i);
        MovedLastPermutes(inputs, j);
        assert MergedAll(config, MovedLast(inputs, i)) == MergedAll(config, MovedLast(inputs, j));
        CarriedIsCompatible(Folded(MovedLast(inputs, i)), Object(inputs[i]), Object(inputs[j]));
      }
    }
  }

  lemma LastIsCarried(config: MergeConfig, inputs: seq<Vars>, i: nat)
    requires config.policy.KeepLast? && config.deep && i < |inputs|
    ensures MergedAll(config, MovedLast(inputs, i)) == Some(Folded(MovedLast(inputs, i)).fields)
    ensures Carries(Folded(MovedLast(inputs, i)), Object(inputs[i]))
  {
    hide Carries, Overlay, Folded;
    DeepMergeFolds(config, MovedLast(inputs, i));
    var front := inputs[..i] + inputs[i + 1..];
    FoldedExtend(front, inputs[i]);
    OverlayCarries(Folded(front), Object(inputs[i]));
  }

  // ----- every policy

  /** The merge succeeds, with the same variables in any order. */
  ghost predicate Settles(config: MergeConfig, inputs: seq<Vars>) {
    MergedAll(config, inputs).Some? && OrderIndependent(config, inputs)
  }

  /** What a caller can check of the inputs, by policy. */
  ghost predicate Harmless(config: MergeConfig, inputs: seq<Vars>) {
    match config.policy
    case FailOnConflict => Disjoint(inputs)
    case KeepFirst => AgreeAll(inputs)
    case KeepLast => if config.deep then CompatibleAll(inputs) else AgreeAll(inputs)
  }

  lemma SettlesIffHarmless(config: MergeConfig, inputs: seq<Vars>)
    ensures Settles(config, inputs) <==> Harmless(config, inputs)
  {
    match config.policy
    case FailOnConflict =>
      ConflictsFail(config, inputs);
      forall a, b | multiset(a) == multiset(inputs) && multiset(b) == multiset(inputs)
        ensures MergedAll(config, a) == MergedAll(config, b)
      {
        ConflictsIgnoreOrder(config, a, b);
      }
    case KeepFirst =>
      NeverFails(config, inputs);
      OrderIndependentIffAgreeing(config, inputs);
    case KeepLast =>
      NeverFails(config, inputs);
      if config.deep {
        DeepOrderIndependentIffCompatible(config, inputs);
      } else {
        OrderIndependentIffAgreeing(config, inputs);
      }
  }

  // ----- which leaves a deep merge has

  /** Nothing lies on the way: walking down the path, the map runs out of entries before the path ends. */
  ghost predicate Untouched(m: Vars, path: seq<string>)
    requires |path| >= 1
    decreases |path|
  {
    path[0] !in m || (|path| > 1 && m[path[0]].Object? && Untouched(m[path[0]].fields, path[1..]))
  }

  /** A deep merge holds every leaf of the later map, and the leaves of the earlier one that it does not touch. */
  lemma {:induction false} OverlayLeaves(v: Vars, w: Vars, path: seq<string>, x: Value)
    requires |path| >= 1
    ensures IsLeaf(Overlay(Object(v), Object(w)).fields, path, x) <==>
              IsLeaf(w, path, x) || (IsLeaf(v, path, x) && Untouched(w, path))
    decreases |path|
  {
    var k := path[0];
    if k in v || k in w {
      OverlayAt(Object(v), Object(w), k);
    }
    if |path| > 1 && k in v && k in w && v[k].Object? && w[k].Object? {
      assert Overlay(v[k], w[k]) == Overlay(Object(v[k].fields), Object(w[k].fields));
      OverlayLeaves(v[k].fields, w[k].fields, path[1..], x);
    }
  }
}
