/** Merging the variables of parallel branches. */
module Merging {
  import opened Sequences
  import opened Envelopes

  datatype Policy = KeepLast | KeepFirst | FailOnConflict

  datatype MergeConfig = MergeConfig(deep: bool, policy: Policy)

  /** Deep merge of two values: maps are merged key by key, anything else is replaced. */
  function Overlay(v: Value, w: Value): (r: Value)
    ensures v.Object? && w.Object? ==> r.Object? && r.fields.Keys == v.fields.Keys + w.fields.Keys
    decreases v
  {
    if v.Object? && w.Object? then
      Object(map k | k in v.fields.Keys + w.fields.Keys ::
               if k in v.fields && k in w.fields then Overlay(v.fields[k], w.fields[k])
               else if k in w.fields then w.fields[k] else v.fields[k])
    else w
  }

  /** What one source map does to the destination; None is a key conflict under the failing policy. */
  function MergedVars(config: MergeConfig, dest: Vars, src: Vars): Option<Vars> {
    match config.policy
    case FailOnConflict => if dest.Keys !! src.Keys then Some(dest + src) else None
    case KeepFirst => Some(src + dest)
    case KeepLast => if config.deep then Some(Overlay(Object(dest), Object(src)).fields) else Some(dest + src)
  }

  /** The value a key ends up with when both maps have it. */
  function Resolved(config: MergeConfig, existing: Value, incoming: Value): Value {
    if config.policy.KeepFirst? then existing
    else if config.deep then Overlay(existing, incoming) else incoming
  }

  /** The loop over the source's keys, in any order, writing into the destination. */
  method MergeVars(config: MergeConfig, dest0: Vars, src: Vars) returns (r: Option<Vars>)
    ensures r == MergedVars(config, dest0, src)
  {
    var dest := dest0;
    var unseen := src.Keys;
    while unseen != {}
      invariant unseen <= src.Keys
      invariant dest.Keys == dest0.Keys + (src.Keys - unseen)
      invariant config.policy.FailOnConflict? ==> dest0.Keys !! src.Keys - unseen
      invariant forall k :: k in dest0 && (k in unseen || k !in src) ==> dest[k] == dest0[k]
      invariant forall k :: k in src && k !in unseen ==>
                  dest[k] == if k in dest0 then Resolved(config, dest0[k], src[k]) else src[k]
      decreases unseen
    {
      var k :| k in unseen;
      unseen := unseen - {k};
      if k !in dest {
        dest := dest[k := src[k]];
        continue;
      }
      match config.policy
      case FailOnConflict =>
        return None;
      case KeepFirst =>
      case KeepLast =>
        if config.deep && dest[k].Object? && src[k].Object? {
          dest := dest[k := Overlay(dest[k], src[k])];
        } else {
          dest := dest[k := src[k]];
        }
    }
    r := Some(dest);
    MergedPointwise(config, dest0, src, dest);
  }

  lemma MergedPointwise(config: MergeConfig, dest0: Vars, src: Vars, dest: Vars)
    requires config.policy.FailOnConflict? ==> dest0.Keys !! src.Keys
    requires dest.Keys == dest0.Keys + src.Keys
    requires forall k :: k in dest0 && k !in src ==> dest[k] == dest0[k]
    requires forall k :: k in src ==> dest[k] == if k in dest0 then Resolved(config, dest0[k], src[k]) else src[k]
    ensures MergedVars(config, dest0, src) == Some(dest)
  {
    var merged := MergedVars(config, dest0, src).value;
    assert merged.Keys == dest.Keys;
    forall k | k in dest
      ensures merged[k] == dest[k]
    {
    }
    assert merged == dest;
  }

  /** Folding the inputs left to right, starting from a copy of the first. */
  function MergedAll(config: MergeConfig, inputs: seq<Vars>): Option<Vars> {
    if inputs == [] then Some(map[])
    else if |inputs| == 1 then Some(inputs[0])
    else
      var front := MergedAll(config, inputs[..|inputs| - 1]);
      if front.None? then None else MergedVars(config, front.value, inputs[|inputs| - 1])
  }

  /** MergeInputs over the variables: nothing and a single input are passed through. */
  method MergeInputs(config: MergeConfig, inputs: seq<Vars>) returns (r: Option<Vars>)
    ensures r == MergedAll(config, inputs)
  {
    if |inputs| == 0 {
      return Some(map[]);
    }
    var result := inputs[0];
    var i := 1;
    assert inputs[..1] == [inputs[0]];
    while i < |inputs|
      invariant 1 <= i <= |inputs|
      invariant MergedAll(config, inputs[..i]) == Some(result)
    {
      assert inputs[..i + 1][..i] == inputs[..i];
      var merged := MergeVars(config, result, inputs[i]);
      if merged.None? {
        MergeFailsEarly(config, inputs, i + 1);
        return None;
      }
      result := merged.value;
      i := i + 1;
    }
    assert inputs[..i] == inputs;
    r := Some(result);
  }

  lemma {:induction false} MergeFailsEarly(config: MergeConfig, inputs: seq<Vars>, i: nat)
    requires i <= |inputs| && MergedAll(config, inputs[..i]).None?
    ensures MergedAll(config, inputs).None?
    decreases |inputs|
  {
    if i == |inputs| {
      assert inputs[..i] == inputs;
    } else {
      var front := inputs[..|inputs| - 1];
      assert front[..i] == inputs[..i];
      MergeFailsEarly(config, front, i);
    }
  }

  // ----- order independence

  ghost predicate Agree(a: Vars, b: Vars) {
    forall k :: k in a && k in b ==> a[k] == b[k]
  }

  ghost predicate AgreeAll(inputs: seq<Vars>) {
    forall i, j :: 0 <= i < |inputs| && 0 <= j < |inputs| ==> Agree(inputs[i], inputs[j])
  }

  /** The variables of all inputs together. */
  ghost predicate IsUnion(inputs: seq<Vars>, u: Vars) {
    && (forall k :: k in u ==> exists i :: 0 <= i < |inputs| && k in inputs[i])
    && (forall i, k :: 0 <= i < |inputs| && k in inputs[i] ==> k in u && u[k] == inputs[i][k])
  }

  lemma {:induction false} OverlaySelf(v: Value)
    ensures Overlay(v, v) == v
    decreases v
  {
    if v.Object? {
      forall k | k in v.fields
        ensures Overlay(v, v).fields[k] == v.fields[k]
      {
        OverlaySelf(v.fields[k]);
      }
      assert Overlay(v, v).fields == v.fields;
    }
  }

  lemma AgreeingMergeIsUnion(config: MergeConfig, dest: Vars, src: Vars)
    requires Agree(dest, src) && !config.policy.FailOnConflict?
    ensures MergedVars(config, dest, src) == Some(dest + src)
  {
    forall k | k in dest && k in src
      ensures Resolved(config, dest[k], src[k]) == src[k]
    {
      OverlaySelf(src[k]);
    }
    MergedPointwise(config, dest, src, dest + src);
  }

  /** Inputs that agree on shared keys merge to their union, deep or not, first or last. */
  lemma {:induction false} AgreeingInputsMergeToUnion(config: MergeConfig, inputs: seq<Vars>)
    requires AgreeAll(inputs) && !config.policy.FailOnConflict?
    ensures MergedAll(config, inputs).Some? && IsUnion(inputs, MergedAll(config, inputs).value)
  {
    if |inputs| >= 2 {
      var last := |inputs| - 1;
      var front := inputs[..last];
      assert AgreeAll(front) by {
        assert forall i :: 0 <= i < |front| ==> front[i] == inputs[i];
      }
      AgreeingInputsMergeToUnion(config, front);
      var u := MergedAll(config, front).value;
      UnionAgrees(inputs, u);
      AgreeingMergeIsUnion(config, u, inputs[last]);
      UnionGrows(inputs, u);
    } else if |inputs| == 1 {
      assert Agree(inputs[0], inputs[0]);
    }
  }

  lemma UnionAgrees(inputs: seq<Vars>, u: Vars)
    requires |inputs| > 0 && AgreeAll(inputs) && IsUnion(inputs[..|inputs| - 1], u)
    ensures Agree(u, inputs[|inputs| - 1])
  {
    var last := |inputs| - 1;
    var front := inputs[..last];
    forall k | k in u && k in inputs[last]
      ensures u[k] == inputs[last][k]
    {
      var i :| 0 <= i < |front| && k in front[i];
      assert u[k] == front[i][k];
      assert front[i] == inputs[i];
      assert Agree(inputs[i], inputs[last]);
    }
  }

  lemma UnionGrows(inputs: seq<Vars>, u: Vars)
    requires |inputs| > 0 && IsUnion(inputs[..|inputs| - 1], u) && Agree(u, inputs[|inputs| - 1])
    ensures IsUnion(inputs, u + inputs[|inputs| - 1])
  {
    var last := |inputs| - 1;
    var front, u' := inputs[..last], u + inputs[last];
    forall k | k in u'
      ensures exists i :: 0 <= i < |inputs| && k in inputs[i]
    {
      if k in u {
        var i :| 0 <= i < |front| && k in front[i];
        assert k in inputs[i];
      } else {
        assert k in inputs[last];
      }
    }
    forall i, k | 0 <= i < |inputs| && k in inputs[i]
      ensures k in u' && u'[k] == inputs[i][k]
    {
      if i < last {
        assert front[i] == inputs[i];
      }
    }
  }

  lemma UnionIsUnique(inputs: seq<Vars>, inputs': seq<Vars>, u: Vars, u': Vars)
    requires multiset(inputs) == multiset(inputs')
    requires IsUnion(inputs, u) && IsUnion(inputs', u')
    ensures u == u'
  {
    forall v
      ensures v in inputs <==> v in inputs'
    {
      assert v in inputs <==> v in multiset(inputs);
      assert v in inputs' <==> v in multiset(inputs');
    }
    forall k | k in u
      ensures k in u' && u'[k] == u[k]
    {
      var i :| 0 <= i < |inputs| && k in inputs[i];
      assert inputs[i] in inputs';
      var j :| 0 <= j < |inputs'| && inputs'[j] == inputs[i];
    }
    forall k | k in u'
      ensures k in u
    {
      var j :| 0 <= j < |inputs'| && k in inputs'[j];
      assert inputs'[j] in inputs;
      var i :| 0 <= i < |inputs| && inputs[i] == inputs'[j];
    }
  }

  lemma AgreeAllPermutes(inputs: seq<Vars>, inputs': seq<Vars>)
    requires multiset(inputs) == multiset(inputs') && AgreeAll(inputs)
    ensures AgreeAll(inputs')
  {
    forall i, j | 0 <= i < |inputs'| && 0 <= j < |inputs'|
      ensures Agree(inputs'[i], inputs'[j])
    {
      assert inputs'[i] in multiset(inputs) && inputs'[j] in multiset(inputs);
      var i' :| 0 <= i' < |inputs| && inputs[i'] == inputs'[i];
      var j' :| 0 <= j' < |inputs| && inputs[j'] == inputs'[j];
      assert Agree(inputs[i'], inputs[j']);
    }
  }

  /** Arrival order does not matter for inputs that agree on shared keys. */
  lemma MergeIgnoresOrder(config: MergeConfig, inputs: seq<Vars>, inputs': seq<Vars>)
    requires multiset(inputs) == multiset(inputs')
    requires AgreeAll(inputs) && !config.policy.FailOnConflict?
    ensures MergedAll(config, inputs) == MergedAll(config, inputs')
  {
    AgreeAllPermutes(inputs, inputs');
    AgreeingInputsMergeToUnion(config, inputs);
    AgreeingInputsMergeToUnion(config, inputs');
    UnionIsUnique(inputs, inputs', MergedAll(config, inputs).value, MergedAll(config, inputs').value);
  }

  /** No key in two inputs. */
  ghost predicate Disjoint(inputs: seq<Vars>) {
    forall i, j :: 0 <= i < j < |inputs| ==> inputs[i].Keys !! inputs[j].Keys
  }

  /** The failing policy fails exactly when two inputs share a key, and otherwise gives their union. */
  lemma {:induction false} ConflictsFail(config: MergeConfig, inputs: seq<Vars>)
    requires config.policy.FailOnConflict?
    ensures MergedAll(config, inputs).Some? <==> Disjoint(inputs)
    ensures Disjoint(inputs) ==> IsUnion(inputs, MergedAll(config, inputs).value)
  {
    if |inputs| >= 2 {
      var last := |inputs| - 1;
      var front := inputs[..last];
      ConflictsFail(config, front);
      DisjointGrows(inputs);
      if Disjoint(front) {
        var u := MergedAll(config, front).value;
        SharedKeys(inputs, u);
        if u.Keys !! inputs[last].Keys {
          UnionGrows(inputs, u);
        }
      }
    }
  }

  lemma DisjointGrows(inputs: seq<Vars>)
    requires inputs != []
    ensures var last := |inputs| - 1;
            Disjoint(inputs) <==> Disjoint(inputs[..last]) && forall i :: 0 <= i < last ==> inputs[i].Keys !! inputs[last].Keys
  {
    var last := |inputs| - 1;
    assert forall i :: 0 <= i < last ==> inputs[..last][i] == inputs[i];
  }

  lemma SharedKeys(inputs: seq<Vars>, u: Vars)
    requires inputs != [] && IsUnion(inputs[..|inputs| - 1], u)
    ensures var last := |inputs| - 1;
            u.Keys !! inputs[last].Keys <==> forall i :: 0 <= i < last ==> inputs[i].Keys !! inputs[last].Keys
  {
    var last := |inputs| - 1;
    assert forall i :: 0 <= i < last ==> inputs[..last][i] == inputs[i];
  }

  lemma {:induction false} TwoOccurrences<T>(s: seq<T>, x: T) returns (i: nat, j: nat)
    requires multiset(s)[x] >= 2
    ensures i < j < |s| && s[i] == x && s[j] == x
  {
    var last := |s| - 1;
    SplitLast(s);
    CountOfAppend(s[..last], s[last], x);
    if s[last] == x {
      j := last;
      assert x in multiset(s[..last]);
      i :| 0 <= i < last && s[i] == x;
    } else {
      i, j := TwoOccurrences(s[..last], x);
    }
  }

  lemma TwiceInBag(inputs: seq<Vars>, i: nat, j: nat)
    requires i < j < |inputs| && inputs[i] == inputs[j]
    ensures multiset(inputs)[inputs[i]] >= 2
  {
    var a := inputs[i];
    assert inputs == inputs[..j] + inputs[j..];
    assert a in multiset(inputs[..j]) by {
      assert inputs[..j][i] == a;
    }
    assert a in multiset(inputs[j..]) by {
      assert inputs[j..][0] == a;
    }
    assert multiset(inputs) == multiset(inputs[..j]) + multiset(inputs[j..]);
  }

  lemma DisjointPair(inputs: seq<Vars>, inputs': seq<Vars>, i: nat, j: nat)
    requires multiset(inputs) == multiset(inputs') && Disjoint(inputs) && i < j < |inputs'|
    ensures inputs'[i].Keys !! inputs'[j].Keys
  {
    var a, b := inputs'[i], inputs'[j];
    if a == b {
      TwiceInBag(inputs', i, j);
      var i', j' := TwoOccurrences(inputs, a);
    } else {
      assert a in multiset(inputs) && b in multiset(inputs);
      var i' :| 0 <= i' < |inputs| && inputs[i'] == a;
      var j' :| 0 <= j' < |inputs| && inputs[j'] == b;
    }
  }

  lemma DisjointPermutes(inputs: seq<Vars>, inputs': seq<Vars>)
    requires multiset(inputs) == multiset(inputs') && Disjoint(inputs)
    ensures Disjoint(inputs')
  {
    forall i, j | 0 <= i < j < |inputs'|
      ensures inputs'[i].Keys !! inputs'[j].Keys
    {
      DisjointPair(inputs, inputs', i, j);
    }
  }

  /** Whether the failing policy fails, and its result if not, never depends on arrival order. */
  lemma ConflictsIgnoreOrder(config: MergeConfig, inputs: seq<Vars>, inputs': seq<Vars>)
    requires multiset(inputs) == multiset(inputs') && config.policy.FailOnConflict?
    ensures MergedAll(config, inputs) == MergedAll(config, inputs')
  {
    ConflictsFail(config, inputs);
    ConflictsFail(config, inputs');
    if Disjoint(inputs) || Disjoint(inputs') {
      if Disjoint(inputs) {
        DisjointPermutes(inputs, inputs');
      } else {
        DisjointPermutes(inputs', inputs);
      }
      UnionIsUnique(inputs, inputs', MergedAll(config, inputs).value, MergedAll(config, inputs').value);
    }
  }

  // ----- whole envelopes

  ghost function VarsOf(inputs: seq<Envelope>): (r: seq<Vars>)
    ensures |r| == |inputs|
  {
    seq(|inputs|, i requires 0 <= i < |inputs| => inputs[i].vars)
  }

  ghost function AllErrors(inputs: seq<Envelope>): seq<NodeError> {
    if inputs == [] then [] else AllErrors(inputs[..|inputs| - 1]) + inputs[|inputs| - 1].errors
  }

  /** What a merge node hands on when the merge does not fail. */
  ghost function MergedEnvelope(config: MergeConfig, inputs: seq<Envelope>): Envelope {
    var vars := MergedAll(config, VarsOf(inputs));
    Envelope(if vars.Some? then vars.value else map[], AllErrors(inputs))
  }

  /** The errors of the i-th input stand between the i-th mark and the next. */
  ghost predicate StandsAt(inputs: seq<Envelope>, errors: seq<NodeError>, marks: seq<nat>, i: nat)
    requires i < |inputs| < |marks|
  {
    marks[i] <= marks[i + 1] <= |errors| && errors[marks[i]..marks[i + 1]] == inputs[i].errors
  }

  /** The marks run from one end to the other. */
  ghost predicate EndToEnd(inputs: seq<Envelope>, errors: seq<NodeError>, marks: seq<nat>) {
    && |marks| == |inputs| + 1 && marks[0] == 0 && marks[|inputs|] == |errors|
    && forall i: nat :: i < |inputs| ==> StandsAt(inputs, errors, marks, i)
  }

  /** The merged envelope carries the errors of every input, in input order, and no others. */
  lemma {:induction false} ErrorsEndToEnd(inputs: seq<Envelope>) returns (marks: seq<nat>)
    ensures EndToEnd(inputs, AllErrors(inputs), marks)
  {
    if inputs == [] {
      marks := [0];
    } else {
      var last := |inputs| - 1;
      var front := inputs[..last];
      var before, errors := AllErrors(front), AllErrors(inputs);
      var inner := ErrorsEndToEnd(front);
      marks := inner + [|errors|];
      forall i: nat | i < |inputs|
        ensures StandsAt(inputs, errors, marks, i)
      {
        if i < last {
          assert StandsAt(front, before, inner, i);
          assert errors[..|before|] == before;
          assert errors[marks[i]..marks[i + 1]] == before[inner[i]..inner[i + 1]] == front[i].errors;
        } else {
          assert errors[|before|..] == inputs[last].errors;
        }
      }
    }
  }

  lemma MergedErrors(config: MergeConfig, inputs: seq<Envelope>) returns (marks: seq<nat>)
    ensures EndToEnd(inputs, MergedEnvelope(config, inputs).errors, marks)
  {
    marks := ErrorsEndToEnd(inputs);
  }

  ghost predicate ErrorFree(inputs: seq<Envelope>) {
    forall i :: 0 <= i < |inputs| ==> inputs[i].errors == []
  }

  lemma {:induction false} NoErrors(inputs: seq<Envelope>)
    requires ErrorFree(inputs)
    ensures AllErrors(inputs) == []
  {
    if inputs != [] {
      NoErrors(inputs[..|inputs| - 1]);
    }
  }

  // ----- redirects

  ghost predicate NoRedirect(vars: Vars) {
    GATE_REDIRECT !in vars || !vars[GATE_REDIRECT].Text?
  }

  lemma MergedVarsUnrouted(config: MergeConfig, dest: Vars, src: Vars)
    requires NoRedirect(dest) && NoRedirect(src)
    ensures MergedVars(config, dest, src).Some? ==> NoRedirect(MergedVars(config, dest, src).value)
  {
    var k := GATE_REDIRECT;
    if config.deep && k in dest && k in src {
      assert Overlay(Object(dest), Object(src)).fields[k] == Overlay(dest[k], src[k]);
      OverlaidText(dest[k], src[k]);
    }
  }

  lemma OverlaidText(v: Value, w: Value)
    ensures Overlay(v, w).Text? ==> w.Text?
  {
  }

  lemma {:induction false} MergedAllUnrouted(config: MergeConfig, inputs: seq<Vars>)
    requires forall i :: 0 <= i < |inputs| ==> NoRedirect(inputs[i])
    ensures MergedAll(config, inputs).Some? ==> NoRedirect(MergedAll(config, inputs).value)
  {
    hide MergedVars, NoRedirect;
    if inputs == [] {
      NoVarsNoRedirect();
    } else if |inputs| > 1 {
      var front := inputs[..|inputs| - 1];
      MergedAllUnrouted(config, front);
      if MergedAll(config, front).Some? {
        MergedVarsUnrouted(config, MergedAll(config, front).value, inputs[|inputs| - 1]);
      }
    }
  }

  lemma NoVarsNoRedirect()
    ensures NoRedirect(map[])
  {
  }

  /** Merging envelopes that ask for no redirect gives one that asks for none, under every policy. */
  lemma MergeStaysUnrouted(config: MergeConfig, inputs: seq<Envelope>)
    requires forall i :: 0 <= i < |inputs| ==> Unrouted(inputs[i])
    ensures Unrouted(MergedEnvelope(config, inputs))
  {
    forall i | 0 <= i < |inputs|
      ensures NoRedirect(VarsOf(inputs)[i])
    {
      assert Unrouted(inputs[i]);
    }
    MergedAllUnrouted(config, VarsOf(inputs));
  }

  // ----- when order does matter

  lemma {:induction false} LastInputWins(config: MergeConfig, inputs: seq<Vars>, k: string)
    requires config.policy.KeepLast? && !config.deep
    requires inputs != [] && k in inputs[|inputs| - 1]
    ensures MergedAll(config, inputs).Some?
    ensures k in MergedAll(config, inputs).value && MergedAll(config, inputs).value[k] == inputs[|inputs| - 1][k]
  {
    NeverFails(config, inputs);
    if |inputs| > 1 {
      NeverFails(config, inputs[..|inputs| - 1]);
    }
  }

  lemma {:induction false} NeverFails(config: MergeConfig, inputs: seq<Vars>)
    requires !config.policy.FailOnConflict?
    ensures MergedAll(config, inputs).Some?
  {
    if |inputs| > 1 {
      NeverFails(config, inputs[..|inputs| - 1]);
    }
  }

  /** The inputs with the i-th moved to the end. */
  ghost function MovedLast(inputs: seq<Vars>, i: nat): (r: seq<Vars>)
    requires i < |inputs|
  {
    inputs[..i] + inputs[i + 1..] + [inputs[i]]
  }

  lemma MovedLastPermutes(inputs: seq<Vars>, i: nat)
    requires i < |inputs|
    ensures multiset(MovedLast(inputs, i)) == multiset(inputs)
  {
    assert inputs == inputs[..i] + [inputs[i]] + inputs[i + 1..];
  }

  ghost predicate OrderIndependent(config: MergeConfig, inputs: seq<Vars>) {
    forall a, b :: multiset(a) == multiset(inputs) && multiset(b) == multiset(inputs) ==>
      MergedAll(config, a) == MergedAll(config, b)
  }

  /** Error-free envelopes whose variables merge alike in any order merge to the same envelope. */
  lemma MergedEnvelopeIgnoresOrder(config: MergeConfig, inputs: seq<Envelope>, inputs': seq<Envelope>)
    requires multiset(VarsOf(inputs)) == multiset(VarsOf(inputs'))
    requires ErrorFree(inputs) && ErrorFree(inputs') && OrderIndependent(config, VarsOf(inputs))
    ensures MergedEnvelope(config, inputs) == MergedEnvelope(config, inputs')
  {
    NoErrors(inputs);
    NoErrors(inputs');
  }

  lemma {:induction false} FirstInputWins(config: MergeConfig, inputs: seq<Vars>, k: string)
    requires config.policy.KeepFirst?
    requires inputs != [] && k in inputs[0]
    ensures MergedAll(config, inputs).Some?
    ensures k in MergedAll(config, inputs).value && MergedAll(config, inputs).value[k] == inputs[0][k]
  {
    if |inputs| > 1 {
      FirstInputWins(config, inputs[..|inputs| - 1], k);
    }
  }

  /** The inputs with the i-th moved to the front. */
  ghost function MovedFirst(inputs: seq<Vars>, i: nat): (r: seq<Vars>)
    requires i < |inputs|
  {
    [inputs[i]] + inputs[..i] + inputs[i + 1..]
  }

  lemma MovedFirstPermutes(inputs: seq<Vars>, i: nat)
    requires i < |inputs|
    ensures multiset(MovedFirst(inputs, i)) == multiset(inputs)
  {
    assert inputs == inputs[..i] + [inputs[i]] + inputs[i + 1..];
  }

  /** Inputs that differ on a shared key can be ordered so that either value wins. */
  lemma DisagreementShows(config: MergeConfig, inputs: seq<Vars>, i: nat, j: nat, k: string)
    requires config.policy.KeepFirst? || (config.policy.KeepLast? && !config.deep)
    requires i < |inputs| && j < |inputs| && k in inputs[i] && k in inputs[j] && inputs[i][k] != inputs[j][k]
    ensures !OrderIndependent(config, inputs)
  {
    if config.policy.KeepLast? {
      var a, b := MovedLast(inputs, i), MovedLast(inputs, j);
      MovedLastPermutes(inputs, i);
      MovedLastPermutes(inputs, j);
      LastInputWins(config, a, k);
      LastInputWins(config, b, k);
      assert MergedAll(config, a) != MergedAll(config, b);
    } else {
      var a, b := MovedFirst(inputs, i), MovedFirst(inputs, j);
      MovedFirstPermutes(inputs, i);
      MovedFirstPermutes(inputs, j);
      FirstInputWins(config, a, k);
      FirstInputWins(config, b, k);
      assert MergedAll(config, a) != MergedAll(config, b);
    }
  }

  /** Unless maps are merged deeply, arrival order is irrelevant exactly for inputs that agree on shared keys. */
  lemma OrderIndependentIffAgreeing(config: MergeConfig, inputs: seq<Vars>)
    requires config.policy.KeepFirst? || (config.policy.KeepLast? && !config.deep)
    ensures OrderIndependent(config, inputs) <==> AgreeAll(inputs)
  {
    if AgreeAll(inputs) {
      forall a, b | multiset(a) == multiset(inputs) && multiset(b) == multiset(inputs)
        ensures MergedAll(config, a) == MergedAll(config, b)
      {
        MergeIgnoresOrder(config, inputs, a);
        MergeIgnoresOrder(config, inputs, b);
      }
    } else {
      var i, j :| 0 <= i < |inputs| && 0 <= j < |inputs| && !Agree(inputs[i], inputs[j]);
      var k :| k in inputs[i] && k in inputs[j] && inputs[i][k] != inputs[j][k];
      DisagreementShows(config, inputs, i, j, k);
    }
  }
}
