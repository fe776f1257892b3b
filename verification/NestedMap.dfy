/** Dotted paths into nested maps: reading, writing, and flattening to one level. */
module NestedMaps {
  import opened Sequences
  import opened Envelopes

  // ----- dotted paths

  const SEPARATOR := "."

  predicate DotFree(s: string) {
    '.' !in s
  }

  predicate AllDotFree(parts: seq<string>) {
    forall i :: 0 <= i < |parts| ==> DotFree(parts[i])
  }

  /** The pieces of a string between dots: always at least one. */
  function Split(s: string): (parts: seq<string>)
    ensures |parts| >= 1 && AllDotFree(parts)
  {
    if s == "" then [""]
    else if s[0] == '.' then [""] + Split(s[1..])
    else
      var rest := Split(s[1..]);
      [[s[0]] + rest[0]] + rest[1..]
  }

  function Join(parts: seq<string>): string
    requires |parts| >= 1
  {
    if |parts| == 1 then parts[0] else parts[0] + SEPARATOR + Join(parts[1..])
  }

  lemma {:induction false} SplitOfWord(word: string, rest: string)
    requires DotFree(word)
    ensures Split(word + SEPARATOR + rest) == [word] + Split(rest)
    ensures Split(word) == [word]
  {
    if word == "" {
      assert word + SEPARATOR + rest == "." + rest;
    } else {
      var tail := word[1..];
      assert forall c :: c in tail ==> c in word;
      SplitOfWord(tail, rest);
      var all := word + SEPARATOR + rest;
      assert all[0] == word[0] && all[0] in word;
      assert all[1..] == tail + SEPARATOR + rest;
      assert word == [word[0]] + tail;
      assert ([tail] + Split(rest))[1..] == Split(rest);
    }
  }

  /** Splitting undoes joining when no piece contains a dot. */
  lemma {:induction false} SplitJoin(parts: seq<string>)
    requires |parts| >= 1 && AllDotFree(parts)
    ensures Split(Join(parts)) == parts
  {
    if |parts| == 1 {
      SplitOfWord(parts[0], "");
    } else {
      SplitJoin(parts[1..]);
      SplitOfWord(parts[0], Join(parts[1..]));
    }
  }

  /** Joining undoes splitting. */
  lemma {:induction false} JoinSplit(s: string)
    ensures Join(Split(s)) == s
  {
    if s != "" {
      JoinSplit(s[1..]);
      var rest := Split(s[1..]);
      if s[0] == '.' {
        assert ([""] + rest)[1..] == rest;
      } else {
        var parts := [[s[0]] + rest[0]] + rest[1..];
        assert parts[1..] == rest[1..];
        if |rest| > 1 {
          assert Join(parts) == [s[0]] + Join(rest);
        }
      }
    }
  }

  // ----- reading and writing

  function GetNested(m: Vars, path: seq<string>): Option<Value>
    requires |path| >= 1
    decreases |path|
  {
    if path[0] !in m then None
    else if |path| == 1 then Some(m[path[0]])
    else if m[path[0]].Object? then GetNested(m[path[0]].fields, path[1..])
    else None
  }

  /** getNestedValue: walks down the pieces of the path. */
  method GetNestedValue(m: Vars, path: string) returns (value: Option<Value>)
    ensures value == GetNested(m, Split(path))
  {
    var parts := Split(path);
    var current := Object(m);
    var i := 0;
    while i < |parts|
      invariant 0 <= i <= |parts|
      invariant i < |parts| ==> GetNested(m, parts) == if current.Object? then GetNested(current.fields, parts[i..]) else None
      invariant i == |parts| ==> GetNested(m, parts) == Some(current)
    {
      if !current.Object? || parts[i] !in current.fields {
        return None;
      }
      current := current.fields[parts[i]];
      i := i + 1;
    }
    value := Some(current);
  }

  /** The map below a key: what is there if it is a map, otherwise a new empty one. */
  function Below(m: Vars, key: string): Vars {
    if key in m && m[key].Object? then m[key].fields else map[]
  }

  /** setNestedValue: creates the maps on the way, replacing anything that is not a map. */
  function SetNested(m: Vars, path: seq<string>, value: Value): Vars
    requires |path| >= 1
    decreases |path|
  {
    if |path| == 1 then m[path[0] := value]
    else m[path[0] := Object(SetNested(Below(m, path[0]), path[1..], value))]
  }

  lemma {:induction false} GetAfterSet(m: Vars, path: seq<string>, value: Value)
    requires |path| >= 1
    ensures GetNested(SetNested(m, path, value), path) == Some(value)
    decreases |path|
  {
    if |path| > 1 {
      GetAfterSet(Below(m, path[0]), path[1..], value);
    }
  }

  /** The paths part at position k. */
  ghost predicate PartAt(path: seq<string>, q: seq<string>, k: nat) {
    k < |path| && k < |q| && path[..k] == q[..k] && path[k] != q[k]
  }

  /** Writing leaves every path that parts from the written one as it was, whatever is replaced on the way. */
  lemma {:induction false} OtherPathsAfterSet(m: Vars, path: seq<string>, value: Value, q: seq<string>, k: nat)
    requires PartAt(path, q, k)
    ensures GetNested(SetNested(m, path, value), q) == GetNested(m, q)
    decreases k
  {
    if k > 0 {
      assert path[..k][0] == path[0] && q[..k][0] == q[0];
      assert path[1..][..k - 1] == path[..k][1..] && q[1..][..k - 1] == q[..k][1..];
      OtherPathsAfterSet(Below(m, path[0]), path[1..], value, q[1..], k - 1);
    }
  }

  /** Below the written path there is what the value holds. */
  lemma {:induction false} LongerPathsAfterSet(m: Vars, path: seq<string>, value: Value, rest: seq<string>)
    requires |path| >= 1 && |rest| >= 1
    ensures GetNested(SetNested(m, path, value), path + rest)
         == if value.Object? then GetNested(value.fields, rest) else None
    decreases |path|
  {
    if |path| == 1 {
      assert (path + rest)[1..] == rest;
    } else {
      assert (path + rest)[1..] == path[1..] + rest;
      LongerPathsAfterSet(Below(m, path[0]), path[1..], value, rest);
    }
  }

  ghost predicate IsLeaf(m: Vars, path: seq<string>, value: Value) {
    |path| >= 1 && GetNested(m, path) == Some(value) && !value.Object?
  }

  /** The path neither runs through a leaf nor ends on a map. */
  ghost predicate Free(m: Vars, path: seq<string>)
    requires |path| >= 1
    decreases |path|
  {
    if path[0] !in m then true
    else if |path| == 1 then !m[path[0]].Object?
    else m[path[0]].Object? && Free(m[path[0]].fields, path[1..])
  }

  lemma SameHeadSameTail<T>(s: seq<T>, t: seq<T>)
    requires s != [] && t != [] && s[0] == t[0]
    ensures s == t <==> s[1..] == t[1..]
  {
    assert s == [s[0]] + s[1..] && t == [t[0]] + t[1..];
  }

  lemma LeafAfterSetAtTop(m: Vars, path: seq<string>, value: Value, q: seq<string>, v: Value)
    requires |path| >= 1 && Free(m, path) && !value.Object? && |q| >= 1
    requires q[0] != path[0] || |path| == 1 || |q| == 1
    ensures IsLeaf(SetNested(m, path, value), q, v) <==> if q == path then v == value else IsLeaf(m, q, v)
  {
    if |q| == 1 && |path| == 1 && q[0] == path[0] {
      assert q == path;
    }
  }

  lemma LeafAfterSetBelow(m: Vars, path: seq<string>, value: Value, q: seq<string>, v: Value)
    requires |path| > 1 && Free(m, path) && |q| > 1 && q[0] == path[0]
    ensures Free(Below(m, path[0]), path[1..])
    ensures IsLeaf(SetNested(m, path, value), q, v)
       <==> IsLeaf(SetNested(Below(m, path[0]), path[1..], value), q[1..], v)
    ensures IsLeaf(m, q, v) <==> IsLeaf(Below(m, path[0]), q[1..], v)
  {
  }

  /** Writing a leaf at a free path changes what is at that path and no other leaf. */
  lemma {:induction false} LeavesAfterSet(m: Vars, path: seq<string>, value: Value, q: seq<string>, v: Value)
    requires |path| >= 1 && Free(m, path) && !value.Object? && |q| >= 1
    ensures IsLeaf(SetNested(m, path, value), q, v) <==> if q == path then v == value else IsLeaf(m, q, v)
    decreases |path|
  {
    if q[0] != path[0] || |path| == 1 || |q| == 1 {
      LeafAfterSetAtTop(m, path, value, q, v);
    } else {
      hide IsLeaf;
      LeafAfterSetBelow(m, path, value, q, v);
      LeavesAfterSet(Below(m, path[0]), path[1..], value, q[1..], v);
      SameHeadSameTail(q, path);
    }
  }

  // ----- maps without empty parts

  /** No empty map anywhere inside, and every key inside satisfies DotFree. */
  ghost predicate Clean(v: Value) {
    v.Object? ==> v.fields != map[] && forall k :: k in v.fields ==> DotFree(k) && Clean(v.fields[k])
  }

  ghost predicate AllClean(m: Vars) {
    forall k :: k in m ==> DotFree(k) && Clean(m[k])
  }

  lemma {:induction false} CleanHasLeaf(m: Vars) returns (path: seq<string>, v: Value)
    requires AllClean(m) && m != map[]
    ensures IsLeaf(m, path, v)
    decreases Object(m)
  {
    var k :| k in m;
    if m[k].Object? {
      var rest;
      rest, v := CleanHasLeaf(m[k].fields);
      path := [k] + rest;
      assert path[1..] == rest;
    } else {
      path, v := [k], m[k];
    }
  }

  ghost predicate SameLeaves(m: Vars, n: Vars) {
    forall path, v :: IsLeaf(m, path, v) <==> IsLeaf(n, path, v)
  }

  lemma LeafBelow(m: Vars, k: string, rest: seq<string>, v: Value)
    requires |rest| >= 1
    ensures IsLeaf(m, [k] + rest, v) <==> k in m && m[k].Object? && IsLeaf(m[k].fields, rest, v)
  {
    assert ([k] + rest)[1..] == rest;
  }

  lemma SameLeavesBelow(m: Vars, n: Vars, k: string)
    requires SameLeaves(m, n) && k in m && k in n && m[k].Object? && n[k].Object?
    ensures SameLeaves(m[k].fields, n[k].fields)
  {
    forall rest, v
      ensures IsLeaf(m[k].fields, rest, v) <==> IsLeaf(n[k].fields, rest, v)
    {
      if |rest| >= 1 {
        LeafBelow(m, k, rest, v);
        LeafBelow(n, k, rest, v);
        assert IsLeaf(m, [k] + rest, v) <==> IsLeaf(n, [k] + rest, v);
      }
    }
  }

  lemma SameKind(m: Vars, n: Vars, k: string)
    requires SameLeaves(m, n) && AllClean(m) && k in m
    ensures k in n && (m[k].Object? <==> n[k].Object?) && (!m[k].Object? ==> n[k] == m[k])
  {
    if m[k].Object? {
      var rest, v := CleanHasLeaf(m[k].fields);
      LeafBelow(m, k, rest, v);
      assert IsLeaf(n, [k] + rest, v);
      LeafBelow(n, k, rest, v);
    } else {
      assert IsLeaf(m, [k], m[k]);
      assert IsLeaf(n, [k], m[k]);
    }
  }

  /** Maps without empty parts are determined by their leaves. */
  lemma {:induction false} LeavesDetermine(m: Vars, n: Vars)
    requires SameLeaves(m, n) && AllClean(m) && AllClean(n)
    ensures m == n
    decreases Object(m)
  {
    forall k
      ensures k in m <==> k in n
      ensures k in m && k in n ==> m[k] == n[k]
    {
      if k in m {
        SameKind(m, n, k);
        if m[k].Object? {
          SameLeavesBelow(m, n, k);
          LeavesDetermine(m[k].fields, n[k].fields);
        }
      } else if k in n {
        SameKind(n, m, k);
      }
    }
  }

  // ----- flattening

  function KeyUnder(prefix: string, sep: string, k: string): string {
    if prefix != "" then prefix + sep + k else k
  }

  /** The key under which flattening files a path. */
  function KeyOf(prefix: string, sep: string, path: seq<string>): string
    decreases |path|
  {
    if path == [] then prefix else KeyOf(KeyUnder(prefix, sep, path[0]), sep, path[1..])
  }

  /** How many more levels may be opened; None without a limit. */
  type Room = Option<nat>

  predicate Opens(room: Room) {
    room.None? || room.value > 0
  }

  function Inner(room: Room): Room
    requires Opens(room)
  {
    if room.None? then None else Some(room.value - 1)
  }

  /** What flattening files: the leaves and, under a limit, what lies at the deepest level allowed. */
  ghost predicate IsItem(m: Vars, room: Room, path: seq<string>, v: Value) {
    if room.None? then IsLeaf(m, path, v)
    else
      && 1 <= |path| <= room.value + 1
      && GetNested(m, path) == Some(v)
      && (v.Object? ==> |path| == room.value + 1)
  }

  lemma ItemBelow(m: Vars, room: Room, k: string, path: seq<string>, v: Value)
    requires Opens(room) && k in m && m[k].Object? && path != [] && path[0] == k
    ensures IsItem(m, room, path, v) <==> IsItem(m[k].fields, Inner(room), path[1..], v)
  {
    assert path == [k] + path[1..];
    if |path| > 1 {
      LeafBelow(m, k, path[1..], v);
    }
  }

  lemma ItemHere(m: Vars, room: Room, k: string, path: seq<string>, v: Value)
    requires k in m && !(m[k].Object? && Opens(room)) && path != [] && path[0] == k
    ensures IsItem(m, room, path, v) <==> path == [k] && v == m[k]
  {
    assert |path| == 1 ==> path == [k];
  }

  /** The entry comes from some item of m. */
  ghost predicate Emitted(m: Vars, room: Room, prefix: string, sep: string, key: string, v: Value) {
    exists path :: IsItem(m, room, path, v) && key == KeyOf(prefix, sep, path)
  }

  lemma EmittedBelow(m: Vars, room: Room, prefix: string, sep: string, k: string, key: string, v: Value)
    requires Opens(room) && k in m && m[k].Object?
    requires Emitted(m[k].fields, Inner(room), KeyUnder(prefix, sep, k), sep, key, v)
    ensures Emitted(m, room, prefix, sep, key, v)
  {
    var rest :| IsItem(m[k].fields, Inner(room), rest, v) && key == KeyOf(KeyUnder(prefix, sep, k), sep, rest);
    var path := [k] + rest;
    assert path[1..] == rest;
    ItemBelow(m, room, k, path, v);
    assert IsItem(m, room, path, v) && key == KeyOf(prefix, sep, path);
  }

  lemma EmittedHere(m: Vars, room: Room, prefix: string, sep: string, k: string)
    requires k in m && !(m[k].Object? && Opens(room))
    ensures Emitted(m, room, prefix, sep, KeyUnder(prefix, sep, k), m[k])
  {
    ItemHere(m, room, k, [k], m[k]);
    assert KeyOf(prefix, sep, [k]) == KeyUnder(prefix, sep, k);
  }

  /** Every item of m that starts with one of the keys is filed. */
  ghost predicate Filed(m: Vars, room: Room, keys: set<string>, prefix: string, sep: string, result: Vars) {
    forall path, v :: IsItem(m, room, path, v) && path[0] in keys ==> KeyOf(prefix, sep, path) in result
  }

  /** Every entry was there before or comes from m. */
  ghost predicate Sourced(m: Vars, room: Room, prefix: string, sep: string, before: Vars, result: Vars) {
    && before.Keys <= result.Keys
    && forall key :: key in result ==>
         (key in before && result[key] == before[key]) || Emitted(m, room, prefix, sep, key, result[key])
  }

  lemma SourcedStep(m: Vars, room: Room, prefix: string, sep: string, k: string, before: Vars, middle: Vars, after: Vars)
    requires k in m && Sourced(m, room, prefix, sep, before, middle)
    requires if m[k].Object? && Opens(room) then Sourced(m[k].fields, Inner(room), KeyUnder(prefix, sep, k), sep, middle, after)
             else after == middle[KeyUnder(prefix, sep, k) := m[k]]
    ensures Sourced(m, room, prefix, sep, before, after)
  {
    hide Emitted;
    forall key | key in after
      ensures (key in before && after[key] == before[key]) || Emitted(m, room, prefix, sep, key, after[key])
    {
      if !(m[k].Object? && Opens(room)) && key == KeyUnder(prefix, sep, k) {
        EmittedHere(m, room, prefix, sep, k);
      } else if key in middle && after[key] == middle[key] {
        assert (key in before && middle[key] == before[key]) || Emitted(m, room, prefix, sep, key, middle[key]);
      } else {
        EmittedBelow(m, room, prefix, sep, k, key, after[key]);
      }
    }
  }

  lemma FiledStep(m: Vars, room: Room, keys: set<string>, prefix: string, sep: string, k: string, middle: Vars, after: Vars)
    requires k in m && Filed(m, room, keys, prefix, sep, middle) && middle.Keys <= after.Keys
    requires if m[k].Object? && Opens(room)
             then Filed(m[k].fields, Inner(room), m[k].fields.Keys, KeyUnder(prefix, sep, k), sep, after)
             else KeyUnder(prefix, sep, k) in after
    ensures Filed(m, room, keys + {k}, prefix, sep, after)
  {
    forall path, v | IsItem(m, room, path, v) && path[0] in keys + {k}
      ensures KeyOf(prefix, sep, path) in after
    {
      if path[0] in keys {
        assert KeyOf(prefix, sep, path) in middle;
      } else if m[k].Object? && Opens(room) {
        ItemBelow(m, room, k, path, v);
        assert path[1] in m[k].fields;
        assert KeyOf(KeyUnder(prefix, sep, k), sep, path[1..]) in after;
      } else {
        ItemHere(m, room, k, path, v);
      }
    }
  }

  function RoomAt(maxDepth: nat, currentDepth: nat): Room {
    if maxDepth == 0 then None else Some(if currentDepth < maxDepth then maxDepth - currentDepth else 0)
  }

  /**
   flattenMap, visiting each map in any order: every leaf is filed under its key and so is every map at
   the depth limit, and every new entry is one of these. Where two share a key, the order decides which
   one stays.
   */
  method FlattenMap(m: Vars, prefix: string, sep: string, maxDepth: nat, currentDepth: nat, result: Vars)
    returns (flat: Vars)
    ensures Sourced(m, RoomAt(maxDepth, currentDepth), prefix, sep, result, flat)
    ensures Filed(m, RoomAt(maxDepth, currentDepth), m.Keys, prefix, sep, flat)
    decreases Object(m)
  {
    hide IsItem, Sourced, Filed, KeyUnder;
    ghost var room := RoomAt(maxDepth, currentDepth);
    NothingFiled(m, room, prefix, sep, result);
    flat := result;
    var keys := m.Keys;
    assert m.Keys - keys == {};
    while keys != {}
      invariant keys <= m.Keys
      invariant Sourced(m, room, prefix, sep, result, flat) && Filed(m, room, m.Keys - keys, prefix, sep, flat)
      decreases keys
    {
      var k :| k in keys;
      var key := KeyUnder(prefix, sep, k);
      ghost var middle := flat;
      if m[k].Object? && (maxDepth == 0 || currentDepth < maxDepth) {
        flat := FlattenMap(m[k].fields, key, sep, maxDepth, currentDepth + 1, flat);
      } else {
        flat := flat[key := m[k]];
      }
      SourcedStep(m, room, prefix, sep, k, result, middle, flat);
      KeysGrow(m, room, prefix, sep, k, middle, flat);
      FiledStep(m, room, m.Keys - keys, prefix, sep, k, middle, flat);
      assert m.Keys - (keys - {k}) == m.Keys - keys + {k};
      keys := keys - {k};
    }
    assert m.Keys - {} == m.Keys;
  }

  lemma KeysGrow(m: Vars, room: Room, prefix: string, sep: string, k: string, middle: Vars, after: Vars)
    requires k in m
    requires if m[k].Object? && Opens(room) then Sourced(m[k].fields, Inner(room), KeyUnder(prefix, sep, k), sep, middle, after)
             else after == middle[KeyUnder(prefix, sep, k) := m[k]]
    ensures middle.Keys <= after.Keys
  {
  }

  lemma NothingFiled(m: Vars, room: Room, prefix: string, sep: string, result: Vars)
    ensures Sourced(m, room, prefix, sep, result, result) && Filed(m, room, {}, prefix, sep, result)
  {
  }

  // ----- flattening and rebuilding

  /** The flat map holds exactly the leaves, each under the dotted form of its path. */
  ghost predicate IsFlat(m: Vars, flat: Vars) {
    forall key, v :: key in flat && flat[key] == v <==> IsLeaf(m, Split(key), v)
  }

  /** Keys without dots, no empty map inside, and no map under the empty top-level key. */
  ghost predicate Restorable(m: Vars) {
    AllClean(m) && !("" in m && m[""].Object?)
  }

  lemma {:induction false} LeafPathDotFree(m: Vars, path: seq<string>, v: Value)
    requires AllClean(m) && IsLeaf(m, path, v)
    ensures AllDotFree(path)
    decreases |path|
  {
    if |path| > 1 {
      LeafPathDotFree(m[path[0]].fields, path[1..], v);
      assert forall i :: 0 < i < |path| ==> path[i] == path[1..][i - 1];
    }
  }

  lemma {:induction false} KeyUnderPrefix(prefix: string, path: seq<string>)
    requires prefix != ""
    ensures KeyOf(prefix, SEPARATOR, path) == if path == [] then prefix else prefix + SEPARATOR + Join(path)
    decreases |path|
  {
    if path != [] {
      KeyUnderPrefix(prefix + SEPARATOR + path[0], path[1..]);
      if |path| > 1 {
        Regroup(prefix, path[0], Join(path[1..]));
      }
    }
  }

  lemma Regroup(a: string, b: string, c: string)
    ensures a + SEPARATOR + b + SEPARATOR + c == a + SEPARATOR + (b + SEPARATOR + c)
  {
  }

  /** At the top level, a leaf's key is its dotted path. */
  lemma LeafKey(m: Vars, path: seq<string>, v: Value)
    requires Restorable(m) && IsLeaf(m, path, v)
    ensures KeyOf("", SEPARATOR, path) == Join(path)
  {
    if |path| == 1 {
      assert path[1..] == [];
    } else {
      assert path[0] != "";
      KeyUnderPrefix(path[0], path[1..]);
    }
  }

  /** Whatever the iteration order, flattening a restorable map gives the same flat map. */
  lemma FlatIsDetermined(m: Vars, flat: Vars)
    requires Restorable(m)
    requires Sourced(m, None, "", SEPARATOR, map[], flat) && Filed(m, None, m.Keys, "", SEPARATOR, flat)
    ensures IsFlat(m, flat)
  {
    hide GetNested, AllClean;
    forall key, v
      ensures key in flat && flat[key] == v <==> IsLeaf(m, Split(key), v)
    {
      if key in flat && flat[key] == v {
        FlatEntry(m, flat, key);
      }
      if IsLeaf(m, Split(key), v) {
        LeafKey(m, Split(key), v);
        JoinSplit(key);
        HasFirst(m, Split(key), v);
        assert IsItem(m, None, Split(key), v);
        FlatEntry(m, flat, key);
      }
    }
  }

  lemma HasFirst(m: Vars, path: seq<string>, v: Value)
    requires IsLeaf(m, path, v)
    ensures path[0] in m
  {
  }

  lemma FlatEntry(m: Vars, flat: Vars, key: string)
    requires Restorable(m) && Sourced(m, None, "", SEPARATOR, map[], flat) && key in flat
    ensures IsLeaf(m, Split(key), flat[key])
  {
    hide GetNested, AllClean;
    var path :| IsLeaf(m, path, flat[key]) && key == KeyOf("", SEPARATOR, path);
    LeafKey(m, path, flat[key]);
    LeafPathDotFree(m, path, flat[key]);
    SplitJoin(path);
  }

  lemma FlatsAgree(m: Vars, flat: Vars, other: Vars)
    requires IsFlat(m, flat) && IsFlat(m, other)
    ensures flat == other
  {
    forall key
      ensures key in flat <==> key in other
      ensures key in flat && key in other ==> flat[key] == other[key]
    {
      if key in flat {
        assert IsLeaf(m, Split(key), flat[key]);
      }
      if key in other {
        assert IsLeaf(m, Split(key), other[key]);
      }
    }
  }

  /** A path to a leaf of m is free in any map whose leaves are among m's. */
  lemma {:induction false} LeafPathIsFree(m: Vars, r: Vars, path: seq<string>, v: Value)
    requires IsLeaf(m, path, v) && AllClean(r)
    requires forall q, x :: IsLeaf(r, q, x) ==> IsLeaf(m, q, x)
    ensures Free(r, path)
    decreases |path|
  {
    var k := path[0];
    if k in r {
      if r[k].Object? {
        var rest, x := CleanHasLeaf(r[k].fields);
        LeafBelow(r, k, rest, x);
        assert IsLeaf(m, [k] + rest, x);
        LeafBelow(m, k, rest, x);
        assert m[k].Object? && |path| > 1;
        forall q, y | IsLeaf(r[k].fields, q, y)
          ensures IsLeaf(m[k].fields, q, y)
        {
          LeafBelow(r, k, q, y);
          assert IsLeaf(m, [k] + q, y);
          LeafBelow(m, k, q, y);
        }
        LeafPathIsFree(m[k].fields, r[k].fields, path[1..], v);
      } else {
        assert IsLeaf(r, [k], r[k]);
        assert IsLeaf(m, [k], r[k]);
      }
    }
  }

  /** Writing a leaf keeps maps clean, whatever was there. */
  lemma {:induction false} SetKeepsClean(m: Vars, path: seq<string>, value: Value)
    requires AllClean(m) && |path| >= 1 && AllDotFree(path) && !value.Object?
    ensures AllClean(SetNested(m, path, value)) && SetNested(m, path, value) != map[]
    decreases |path|
  {
    assert path[0] in SetNested(m, path, value);
    if |path| > 1 {
      SetKeepsClean(Below(m, path[0]), path[1..], value);
    }
  }

  /** The leaves of r are the entries filed under `keys`. */
  ghost predicate HoldsEntries(r: Vars, flat: Vars, keys: set<string>) {
    forall path, v :: IsLeaf(r, path, v) <==>
      |path| >= 1 && AllDotFree(path) && Join(path) in keys && Join(path) in flat && flat[Join(path)] == v
  }

  lemma HoldsOneMore(m: Vars, flat: Vars, r: Vars, keys: set<string>, key: string)
    requires IsFlat(m, flat) && AllClean(m) && AllClean(r) && HoldsEntries(r, flat, keys) && key in flat && key !in keys
    ensures HoldsEntries(SetNested(r, Split(key), flat[key]), flat, keys + {key})
  {
    hide SetNested, GetNested, AllClean;
    var path, value := Split(key), flat[key];
    assert IsLeaf(m, path, value);
    forall q, x | IsLeaf(r, q, x)
      ensures IsLeaf(m, q, x)
    {
      SplitJoin(q);
      assert IsLeaf(m, Split(Join(q)), x);
    }
    LeafPathIsFree(m, r, path, value);
    JoinSplit(key);
    forall q, v
      ensures IsLeaf(SetNested(r, path, value), q, v) <==>
              |q| >= 1 && AllDotFree(q) && Join(q) in keys + {key} && Join(q) in flat && flat[Join(q)] == v
    {
      if |q| >= 1 {
        LeavesAfterSet(r, path, value, q, v);
        if AllDotFree(q) {
          SplitJoin(q);
        }
      }
    }
  }

  /** No entry would create a map under the empty top-level key. */
  ghost predicate NoLeadingDot(flat: Vars) {
    forall key :: key in flat ==> key == "" || key[0] != '.'
  }

  lemma SetKeepsEmptyKeyPlain(r: Vars, key: string, value: Value)
    requires !("" in r && r[""].Object?) && (key == "" || key[0] != '.') && !value.Object?
    ensures var r' := SetNested(r, Split(key), value); !("" in r' && r'[""].Object?)
  {
  }

  /** Writes the entries of a flat map into a new map, in any order. */
  method Rebuild(flat: Vars, ghost m: Vars) returns (r: Vars)
    requires forall key :: key in flat ==> !flat[key].Object?
    ensures AllClean(r)
    ensures NoLeadingDot(flat) ==> !("" in r && r[""].Object?)
    ensures IsFlat(m, flat) && AllClean(m) ==> r == m
  {
    hide IsLeaf, SetNested, AllClean, HoldsEntries, NoLeadingDot, IsFlat;
    NothingHeld(flat);
    r := map[];
    var keys := flat.Keys;
    while keys != {}
      invariant keys <= flat.Keys && AllClean(r)
      invariant NoLeadingDot(flat) ==> !("" in r && r[""].Object?)
      invariant IsFlat(m, flat) && AllClean(m) ==> HoldsEntries(r, flat, flat.Keys - keys)
      decreases keys
    {
      var key :| key in keys;
      SetKeepsClean(r, Split(key), flat[key]);
      if NoLeadingDot(flat) {
        LeadingCharacter(flat, key);
        SetKeepsEmptyKeyPlain(r, key, flat[key]);
      }
      if IsFlat(m, flat) && AllClean(m) {
        HoldsOneMore(m, flat, r, flat.Keys - keys, key);
      }
      assert flat.Keys - (keys - {key}) == flat.Keys - keys + {key};
      r := SetNested(r, Split(key), flat[key]);
      keys := keys - {key};
    }
    assert flat.Keys - {} == flat.Keys;
    if IsFlat(m, flat) && AllClean(m) {
      AllHeld(m, flat, r);
      LeavesDetermine(r, m);
    }
  }

  lemma NothingHeld(flat: Vars)
    ensures AllClean(map[]) && HoldsEntries(map[], flat, flat.Keys - flat.Keys)
  {
  }

  lemma LeadingCharacter(flat: Vars, key: string)
    requires NoLeadingDot(flat) && key in flat
    ensures key == "" || key[0] != '.'
  {
  }

  lemma AllHeld(m: Vars, flat: Vars, r: Vars)
    requires IsFlat(m, flat) && AllClean(m) && HoldsEntries(r, flat, flat.Keys)
    ensures SameLeaves(r, m)
  {
    hide GetNested, AllClean;
    forall path, v
      ensures IsLeaf(r, path, v) <==> IsLeaf(m, path, v)
    {
      if |path| >= 1 && AllDotFree(path) {
        SplitJoin(path);
      } else if IsLeaf(m, path, v) {
        LeafPathDotFree(m, path, v);
      }
    }
  }

  /** With dot-free keys, no flattened key starts with a dot. */
  lemma {:induction false} KeyStart(prefix: string, path: seq<string>)
    requires AllDotFree(path) && (prefix == "" || prefix[0] != '.')
    ensures var key := KeyOf(prefix, SEPARATOR, path); key == "" || key[0] != '.'
    decreases |path|
  {
    if path != [] {
      var next := KeyUnder(prefix, SEPARATOR, path[0]);
      assert next == "" || next[0] != '.' by {
        if prefix == "" && next != "" {
          assert next[0] in path[0];
        }
      }
      KeyStart(next, path[1..]);
    }
  }

  lemma FlatStart(m: Vars, flat: Vars)
    requires AllClean(m) && Sourced(m, None, "", SEPARATOR, map[], flat)
    ensures NoLeadingDot(flat)
  {
    hide GetNested, AllClean;
    forall key | key in flat
      ensures key == "" || key[0] != '.'
    {
      var path :| IsLeaf(m, path, flat[key]) && key == KeyOf("", SEPARATOR, path);
      LeafPathDotFree(m, path, flat[key]);
      KeyStart("", path);
    }
  }

  lemma FlatHoldsLeaves(m: Vars, flat: Vars)
    requires Sourced(m, None, "", SEPARATOR, map[], flat)
    ensures forall key :: key in flat ==> !flat[key].Object?
  {
  }

  /**
   Flattening and rebuilding, both in any order, gives the map back exactly when its keys are free of
   dots, nothing inside it is an empty map, and the empty top-level key does not hold a map.
   */
  method RoundTrip(m: Vars) returns (flat: Vars, back: Vars)
    ensures Restorable(m) ==> IsFlat(m, flat)
    ensures back == m <==> Restorable(m)
  {
    hide IsLeaf, Sourced, Filed, AllClean, IsFlat, NoLeadingDot;
    flat := FlattenMap(m, "", SEPARATOR, 0, 0, map[]);
    FlatHoldsLeaves(m, flat);
    if Restorable(m) {
      FlatIsDetermined(m, flat);
    }
    if AllClean(m) {
      FlatStart(m, flat);
    }
    back := Rebuild(flat, m);
  }
}
