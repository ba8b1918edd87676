/**
 * Instancer classification: which objects an instancer part places, and with
 * which transforms. `GetInstancerObjectsAndTransforms` dispatches on the
 * part's instancer type; the packed-primitive, old-school and object paths
 * name cooked mesh parts, which are then looked up among the mesh outputs;
 * the attribute path names assets directly.
 *
 * HAPI reads are inputs (`HapiReads`), `StaticLoadObject` is the oracle
 * `load`, and a TMap or TSet that is only ever added to is iterated in
 * insertion order.
 */
module Classifier {
  import opened Common
  import opened Seqs
  import opened Text
  import opened HoudiniOutput

  /** What the classifier reads of one UHoudiniOutput: its type, its cooked
      parts and its output objects in the map's iteration order. */
  datatype OutputView = OutputView(outputType: OutputType, parts: seq<GeoPart>, objects: seq<(Identifier, OutputObject)>)

  /** `FHoudiniOutputObjectIdentifier::Matches`: same object, geo and part. */
  predicate Matches(id: Identifier, part: GeoPart)
  {
    id.objectId == part.objectId && id.geoId == part.geoId && id.partId == part.partId
  }

  /** The value of the instance attribute, on the detail or per point. */
  datatype InstanceAttr = DetailValues(values: seq<string>) | PointValues(values: seq<string>)

  /** The HAPI reads the classifier consumes; `None` when the call fails (or,
      for the attribute, when none of the three lookups finds it). */
  datatype HapiReads = HapiReads(
    instanceTransforms: Option<seq<Transform>>,
    partTransforms: Option<seq<Transform>>,
    instancedPartIds: Option<seq<int>>,
    instanceAttr: Option<InstanceAttr>,
    instancedObjectIds: Option<seq<int>>)

  /** Cooked parts to instance, each with its transforms. */
  datatype Instances = Instances(parts: seq<GeoPart>, transforms: seq<seq<Transform>>)

  /** Objects to instance, each with its transforms. */
  datatype Placed = Placed(objects: seq<Ptr>, transforms: seq<seq<Transform>>)
  {
    predicate InLockstep() { |objects| == |transforms| }
  }

  // ---------------------------------------------------------------------
  // Packed primitives.

  /** The part a packed primitive instances: the instancer's object and geo with the instanced part id. */
  function PackedPart(instancer: GeoPart, partId: int): (r: GeoPart)
    ensures r.objectId == instancer.objectId && r.geoId == instancer.geoId && r.partId == partId
    ensures r.partName == instancer.partName && r.transformMatrix == instancer.transformMatrix
  {
    GeoPart(instancer.objectId, instancer.geoId, partId, instancer.partName, InvalidPart, NoInstancer,
            false, -1, false, instancer.transformMatrix)
  }

  /** The packed parts for the first `n` instanced part ids, each with every instance transform. */
  function PackedUpTo(instancer: GeoPart, ids: seq<int>, ts: seq<Transform>, n: nat): (r: Instances)
    requires n <= |ids|
    ensures |r.parts| == |r.transforms| == n
  {
    if n == 0 then Instances([], [])
    else
      var prev := PackedUpTo(instancer, ids, ts, n - 1);
      Instances(prev.parts + [PackedPart(instancer, ids[n - 1])], prev.transforms + [ts])
  }

  /** Every instanced part gets the whole transform list: a cross product. */
  lemma {:induction false} PackedIsCrossProduct(instancer: GeoPart, ids: seq<int>, ts: seq<Transform>, n: nat)
    requires n <= |ids|
    ensures forall k :: 0 <= k < n ==>
      PackedUpTo(instancer, ids, ts, n).parts[k] == PackedPart(instancer, ids[k]) &&
      PackedUpTo(instancer, ids, ts, n).transforms[k] == ts
  {
    if n > 0 {
      PackedIsCrossProduct(instancer, ids, ts, n - 1);
    }
  }

  /** What `GetPackedPrimitiveInstancerHGPOsAndTransforms` yields: nothing when either HAPI read fails. */
  function PackedInstances(instancer: GeoPart, hapi: HapiReads): (r: Option<Instances>)
    ensures r.Some? ==> |r.value.parts| == |r.value.transforms|
  {
    if instancer.instancerType != PackedPrimitive || hapi.partTransforms.None? || hapi.instancedPartIds.None? then None
    else Some(PackedUpTo(instancer, hapi.instancedPartIds.value, hapi.partTransforms.value, |hapi.instancedPartIds.value|))
  }

  /** `GetPackedPrimitiveInstancerHGPOsAndTransforms`. */
  method GetPackedPrimitiveInstancerHGPOsAndTransforms(instancer: GeoPart, hapi: HapiReads) returns (r: Option<Instances>)
    ensures r == PackedInstances(instancer, hapi)
  {
    if instancer.instancerType != PackedPrimitive || hapi.partTransforms.None? || hapi.instancedPartIds.None? {
      return None;
    }
    var ts := hapi.partTransforms.value;
    var ids := hapi.instancedPartIds.value;
    var out := Instances([], []);
    var k := 0;
    while k < |ids|
      invariant 0 <= k <= |ids|
      invariant out == PackedUpTo(instancer, ids, ts, k)
    {
      out := Instances(out.parts + [PackedPart(instancer, ids[k])], out.transforms + [ts]);
      k := k + 1;
    }
    return Some(out);
  }

  // ---------------------------------------------------------------------
  // The attribute instancer.

  function Lowered(s: seq<string>): (r: seq<string>)
    ensures |r| == |s| && forall k :: 0 <= k < |s| ==> r[k] == Lower(s[k])
  {
    seq(|s|, k requires 0 <= k < |s| => Lower(s[k]))
  }

  /**
   * The keys of the `TMap<FString, UObject*>` built from the first `n` point
   * values: FString keys compare ignoring case, so each value is added the
   * first time a value equal to it up to case is seen, spelled as seen.
   */
  function UniqueValues(values: seq<string>, n: nat): (r: seq<string>)
    requires n <= |values|
  {
    if n == 0 then []
    else
      var prev := UniqueValues(values, n - 1);
      if Lower(values[n - 1]) in Lowered(prev) then prev else prev + [values[n - 1]]
  }

  /** The keys are distinct up to case, each is a point value, and every point value has its key. */
  lemma {:induction false} UniqueValuesKeys(values: seq<string>, n: nat)
    requires n <= |values|
    ensures Distinct(Lowered(UniqueValues(values, n)))
    ensures forall k :: 0 <= k < n ==> Lower(values[k]) in Lowered(UniqueValues(values, n))
    ensures forall x :: x in UniqueValues(values, n) ==> x in values[..n]
  {
    if n > 0 {
      UniqueValuesKeys(values, n - 1);
      var prev := UniqueValues(values, n - 1);
      if Lower(values[n - 1]) !in Lowered(prev) {
        assert Lowered(prev + [values[n - 1]]) == Lowered(prev) + [Lower(values[n - 1])];
      }
      assert values[..n] == values[..n - 1] + [values[n - 1]];
    }
  }

  /**
   * The objects and transforms for the first keys, as written: a key whose
   * object failed to load is skipped, and a key's transforms are those of
   * the points whose value equals it with `FString::Equals`, which is
   * case-sensitive.
   */
  function PointGroupsAsWritten(values: seq<string>, ts: seq<Transform>, keys: seq<string>, load: string -> Ptr): (r: Placed)
    requires |values| == |ts|
    ensures r.InLockstep()
  {
    if |keys| == 0 then Placed([], [])
    else
      var prev := PointGroupsAsWritten(values, ts, keys[..|keys| - 1], load);
      var key := keys[|keys| - 1];
      if load(key) == Null then prev
      else Placed(prev.objects + [load(key)], prev.transforms + [SelectUpTo(ts, values, key, |values|)])
  }

  /** With the values `"A"` and `"a"` the map has the one key `"A"`, and the
      second point is placed by no object. */
  lemma PointGroupsAsWrittenDropsPoints(t0: Transform, t1: Transform, load: string -> Ptr)
    requires load("A") != Null
    ensures UniqueValues(["A", "a"], 2) == ["A"]
    ensures |Flatten(PointGroupsAsWritten(["A", "a"], [t0, t1], UniqueValues(["A", "a"], 2), load).transforms)| == 1
  {
    assert Lower("A") == "a" && Lower("a") == "a";
    assert UniqueValues(["A", "a"], 1) == ["A"];
    assert Lowered(["A"]) == ["a"];
    var r := PointGroupsAsWritten(["A", "a"], [t0, t1], ["A"], load);
    assert ["A"][..0] == [];
    assert PointGroupsAsWritten(["A", "a"], [t0, t1], [], load) == Placed([], []);
    assert SelectUpTo([t0, t1], ["A", "a"], "A", 2) == [t0];
    assert r.transforms == [[t0]];
    assert Flatten([[t0]]) == [t0] by {
      assert [[t0]][..0] == [];
    }
  }

  /** The objects and transforms for the first keys, selecting the points whose value equals the key up to case. */
  function PointGroups(values: seq<string>, ts: seq<Transform>, keys: seq<string>, load: string -> Ptr): (r: Placed)
    requires |values| == |ts|
    ensures r.InLockstep()
  {
    if |keys| == 0 then Placed([], [])
    else
      var prev := PointGroups(values, ts, keys[..|keys| - 1], load);
      var key := keys[|keys| - 1];
      if load(key) == Null then prev
      else Placed(prev.objects + [load(key)], prev.transforms + [SelectUpTo(ts, Lowered(values), Lower(key), |values|)])
  }

  /** With every object loading, the groups are exactly the per-key selections, key after key. */
  lemma {:induction false} PointGroupsConcat(values: seq<string>, ts: seq<Transform>, keys: seq<string>, load: string -> Ptr)
    requires |values| == |ts|
    requires forall k :: 0 <= k < |keys| ==> load(keys[k]) != Null
    ensures Flatten(PointGroups(values, ts, keys, load).transforms) == ConcatSelected(ts, Lowered(values), Lowered(keys), |values|)
  {
    if |keys| > 0 {
      var init := keys[..|keys| - 1];
      PointGroupsConcat(values, ts, init, load);
      assert Lowered(keys)[..|keys| - 1] == Lowered(init);
      var prev := PointGroups(values, ts, init, load);
      FlattenAppend(prev.transforms, SelectUpTo(ts, Lowered(values), Lower(keys[|keys| - 1]), |values|));
    }
  }

  /** With every distinct value loading, the objects' transforms together are the points' transforms, each once. */
  lemma PointGroupsPartition(values: seq<string>, ts: seq<Transform>, load: string -> Ptr)
    requires |values| == |ts|
    requires forall x :: x in UniqueValues(values, |values|) ==> load(x) != Null
    ensures multiset(Flatten(PointGroups(values, ts, UniqueValues(values, |values|), load).transforms)) == multiset(ts)
  {
    var keys := UniqueValues(values, |values|);
    var lv, lk := Lowered(values), Lowered(keys);
    UniqueValuesKeys(values, |values|);
    assert forall k :: 0 <= k < |keys| ==> load(keys[k]) != Null by {
      forall k | 0 <= k < |keys| ensures load(keys[k]) != Null {
        assert keys[k] in keys;
      }
    }
    PointGroupsConcat(values, ts, keys, load);
    assert forall k :: 0 <= k < |values| ==> lv[k] in lk;
    SelectionsPartition(ts, lv, lk, |values|);
    assert ts[..|values|] == ts;
  }

  /** The transforms of the points whose value equals `key` up to case, in point order. */
  method SelectPoints(values: seq<string>, ts: seq<Transform>, key: string) returns (group: seq<Transform>)
    requires |values| == |ts|
    ensures group == SelectUpTo(ts, Lowered(values), Lower(key), |values|)
  {
    group := [];
    var idx := 0;
    while idx < |values|
      invariant 0 <= idx <= |values|
      invariant group == SelectUpTo(ts, Lowered(values), Lower(key), idx)
    {
      if EqualsIgnoreCase(key, values[idx]) {
        group := group + [ts[idx]];
      }
      idx := idx + 1;
    }
  }

  /** The point branch's first loop: the distinct values, each with the object loaded for it. */
  method CollectPointValues(values: seq<string>, load: string -> Ptr) returns (keys: seq<string>, loaded: seq<Ptr>)
    ensures keys == UniqueValues(values, |values|)
    ensures |loaded| == |keys| && forall k :: 0 <= k < |keys| ==> loaded[k] == load(keys[k])
  {
    keys, loaded := [], [];
    var i := 0;
    while i < |values|
      invariant 0 <= i <= |values|
      invariant keys == UniqueValues(values, i)
      invariant |loaded| == |keys| && forall k :: 0 <= k < |keys| ==> loaded[k] == load(keys[k])
    {
      if Lower(values[i]) !in Lowered(keys) {
        loaded := loaded + [load(values[i])];
        keys := keys + [values[i]];
      }
      i := i + 1;
    }
  }

  /** The point branch: collect the distinct values with their loaded objects, then group the transforms. */
  method GroupPointInstances(values: seq<string>, ts: seq<Transform>, load: string -> Ptr) returns (r: Placed)
    requires |values| == |ts|
    ensures r == PointGroups(values, ts, UniqueValues(values, |values|), load)
  {
    var keys, loaded := CollectPointValues(values, load);
    r := Placed([], []);
    var j := 0;
    while j < |keys|
      invariant 0 <= j <= |keys|
      invariant r == PointGroups(values, ts, keys[..j], load)
    {
      assert keys[..j + 1][..j] == keys[..j];
      if loaded[j] != Null {
        var group := SelectPoints(values, ts, keys[j]);
        r := Placed(r.objects + [loaded[j]], r.transforms + [group]);
      }
      j := j + 1;
    }
    assert keys[..|keys|] == keys;
  }

  /** What `GetAttributeInstancerObjectsAndTransforms` yields. */
  function AttributeInstances(part: GeoPart, hapi: HapiReads, load: string -> Ptr): (r: Option<Placed>)
    ensures r.Some? ==> r.value.InLockstep() && |r.value.objects| > 0
  {
    if part.instancerType != AttributeInstancer || hapi.instanceAttr.None? || hapi.instanceTransforms.None? then None
    else
      var ts := hapi.instanceTransforms.value;
      match hapi.instanceAttr.value
      case DetailValues(vs) =>
        if |vs| == 0 || load(vs[0]) == Null then None else Some(Placed([load(vs[0])], [ts]))
      case PointValues(vs) =>
        if |vs| != |ts| then None
        else
          var g := PointGroups(vs, ts, UniqueValues(vs, |vs|), load);
          if |g.objects| == 0 then None else Some(g)
  }

  /** A detail value places its one object at every point; point values fail unless
      there is one per transform and at least one loads. */
  lemma AttributeInstancesCases(part: GeoPart, hapi: HapiReads, load: string -> Ptr)
    requires part.instancerType == AttributeInstancer && hapi.instanceAttr.Some? && hapi.instanceTransforms.Some?
    ensures hapi.instanceAttr.value.DetailValues? && |hapi.instanceAttr.value.values| > 0 &&
            load(hapi.instanceAttr.value.values[0]) != Null ==>
      AttributeInstances(part, hapi, load) == Some(Placed([load(hapi.instanceAttr.value.values[0])], [hapi.instanceTransforms.value]))
    ensures hapi.instanceAttr.value.PointValues? && |hapi.instanceAttr.value.values| != |hapi.instanceTransforms.value| ==>
      AttributeInstances(part, hapi, load) == None
    ensures hapi.instanceAttr.value.PointValues? && (forall x :: x in hapi.instanceAttr.value.values ==> load(x) == Null) ==>
      AttributeInstances(part, hapi, load) == None
  {
    if hapi.instanceAttr.value.PointValues? && |hapi.instanceAttr.value.values| == |hapi.instanceTransforms.value| {
      var vs := hapi.instanceAttr.value.values;
      if forall x :: x in vs ==> load(x) == Null {
        UniqueValuesKeys(vs, |vs|);
        assert vs[..|vs|] == vs;
        PointGroupsNoneLoaded(vs, hapi.instanceTransforms.value, UniqueValues(vs, |vs|), load);
      }
    }
  }

  lemma {:induction false} PointGroupsNoneLoaded(values: seq<string>, ts: seq<Transform>, keys: seq<string>, load: string -> Ptr)
    requires |values| == |ts|
    requires forall k :: 0 <= k < |keys| ==> load(keys[k]) == Null
    ensures PointGroups(values, ts, keys, load).objects == []
  {
    if |keys| > 0 {
      PointGroupsNoneLoaded(values, ts, keys[..|keys| - 1], load);
    }
  }

  /** `GetAttributeInstancerObjectsAndTransforms`. */
  method GetAttributeInstancerObjectsAndTransforms(part: GeoPart, hapi: HapiReads, load: string -> Ptr)
    returns (r: Option<Placed>)
    ensures r == AttributeInstances(part, hapi, load)
  {
    if part.instancerType != AttributeInstancer || hapi.instanceAttr.None? || hapi.instanceTransforms.None? {
      return None;
    }
    var ts := hapi.instanceTransforms.value;
    match hapi.instanceAttr.value {
      case DetailValues(vs) =>
        if |vs| == 0 {
          return None;
        }
        var obj := load(vs[0]);
        if obj == Null {
          return None;
        }
        return Some(Placed([obj], [ts]));
      case PointValues(vs) =>
        if |vs| != |ts| {
          return None;
        }
        var g := GroupPointInstances(vs, ts, load);
        if |g.objects| == 0 {
          return None;
        }
        return Some(g);
    }
  }

  // ---------------------------------------------------------------------
  // Old-school attribute instancer and object instancer.

  /** A part the old-school or object instancer looks for: a mesh part of object `id`, not itself instanced when `notInstanced`. */
  predicate Wanted(p: GeoPart, id: int, notInstanced: bool)
  {
    p.partType == MeshPart && p.objectId == id && !(notInstanced && p.isInstanced)
  }

  predicate AllWanted(ps: seq<GeoPart>, id: int, notInstanced: bool)
  {
    forall k :: 0 <= k < |ps| ==> Wanted(ps[k], id, notInstanced)
  }

  /** The mesh parts among `parts[..n]` of object `id`, leaving out instanced ones when `notInstanced`. */
  function MeshPartsOf(parts: seq<GeoPart>, id: int, notInstanced: bool, n: nat): (r: seq<GeoPart>)
    requires n <= |parts|
  {
    if n == 0 then []
    else
      var p := parts[n - 1];
      MeshPartsOf(parts, id, notInstanced, n - 1) +
      (if Wanted(p, id, notInstanced) then [p] else [])
  }

  /** The matching mesh parts of the mesh outputs among `outputs[..n]`, output after output. */
  function PartsToInstance(outputs: seq<Option<OutputView>>, id: int, notInstanced: bool, n: nat): (r: seq<GeoPart>)
    requires n <= |outputs|
  {
    if n == 0 then []
    else
      var o := outputs[n - 1];
      PartsToInstance(outputs, id, notInstanced, n - 1) +
      (if o.Some? && o.value.outputType == Mesh then MeshPartsOf(o.value.parts, id, notInstanced, |o.value.parts|) else [])
  }

  /** The mesh parts found in one output are parts of that output, of object `id`, non-instanced when asked. */
  lemma {:induction false} MeshPartsOfSound(parts: seq<GeoPart>, id: int, notInstanced: bool, n: nat)
    requires n <= |parts|
    ensures AllWanted(MeshPartsOf(parts, id, notInstanced, n), id, notInstanced)
    ensures forall k :: 0 <= k < |MeshPartsOf(parts, id, notInstanced, n)| ==> MeshPartsOf(parts, id, notInstanced, n)[k] in parts
  {
    if n > 0 {
      MeshPartsOfSound(parts, id, notInstanced, n - 1);
    }
  }

  /** Only the wanted parts are found. */
  lemma {:induction false} PartsToInstanceSound(outputs: seq<Option<OutputView>>, id: int, notInstanced: bool, n: nat)
    requires n <= |outputs|
    ensures AllWanted(PartsToInstance(outputs, id, notInstanced, n), id, notInstanced)
  {
    if n > 0 {
      PartsToInstanceSound(outputs, id, notInstanced, n - 1);
      var o := outputs[n - 1];
      if o.Some? && o.value.outputType == Mesh {
        MeshPartsOfSound(o.value.parts, id, notInstanced, |o.value.parts|);
      }
    }
  }

  /** The distinct ids of `ids[..n]` in first-seen order: a TSet's iteration order. */
  function UniqueIds(ids: seq<int>, n: nat): (r: seq<int>)
    requires n <= |ids|
    ensures Distinct(r)
    ensures forall k :: 0 <= k < n ==> ids[k] in r
    ensures forall x :: x in r ==> x in ids[..n]
  {
    if n == 0 then []
    else
      var prev := UniqueIds(ids, n - 1);
      assert ids[..n] == ids[..n - 1] + [ids[n - 1]];
      if ids[n - 1] in prev then prev else prev + [ids[n - 1]]
  }

  /** The transforms at the points carrying object id `id`, skipping ids past the transforms. */
  function PointsOf(ids: seq<int>, ts: seq<Transform>, id: int): (r: seq<Transform>)
  {
    if |ids| <= |ts| then SelectUpTo(ts, ids, id, |ids|) else SelectUpTo(ts, ids, id, |ts|)
  }

  /** The parts and transforms for the first `n` unique ids. */
  function OldSchoolUpTo(outputs: seq<Option<OutputView>>, ids: seq<int>, ts: seq<Transform>, uniq: seq<int>, n: nat): (r: Instances)
    requires n <= |uniq|
    ensures |r.parts| == |r.transforms|
  {
    if n == 0 then Instances([], [])
    else
      var prev := OldSchoolUpTo(outputs, ids, ts, uniq, n - 1);
      var parts := PartsToInstance(outputs, uniq[n - 1], true, |outputs|);
      Instances(prev.parts + parts, prev.transforms + seq(|parts|, _ => PointsOf(ids, ts, uniq[n - 1])))
  }

  /** What `GetOldSchoolAttributeInstancerHGPOsAndTransforms` yields. */
  function OldSchoolInstances(part: GeoPart, outputs: seq<Option<OutputView>>, hapi: HapiReads): (r: Option<Instances>)
    ensures r.Some? ==> |r.value.parts| == |r.value.transforms| > 0
  {
    if part.instancerType != OldSchoolAttributeInstancer || hapi.instanceTransforms.None? || hapi.instancedObjectIds.None? then None
    else
      var ids := hapi.instancedObjectIds.value;
      var r := OldSchoolUpTo(outputs, ids, hapi.instanceTransforms.value, UniqueIds(ids, |ids|), |UniqueIds(ids, |ids|)|);
      if |r.parts| > 0 then Some(r) else None
  }

  /** Part `p` placed at `t` is a non-instanced part of one of the first `n` ids, at exactly that id's points. */
  predicate PlacedForId(p: GeoPart, t: seq<Transform>, ids: seq<int>, ts: seq<Transform>, uniq: seq<int>, n: nat)
  {
    exists u :: 0 <= u < n && u < |uniq| && p.objectId == uniq[u] && !p.isInstanced && t == PointsOf(ids, ts, uniq[u])
  }

  /** Each old-school part is a non-instanced mesh part of one of the ids,
      placed at exactly the points carrying that id. */
  lemma {:induction false} OldSchoolSound(outputs: seq<Option<OutputView>>, ids: seq<int>, ts: seq<Transform>, uniq: seq<int>, n: nat)
    requires n <= |uniq|
    ensures forall k :: 0 <= k < |OldSchoolUpTo(outputs, ids, ts, uniq, n).parts| ==>
      PlacedForId(OldSchoolUpTo(outputs, ids, ts, uniq, n).parts[k], OldSchoolUpTo(outputs, ids, ts, uniq, n).transforms[k], ids, ts, uniq, n)
  {
    if n > 0 {
      OldSchoolSound(outputs, ids, ts, uniq, n - 1);
      var prev := OldSchoolUpTo(outputs, ids, ts, uniq, n - 1);
      var r := OldSchoolUpTo(outputs, ids, ts, uniq, n);
      var parts := PartsToInstance(outputs, uniq[n - 1], true, |outputs|);
      PartsToInstanceSound(outputs, uniq[n - 1], true, |outputs|);
      assert r.parts == prev.parts + parts;
      forall k | 0 <= k < |r.parts|
        ensures PlacedForId(r.parts[k], r.transforms[k], ids, ts, uniq, n)
      {
        if k < |prev.parts| {
          assert PlacedForId(prev.parts[k], prev.transforms[k], ids, ts, uniq, n - 1);
          assert r.parts[k] == prev.parts[k] && r.transforms[k] == prev.transforms[k];
        } else {
          var p := parts[k - |prev.parts|];
          assert r.parts[k] == p && Wanted(p, uniq[n - 1], true);
          assert r.transforms[k] == PointsOf(ids, ts, uniq[n - 1]);
        }
      }
    }
  }

  /** With an id per transform, the per-id point selections partition the transforms. */
  lemma OldSchoolPointsPartition(ids: seq<int>, ts: seq<Transform>)
    requires |ids| == |ts|
    ensures multiset(ConcatSelected(ts, ids, UniqueIds(ids, |ids|), |ids|)) == multiset(ts)
  {
    SelectionsPartition(ts, ids, UniqueIds(ids, |ids|), |ids|);
    assert ts[..|ids|] == ts;
  }

  /** The mesh parts `MeshPartsOf` finds, appended in a loop over the parts. */
  method CollectMeshParts(ps: seq<GeoPart>, id: int, notInstanced: bool) returns (found: seq<GeoPart>)
    ensures found == MeshPartsOf(ps, id, notInstanced, |ps|)
  {
    found := [];
    var k := 0;
    while k < |ps|
      invariant 0 <= k <= |ps|
      invariant found == MeshPartsOf(ps, id, notInstanced, k)
    {
      var p := ps[k];
      if Wanted(p, id, notInstanced) {
        found := found + [p];
      }
      k := k + 1;
    }
  }

  /** The parts `PartsToInstance` finds, appended in a loop over the outputs. */
  method CollectParts(outputs: seq<Option<OutputView>>, id: int, notInstanced: bool) returns (parts: seq<GeoPart>)
    ensures parts == PartsToInstance(outputs, id, notInstanced, |outputs|)
  {
    parts := [];
    var o := 0;
    while o < |outputs|
      invariant 0 <= o <= |outputs|
      invariant parts == PartsToInstance(outputs, id, notInstanced, o)
    {
      if outputs[o].Some? && outputs[o].value.outputType == Mesh {
        var found := CollectMeshParts(outputs[o].value.parts, id, notInstanced);
        parts := parts + found;
      }
      o := o + 1;
    }
  }

  /** The distinct ids, in a loop that adds each id to a set the first time it is seen. */
  method CollectUniqueIds(ids: seq<int>) returns (uniq: seq<int>)
    ensures uniq == UniqueIds(ids, |ids|)
  {
    uniq := [];
    var i := 0;
    while i < |ids|
      invariant 0 <= i <= |ids| && uniq == UniqueIds(ids, i)
    {
      if ids[i] !in uniq {
        uniq := uniq + [ids[i]];
      }
      i := i + 1;
    }
  }

  /** `GetOldSchoolAttributeInstancerHGPOsAndTransforms`. */
  method GetOldSchoolAttributeInstancerHGPOsAndTransforms(part: GeoPart, outputs: seq<Option<OutputView>>, hapi: HapiReads)
    returns (r: Option<Instances>)
    ensures r == OldSchoolInstances(part, outputs, hapi)
  {
    if part.instancerType != OldSchoolAttributeInstancer || hapi.instanceTransforms.None? || hapi.instancedObjectIds.None? {
      return None;
    }
    var ts := hapi.instanceTransforms.value;
    var ids := hapi.instancedObjectIds.value;
    var uniq := CollectUniqueIds(ids);
    var out := Instances([], []);
    var u := 0;
    while u < |uniq|
      invariant 0 <= u <= |uniq|
      invariant out == OldSchoolUpTo(outputs, ids, ts, uniq, u)
    {
      var parts := CollectParts(outputs, uniq[u], true);
      var points := SelectObjectPoints(ids, ts, uniq[u]);
      out := Instances(out.parts + parts, out.transforms + seq(|parts|, _ => points));
      u := u + 1;
    }
    if |out.parts| > 0 {
      return Some(out);
    }
    return None;
  }

  /** The instance transforms at the points whose object id is `id`. */
  method SelectObjectPoints(ids: seq<int>, ts: seq<Transform>, id: int) returns (points: seq<Transform>)
    ensures points == PointsOf(ids, ts, id)
  {
    points := [];
    var ix := 0;
    while ix < |ids|
      invariant 0 <= ix <= |ids|
      invariant points == SelectUpTo(ts, ids, id, if ix <= |ts| then ix else |ts|)
    {
      if ids[ix] == id && ix < |ts| {
        points := points + [ts[ix]];
      }
      ix := ix + 1;
    }
  }

  /** The first `n` parts, each moved to the instancer's transform. */
  function MovedTo(parts: seq<GeoPart>, m: Transform, n: nat): (r: seq<GeoPart>)
    requires n <= |parts|
    ensures |r| == n
  {
    if n == 0 then [] else MovedTo(parts, m, n - 1) + [parts[n - 1].(transformMatrix := m)]
  }

  /** Moving keeps every field but the transform. */
  lemma {:induction false} MovedToParts(parts: seq<GeoPart>, m: Transform, n: nat)
    requires n <= |parts|
    ensures forall k :: 0 <= k < n ==> MovedTo(parts, m, n)[k] == parts[k].(transformMatrix := m)
  {
    if n > 0 {
      MovedToParts(parts, m, n - 1);
    }
  }

  /** What `GetObjectInstancerHGPOsAndTransforms` yields: every mesh part of
      the instanced object, moved to the instancer's transform, at every point. */
  function ObjectInstances(part: GeoPart, outputs: seq<Option<OutputView>>, hapi: HapiReads): (r: Option<Instances>)
    ensures r.Some? ==> |r.value.parts| == |r.value.transforms|
  {
    if part.instancerType != ObjectInstancer || part.objectToInstanceId < 0 || hapi.instanceTransforms.None? then None
    else
      var parts := PartsToInstance(outputs, part.objectToInstanceId, false, |outputs|);
      Some(Instances(MovedTo(parts, part.transformMatrix, |parts|), seq(|parts|, _ => hapi.instanceTransforms.value)))
  }

  /** Every object-instanced part is a mesh part of the instanced object at the
      instancer's transform, placed at every instance transform. */
  lemma ObjectInstancesSound(part: GeoPart, outputs: seq<Option<OutputView>>, hapi: HapiReads)
    requires ObjectInstances(part, outputs, hapi).Some?
    ensures part.objectToInstanceId >= 0
    ensures var r := ObjectInstances(part, outputs, hapi).value;
      forall k :: 0 <= k < |r.parts| ==>
        r.parts[k].partType == MeshPart && r.parts[k].objectId == part.objectToInstanceId &&
        r.parts[k].transformMatrix == part.transformMatrix && r.transforms[k] == hapi.instanceTransforms.value
  {
    var parts := PartsToInstance(outputs, part.objectToInstanceId, false, |outputs|);
    MovedToParts(parts, part.transformMatrix, |parts|);
    PartsToInstanceSound(outputs, part.objectToInstanceId, false, |outputs|);
  }

  /** `GetObjectInstancerHGPOsAndTransforms`. */
  method GetObjectInstancerHGPOsAndTransforms(part: GeoPart, outputs: seq<Option<OutputView>>, hapi: HapiReads)
    returns (r: Option<Instances>)
    ensures r == ObjectInstances(part, outputs, hapi)
  {
    if part.instancerType != ObjectInstancer || part.objectToInstanceId < 0 || hapi.instanceTransforms.None? {
      return None;
    }
    var found := CollectParts(outputs, part.objectToInstanceId, false);
    var parts: seq<GeoPart> := [];
    var k := 0;
    while k < |found|
      invariant 0 <= k <= |found| && parts == MovedTo(found, part.transformMatrix, k)
    {
      parts := parts + [found[k].(transformMatrix := part.transformMatrix)];
      k := k + 1;
    }
    return Some(Instances(parts, seq(|parts|, _ => hapi.instanceTransforms.value)));
  }

  // ---------------------------------------------------------------------
  // From parts to objects.

  /**
   * The object an output object contributes for a part placed `count` times:
   * its proxy when at most one instance is placed and the proxy is current and
   * live, else its object when live, else nothing.
   */
  function PickObject(o: OutputObject, count: nat, scene: Scene): (r: Ptr)
    ensures r != Null ==> IsLive(r, scene) && (r == o.proxyObject || r == o.outputObject)
    ensures count <= 1 && o.proxyIsCurrent && IsLive(o.proxyObject, scene) ==> r == o.proxyObject
    ensures (count > 1 || !o.proxyIsCurrent) ==> r == o.outputObject || r == Null
    ensures r == Null <==> !IsLive(o.outputObject, scene) && !(count <= 1 && o.proxyIsCurrent && IsLive(o.proxyObject, scene))
  {
    if count <= 1 && o.proxyIsCurrent && IsLive(o.proxyObject, scene) then o.proxyObject
    else if IsLive(o.outputObject, scene) then o.outputObject
    else Null
  }

  /** The objects the matching entries among `entries[..n]` contribute. */
  function ObjectsIn(entries: seq<(Identifier, OutputObject)>, part: GeoPart, count: nat, scene: Scene, n: nat): (r: seq<Ptr>)
    requires n <= |entries|
    ensures forall k :: 0 <= k < |r| ==> IsLive(r[k], scene)
  {
    if n == 0 then []
    else
      var prev := ObjectsIn(entries, part, count, scene, n - 1);
      var pick := PickObject(entries[n - 1].1, count, scene);
      if Matches(entries[n - 1].0, part) && pick != Null then prev + [pick] else prev
  }

  /** The objects generated for `part` by the mesh outputs among `outputs[..n]`. */
  function ObjectsFor(outputs: seq<Option<OutputView>>, part: GeoPart, count: nat, scene: Scene, n: nat): (r: seq<Ptr>)
    requires n <= |outputs|
  {
    if n == 0 then []
    else
      var o := outputs[n - 1];
      var here := if o.Some? && o.value.outputType == Mesh && |o.value.objects| > 0
        then ObjectsIn(o.value.objects, part, count, scene, |o.value.objects|) else [];
      ObjectsFor(outputs, part, count, scene, n - 1) + here
  }

  /** Every object generated for a part is live. */
  lemma {:induction false} ObjectsForLive(outputs: seq<Option<OutputView>>, part: GeoPart, count: nat, scene: Scene, n: nat)
    requires n <= |outputs|
    ensures forall k :: 0 <= k < |ObjectsFor(outputs, part, count, scene, n)| ==> IsLive(ObjectsFor(outputs, part, count, scene, n)[k], scene)
  {
    if n > 0 {
      ObjectsForLive(outputs, part, count, scene, n - 1);
    }
  }

  /** Each of the first `n` parts placed once per object generated for it, with the part's transforms. */
  function PlaceParts(outputs: seq<Option<OutputView>>, inst: Instances, scene: Scene, n: nat): (r: Placed)
    requires n <= |inst.parts| == |inst.transforms|
    ensures r.InLockstep()
  {
    if n == 0 then Placed([], [])
    else
      var prev := PlaceParts(outputs, inst, scene, n - 1);
      var objs := ObjectsFor(outputs, inst.parts[n - 1], |inst.transforms[n - 1]|, scene, |outputs|);
      Placed(prev.objects + objs, prev.transforms + seq(|objs|, _ => inst.transforms[n - 1]))
  }

  /** Every placed object is live. */
  lemma {:induction false} PlacePartsLive(outputs: seq<Option<OutputView>>, inst: Instances, scene: Scene, n: nat)
    requires n <= |inst.parts| == |inst.transforms|
    ensures forall k :: 0 <= k < |PlaceParts(outputs, inst, scene, n).objects| ==> IsLive(PlaceParts(outputs, inst, scene, n).objects[k], scene)
  {
    if n > 0 {
      PlacePartsLive(outputs, inst, scene, n - 1);
      ObjectsForLive(outputs, inst.parts[n - 1], |inst.transforms[n - 1]|, scene, |outputs|);
    }
  }

  /** Every placed transform list is the list of some instanced part. */
  lemma {:induction false} PlacePartsTransforms(outputs: seq<Option<OutputView>>, inst: Instances, scene: Scene, n: nat)
    requires n <= |inst.parts| == |inst.transforms|
    ensures forall k :: 0 <= k < |PlaceParts(outputs, inst, scene, n).transforms| ==>
      PlaceParts(outputs, inst, scene, n).transforms[k] in inst.transforms[..n]
  {
    if n > 0 {
      PlacePartsTransforms(outputs, inst, scene, n - 1);
      assert inst.transforms[..n] == inst.transforms[..n - 1] + [inst.transforms[n - 1]];
    }
  }

  /** The objects the matching entries of one output contribute, in a loop over its output objects. */
  method ObjectsInEntries(entries: seq<(Identifier, OutputObject)>, part: GeoPart, count: nat, scene: Scene) returns (objs: seq<Ptr>)
    ensures objs == ObjectsIn(entries, part, count, scene, |entries|)
  {
    objs := [];
    var e := 0;
    while e < |entries|
      invariant 0 <= e <= |entries|
      invariant objs == ObjectsIn(entries, part, count, scene, e)
    {
      var (key, obj) := entries[e];
      if Matches(key, part) {
        if count <= 1 && obj.proxyIsCurrent && IsLive(obj.proxyObject, scene) {
          objs := objs + [obj.proxyObject];
        } else if IsLive(obj.outputObject, scene) {
          objs := objs + [obj.outputObject];
        }
      }
      e := e + 1;
    }
  }

  /** The objects for one part, found by the loop over the outputs. */
  method ObjectsToInstance(outputs: seq<Option<OutputView>>, part: GeoPart, count: nat, scene: Scene) returns (objs: seq<Ptr>)
    ensures objs == ObjectsFor(outputs, part, count, scene, |outputs|)
  {
    objs := [];
    var o := 0;
    while o < |outputs|
      invariant 0 <= o <= |outputs|
      invariant objs == ObjectsFor(outputs, part, count, scene, o)
    {
      if outputs[o].Some? && outputs[o].value.outputType == Mesh && |outputs[o].value.objects| > 0 {
        var here := ObjectsInEntries(outputs[o].value.objects, part, count, scene);
        objs := objs + here;
      }
      o := o + 1;
    }
  }

  /** The parts a packed-primitive, old-school or object instancer names, with their transforms. */
  function PartInstances(part: GeoPart, outputs: seq<Option<OutputView>>, hapi: HapiReads): (r: Option<Instances>)
    ensures r.Some? ==> |r.value.parts| == |r.value.transforms|
  {
    match part.instancerType
    case PackedPrimitive => PackedInstances(part, hapi)
    case OldSchoolAttributeInstancer => OldSchoolInstances(part, outputs, hapi)
    case ObjectInstancer => ObjectInstances(part, outputs, hapi)
    case _ => None
  }

  /** `GetInstancerObjectsAndTransforms`: the objects to instance and their transforms, or failure. */
  function Classify(part: GeoPart, outputs: seq<Option<OutputView>>, hapi: HapiReads, load: string -> Ptr, scene: Scene)
    : (r: Option<Placed>)
    ensures r.Some? ==> r.value.InLockstep() && |r.value.objects| > 0
  {
    if part.instancerType == AttributeInstancer then AttributeInstances(part, hapi, load)
    else
      var found := PartInstances(part, outputs, hapi);
      if found.None? then None
      else
        var placed := PlaceParts(outputs, found.value, scene, |found.value.parts|);
        if |placed.objects| == 0 then None else Some(placed)
  }

  /** A part-based classification places only live objects, each with the transforms of one found part. */
  lemma ClassifyPlacesLiveObjects(part: GeoPart, outputs: seq<Option<OutputView>>, hapi: HapiReads, load: string -> Ptr, scene: Scene)
    requires part.instancerType != AttributeInstancer && Classify(part, outputs, hapi, load, scene).Some?
    ensures forall k :: 0 <= k < |Classify(part, outputs, hapi, load, scene).value.objects| ==>
      IsLive(Classify(part, outputs, hapi, load, scene).value.objects[k], scene)
  {
    var found := PartInstances(part, outputs, hapi).value;
    PlacePartsLive(outputs, found, scene, |found.parts|);
  }

  /** A part of no instancer type, or a failed HAPI read on its path, gives nothing. */
  lemma ClassifyFails(part: GeoPart, outputs: seq<Option<OutputView>>, hapi: HapiReads, load: string -> Ptr, scene: Scene)
    ensures part.instancerType == NoInstancer ==> Classify(part, outputs, hapi, load, scene) == None
    ensures part.instancerType != PackedPrimitive && hapi.instanceTransforms.None? ==> Classify(part, outputs, hapi, load, scene) == None
    ensures part.instancerType == ObjectInstancer && part.objectToInstanceId < 0 ==> Classify(part, outputs, hapi, load, scene) == None
  {
  }

  /** The packed path places each instanced part's objects at every instance transform. */
  lemma ClassifyPackedCrossProduct(part: GeoPart, outputs: seq<Option<OutputView>>, hapi: HapiReads, load: string -> Ptr, scene: Scene)
    requires part.instancerType == PackedPrimitive && Classify(part, outputs, hapi, load, scene).Some?
    ensures hapi.partTransforms.Some? && hapi.instancedPartIds.Some?
    ensures forall k :: 0 <= k < |Classify(part, outputs, hapi, load, scene).value.transforms| ==>
      Classify(part, outputs, hapi, load, scene).value.transforms[k] == hapi.partTransforms.value
  {
    var ids := hapi.instancedPartIds.value;
    var inst := PackedUpTo(part, ids, hapi.partTransforms.value, |ids|);
    PackedIsCrossProduct(part, ids, hapi.partTransforms.value, |ids|);
    PlacePartsTransforms(outputs, inst, scene, |ids|);
    assert inst.transforms[..|ids|] == inst.transforms;
  }

  /** `GetInstancerObjectsAndTransforms`, as the dispatch and the lookup loop. */
  method GetInstancerObjectsAndTransforms(part: GeoPart, outputs: seq<Option<OutputView>>, hapi: HapiReads,
                                          load: string -> Ptr, scene: Scene)
    returns (r: Option<Placed>)
    ensures r == Classify(part, outputs, hapi, load, scene)
  {
    var found: Option<Instances> := None;
    match part.instancerType {
      case PackedPrimitive =>
        found := GetPackedPrimitiveInstancerHGPOsAndTransforms(part, hapi);
      case AttributeInstancer =>
        r := GetAttributeInstancerObjectsAndTransforms(part, hapi, load);
        return;
      case OldSchoolAttributeInstancer =>
        found := GetOldSchoolAttributeInstancerHGPOsAndTransforms(part, outputs, hapi);
      case ObjectInstancer =>
        found := GetObjectInstancerHGPOsAndTransforms(part, outputs, hapi);
      case NoInstancer =>
    }
    assert found == PartInstances(part, outputs, hapi);
    if found.None? {
      return None;
    }
    var placed := PlaceInstances(outputs, found.value, scene);
    if |placed.objects| == 0 {
      return None;
    }
    return Some(placed);
  }

  /** Each found part placed once per object generated for it, in a loop over the parts. */
  method PlaceInstances(outputs: seq<Option<OutputView>>, inst: Instances, scene: Scene) returns (placed: Placed)
    requires |inst.parts| == |inst.transforms|
    ensures placed == PlaceParts(outputs, inst, scene, |inst.parts|)
  {
    placed := Placed([], []);
    var k := 0;
    while k < |inst.parts|
      invariant 0 <= k <= |inst.parts|
      invariant placed == PlaceParts(outputs, inst, scene, k)
    {
      placed := PlacePart(outputs, inst, scene, k, placed);
      k := k + 1;
    }
  }

  /** Part `k` placed once per object generated for it, after the first `k`. */
  method PlacePart(outputs: seq<Option<OutputView>>, inst: Instances, scene: Scene, k: nat, placed: Placed) returns (next: Placed)
    requires k < |inst.parts| == |inst.transforms|
    requires placed == PlaceParts(outputs, inst, scene, k)
    ensures next == PlaceParts(outputs, inst, scene, k + 1)
  {
    var ts := inst.transforms[k];
    var objs := ObjectsToInstance(outputs, inst.parts[k], |ts|, scene);
    next := Placed(placed.objects + objs, placed.transforms + seq(|objs|, _ => ts));
  }
}
