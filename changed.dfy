/**
 * `UpdateChangedInstancedOutput`: after the user edits the variations of one
 * instanced output, its components are rebuilt in place in the output's map
 * under "{split}_{var}", and every other output object is removed and its
 * components destroyed.
 */
module Changed {
  import opened Common
  import opened Seqs
  import opened Text
  import opened HoudiniOutput
  import opened Variation
  import opened Resolver
  import opened Components
  import opened Reconcile
  import opened Instancers

  /** The identifier the update starts from: the ids, split and part name of the
      given one, every other field at its default. */
  function ChangedIdentifier(key: Identifier): (r: Identifier)
    ensures r.objectId == key.objectId && r.geoId == key.geoId && r.partId == key.partId
    ensures r.splitIdentifier == key.splitIdentifier && r.partName == key.partName
    ensures r.primitiveIndex == -1 && r.pointIndex == -1 && !r.loaded
  {
    DefaultIdentifier().(objectId := key.objectId, geoId := key.geoId, partId := key.partId,
                         splitIdentifier := key.splitIdentifier, partName := key.partName)
  }

  // ---------------------------------------------------------------------
  // Which instanced output is refreshed.

  /** One original resolved under the instanced-output key `key`: the entry there is
      refreshed and its variations emitted, or one is created for the original alone. */
  function ResolveAt(key: Identifier, i: nat, orig: Ptr, ts: seq<Transform>, scene: Scene, math: TransformMath,
                     m: map<Identifier, InstancedOutput>): (r: (map<Identifier, InstancedOutput>, Variations))
    requires AllInLockstep(m)
    ensures AllInLockstep(r.0) && r.1.InLockstep()
  {
    if !IsLive(orig, scene) then (m, NoVariations)
    else if key in m then
      var io := Refreshed(m[key], i, orig, ts, scene);
      RefreshedShape(m[key], i, orig, ts, scene);
      (m[key := io], Emitted(io, i, scene, math))
    else (m[key := Created(orig, i, ts)], NoVariations.Add(orig, ts, i, 0))
  }

  /**
   * As written: the changed output's original goes through
   * `UpdateInstanceVariationObjects` as a one-element array, so it is
   * resolved as original 0 of the identifier, under split "0", whatever the
   * changed output's own split identifier is.
   */
  function ChangedResolutionAsWritten(key: Identifier, io: InstancedOutput, m: map<Identifier, InstancedOutput>,
                                      scene: Scene, math: TransformMath)
    : (r: (map<Identifier, InstancedOutput>, Variations))
    requires AllInLockstep(m)
  {
    ResolveAll(ChangedIdentifier(key), [io.originalObject], [io.originalTransforms], m, scene, math, 1)
  }

  /** Resolving one original with nothing emitted yet is resolving it at its own key. */
  lemma ResolveOneFromNothing(base: Identifier, i: nat, orig: Ptr, ts: seq<Transform>, scene: Scene,
                              math: TransformMath, m: map<Identifier, InstancedOutput>)
    requires AllInLockstep(m)
    ensures ResolveOne(base, i, orig, ts, scene, math, m, NoVariations) == ResolveAt(KeyFor(base, i), i, orig, ts, scene, math, m)
  {
    var key := KeyFor(base, i);
    if IsLive(orig, scene) && key in m {
      var refreshed := Refreshed(m[key], i, orig, ts, scene);
      RefreshedShape(m[key], i, orig, ts, scene);
      var emitted := Emitted(refreshed, i, scene, math);
      ConcatOntoNothing(emitted);
    }
  }

  lemma ConcatOntoNothing(v: Variations)
    ensures NoVariations.Concat(v) == v
  {
    assert [] + v.objects == v.objects && [] + v.transforms == v.transforms;
    assert [] + v.originalIndices == v.originalIndices && [] + v.variationIndices == v.variationIndices;
  }

  /** The resolution as written is the one under split "0" with index 0. */
  lemma AsWrittenResolvesUnderZero(key: Identifier, io: InstancedOutput, m: map<Identifier, InstancedOutput>,
                                   scene: Scene, math: TransformMath)
    requires AllInLockstep(m)
    ensures ChangedResolutionAsWritten(key, io, m, scene, math) ==
      ResolveAt(KeyFor(ChangedIdentifier(key), 0), 0, io.originalObject, io.originalTransforms, scene, math, m)
  {
    var base := ChangedIdentifier(key);
    var originals, transforms := [io.originalObject], [io.originalTransforms];
    ResolveAllNone(base, originals, transforms, m, scene, math);
    ResolveAllStep(base, originals, transforms, m, scene, math, 1);
    ResolveOneFromNothing(base, 0, io.originalObject, io.originalTransforms, scene, math, m);
  }

  /**
   * The discrepancy: the user sets variation `v` on instanced output "1";
   * with no output under "0", the update as written creates a fresh one
   * there, instantiates the bare original only, and leaves output "1" and
   * its variation untouched.
   */
  lemma AsWrittenIgnoresChangedOutput(math: TransformMath)
    ensures
      var orig := Ref(Obj(1, StaticMesh(1), "orig"));
      var v := Ref(Obj(2, StaticMesh(1), "variation"));
      var key := DefaultIdentifier().(splitIdentifier := "1");
      var io := InstancedOutput(orig, 1, [IdentityTransform], [v], [IdentityTransform], [0], true, false);
      var m := map[key := io];
      var r := ChangedResolutionAsWritten(key, io, m, Scene({}), math);
      r.1.objects == [orig] && v !in r.1.objects &&
      key in r.0 && r.0[key] == io &&
      KeyFor(key, 0) in r.0 && KeyFor(key, 0) != key
  {
    var orig := Ref(Obj(1, StaticMesh(1), "orig"));
    var v := Ref(Obj(2, StaticMesh(1), "variation"));
    var key := DefaultIdentifier().(splitIdentifier := "1");
    var io := InstancedOutput(orig, 1, [IdentityTransform], [v], [IdentityTransform], [0], true, false);
    var m := map[key := io];
    assert KeyFor(key, 0).splitIdentifier == "0";
    assert KeyFor(key, 0) != key;
    AsWrittenResolvesUnderZero(key, io, m, Scene({}), math);
  }

  /** Corrected: the changed output is refreshed under its own key, as the original it says it is. */
  function ChangedResolution(key: Identifier, io: InstancedOutput, m: map<Identifier, InstancedOutput>,
                             scene: Scene, math: TransformMath)
    : (r: (map<Identifier, InstancedOutput>, Variations))
    requires AllInLockstep(m) && io.originalObjectIndex >= 0
    ensures AllInLockstep(r.0) && r.1.InLockstep()
  {
    ResolveAt(ChangedIdentifier(key), io.originalObjectIndex, io.originalObject, io.originalTransforms, scene, math, m)
  }

  /**
   * The corrected resolution refreshes the changed output itself and touches
   * no other. Every emitted object is one of its variations, and, with plain
   * variations, the emission places each of its transforms exactly once.
   */
  lemma ChangedResolutionUsesOwnEntry(key: Identifier, io: InstancedOutput, m: map<Identifier, InstancedOutput>,
                                      scene: Scene, math: TransformMath)
    requires AllInLockstep(m) && io.originalObjectIndex >= 0
    requires ChangedIdentifier(key) in m && IsLive(io.originalObject, scene)
    ensures var k := ChangedIdentifier(key);
      var r := ChangedResolution(key, io, m, scene, math);
      k in r.0 && r.0[k] == Refreshed(m[k], io.originalObjectIndex, io.originalObject, io.originalTransforms, scene) &&
      (forall k2 :: k2 in m && k2 != k ==> k2 in r.0 && r.0[k2] == m[k2]) &&
      (forall j :: 0 <= j < |r.1.objects| ==> r.1.objects[j] in r.0[k].variationObjects) &&
      (Plain(m[k]) ==> multiset(Flatten(r.1.transforms)) == multiset(io.originalTransforms))
  {
    var k := ChangedIdentifier(key);
    var i := io.originalObjectIndex as nat;
    var ref := Refreshed(m[k], i, io.originalObject, io.originalTransforms, scene);
    RefreshedShape(m[k], i, io.originalObject, io.originalTransforms, scene);
    var ps := AllProcessed(ref, math);
    EmitFromSound(ref.variationObjects, ps, i, scene, |ref.variationObjects|);
    var out := Emitted(ref, i, scene, math);
    forall j | 0 <= j < |out.objects| ensures out.objects[j] in ref.variationObjects {
      assert SoundEntry(ref.variationObjects, ps, i, scene, |ref.variationObjects|, out, j);
    }
    if Plain(m[k]) {
      RefreshedEmitsEveryTransform(m[k], i, io.originalObject, io.originalTransforms, scene, math);
    }
  }

  // ---------------------------------------------------------------------
  // The rebuild loop.

  /** The output's map, the copy still to delete, and the scene, threaded through the loop. */
  datatype Changing = Changing(objects: map<Identifier, OutputObject>, toDelete: map<Identifier, OutputObject>,
                               scene: Scene)

  /** The output-object key of variation `v`: "{split}_{v}" on the changed output's split. */
  function ChangedKey(key: Identifier, v: int): (r: Identifier)
    ensures r.(splitIdentifier := key.splitIdentifier) == ChangedIdentifier(key)
  {
    ChangedIdentifier(key).(splitIdentifier := key.splitIdentifier + "_" + IntToString(v))
  }

  /** The component change variation `j` makes, given the instancer materials. */
  function ChangedChange(key: Identifier, vars: Variations, j: nat, split: bool, materials: seq<Ptr>, e: Engine,
                         st: Changing): ComponentChange
    requires vars.InLockstep() && j < |vars.objects| && vars.objects[j].Ref?
  {
    var k := ChangedKey(key, vars.variationIndices[j]);
    var prior := if k in st.objects then st.objects[k].outputComponent else Null;
    InstanceComponent(vars.objects[j].obj.cls, |vars.transforms[j]|, split, prior, st.scene, materials,
                      e.materialIdx, e.made(k), e.creatorOk(k))
  }

  /** Whether turn `j` stores a component. */
  predicate Stores(key: Identifier, vars: Variations, j: nat, split: bool, materials: seq<Ptr>, e: Engine, st: Changing)
    requires vars.InLockstep() && j < |vars.objects|
  {
    IsLive(vars.objects[j], st.scene) && |vars.transforms[j]| > 0 &&
    ChangedChange(key, vars, j, split, materials, e, st).ok
  }

  /**
   * One turn of the rebuild loop: a dead object or one without transforms is
   * skipped; otherwise the component is created or reused against the
   * entry's output component; on success a different component replaces the
   * old one, which is destroyed, and the key leaves the delete copy.
   */
  function ChangedStep(key: Identifier, vars: Variations, j: nat, split: bool, materials: seq<Ptr>, e: Engine,
                       st: Changing): Changing
    requires vars.InLockstep() && j < |vars.objects|
  {
    if !IsLive(vars.objects[j], st.scene) || |vars.transforms[j]| == 0 then st
    else
      var k := ChangedKey(key, vars.variationIndices[j]);
      var prior := if k in st.objects then st.objects[k].outputComponent else Null;
      var ch := ChangedChange(key, vars, j, split, materials, e, st);
      var scene := if ch.destroysOld then Destroying(st.scene, prior) else st.scene;
      if !ch.ok then Changing(st.objects, st.toDelete, scene)
      else if prior != ch.component then
        Changing(Stored(st.objects, k, ch.component, false), st.toDelete - {k}, Destroying(scene, prior))
      else Changing(st.objects, st.toDelete - {k}, scene)
  }

  /** The first `n` turns of the rebuild loop. */
  function ChangedAll(key: Identifier, vars: Variations, split: bool, materials: seq<Ptr>, e: Engine,
                      st: Changing, n: nat): Changing
    requires vars.InLockstep() && n <= |vars.objects|
  {
    if n == 0 then st else ChangedStep(key, vars, n - 1, split, materials, e, ChangedAll(key, vars, split, materials, e, st, n - 1))
  }

  /** The keys the first `n` turns store a component under. */
  function Touched(key: Identifier, vars: Variations, split: bool, materials: seq<Ptr>, e: Engine,
                   st: Changing, n: nat): set<Identifier>
    requires vars.InLockstep() && n <= |vars.objects|
  {
    if n == 0 then {}
    else
      var before := ChangedAll(key, vars, split, materials, e, st, n - 1);
      Touched(key, vars, split, materials, e, st, n - 1) +
      (if Stores(key, vars, n - 1, split, materials, e, before) then {ChangedKey(key, vars.variationIndices[n - 1])} else {})
  }

  /** The final loop: the entries left in the delete copy leave the map, and their components are destroyed. */
  function Purged(st: Changing): (r: (map<Identifier, OutputObject>, Scene))
    ensures r.0.Keys == st.objects.Keys - st.toDelete.Keys
    ensures r.1.dead == st.scene.dead + HeldBy(st.toDelete, st.toDelete.Keys)
  {
    (map k | k in st.objects && k !in st.toDelete :: st.objects[k],
     Scene(st.scene.dead + HeldBy(st.toDelete, st.toDelete.Keys)))
  }

  /** One turn keeps the map's keys the old ones plus the touched ones and the copy the untouched old ones. */
  lemma {:induction false} ChangedAllShape(key: Identifier, vars: Variations, split: bool, materials: seq<Ptr>,
                                           e: Engine, prev: map<Identifier, OutputObject>, scene: Scene, n: nat)
    requires vars.InLockstep() && n <= |vars.objects|
    ensures var st := ChangedAll(key, vars, split, materials, e, Changing(prev, prev, scene), n);
      var t := Touched(key, vars, split, materials, e, Changing(prev, prev, scene), n);
      st.objects.Keys == prev.Keys + t &&
      st.toDelete == (map k | k in prev && k !in t :: prev[k])
  {
    if n > 0 {
      var st0 := Changing(prev, prev, scene);
      ChangedAllShape(key, vars, split, materials, e, prev, scene, n - 1);
      var before := ChangedAll(key, vars, split, materials, e, st0, n - 1);
      var t0 := Touched(key, vars, split, materials, e, st0, n - 1);
      var t := Touched(key, vars, split, materials, e, st0, n);
      var st := ChangedAll(key, vars, split, materials, e, st0, n);
      assert st == ChangedStep(key, vars, n - 1, split, materials, e, before);
      if Stores(key, vars, n - 1, split, materials, e, before) {
        var k := ChangedKey(key, vars.variationIndices[n - 1]);
        assert t == t0 + {k};
        assert st.toDelete == before.toDelete - {k};
        assert st.objects.Keys == before.objects.Keys + {k};
      } else {
        assert t == t0;
        assert st.objects == before.objects && st.toDelete == before.toDelete;
      }
    }
  }

  /**
   * After the update, the output's map holds exactly the keys the loop
   * stored a component under; every other old entry is gone and both its
   * components are destroyed.
   */
  lemma ChangedKeepsOnlyTouched(key: Identifier, vars: Variations, split: bool, materials: seq<Ptr>, e: Engine,
                                prev: map<Identifier, OutputObject>, scene: Scene)
    requires vars.InLockstep()
    ensures var st0 := Changing(prev, prev, scene);
      var r := Purged(ChangedAll(key, vars, split, materials, e, st0, |vars.objects|));
      var t := Touched(key, vars, split, materials, e, st0, |vars.objects|);
      r.0.Keys == t &&
      forall k :: k in prev && k !in t ==> HeldIds(prev[k]) <= r.1.dead
  {
    var st0 := Changing(prev, prev, scene);
    var n := |vars.objects|;
    ChangedAllShape(key, vars, split, materials, e, prev, scene, n);
    var st := ChangedAll(key, vars, split, materials, e, st0, n);
    var t := Touched(key, vars, split, materials, e, st0, n);
    forall k | k in prev && k !in t ensures HeldIds(prev[k]) <= HeldBy(st.toDelete, st.toDelete.Keys) {
      assert k in st.toDelete && st.toDelete[k] == prev[k];
      forall id | id in HeldIds(prev[k]) ensures id in HeldBy(st.toDelete, st.toDelete.Keys) {
        assert k in st.toDelete.Keys && id in HeldIds(st.toDelete[k]);
      }
    }
  }

  /** One turn of the rebuild loop, as the loop body runs it. */
  method RebuildVariation(key: Identifier, vars: Variations, j: nat, split: bool, materials: seq<Ptr>, e: Engine,
                          st: Changing) returns (st': Changing)
    requires vars.InLockstep() && j < |vars.objects|
    ensures st' == ChangedStep(key, vars, j, split, materials, e, st)
  {
    st' := st;
    var obj := vars.objects[j];
    if !IsLive(obj, st.scene) {
      return;
    }
    var ts := vars.transforms[j];
    if |ts| <= 0 {
      return;
    }
    var k := ChangedKey(key, vars.variationIndices[j]);
    var prior := Null;
    if k in st.objects {
      prior := st.objects[k].outputComponent;
    }
    var ch := ChangedChange(key, vars, j, split, materials, e, st);
    var scene := st.scene;
    if ch.destroysOld {
      scene := RemoveAndDestroyComponent(prior, scene);
    }
    if !ch.ok || ch.component == Null {
      st' := Changing(st.objects, st.toDelete, scene);
      return;
    }
    var objects := st.objects;
    if prior != ch.component {
      if prior != Null {
        scene := RemoveAndDestroyComponent(prior, scene);
      }
      if k in objects {
        objects := objects[k := objects[k].(outputComponent := ch.component)];
      } else {
        objects := objects[k := DefaultOutputObject().(outputComponent := ch.component)];
      }
    }
    st' := Changing(objects, st.toDelete - {k}, scene);
  }

  /** The final loop over the delete copy. */
  method PurgeUnused(st: Changing) returns (objects: map<Identifier, OutputObject>, scene': Scene)
    ensures (objects, scene') == Purged(st)
  {
    scene' := DestroyUnused(st.toDelete, st.scene);
    objects := st.objects;
    var left := st.toDelete.Keys;
    while left != {}
      invariant left <= st.toDelete.Keys
      invariant objects.Keys == st.objects.Keys - (st.toDelete.Keys - left)
      invariant forall k :: k in objects ==> objects[k] == st.objects[k]
      decreases |left|
    {
      var k :| k in left;
      objects := objects - {k};
      left := left - {k};
    }
    assert objects == Purged(st).0;
  }

  /**
   * `UpdateChangedInstancedOutput`, with the resolution corrected to refresh
   * the changed output under its own key. The rebuild loop runs on the
   * output's map with the instancer materials, then the untouched entries
   * are purged. `split` and `materialNames` are HAPI's answers for the part.
   */
  method UpdateChangedInstancedOutput(output: Output, io: InstancedOutput, key: Identifier, split: bool,
                                      materialNames: Option<seq<string>>, e: Engine, scene: Scene)
    returns (ok: bool, scene': Scene)
    requires output.InstancedOutputsInLockstep() && io.originalObjectIndex >= 0
    modifies output
    ensures ok
    ensures var resolved := ChangedResolution(key, io, old(output.instancedOutputs), scene, e.math);
      var materials := InstancerMaterials(materialNames, e.load, scene);
      var st0 := Changing(old(output.outputObjects), old(output.outputObjects), scene);
      var r := Purged(ChangedAll(key, resolved.1, split, materials, e, st0, |resolved.1.objects|));
      output.instancedOutputs == resolved.0 && output.outputObjects == r.0 && scene' == r.1
    ensures output.Settings() == old(output.Settings())
  {
    assert AllInLockstep(output.instancedOutputs);
    var instanced, vars := ResolveChangedOutput(key, io, output.instancedOutputs, scene, e.math);
    output.SetInstancedOutputs(instanced);
    var materials := GetInstancerMaterials(materialNames, e.load, scene);
    var st := Changing(output.outputObjects, output.outputObjects, scene);
    var j := 0;
    while j < |vars.objects|
      invariant 0 <= j <= |vars.objects|
      invariant st == ChangedAll(key, vars, split, materials, e, Changing(output.outputObjects, output.outputObjects, scene), j)
      modifies {}
    {
      st := RebuildVariation(key, vars, j, split, materials, e, st);
      j := j + 1;
    }
    var objects;
    objects, scene' := PurgeUnused(st);
    output.SetOutputObjects(objects);
    ok := true;
  }

  /** The corrected resolution, as `UpdateInstanceVariationObjects` would run it on the changed output alone. */
  method ResolveChangedOutput(key: Identifier, io: InstancedOutput, m: map<Identifier, InstancedOutput>,
                              scene: Scene, math: TransformMath)
    returns (m': map<Identifier, InstancedOutput>, out: Variations)
    requires AllInLockstep(m) && io.originalObjectIndex >= 0
    ensures (m', out) == ChangedResolution(key, io, m, scene, math)
  {
    m' := m;
    out := NoVariations;
    var orig := io.originalObject;
    var i := io.originalObjectIndex as nat;
    if !IsLive(orig, scene) {
      return;
    }
    var k := ChangedIdentifier(key);
    if k !in m {
      m' := m[k := Created(orig, i, io.originalTransforms)];
      out := out.Add(orig, io.originalTransforms, i, 0);
    } else {
      var refreshed := RefreshInstancedOutput(m[k], i, orig, io.originalTransforms, scene);
      RefreshedShape(m[k], i, orig, io.originalTransforms, scene);
      out := EmitVariations(refreshed, i, scene, math);
      m' := m[k := refreshed];
    }
  }
}
