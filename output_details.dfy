/**
 * The callbacks of the output details panel that change an output: the
 * variation edits (add, remove, set and reset a variation object), the bake
 * name edits, the bake naming rule, and dropping or resetting a material on a
 * static mesh slot. The widgets that trigger them are not modelled.
 */
module OutputDetails {
  import opened Common
  import opened Seqs
  import opened HoudiniOutput
  import opened Variation

  // ---------------------------------------------------------------------
  // Variation edits, on the instanced output stored under one key.

  /** `AddObjectAt`: the object and an identity offset inserted at the same index,
      the assignments redrawn and the output marked changed. */
  function ObjectAdded(io: InstancedOutput, at: nat, obj: Ptr): InstancedOutput
    requires io.InLockstep() && at <= |io.variationObjects|
  {
    var grown := io.(variationObjects := InsertAt(io.variationObjects, at, obj),
                     variationTransformOffsets := InsertAt(io.variationTransformOffsets, at, IdentityTransform));
    grown.(transformVariationIndices := ReassignedIndices(grown)).MarkChanged(true)
  }

  /** `RemoveObjectAt`: nothing for an index out of range or the last variation;
      otherwise the same index leaves both arrays, the assignments are redrawn
      and the output marked changed. */
  function ObjectRemoved(io: InstancedOutput, at: int): InstancedOutput
    requires io.InLockstep()
  {
    if at < 0 || at >= |io.variationObjects| || |io.variationObjects| == 1 then io
    else
      var shrunk := io.(variationObjects := RemoveAt(io.variationObjects, at),
                        variationTransformOffsets := RemoveAt(io.variationTransformOffsets, at));
      shrunk.(transformVariationIndices := ReassignedIndices(shrunk)).MarkChanged(true)
  }

  /** `SetObjectAt`: for a valid index, that variation object replaced and the output marked changed. */
  function ObjectSet(io: InstancedOutput, at: int, obj: Ptr): InstancedOutput
  {
    if 0 <= at < |io.variationObjects| then io.(variationObjects := io.variationObjects[at := obj]).MarkChanged(true)
    else io
  }

  /** Adding keeps the arrays one-to-one, grows both by one with the object and an
      identity offset at the index and the old entries around them, and leaves
      every index naming a variation. */
  lemma ObjectAddedShape(io: InstancedOutput, at: nat, obj: Ptr)
    requires io.InLockstep() && at <= |io.variationObjects|
    ensures var r := ObjectAdded(io, at, obj);
      r.InLockstep() && |r.variationObjects| == |io.variationObjects| + 1 &&
      r.variationObjects[at] == obj && r.variationTransformOffsets[at] == IdentityTransform &&
      r.variationObjects[..at] == io.variationObjects[..at] && r.variationObjects[at + 1..] == io.variationObjects[at..] &&
      r.variationTransformOffsets[..at] == io.variationTransformOffsets[..at] &&
      r.variationTransformOffsets[at + 1..] == io.variationTransformOffsets[at..] &&
      |r.transformVariationIndices| == |io.originalTransforms| &&
      r.originalObject == io.originalObject && r.originalTransforms == io.originalTransforms &&
      r.changed && r.stale == io.stale
    ensures |io.variationObjects| >= 1 ==> IndicesNameVariations(ObjectAdded(io, at, obj))
  {
    var r := ObjectAdded(io, at, obj);
    assert r.variationObjects == io.variationObjects[..at] + [obj] + io.variationObjects[at..];
    assert r.variationTransformOffsets == io.variationTransformOffsets[..at] + [IdentityTransform] + io.variationTransformOffsets[at..];
  }

  /** Removing is a no-op exactly for an index out of range or the last variation;
      otherwise both arrays lose the same index, so there is always one variation left. */
  lemma ObjectRemovedShape(io: InstancedOutput, at: int)
    requires io.InLockstep()
    ensures var r := ObjectRemoved(io, at);
      (r == io <==> at < 0 || at >= |io.variationObjects| || |io.variationObjects| == 1) &&
      r.InLockstep() && (|io.variationObjects| >= 1 ==> |r.variationObjects| >= 1) &&
      r.originalObject == io.originalObject && r.originalTransforms == io.originalTransforms
    ensures 0 <= at < |io.variationObjects| && |io.variationObjects| > 1 ==>
      var r := ObjectRemoved(io, at);
      |r.variationObjects| == |io.variationObjects| - 1 && r.changed &&
      r.variationObjects[..at] == io.variationObjects[..at] && r.variationObjects[at..] == io.variationObjects[at + 1..] &&
      r.variationTransformOffsets[..at] == io.variationTransformOffsets[..at] &&
      r.variationTransformOffsets[at..] == io.variationTransformOffsets[at + 1..] &&
      |r.transformVariationIndices| == |io.originalTransforms|
    ensures 0 <= at < |io.variationObjects| && |io.variationObjects| > 2 ==> IndicesNameVariations(ObjectRemoved(io, at))
  {
    var r := ObjectRemoved(io, at);
    if 0 <= at < |io.variationObjects| && |io.variationObjects| > 1 {
      assert r.variationObjects == io.variationObjects[..at] + io.variationObjects[at + 1..];
      assert r.variationTransformOffsets == io.variationTransformOffsets[..at] + io.variationTransformOffsets[at + 1..];
      assert r.changed != io.changed || |r.variationObjects| != |io.variationObjects|;
      var shrunk := io.(variationObjects := RemoveAt(io.variationObjects, at),
                        variationTransformOffsets := RemoveAt(io.variationTransformOffsets, at));
      assert r.variationObjects == shrunk.variationObjects && r.transformVariationIndices == ReassignedIndices(shrunk);
      if |r.variationObjects| >= 2 {
        ReassignedIndicesNameVariations(shrunk);
      }
    }
  }

  /** Going down to one variation keeps the old indices, which may still name the
      variation just removed: with one variation they are not read. */
  lemma RemovingToOneKeepsIndices(io: InstancedOutput, at: int)
    requires io.InLockstep() && |io.variationObjects| == 2 && 0 <= at < 2
    requires |io.transformVariationIndices| == |io.originalTransforms|
    ensures |ObjectRemoved(io, at).variationObjects| == 1
    ensures ObjectRemoved(io, at).transformVariationIndices == io.transformVariationIndices
  {
  }

  /** Removing at the index just added gives back the old variations and offsets;
      with two or more variations the output is the old one with its assignments redrawn. */
  lemma RemoveUndoesAdd(io: InstancedOutput, at: nat, obj: Ptr)
    requires io.InLockstep() && at <= |io.variationObjects| && |io.variationObjects| >= 1
    ensures var r := ObjectRemoved(ObjectAdded(io, at, obj), at);
      r.variationObjects == io.variationObjects && r.variationTransformOffsets == io.variationTransformOffsets && r.changed
    ensures |io.variationObjects| >= 2 ==>
      ObjectRemoved(ObjectAdded(io, at, obj), at) ==
      io.(transformVariationIndices := ReassignedIndices(io)).MarkChanged(true)
  {
    var a := ObjectAdded(io, at, obj);
    ObjectAddedShape(io, at, obj);
    var r := ObjectRemoved(a, at);
    assert r.variationObjects == a.variationObjects[..at] + a.variationObjects[at + 1..];
    assert a.variationObjects[..at] + a.variationObjects[at + 1..] == io.variationObjects[..at] + io.variationObjects[at..];
    assert io.variationObjects == io.variationObjects[..at] + io.variationObjects[at..];
    assert r.variationTransformOffsets == a.variationTransformOffsets[..at] + a.variationTransformOffsets[at + 1..];
    assert io.variationTransformOffsets == io.variationTransformOffsets[..at] + io.variationTransformOffsets[at..];
  }

  /** Setting touches only the one variation object and the changed flag; the
      offsets and the assignments stay. */
  lemma ObjectSetShape(io: InstancedOutput, at: int, obj: Ptr)
    ensures var r := ObjectSet(io, at, obj);
      r.variationTransformOffsets == io.variationTransformOffsets &&
      r.transformVariationIndices == io.transformVariationIndices &&
      |r.variationObjects| == |io.variationObjects| &&
      (forall k :: 0 <= k < |io.variationObjects| && k != at ==> r.variationObjects[k] == io.variationObjects[k]) &&
      r.originalObject == io.originalObject
    ensures 0 <= at < |io.variationObjects| ==> ObjectSet(io, at, obj).variationObjects[at] == obj && ObjectSet(io, at, obj).changed
    ensures !(0 <= at < |io.variationObjects|) ==> ObjectSet(io, at, obj) == io
  {
  }

  /** The reset button: the variation goes back to the original object, whatever it
      was set to before. */
  lemma ResetRestoresOriginal(io: InstancedOutput, at: int, obj: Ptr)
    requires 0 <= at < |io.variationObjects|
    ensures var r := ObjectSet(ObjectSet(io, at, obj), at, io.originalObject);
      r.variationObjects == io.variationObjects[at := io.originalObject] && r.changed &&
      r.variationTransformOffsets == io.variationTransformOffsets
  {
  }

  /** Rewrites the entry under `key` and nothing else of the output. */
  method StoreInstancedOutput(output: Output, key: Identifier, io: InstancedOutput)
    modifies output
    ensures output.instancedOutputs == old(output.instancedOutputs)[key := io]
    ensures output.outputObjects == old(output.outputObjects) && output.Settings() == old(output.Settings())
  {
    output.SetInstancedOutputs(output.instancedOutputs[key := io]);
  }

  method AddObjectAt(output: Output, key: Identifier, at: int, obj: Ptr)
    requires key in output.instancedOutputs && output.instancedOutputs[key].InLockstep()
    requires 0 <= at <= |output.instancedOutputs[key].variationObjects|
    modifies output
    ensures output.instancedOutputs == old(output.instancedOutputs)[key := ObjectAdded(old(output.instancedOutputs[key]), at, obj)]
    ensures output.outputObjects == old(output.outputObjects) && output.Settings() == old(output.Settings())
  {
    var io := output.instancedOutputs[key];
    io := io.(variationObjects := InsertAt(io.variationObjects, at, obj),
              variationTransformOffsets := InsertAt(io.variationTransformOffsets, at, IdentityTransform));
    io := UpdateVariationAssignements(io);
    io := io.MarkChanged(true);
    StoreInstancedOutput(output, key, io);
  }

  method RemoveObjectAt(output: Output, key: Identifier, at: int)
    requires key in output.instancedOutputs && output.instancedOutputs[key].InLockstep()
    modifies output
    ensures output.instancedOutputs == old(output.instancedOutputs)[key := ObjectRemoved(old(output.instancedOutputs[key]), at)]
    ensures output.outputObjects == old(output.outputObjects) && output.Settings() == old(output.Settings())
  {
    var io := output.instancedOutputs[key];
    if at < 0 || at >= |io.variationObjects| {
      StoreInstancedOutput(output, key, io);
      return;
    }
    if |io.variationObjects| == 1 {
      StoreInstancedOutput(output, key, io);
      return;
    }
    io := io.(variationObjects := RemoveAt(io.variationObjects, at),
              variationTransformOffsets := RemoveAt(io.variationTransformOffsets, at));
    io := UpdateVariationAssignements(io);
    io := io.MarkChanged(true);
    StoreInstancedOutput(output, key, io);
  }

  method SetObjectAt(output: Output, key: Identifier, at: int, obj: Ptr)
    requires key in output.instancedOutputs
    modifies output
    ensures output.instancedOutputs == old(output.instancedOutputs)[key := ObjectSet(old(output.instancedOutputs[key]), at, obj)]
    ensures output.outputObjects == old(output.outputObjects) && output.Settings() == old(output.Settings())
  {
    var io := output.instancedOutputs[key];
    if 0 <= at < |io.variationObjects| {
      io := io.(variationObjects := io.variationObjects[at := obj]);
      io := io.MarkChanged(true);
    }
    StoreInstancedOutput(output, key, io);
  }

  /** The reset button next to a variation: `SetObjectAt` with the original object. */
  method ResetObjectAt(output: Output, key: Identifier, at: int)
    requires key in output.instancedOutputs
    modifies output
    ensures var io := old(output.instancedOutputs[key]);
      output.instancedOutputs == old(output.instancedOutputs)[key := ObjectSet(io, at, io.originalObject)]
    ensures output.outputObjects == old(output.outputObjects) && output.Settings() == old(output.Settings())
  {
    SetObjectAt(output, key, at, output.instancedOutputs[key].originalObject);
  }

  // ---------------------------------------------------------------------
  // Bake names.

  /** The output objects with the bake name of the entry under `id`, if there is one, set to `name`. */
  function WithBakeName(m: map<Identifier, OutputObject>, id: Identifier, name: string): map<Identifier, OutputObject>
  {
    if id in m then m[id := m[id].(bakeName := name)] else m
  }

  /** Only the bake name of a present entry moves; an unknown identifier changes nothing. */
  lemma WithBakeNameShape(m: map<Identifier, OutputObject>, id: Identifier, name: string)
    ensures var r := WithBakeName(m, id, name);
      r.Keys == m.Keys && (forall k :: k in m && k != id ==> r[k] == m[k]) &&
      (id in m ==> r[id].bakeName == name && r[id].(bakeName := m[id].bakeName) == m[id]) &&
      (id !in m ==> r == m)
  {
  }

  /** Reverting after a commit is reverting; committing the name an entry
      already has changes nothing. */
  lemma RevertUndoesCommit(m: map<Identifier, OutputObject>, id: Identifier, name: string)
    ensures WithBakeName(WithBakeName(m, id, name), id, "") == WithBakeName(m, id, "")
    ensures id in m && m[id].bakeName == "" ==> WithBakeName(WithBakeName(m, id, name), id, "") == m
  {
    if id in m {
      assert m[id].(bakeName := m[id].bakeName) == m[id];
    }
  }

  /** `OnBakeNameCommitted`: the committed text becomes the entry's bake name; a
      null output or an unknown identifier is left alone. */
  method OnBakeNameCommitted(output: Output?, id: Identifier, val: string)
    modifies output
    ensures output != null ==> output.outputObjects == WithBakeName(old(output.outputObjects), id, val)
    ensures output != null ==> output.instancedOutputs == old(output.instancedOutputs)
    ensures output != null ==> output.Settings() == old(output.Settings())
  {
    if output == null {
      return;
    }
    var objects := output.GetOutputObjects();
    if id !in objects {
      return;
    }
    output.SetOutputObjects(objects[id := objects[id].(bakeName := val)]);
  }

  /** `OnRevertBakeNameToDefault`: the entry's bake name emptied. */
  method OnRevertBakeNameToDefault(output: Output?, id: Identifier)
    modifies output
    ensures output != null ==> output.outputObjects == WithBakeName(old(output.outputObjects), id, "")
    ensures output != null ==> output.instancedOutputs == old(output.instancedOutputs)
    ensures output != null ==> output.Settings() == old(output.Settings())
  {
    if output == null {
      return;
    }
    var objects := output.GetOutputObjects();
    if id !in objects {
      return;
    }
    output.SetOutputObjects(objects[id := objects[id].(bakeName := "")]);
  }

  /**
   * The name `OnBakeOutputObject` bakes under, None when the baked object is
   * null or pending kill: the name given, or when it is empty the part's custom
   * name, or else the object's own name.
   */
  function BakeObjectName(bakeName: string, baked: Ptr, part: GeoPart, scene: Scene): (r: Option<string>)
    ensures r.None? <==> !IsLive(baked, scene)
    ensures r.Some? && bakeName != "" ==> r.value == bakeName
    ensures r.Some? && bakeName == "" && part.hasCustomPartName ==> r.value == part.partName
    ensures r.Some? && bakeName == "" && !part.hasCustomPartName ==> r.value == baked.obj.name
  {
    if !IsLive(baked, scene) then None
    else if bakeName != "" then Some(bakeName)
    else if part.hasCustomPartName then Some(part.partName)
    else Some(baked.obj.name)
  }

  /** The bake name chosen in the panel always wins; without it the part's custom name does. */
  lemma BakeNamePriority(bakeName: string, baked: Ptr, part: GeoPart, scene: Scene)
    requires IsLive(baked, scene)
    ensures BakeObjectName(bakeName, baked, part, scene).Some?
    ensures BakeObjectName(bakeName, baked, part, scene).value ==
      (if bakeName != "" then bakeName else BakeObjectName("", baked, part, scene).value)
    ensures part.hasCustomPartName ==> BakeObjectName("", baked, part, scene) == Some(part.partName)
  {
  }

  // ---------------------------------------------------------------------
  // Material replacement on a static mesh slot.

  /** HAPI_UNREAL_DEFAULT_MATERIAL_NAME. */
  const DefaultMaterialName: string := "default_material"

  /** A static mesh asset: its handle and its material slots, which the callbacks rewrite. */
  class MeshAsset {
    const obj: Obj
    var materials: seq<Ptr>

    constructor (obj: Obj, materials: seq<Ptr>)
      ensures this.obj == obj && this.materials == materials
    {
      this.obj := obj;
      this.materials := materials;
    }
  }

  /** Some key of `m` holds the material `v`. */
  predicate HasValue(m: map<string, Ptr>, v: Ptr)
  {
    exists k :: k in m && m[k] == v
  }

  /** `TMap::FindKey`: a key holding `v`, if there is one. Which of several is not modelled. */
  method FindKey(m: map<string, Ptr>, v: Ptr) returns (r: Option<string>)
    ensures r.Some? <==> HasValue(m, v)
    ensures r.Some? ==> r.value in m && m[r.value] == v
  {
    if HasValue(m, v) {
      var k :| k in m && m[k] == v;
      r := Some(k);
    } else {
      r := None;
    }
  }

  /**
   * The key a drop files its replacement under, looked up in this order: a
   * replacement key holding the old material, an assignment key holding it,
   * the default material's name when it is the default material, its own name.
   */
  predicate IsDropKey(repl: map<string, Ptr>, assign: map<string, Ptr>, oldMat: Ptr, defaultMat: Ptr, key: string)
  {
    if HasValue(repl, oldMat) then key in repl && repl[key] == oldMat
    else if HasValue(assign, oldMat) then key in assign && assign[key] == oldMat
    else if oldMat == defaultMat then key == DefaultMaterialName
    else oldMat.Ref? && key == oldMat.obj.name
  }

  /** The old material's own name is read only when neither map holds it and it is
      not the default material; that read needs a material there. */
  predicate NameReadable(repl: map<string, Ptr>, assign: map<string, Ptr>, oldMat: Ptr, defaultMat: Ptr)
  {
    HasValue(repl, oldMat) || HasValue(assign, oldMat) || oldMat == defaultMat || oldMat.Ref?
  }

  /** The material a reset puts back for `key`: its non-null assignment, or the default material. */
  function RestoredMaterial(assign: map<string, Ptr>, key: string, defaultMat: Ptr): (r: Ptr)
    ensures r == defaultMat || (key in assign && r == assign[key] && r != Null)
  {
    if key in assign && assign[key] != Null then assign[key] else defaultMat
  }

  /** `Cast<UStaticMeshComponent>` succeeds: a static mesh component or one of its instanced subclasses. */
  predicate IsMeshComponent(cls: ObjClass)
  {
    cls.StaticMeshComp? || cls.InstancedMeshComp? || cls.HierInstancedMeshComp?
  }

  /** Whether the output component of `o` shows `mesh` and so gets the new material;
      the drop also skips a pending-kill component, the reset does not. */
  predicate ShowsMesh(o: OutputObject, mesh: Obj, meshOf: Obj -> Ptr, scene: Scene, skipDead: bool)
  {
    o.outputComponent.Ref? && IsMeshComponent(o.outputComponent.obj.cls) &&
    (!skipDead || o.outputComponent.obj.id !in scene.dead) && meshOf(o.outputComponent.obj) == Ref(mesh)
  }

  /** The components of `m`'s entries under `keys` that show the mesh. */
  function MeshUsers(m: map<Identifier, OutputObject>, keys: set<Identifier>, mesh: Obj, meshOf: Obj -> Ptr,
                     scene: Scene, skipDead: bool): set<nat>
  {
    set k | k in keys && k in m && ShowsMesh(m[k], mesh, meshOf, scene, skipDead) :: m[k].outputComponent.obj.id
  }

  lemma MeshUsersStep(m: map<Identifier, OutputObject>, keys: set<Identifier>, k: Identifier, mesh: Obj,
                      meshOf: Obj -> Ptr, scene: Scene, skipDead: bool, acc: set<nat>, acc': set<nat>)
    requires k in m && acc == MeshUsers(m, keys, mesh, meshOf, scene, skipDead)
    requires acc' == acc + (if ShowsMesh(m[k], mesh, meshOf, scene, skipDead) then {m[k].outputComponent.obj.id} else {})
    ensures acc' == MeshUsers(m, keys + {k}, mesh, meshOf, scene, skipDead)
  {
  }

  /** The loop over the output objects that sets the slot's material on every
      component showing the mesh; its result is the ids of those components. */
  method RetargetComponents(m: map<Identifier, OutputObject>, mesh: Obj, meshOf: Obj -> Ptr, scene: Scene, skipDead: bool)
    returns (updated: set<nat>)
    ensures updated == MeshUsers(m, m.Keys, mesh, meshOf, scene, skipDead)
  {
    updated := {};
    var left := m.Keys;
    var done := {};
    while left != {}
      invariant done + left == m.Keys
      invariant updated == MeshUsers(m, done, mesh, meshOf, scene, skipDead)
      decreases |left|
    {
      var k :| k in left;
      var next := updated;
      if ShowsMesh(m[k], mesh, meshOf, scene, skipDead) {
        next := next + {m[k].outputComponent.obj.id};
      }
      MeshUsersStep(m, done, k, mesh, meshOf, scene, skipDead, updated, next);
      updated := next;
      left := left - {k};
      done := done + {k};
    }
  }

  /**
   * `OnMaterialInterfaceDropped`. Nothing happens for a dropped object that is
   * not a live material, a null or pending-kill mesh, an invalid slot, the
   * slot's own material, or an empty key. Otherwise the key found goes to the
   * new material in the replacement map, the slot takes it, and so does every
   * live mesh component of the output showing the mesh, whose ids are returned.
   */
  method OnMaterialInterfaceDropped(dropped: Ptr, mesh: MeshAsset?, output: Output, idx: int, defaultMat: Ptr,
                                    meshOf: Obj -> Ptr, scene: Scene)
    returns (filed: Option<string>, updated: set<nat>)
    requires mesh != null && IsLive(dropped, scene) && dropped.obj.cls.MaterialAsset? && mesh.obj.id !in scene.dead &&
             0 <= idx < |mesh.materials| ==>
             NameReadable(output.replacementMaterials, output.assignementMaterials, mesh.materials[idx], defaultMat)
    modifies output, mesh
    ensures output.outputObjects == old(output.outputObjects) && output.instancedOutputs == old(output.instancedOutputs)
    ensures output.assignementMaterials == old(output.assignementMaterials)
    ensures output.outputType == old(output.outputType) && output.geoParts == old(output.geoParts)
    ensures output.Flags() == old(output.Flags())
    ensures filed.None? ==> output.replacementMaterials == old(output.replacementMaterials) &&
                            (mesh != null ==> mesh.materials == old(mesh.materials)) && updated == {}
    ensures filed.Some? ==>
      filed.value != "" &&
      IsLive(dropped, scene) && dropped.obj.cls.MaterialAsset? && mesh != null && mesh.obj.id !in scene.dead &&
      0 <= idx < |old(mesh.materials)| && old(mesh.materials)[idx] != dropped
    ensures IsLive(dropped, scene) && dropped.obj.cls.MaterialAsset? && mesh != null && mesh.obj.id !in scene.dead &&
            0 <= idx < |old(mesh.materials)| && old(mesh.materials)[idx] != dropped ==>
      filed.Some? ||
      IsDropKey(old(output.replacementMaterials), old(output.assignementMaterials), old(mesh.materials)[idx], defaultMat, "")
    ensures filed.Some? ==>
      IsDropKey(old(output.replacementMaterials), old(output.assignementMaterials), old(mesh.materials)[idx], defaultMat, filed.value) &&
      output.replacementMaterials == old(output.replacementMaterials)[filed.value := dropped] &&
      mesh.materials == old(mesh.materials)[idx := dropped] &&
      updated == MeshUsers(output.outputObjects, output.outputObjects.Keys, mesh.obj, meshOf, scene, true)
  {
    filed, updated := None, {};
    if !IsLive(dropped, scene) || !dropped.obj.cls.MaterialAsset? {
      return;
    }
    if mesh == null || mesh.obj.id in scene.dead {
      return;
    }
    if !(0 <= idx < |mesh.materials|) {
      return;
    }
    var oldMat := mesh.materials[idx];
    if oldMat == dropped {
      return;
    }
    var key: string;
    var found := FindKey(output.replacementMaterials, oldMat);
    if found.Some? {
      key := found.value;
    } else {
      found := FindKey(output.assignementMaterials, oldMat);
      if found.Some? {
        key := found.value;
      } else if oldMat == defaultMat {
        key := DefaultMaterialName;
      } else {
        key := oldMat.obj.name;
      }
    }
    if key == "" {
      return;
    }
    output.replacementMaterials := output.replacementMaterials[key := dropped];
    mesh.materials := mesh.materials[idx := dropped];
    updated := RetargetComponents(output.outputObjects, mesh.obj, meshOf, scene, true);
    filed := Some(key);
  }

  /**
   * `OnResetMaterialInterfaceClicked`. Nothing happens for a null or
   * pending-kill mesh, an invalid slot, an empty slot, or a slot material that
   * is not a replacement. Otherwise that replacement key is removed, and the
   * slot and every mesh component of the output showing the mesh take the
   * key's assignment, or the default material.
   */
  method OnResetMaterialInterfaceClicked(mesh: MeshAsset?, output: Output, idx: int, defaultMat: Ptr,
                                         meshOf: Obj -> Ptr, scene: Scene)
    returns (removed: Option<string>, updated: set<nat>)
    modifies output, mesh
    ensures output.outputObjects == old(output.outputObjects) && output.instancedOutputs == old(output.instancedOutputs)
    ensures output.assignementMaterials == old(output.assignementMaterials)
    ensures output.outputType == old(output.outputType) && output.geoParts == old(output.geoParts)
    ensures output.Flags() == old(output.Flags())
    ensures removed.None? ==> output.replacementMaterials == old(output.replacementMaterials) &&
                              (mesh != null ==> mesh.materials == old(mesh.materials)) && updated == {}
    ensures removed.Some? <==>
      mesh != null && mesh.obj.id !in scene.dead && 0 <= idx < |old(mesh.materials)| &&
      old(mesh.materials)[idx] != Null && HasValue(old(output.replacementMaterials), old(mesh.materials)[idx])
    ensures removed.Some? ==>
      removed.value in old(output.replacementMaterials) &&
      old(output.replacementMaterials)[removed.value] == old(mesh.materials)[idx] &&
      output.replacementMaterials == old(output.replacementMaterials) - {removed.value} &&
      mesh.materials == old(mesh.materials)[idx := RestoredMaterial(output.assignementMaterials, removed.value, defaultMat)] &&
      updated == MeshUsers(output.outputObjects, output.outputObjects.Keys, mesh.obj, meshOf, scene, false)
  {
    removed, updated := None, {};
    if mesh == null || mesh.obj.id in scene.dead {
      return;
    }
    if !(0 <= idx < |mesh.materials|) {
      return;
    }
    var current := mesh.materials[idx];
    if current == Null {
      return;
    }
    var found := FindKey(output.replacementMaterials, current);
    if found.None? {
      return;
    }
    var key := found.value;
    output.replacementMaterials := output.replacementMaterials - {key};
    var assignMat := defaultMat;
    if key in output.assignementMaterials && output.assignementMaterials[key] != Null {
      assignMat := output.assignementMaterials[key];
    }
    mesh.materials := mesh.materials[idx := assignMat];
    updated := RetargetComponents(output.outputObjects, mesh.obj, meshOf, scene, false);
    removed := Some(key);
  }

  /**
   * Resetting undoes a drop: when the old material came from the assignments
   * under a key that is not yet a replacement, and no replacement holds the
   * old or the new material, the reset finds that key, removes exactly the
   * entry the drop added, and puts the old material back.
   */
  lemma ResetUndoesDrop(repl: map<string, Ptr>, assign: map<string, Ptr>, oldMat: Ptr, newMat: Ptr,
                        defaultMat: Ptr, key: string)
    requires IsDropKey(repl, assign, oldMat, defaultMat, key) && key !in repl
    requires !HasValue(repl, newMat) && HasValue(assign, oldMat) && oldMat != Null
    ensures HasValue(repl[key := newMat], newMat)
    ensures !HasValue(repl[key := newMat] - {key}, newMat)
    ensures repl[key := newMat] - {key} == repl
    ensures RestoredMaterial(assign, key, defaultMat) == oldMat
  {
    assert repl[key := newMat][key] == newMat;
  }

  /** Dropping again on the slot that took the previous drop's material, while no other
      replacement holds that material, files under the same key: the replacement map
      keeps one entry for the slot however often it is dropped on. */
  lemma RedropReusesKey(repl: map<string, Ptr>, assign: map<string, Ptr>, oldMat: Ptr, newMat: Ptr,
                        defaultMat: Ptr, key: string, key2: string)
    requires IsDropKey(repl, assign, oldMat, defaultMat, key) && !HasValue(repl, newMat)
    requires IsDropKey(repl[key := newMat], assign, newMat, defaultMat, key2)
    ensures key2 == key
    ensures (repl[key := newMat]).Keys == repl.Keys + {key}
  {
    assert repl[key := newMat][key] == newMat;
  }
}
