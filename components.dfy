/**
 * Which scene component instances an object: the kind decision of
 * `CreateOrUpdateInstanceComponent`, reuse of the previous component, the
 * destruction of one that is not reused, and the material picks of
 * `GetInstancerMaterials` and `GetVariationMaterials`.
 *
 * The per-kind creators (`CreateOrUpdateInstancedStaticMeshComponent` and the
 * others) are engine work: what they return is an input, `made` for the
 * component they create when there is nothing to reuse and `creatorOk` for
 * their result.
 */
module Components {
  import opened Common
  import opened Seqs
  import opened HoudiniOutput

  /** `InstancerComponentType`. */
  datatype ComponentKind =
    | InvalidKind
    | InstancedStaticMesh
    | HierarchicalInstancedStaticMesh
    | MeshSplitInstancer
    | InstancedActor
    | StaticMeshKind
    | HoudiniStaticMesh

  /** `UObject::IsA` among the component classes: a hierarchical instanced
      mesh component is an instanced one, which is a static mesh component. */
  predicate IsA(cls: ObjClass, target: ObjClass)
  {
    cls == target ||
    (cls == HierInstancedMeshComp && (target == InstancedMeshComp || target == StaticMeshComp)) ||
    (cls == InstancedMeshComp && target == StaticMeshComp)
  }

  /** The kind a component of class `cls` is. */
  function KindOfClass(cls: ObjClass): ComponentKind
  {
    match cls
    case HierInstancedMeshComp => HierarchicalInstancedStaticMesh
    case InstancedMeshComp => InstancedStaticMesh
    case MeshSplitComp => MeshSplitInstancer
    case InstancedActorComp => InstancedActor
    case StaticMeshComp => StaticMeshKind
    case ProxyMeshComp => HoudiniStaticMesh
    case _ => InvalidKind
  }

  /**
   * `OldType`: the tests run from the most derived class down, so a live prior
   * component gets the kind of its own class, and anything else is Invalid.
   */
  function OldKind(prior: Ptr, scene: Scene): (r: ComponentKind)
    ensures IsLive(prior, scene) ==> r == KindOfClass(prior.obj.cls)
    ensures !IsLive(prior, scene) ==> r == InvalidKind
  {
    if !IsLive(prior, scene) then InvalidKind
    else
      var c := prior.obj.cls;
      if IsA(c, HierInstancedMeshComp) then HierarchicalInstancedStaticMesh
      else if IsA(c, InstancedMeshComp) then InstancedStaticMesh
      else if IsA(c, MeshSplitComp) then MeshSplitInstancer
      else if IsA(c, InstancedActorComp) then InstancedActor
      else if IsA(c, StaticMeshComp) then StaticMeshKind
      else if IsA(c, ProxyMeshComp) then HoudiniStaticMesh
      else InvalidKind
  }

  /** The kinds that show one instance and take their transform themselves. */
  predicate SingleInstance(k: ComponentKind)
  {
    k == StaticMeshKind || k == HoudiniStaticMesh
  }

  /** The kind's component can display an object of class `cls`. */
  predicate Hosts(k: ComponentKind, cls: ObjClass)
  {
    match k
    case InstancedStaticMesh | HierarchicalInstancedStaticMesh | MeshSplitInstancer | StaticMeshKind => cls.StaticMesh?
    case HoudiniStaticMesh => cls == ProxyMesh
    case InstancedActor => !cls.StaticMesh? && cls != ProxyMesh
    case InvalidKind => false
  }

  /**
   * `NewType`, or None where the function gives up: a proxy mesh with other
   * than one transform.
   */
  function DesiredKind(cls: ObjClass, count: nat, split: bool): (r: Option<ComponentKind>)
    ensures r.None? <==> cls == ProxyMesh && count != 1
    ensures r.Some? ==> Hosts(r.value, cls)
    ensures r.Some? && r.value != InstancedActor ==> (SingleInstance(r.value) <==> count == 1)
    ensures r == Some(MeshSplitInstancer) ==> split
    ensures r == Some(HierarchicalInstancedStaticMesh) ==> !split && cls.numLODs > 1
    ensures r == Some(InstancedStaticMesh) ==> !split && cls.numLODs <= 1
  {
    if cls.StaticMesh? then
      if count == 1 then Some(StaticMeshKind)
      else if split then Some(MeshSplitInstancer)
      else if cls.numLODs > 1 then Some(HierarchicalInstancedStaticMesh)
      else Some(InstancedStaticMesh)
    else if cls == ProxyMesh then
      if count == 1 then Some(HoudiniStaticMesh) else None
    else Some(InstancedActor)
  }

  /** The kind is the one hosting kind that fits the count, split flag and LOD count. */
  lemma DesiredKindUnique(cls: ObjClass, count: nat, split: bool, k: ComponentKind)
    requires Hosts(k, cls)
    requires k != InstancedActor ==> (SingleInstance(k) <==> count == 1)
    requires k == MeshSplitInstancer ==> split
    requires count != 1 && k.HierarchicalInstancedStaticMesh? ==> !split && cls.numLODs > 1
    requires count != 1 && k.InstancedStaticMesh? ==> !split && cls.numLODs <= 1
    requires count != 1 && cls.StaticMesh? && split ==> k == MeshSplitInstancer
    ensures DesiredKind(cls, count, split) == Some(k)
  {
  }

  /** `InstancerMaterial`: the material at the object's index when there is one, else the first, else none. */
  function PickInstancerMaterial(materials: seq<Ptr>, idx: int): (r: Ptr)
    ensures |materials| == 0 <==> r == Null && Null !in materials
    ensures 0 <= idx < |materials| ==> r == materials[idx]
    ensures |materials| > 0 && !(0 <= idx < |materials|) ==> r == materials[0]
  {
    if |materials| == 0 then Null
    else if 0 <= idx < |materials| then materials[idx]
    else materials[0]
  }

  /** What `CreateOrUpdateInstanceComponent` does: its result, the component it
      leaves in `NewComponent`, its material, and whether it places the
      component at the instancer's transform and destroys the prior one. */
  datatype ComponentChange = ComponentChange(
    ok: bool,
    component: Ptr,
    material: Ptr,
    placedAtInstancer: bool,
    destroysOld: bool)

  function InstanceComponent(cls: ObjClass, count: nat, split: bool, prior: Ptr, scene: Scene,
                             materials: seq<Ptr>, idx: int, made: Ptr, creatorOk: bool): (r: ComponentChange)
    ensures DesiredKind(cls, count, split).None? ==> !r.ok && r.component == Null && !r.destroysOld
    ensures r.ok ==> r.component != Null
    ensures r.component != Null && made != prior ==>
      (r.component == prior <==> DesiredKind(cls, count, split) == Some(OldKind(prior, scene)))
    ensures r.destroysOld <==> r.component != Null && IsLive(prior, scene) && r.component != prior
    ensures r.component != Null ==> r.material == PickInstancerMaterial(materials, idx)
    ensures r.placedAtInstancer ==> r.component != Null && !SingleInstance(DesiredKind(cls, count, split).value)
  {
    var desired := DesiredKind(cls, count, split);
    if desired.None? then ComponentChange(false, Null, Null, false, false)
    else
      var kind := desired.value;
      var component := if OldKind(prior, scene) == kind then prior else made;
      if component == Null then ComponentChange(false, Null, PickInstancerMaterial(materials, idx), false, false)
      else
        ComponentChange(creatorOk, component, PickInstancerMaterial(materials, idx), !SingleInstance(kind),
                        IsLive(prior, scene) && prior != component)
  }

  /** A live prior component of the desired kind is kept and never destroyed;
      one of another kind is replaced and destroyed once a new one exists. */
  lemma ReuseByIdentity(cls: ObjClass, count: nat, split: bool, prior: Ptr, scene: Scene,
                        materials: seq<Ptr>, idx: int, made: Ptr, creatorOk: bool)
    requires DesiredKind(cls, count, split).Some?
    ensures DesiredKind(cls, count, split).value == OldKind(prior, scene) ==>
      var r := InstanceComponent(cls, count, split, prior, scene, materials, idx, made, creatorOk);
      r.component == prior && r.ok == creatorOk && !r.destroysOld
    ensures DesiredKind(cls, count, split).value != OldKind(prior, scene) && IsLive(prior, scene) && made != Null && made != prior ==>
      InstanceComponent(cls, count, split, prior, scene, materials, idx, made, creatorOk).destroysOld
  {
  }

  // ---------------------------------------------------------------------
  // Materials.

  /** `Cast<UMaterialInterface>` of a loaded object, null unless it is a live material. */
  function AsMaterial(p: Ptr, scene: Scene): (r: Ptr)
    ensures r == Null || (r == p && IsLive(p, scene) && p.obj.cls == MaterialAsset)
  {
    if IsLive(p, scene) && p.obj.cls == MaterialAsset then p else Null
  }

  /** Some attribute value loads a live material. */
  predicate AnyMaterial(names: seq<string>, load: string -> Ptr, scene: Scene)
  {
    exists k :: 0 <= k < |names| && AsMaterial(load(names[k]), scene) != Null
  }

  /**
   * What `GetInstancerMaterials` yields: one entry per material-override value,
   * null where it does not load a live material, or nothing at all when no
   * value does (or the attribute cannot be read).
   */
  function InstancerMaterials(names: Option<seq<string>>, load: string -> Ptr, scene: Scene): (r: seq<Ptr>)
    ensures names.None? ==> r == []
    ensures names.Some? && AnyMaterial(names.value, load, scene) ==>
      |r| == |names.value| && forall k :: 0 <= k < |r| ==> r[k] == AsMaterial(load(names.value[k]), scene)
    ensures names.Some? && !AnyMaterial(names.value, load, scene) ==> r == []
  {
    if names.None? || !AnyMaterial(names.value, load, scene) then []
    else seq(|names.value|, k requires 0 <= k < |names.value| => AsMaterial(load(names.value[k]), scene))
  }

  /** Every entry is null or a live material, and some entry is one unless there are none. */
  lemma InstancerMaterialsValues(names: Option<seq<string>>, load: string -> Ptr, scene: Scene)
    ensures var r := InstancerMaterials(names, load, scene);
      (forall k :: 0 <= k < |r| ==> r[k] == Null || (IsLive(r[k], scene) && r[k].obj.cls == MaterialAsset)) &&
      (|r| > 0 ==> exists k :: 0 <= k < |r| && r[k] != Null)
  {
    var r := InstancerMaterials(names, load, scene);
    if |r| > 0 {
      var k :| 0 <= k < |names.value| && AsMaterial(load(names.value[k]), scene) != Null;
      assert r[k] != Null;
    }
  }

  /** `GetInstancerMaterials`: load each override, then drop them all if none was valid. */
  method GetInstancerMaterials(names: Option<seq<string>>, load: string -> Ptr, scene: Scene) returns (out: seq<Ptr>)
    ensures out == InstancerMaterials(names, load, scene)
  {
    if names.None? {
      return [];
    }
    var ns := names.value;
    out := [];
    var valid := false;
    var k := 0;
    while k < |ns|
      invariant 0 <= k <= |ns| && |out| == k
      invariant forall j :: 0 <= j < k ==> out[j] == AsMaterial(load(ns[j]), scene)
      invariant valid <==> exists j :: 0 <= j < k && out[j] != Null
    {
      var m := load(ns[k]);
      if !IsLive(m, scene) || m.obj.cls != MaterialAsset {
        m := Null;
      } else {
        valid := true;
      }
      out := out + [m];
      k := k + 1;
    }
    if !valid {
      out := [];
    }
  }

  /**
   * What `GetVariationMaterials` yields, None where it returns false (no
   * instanced output, no instancer material, no such variation): with one
   * material per transform, the materials of the transforms assigned to the
   * variation, in order; otherwise the material at the variation's index, or
   * the first.
   */
  function VariationMaterials(io: Option<InstancedOutput>, v: int, materials: seq<Ptr>): (r: Option<seq<Ptr>>)
    ensures r.Some? <==> io.Some? && |materials| > 0 && 0 <= v < |io.value.variationObjects|
    ensures r.Some? && |io.value.transformVariationIndices| != |materials| ==>
      r.value == [PickInstancerMaterial(materials, v)]
  {
    if io.None? || |materials| == 0 || !(0 <= v < |io.value.variationObjects|) then None
    else
      var ix := io.value.transformVariationIndices;
      if |ix| == |materials| then Some(SelectUpTo(materials, ix, v, |ix|))
      else if 0 <= v < |materials| then Some([materials[v]])
      else Some([materials[0]])
  }

  /** With one material per transform, each variation gets exactly the
      materials of its transforms, so together the variations get every
      material once when every transform has a variation. */
  lemma VariationMaterialsPartition(io: InstancedOutput, materials: seq<Ptr>)
    requires |materials| > 0 && |io.transformVariationIndices| == |materials|
    requires forall k :: 0 <= k < |materials| ==> 0 <= io.transformVariationIndices[k] < |io.variationObjects|
    ensures forall v :: 0 <= v < |io.variationObjects| ==>
      VariationMaterials(Some(io), v, materials) == Some(SelectUpTo(materials, io.transformVariationIndices, v, |materials|))
    ensures multiset(ConcatSelected(materials, io.transformVariationIndices, Range(|io.variationObjects|), |materials|)) == multiset(materials)
  {
    var n := |materials|;
    InRange(io.transformVariationIndices, |io.variationObjects|);
    SelectionsPartition(materials, io.transformVariationIndices, Range(|io.variationObjects|), n);
    assert materials[..n] == materials;
  }
}
