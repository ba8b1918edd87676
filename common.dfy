/**
 * Engine-side values shared by the whole model: object handles with a
 * liveness flag, transforms, and the Option wrapper.
 *
 * Unreal objects are identified by an abstract id. A raw `UObject*` is a
 * `Ptr`; "pending kill" is membership in the scene's `dead` set, so one
 * handle can be live in one scene and dead in the next.
 */
module Common {

  datatype Option<T> = None | Some(value: T)

  /** The engine class of an object: the assets an instancer places, then the
      scene components the instance translator creates. */
  datatype ObjClass =
    | StaticMesh(numLODs: nat)   // UStaticMesh
    | ProxyMesh                  // UHoudiniStaticMesh
    | MaterialAsset              // UMaterialInterface
    | OtherAsset                 // blueprints, sounds, particle systems, ...
    | InstancedMeshComp          // UInstancedStaticMeshComponent
    | HierInstancedMeshComp      // UHierarchicalInstancedStaticMeshComponent
    | MeshSplitComp              // UHoudiniMeshSplitInstancerComponent
    | InstancedActorComp         // UHoudiniInstancedActorComponent
    | StaticMeshComp             // UStaticMeshComponent
    | ProxyMeshComp              // UHoudiniStaticMeshComponent
    | OtherComp

  datatype Obj = Obj(id: nat, cls: ObjClass, name: string)

  /** A raw object pointer. */
  datatype Ptr = Null | Ref(obj: Obj)

  /** The objects that are pending kill. */
  datatype Scene = Scene(dead: set<nat>)

  /** `IsValid(Object)`: non-null and not pending kill. */
  predicate IsLive(p: Ptr, scene: Scene)
  {
    p.Ref? && p.obj.id !in scene.dead
  }

  // ---------------------------------------------------------------------
  // Transforms. Floating point is modelled by reals.

  datatype Vec3 = Vec3(x: real, y: real, z: real)
  datatype Quat = Quat(x: real, y: real, z: real, w: real)
  datatype Transform = Transform(loc: Vec3, rot: Quat, scale: Vec3)

  const IdentityTransform: Transform :=
    Transform(Vec3(0.0, 0.0, 0.0), Quat(0.0, 0.0, 0.0, 1.0), Vec3(1.0, 1.0, 1.0))

  function VAdd(a: Vec3, b: Vec3): Vec3 { Vec3(a.x + b.x, a.y + b.y, a.z + b.z) }

  /**
   * The engine's transform arithmetic the core calls: the FQuat product, the
   * component-wise FVector product and FTransform::IsValid. They are engine
   * code, so the core is stated for any such arithmetic.
   */
  datatype TransformMath = TransformMath(
    rotMul: (Quat, Quat) -> Quat,
    scaleMul: (Vec3, Vec3) -> Vec3,
    isValid: Transform -> bool)
}
