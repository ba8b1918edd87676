/**
 * `CreateAllInstancersFromHoudiniOutput`: for every instancer part of an
 * output, classify it, resolve its variations, create or reuse one component
 * per variation under the key "{orig}_{var}", then reconcile the old and new
 * output-object maps.
 */
module Instancers {
  import opened Common
  import opened Text
  import opened HoudiniOutput
  import opened Resolver
  import opened Classifier
  import opened Components
  import opened Reconcile

  /**
   * What the engine answers during one cook besides the output itself: the
   * other outputs, the HAPI reads of each part, asset loading, the split
   * flag and material names of each part, and what the component creators
   * produce for each key (the component a new creation yields, and whether
   * the creator succeeds). `materialIdx` is the `InstancerObjectIdx` the
   * material pick is given.
   */
  datatype Engine = Engine(
    outputs: seq<Option<OutputView>>,
    hapi: GeoPart -> HapiReads,
    load: string -> Ptr,
    split: GeoPart -> bool,
    materialNames: GeoPart -> Option<seq<string>>,
    made: Identifier -> Ptr,
    creatorOk: Identifier -> bool,
    materialIdx: int,
    math: TransformMath)

  /** The output identifier of a part before any split: its three ids and its name. */
  function PartIdentifier(part: GeoPart): (r: Identifier)
    ensures Matches(r, part) && r.partName == part.partName && r.splitIdentifier == ""
    ensures r.(objectId := -1, geoId := -1, partId := -1, partName := "") == DefaultIdentifier()
  {
    DefaultIdentifier().(objectId := part.objectId, geoId := part.geoId, partId := part.partId, partName := part.partName)
  }

  /** The instanced-output key of original `o`: "{o}". */
  function OriginalKey(base: Identifier, o: int): Identifier
  {
    base.(splitIdentifier := IntToString(o))
  }

  /** The output-object key of variation `v` of original `o`: "{o}_{v}". */
  function VariationKey(base: Identifier, o: int, v: int): (r: Identifier)
    ensures r.(splitIdentifier := base.splitIdentifier) == base
    ensures o >= 0 && v >= 0 ==> r.splitIdentifier == NatToString(o) + "_" + NatToString(v)
  {
    base.(splitIdentifier := IntToString(o) + "_" + IntToString(v))
  }

  /** Different (original, variation) pairs get different keys. */
  lemma VariationKeysDistinct(base: Identifier, o1: nat, v1: nat, o2: nat, v2: nat)
    requires VariationKey(base, o1, v1) == VariationKey(base, o2, v2)
    ensures o1 == o2 && v1 == v2
  {
    PairToStringInjective(o1, v1, o2, v2);
  }

  /** An instanced original key never equals a variation key: it holds no '_'. */
  lemma OriginalAndVariationKeysDiffer(base: Identifier, o: nat, o2: nat, v: nat)
    ensures OriginalKey(base, o) != VariationKey(base, o2, v)
  {
    var a := NatToString(o);
    var b := NatToString(o2) + "_" + NatToString(v);
    assert b[|NatToString(o2)|] == '_';
  }

  // ---------------------------------------------------------------------
  // One variation.

  /** The new output objects and the scene, threaded through the creation loops. */
  datatype Built = Built(objects: map<Identifier, OutputObject>, scene: Scene)

  /** The old component a variation may reuse: the old entry's proxy component for a proxy mesh, else its output component. */
  function PriorComponent(prev: map<Identifier, OutputObject>, key: Identifier, proxy: bool): (r: Ptr)
    ensures key !in prev ==> r == Null
    ensures key in prev && proxy ==> r == prev[key].proxyComponent
    ensures key in prev && !proxy ==> r == prev[key].outputComponent
  {
    if key !in prev then Null
    else if proxy then prev[key].proxyComponent
    else prev[key].outputComponent
  }

  /** `FindOrAdd(key)` followed by setting its proxy or output component to `c`. */
  function Stored(objects: map<Identifier, OutputObject>, key: Identifier, c: Ptr, proxy: bool)
    : (r: map<Identifier, OutputObject>)
    ensures r.Keys == objects.Keys + {key}
    ensures forall k :: k in objects && k != key ==> r[k] == objects[k]
    ensures proxy ==> r[key].proxyComponent == c
    ensures !proxy ==> r[key].outputComponent == c
    ensures var o := if key in objects then objects[key] else DefaultOutputObject();
      if proxy then r[key].(proxyComponent := o.proxyComponent) == o
      else r[key].(outputComponent := o.outputComponent) == o
  {
    var o := if key in objects then objects[key] else DefaultOutputObject();
    objects[key := if proxy then o.(proxyComponent := c) else o.(outputComponent := c)]
  }

  /** The scene once `p`, if any, is destroyed. */
  function Destroying(scene: Scene, p: Ptr): (r: Scene)
    ensures p.Ref? ==> r.dead == scene.dead + {p.obj.id}
    ensures p == Null ==> r == scene
  {
    if p.Ref? then Scene(scene.dead + {p.obj.id}) else scene
  }

  /** The component change variation `j` of `vars` makes. */
  function VariationChange(base: Identifier, vars: Variations, j: nat, prev: map<Identifier, OutputObject>,
                           instanced: map<Identifier, InstancedOutput>, split: bool, materials: seq<Ptr>,
                           e: Engine, scene: Scene): ComponentChange
    requires vars.InLockstep() && j < |vars.objects| && vars.objects[j].Ref?
  {
    var obj := vars.objects[j];
    var ts := vars.transforms[j];
    var ik := OriginalKey(base, vars.originalIndices[j]);
    var io := if ik in instanced then Some(instanced[ik]) else None;
    var key := VariationKey(base, vars.originalIndices[j], vars.variationIndices[j]);
    var prior := PriorComponent(prev, key, obj.obj.cls == ProxyMesh);
    var vm := VariationMaterials(io, j, materials);
    InstanceComponent(obj.obj.cls, |ts|, split, prior, scene, if vm.Some? then vm.value else [],
                      e.materialIdx, e.made(key), e.creatorOk(key))
  }

  /**
   * One turn of the creation loop: a dead object or one without transforms is
   * skipped; otherwise the component is created or reused, the one it
   * replaces destroyed, and, on success, stored under "{orig}_{var}".
   */
  function VariationStep(base: Identifier, vars: Variations, j: nat, prev: map<Identifier, OutputObject>,
                         instanced: map<Identifier, InstancedOutput>, split: bool, materials: seq<Ptr>,
                         e: Engine, b: Built): Built
    requires vars.InLockstep() && j < |vars.objects|
  {
    var obj := vars.objects[j];
    if !IsLive(obj, b.scene) || |vars.transforms[j]| == 0 then b
    else
      var key := VariationKey(base, vars.originalIndices[j], vars.variationIndices[j]);
      var proxy := obj.obj.cls == ProxyMesh;
      var ch := VariationChange(base, vars, j, prev, instanced, split, materials, e, b.scene);
      var scene := if ch.destroysOld then Destroying(b.scene, PriorComponent(prev, key, proxy)) else b.scene;
      if !ch.ok then Built(b.objects, scene)
      else Built(Stored(b.objects, key, ch.component, proxy), scene)
  }

  /** The first `n` turns of the creation loop. */
  function Placements(base: Identifier, vars: Variations, prev: map<Identifier, OutputObject>,
                      instanced: map<Identifier, InstancedOutput>, split: bool, materials: seq<Ptr>,
                      e: Engine, b: Built, n: nat): Built
    requires vars.InLockstep() && n <= |vars.objects|
  {
    if n == 0 then b
    else VariationStep(base, vars, n - 1, prev, instanced, split, materials, e,
                       Placements(base, vars, prev, instanced, split, materials, e, b, n - 1))
  }

  /** One turn of the creation loop, as the loop body runs it. */
  method PlaceVariation(base: Identifier, vars: Variations, j: nat, prev: map<Identifier, OutputObject>,
                        instanced: map<Identifier, InstancedOutput>, split: bool, materials: seq<Ptr>,
                        e: Engine, b: Built) returns (b': Built)
    requires vars.InLockstep() && j < |vars.objects|
    ensures b' == VariationStep(base, vars, j, prev, instanced, split, materials, e, b)
  {
    b' := b;
    var obj := vars.objects[j];
    if !IsLive(obj, b.scene) {
      return;
    }
    var ts := vars.transforms[j];
    if |ts| <= 0 {
      return;
    }
    var key := VariationKey(base, vars.originalIndices[j], vars.variationIndices[j]);
    var proxy := obj.obj.cls == ProxyMesh;
    var prior := Null;
    if key in prev {
      prior := if proxy then prev[key].proxyComponent else prev[key].outputComponent;
    }
    var ch := VariationChange(base, vars, j, prev, instanced, split, materials, e, b.scene);
    var scene := b.scene;
    if ch.destroysOld {
      scene := RemoveAndDestroyComponent(prior, scene);
    }
    if !ch.ok || ch.component == Null {
      b' := Built(b.objects, scene);
      return;
    }
    var entry := if key in b.objects then b.objects[key] else DefaultOutputObject();
    if proxy {
      entry := entry.(proxyComponent := ch.component);
    } else {
      entry := entry.(outputComponent := ch.component);
    }
    b' := Built(b.objects[key := entry], scene);
  }

  /** The creation loop over the resolved variations of one part. */
  method CreateInstancerComponents(base: Identifier, vars: Variations, prev: map<Identifier, OutputObject>,
                                   instanced: map<Identifier, InstancedOutput>, split: bool, materials: seq<Ptr>,
                                   e: Engine, b: Built) returns (b': Built)
    requires vars.InLockstep()
    ensures b' == Placements(base, vars, prev, instanced, split, materials, e, b, |vars.objects|)
  {
    b' := b;
    var j := 0;
    while j < |vars.objects|
      invariant 0 <= j <= |vars.objects|
      invariant b' == Placements(base, vars, prev, instanced, split, materials, e, b, j)
    {
      PlacementsStep(base, vars, prev, instanced, split, materials, e, b, j);
      b' := PlaceVariation(base, vars, j, prev, instanced, split, materials, e, b');
      j := j + 1;
    }
  }

  /** The creation loop over one more variation is one more turn. */
  lemma PlacementsStep(base: Identifier, vars: Variations, prev: map<Identifier, OutputObject>,
                       instanced: map<Identifier, InstancedOutput>, split: bool, materials: seq<Ptr>,
                       e: Engine, b: Built, j: nat)
    requires vars.InLockstep() && j < |vars.objects|
    ensures Placements(base, vars, prev, instanced, split, materials, e, b, j + 1)
         == VariationStep(base, vars, j, prev, instanced, split, materials, e,
                          Placements(base, vars, prev, instanced, split, materials, e, b, j))
  {
  }

  /** One turn adds at most the key of its own variation. */
  lemma VariationStepKeys(base: Identifier, vars: Variations, j: nat, prev: map<Identifier, OutputObject>,
                          instanced: map<Identifier, InstancedOutput>, split: bool, materials: seq<Ptr>,
                          e: Engine, b: Built)
    requires vars.InLockstep() && j < |vars.objects|
    ensures var r := VariationStep(base, vars, j, prev, instanced, split, materials, e, b);
      b.objects.Keys <= r.objects.Keys <= b.objects.Keys + {VariationKey(base, vars.originalIndices[j], vars.variationIndices[j])}
  {
  }

  /** Every key the creation loop adds is the "{orig}_{var}" key of one of the variations it went through. */
  lemma {:induction false} PlacementKeys(base: Identifier, vars: Variations, prev: map<Identifier, OutputObject>,
                                         instanced: map<Identifier, InstancedOutput>, split: bool, materials: seq<Ptr>,
                                         e: Engine, b: Built, n: nat)
    requires vars.InLockstep() && n <= |vars.objects|
    ensures b.objects.Keys <= Placements(base, vars, prev, instanced, split, materials, e, b, n).objects.Keys
    ensures forall key :: key in Placements(base, vars, prev, instanced, split, materials, e, b, n).objects && key !in b.objects ==>
      exists j :: 0 <= j < n && key == VariationKey(base, vars.originalIndices[j], vars.variationIndices[j])
  {
    if n > 0 {
      PlacementKeys(base, vars, prev, instanced, split, materials, e, b, n - 1);
      var before := Placements(base, vars, prev, instanced, split, materials, e, b, n - 1);
      VariationStepKeys(base, vars, n - 1, prev, instanced, split, materials, e, before);
      var after := Placements(base, vars, prev, instanced, split, materials, e, b, n);
      PlacementsStep(base, vars, prev, instanced, split, materials, e, b, n - 1);
      forall key | key in after.objects && key !in b.objects
        ensures exists j :: 0 <= j < n && key == VariationKey(base, vars.originalIndices[j], vars.variationIndices[j])
      {
        if key !in before.objects {
          assert key == VariationKey(base, vars.originalIndices[n - 1], vars.variationIndices[n - 1]);
        } else {
          var j :| 0 <= j < n - 1 && key == VariationKey(base, vars.originalIndices[j], vars.variationIndices[j]);
        }
      }
    }
  }

  /**
   * Reuse by identity: when the old entry's component is live and of the kind
   * the variation needs, the step stores that very component (if its creator
   * succeeds) and destroys nothing; when it is live but of another kind, the
   * step destroys it once a new component exists.
   */
  lemma VariationStepReuses(base: Identifier, vars: Variations, j: nat, prev: map<Identifier, OutputObject>,
                            instanced: map<Identifier, InstancedOutput>, split: bool, materials: seq<Ptr>,
                            e: Engine, b: Built)
    requires vars.InLockstep() && j < |vars.objects| && IsLive(vars.objects[j], b.scene) && |vars.transforms[j]| > 0
    requires DesiredKind(vars.objects[j].obj.cls, |vars.transforms[j]|, split).Some?
    ensures var key := VariationKey(base, vars.originalIndices[j], vars.variationIndices[j]);
      var proxy := vars.objects[j].obj.cls == ProxyMesh;
      var prior := PriorComponent(prev, key, proxy);
      var r := VariationStep(base, vars, j, prev, instanced, split, materials, e, b);
      (DesiredKind(vars.objects[j].obj.cls, |vars.transforms[j]|, split).value == OldKind(prior, b.scene) ==>
        r.scene == b.scene &&
        (e.creatorOk(key) ==> key in r.objects && (if proxy then r.objects[key].proxyComponent else r.objects[key].outputComponent) == prior)) &&
      (DesiredKind(vars.objects[j].obj.cls, |vars.transforms[j]|, split).value != OldKind(prior, b.scene) &&
       IsLive(prior, b.scene) && e.made(key) != Null && e.made(key) != prior ==>
        prior.obj.id in r.scene.dead)
  {
    var key := VariationKey(base, vars.originalIndices[j], vars.variationIndices[j]);
    var proxy := vars.objects[j].obj.cls == ProxyMesh;
    var prior := PriorComponent(prev, key, proxy);
    var ik := OriginalKey(base, vars.originalIndices[j]);
    var io := if ik in instanced then Some(instanced[ik]) else None;
    var vm := VariationMaterials(io, j, materials);
    ReuseByIdentity(vars.objects[j].obj.cls, |vars.transforms[j]|, split, prior, b.scene,
                    if vm.Some? then vm.value else [], e.materialIdx, e.made(key), e.creatorOk(key));
  }

  // ---------------------------------------------------------------------
  // All parts.

  /** The instanced outputs and the creation state, threaded through the part loop. */
  datatype Cook = Cook(instanced: map<Identifier, InstancedOutput>, built: Built)

  /**
   * One turn of the part loop: a non-instancer part or one that does not
   * classify is skipped; otherwise its variations are resolved against the
   * instanced outputs and a component is made for each.
   */
  function PartStep(part: GeoPart, prev: map<Identifier, OutputObject>, e: Engine, c: Cook): (r: Cook)
    requires AllInLockstep(c.instanced)
    ensures AllInLockstep(r.instanced)
  {
    if part.partType != InstancerPart then c
    else
      var scene := c.built.scene;
      var placed := Classify(part, e.outputs, e.hapi(part), e.load, scene);
      if placed.None? then c
      else
        var base := PartIdentifier(part);
        var resolved := ResolveAll(base, placed.value.objects, placed.value.transforms, c.instanced, scene, e.math,
                                   |placed.value.objects|);
        var materials := InstancerMaterials(e.materialNames(part), e.load, scene);
        Cook(resolved.0, Placements(base, resolved.1, prev, resolved.0, e.split(part), materials, e, c.built,
                                    |resolved.1.objects|))
  }

  /** The first `n` turns of the part loop. */
  function Cooked(parts: seq<GeoPart>, prev: map<Identifier, OutputObject>, e: Engine, c: Cook, n: nat): (r: Cook)
    requires n <= |parts| && AllInLockstep(c.instanced)
    ensures AllInLockstep(r.instanced)
  {
    if n == 0 then c else PartStep(parts[n - 1], prev, e, Cooked(parts, prev, e, c, n - 1))
  }

  /** One turn of the part loop, as the loop body runs it. */
  method CreatePartInstancers(part: GeoPart, prev: map<Identifier, OutputObject>, e: Engine, c: Cook)
    returns (c': Cook)
    requires AllInLockstep(c.instanced)
    ensures c' == PartStep(part, prev, e, c)
  {
    c' := c;
    if part.partType != InstancerPart {
      return;
    }
    var base := PartIdentifier(part);
    var placed := GetInstancerObjectsAndTransforms(part, e.outputs, e.hapi(part), e.load, c.built.scene);
    if placed.None? {
      return;
    }
    var instanced, vars := UpdateInstanceVariationObjects(base, placed.value.objects, placed.value.transforms,
                                                          c.instanced, c.built.scene, e.math);
    var split := e.split(part);
    var materials := GetInstancerMaterials(e.materialNames(part), e.load, c.built.scene);
    var built := CreateInstancerComponents(base, vars, prev, instanced, split, materials, e, c.built);
    c' := Cook(instanced, built);
  }

  /** Every instanced output marked stale and nothing else changed. */
  function MarkedStale(m: map<Identifier, InstancedOutput>): (r: map<Identifier, InstancedOutput>)
    ensures r.Keys == m.Keys
    ensures forall k :: k in m ==> r[k].stale && r[k].(stale := m[k].stale) == m[k]
    ensures AllInLockstep(m) ==> AllInLockstep(r)
  {
    map k | k in m :: m[k].(stale := true)
  }

  /** The stale-marking loop. */
  method MarkAllStale(m: map<Identifier, InstancedOutput>) returns (r: map<Identifier, InstancedOutput>)
    ensures r == MarkedStale(m)
  {
    r := m;
    var todo := m.Keys;
    while todo != {}
      invariant todo <= m.Keys && r.Keys == m.Keys
      invariant forall k :: k in m ==> r[k] == if k in todo then m[k] else m[k].(stale := true)
      decreases |todo|
    {
      var k :| k in todo;
      r := r[k := r[k].(stale := true)];
      todo := todo - {k};
    }
  }

  /** `Cast<USceneComponent>` succeeds on the component classes only. */
  predicate IsSceneComponent(cls: ObjClass)
  {
    cls.InstancedMeshComp? || cls.HierInstancedMeshComp? || cls.MeshSplitComp? || cls.InstancedActorComp? ||
    cls.StaticMeshComp? || cls.ProxyMeshComp? || cls.OtherComp?
  }

  /**
   * `CreateAllInstancersFromHoudiniOutput`. It fails, changing nothing, for a
   * dead output or outer component; it fails after marking every instanced
   * output stale when the outer object is not a scene component. Otherwise
   * it runs the part loop from the stale-marked instanced outputs and an
   * empty new map, reconciles the old map against the new one and succeeds.
   */
  method CreateAllInstancersFromHoudiniOutput(output: Output, outputLive: bool, outer: Ptr, e: Engine, scene: Scene)
    returns (ok: bool, scene': Scene)
    requires output.InstancedOutputsInLockstep()
    modifies output
    ensures ok <==> outputLive && IsLive(outer, scene) && IsSceneComponent(outer.obj.cls)
    ensures !(outputLive && IsLive(outer, scene)) ==>
      scene' == scene && output.outputObjects == old(output.outputObjects) &&
      output.instancedOutputs == old(output.instancedOutputs)
    ensures outputLive && IsLive(outer, scene) && !IsSceneComponent(outer.obj.cls) ==>
      scene' == scene && output.outputObjects == old(output.outputObjects) &&
      output.instancedOutputs == MarkedStale(old(output.instancedOutputs))
    ensures ok ==>
      var start := Cook(MarkedStale(old(output.instancedOutputs)), Built(map[], scene));
      var c := Cooked(output.geoParts, old(output.outputObjects), e, start, |output.geoParts|);
      output.instancedOutputs == c.instanced && output.outputObjects == c.built.objects &&
      scene'.dead == c.built.scene.dead + Destroyed(old(output.outputObjects), c.built.objects, c.built.scene)
    ensures output.Settings() == old(output.Settings())
  {
    scene' := scene;
    if !outputLive || !IsLive(outer, scene) {
      return false, scene;
    }
    var prev := output.outputObjects;
    assert AllInLockstep(output.instancedOutputs);
    var stale := MarkAllStale(output.instancedOutputs);
    output.SetInstancedOutputs(stale);
    if !IsSceneComponent(outer.obj.cls) {
      return false, scene;
    }
    var parts := output.geoParts;
    var c := Cook(stale, Built(map[], scene));
    var i := 0;
    while i < |parts|
      invariant 0 <= i <= |parts| && AllInLockstep(c.instanced)
      invariant c == Cooked(parts, prev, e, Cook(stale, Built(map[], scene)), i)
      modifies {}
    {
      c := CreatePartInstancers(parts[i], prev, e, c);
      i := i + 1;
    }
    output.SetInstancedOutputs(c.instanced);
    scene' := ReconcileOutputObjects(output, c.built.objects, c.built.scene);
    ok := true;
  }
}
