/**
 * The reconcile pass that ends `CreateAllInstancersFromHoudiniOutput`: the
 * components of the previous cook that the new cook reused by identity are
 * spared, every other one is destroyed, and the output's map becomes the new
 * one.
 */
module Reconcile {
  import opened Common
  import opened HoudiniOutput

  /** The ids of the components an output object holds. */
  function HeldIds(o: OutputObject): (r: set<nat>)
    ensures o.outputComponent.Ref? ==> o.outputComponent.obj.id in r
    ensures o.proxyComponent.Ref? ==> o.proxyComponent.obj.id in r
    ensures forall id :: id in r ==>
      (o.outputComponent.Ref? && id == o.outputComponent.obj.id) || (o.proxyComponent.Ref? && id == o.proxyComponent.obj.id)
  {
    (if o.outputComponent.Ref? then {o.outputComponent.obj.id} else {}) +
    (if o.proxyComponent.Ref? then {o.proxyComponent.obj.id} else {})
  }

  /** The ids of the components held by the entries of `m` under the keys `keys`. */
  function HeldBy(m: map<Identifier, OutputObject>, keys: set<Identifier>): set<nat>
  {
    set k, id | k in keys && k in m && id in HeldIds(m[k]) :: id
  }

  /** Destroying one more entry's components destroys what `HeldBy` gains with its key. */
  lemma HeldByStep(m: map<Identifier, OutputObject>, keys: set<Identifier>, k: Identifier, base: set<nat>,
                   dead: set<nat>, dead': set<nat>)
    requires k in m && dead == base + HeldBy(m, keys) && dead' == dead + HeldIds(m[k])
    ensures dead' == base + HeldBy(m, keys + {k})
  {
    assert forall id :: id in HeldIds(m[k]) ==> id in HeldBy(m, keys + {k});
  }

  /** `RemoveAndDestroyComponent`: a live component is marked pending kill; a dead one stays dead. */
  method RemoveAndDestroyComponent(c: Ptr, scene: Scene) returns (scene': Scene)
    requires c.Ref?
    ensures scene'.dead == scene.dead + {c.obj.id}
  {
    if !IsLive(c, scene) {
      scene' := scene;
    } else {
      scene' := Scene(scene.dead + {c.obj.id});
    }
  }

  // ---------------------------------------------------------------------
  // Sparing the reused components.

  /**
   * `bKeep` for an old entry that the new map also has: the new output
   * component is the identical live old one, except that a new proxy
   * component with a live old proxy decides by the proxy alone.
   */
  function Keep(cur: OutputObject, prev: OutputObject, scene: Scene): bool
  {
    var keepOutput :=
      cur.outputComponent != Null && IsLive(prev.outputComponent, scene) && prev.outputComponent == cur.outputComponent;
    if cur.proxyComponent != Null && IsLive(prev.proxyComponent, scene)
    then prev.proxyComponent == cur.proxyComponent
    else keepOutput
  }

  /** The old entries left once the reused ones are removed: every old entry the new map lacks or does not keep. */
  function Unused(prev: map<Identifier, OutputObject>, cur: map<Identifier, OutputObject>, scene: Scene)
    : map<Identifier, OutputObject>
  {
    map k | k in prev && !(k in cur && Keep(cur[k], prev[k], scene)) :: prev[k]
  }

  /** The first loop: each key of the new map whose old entry is kept is removed from the old map. */
  method DropReused(prev: map<Identifier, OutputObject>, cur: map<Identifier, OutputObject>, scene: Scene)
    returns (rest: map<Identifier, OutputObject>)
    ensures rest == Unused(prev, cur, scene)
  {
    rest := prev;
    var todo := cur.Keys;
    while todo != {}
      invariant todo <= cur.Keys
      invariant rest == map k | k in prev && !(k in cur && k !in todo && Keep(cur[k], prev[k], scene)) :: prev[k]
      decreases |todo|
    {
      var key :| key in todo;
      if key in rest {
        var keep := false;
        var found := rest[key];
        var newEntry := cur[key];
        if newEntry.outputComponent != Null && IsLive(found.outputComponent, scene) {
          keep := found.outputComponent == newEntry.outputComponent;
        }
        if newEntry.proxyComponent != Null && IsLive(found.proxyComponent, scene) {
          keep := found.proxyComponent == newEntry.proxyComponent;
        }
        assert keep == Keep(newEntry, prev[key], scene);
        if keep {
          rest := rest - {key};
        }
      }
      todo := todo - {key};
    }
  }

  /** Both components of one left-over entry destroyed. */
  method DestroyEntry(entry: OutputObject, scene: Scene) returns (scene': Scene)
    ensures scene'.dead == scene.dead + HeldIds(entry)
  {
    scene' := scene;
    if entry.outputComponent != Null {
      scene' := RemoveAndDestroyComponent(entry.outputComponent, scene');
    }
    if entry.proxyComponent != Null {
      scene' := RemoveAndDestroyComponent(entry.proxyComponent, scene');
    }
  }

  /** The second loop: every component still held by a left-over entry is destroyed. */
  method DestroyUnused(rest: map<Identifier, OutputObject>, scene: Scene) returns (scene': Scene)
    ensures scene'.dead == scene.dead + HeldBy(rest, rest.Keys)
  {
    scene' := scene;
    var left := rest.Keys;
    var done := {};
    while left != {}
      invariant done + left == rest.Keys
      invariant scene'.dead == scene.dead + HeldBy(rest, done)
      decreases |left|
    {
      var k :| k in left;
      var next := DestroyEntry(rest[k], scene');
      HeldByStep(rest, done, k, scene.dead, scene'.dead, next.dead);
      scene' := next;
      left := left - {k};
      done := done + {k};
    }
  }

  /**
   * The whole reconcile pass: reused components are spared, the others
   * destroyed, and the output then holds exactly the new map.
   */
  method ReconcileOutputObjects(output: Output, cur: map<Identifier, OutputObject>, scene: Scene)
    returns (scene': Scene)
    modifies output
    ensures output.outputObjects == cur
    ensures scene'.dead == scene.dead + HeldBy(Unused(old(output.outputObjects), cur, scene), Unused(old(output.outputObjects), cur, scene).Keys)
    ensures output.instancedOutputs == old(output.instancedOutputs)
    ensures output.Settings() == old(output.Settings())
  {
    var rest := DropReused(output.outputObjects, cur, scene);
    scene' := DestroyUnused(rest, scene);
    output.SetOutputObjects(cur);
  }

  /** What the pass leaves of the old scene: the ids it destroys. */
  function Destroyed(prev: map<Identifier, OutputObject>, cur: map<Identifier, OutputObject>, scene: Scene): set<nat>
  {
    var rest := Unused(prev, cur, scene);
    HeldBy(rest, rest.Keys)
  }

  /** An old entry is spared iff the new map has it and its new component is the
      identical live old one, the proxy comparison overriding when it applies. */
  lemma SparedIffIdentical(prev: map<Identifier, OutputObject>, cur: map<Identifier, OutputObject>, scene: Scene,
                           k: Identifier)
    requires k in prev
    ensures k !in Unused(prev, cur, scene) <==>
      k in cur &&
      if cur[k].proxyComponent != Null && IsLive(prev[k].proxyComponent, scene)
      then prev[k].proxyComponent == cur[k].proxyComponent
      else cur[k].outputComponent != Null && IsLive(prev[k].outputComponent, scene) &&
           prev[k].outputComponent == cur[k].outputComponent
  {
  }

  /** Both components of an entry that is not kept are destroyed. */
  lemma UnkeptIsDestroyed(prev: map<Identifier, OutputObject>, cur: map<Identifier, OutputObject>, scene: Scene,
                          k: Identifier)
    requires k in prev && !(k in cur && Keep(cur[k], prev[k], scene))
    ensures HeldIds(prev[k]) <= Destroyed(prev, cur, scene)
  {
    var rest := Unused(prev, cur, scene);
    assert k in rest && rest[k] == prev[k];
    forall id | id in HeldIds(prev[k]) ensures id in HeldBy(rest, rest.Keys) {
      assert k in rest.Keys && id in HeldIds(rest[k]);
    }
  }

  /** The component that made an entry kept survives the pass, unless another
      left-over entry also holds it. */
  lemma KeptSurvives(prev: map<Identifier, OutputObject>, cur: map<Identifier, OutputObject>, scene: Scene,
                     k: Identifier, c: Ptr)
    requires k in prev && k in cur && Keep(cur[k], prev[k], scene)
    requires c == (if cur[k].proxyComponent != Null && IsLive(prev[k].proxyComponent, scene)
                   then prev[k].proxyComponent else prev[k].outputComponent)
    requires forall k2 :: k2 in prev && k2 != k ==> c.obj.id !in HeldIds(prev[k2])
    ensures IsLive(c, scene) && c.obj.id !in scene.dead + Destroyed(prev, cur, scene)
  {
  }
}
