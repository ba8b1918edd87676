/**
 * `UpdateInstanceVariationObjects`: after a cook, finds or creates the
 * instanced output of every original object of an instancer part, repairs its
 * variations, and lists the (object, transforms) pairs to instantiate.
 */
module Resolver {
  import opened Common
  import opened Seqs
  import opened Text
  import opened HoudiniOutput
  import opened Variation

  /** The four parallel output arrays: the object to instance, its transforms,
      and which original and which variation of it they come from. */
  datatype Variations = Variations(
    objects: seq<Ptr>,
    transforms: seq<seq<Transform>>,
    originalIndices: seq<int>,
    variationIndices: seq<int>)
  {
    predicate InLockstep()
    {
      |objects| == |transforms| == |originalIndices| == |variationIndices|
    }

    function Add(obj: Ptr, ts: seq<Transform>, o: int, v: int): Variations
    {
      Variations(objects + [obj], transforms + [ts], originalIndices + [o], variationIndices + [v])
    }

    function Concat(other: Variations): Variations
    {
      Variations(objects + other.objects, transforms + other.transforms,
                 originalIndices + other.originalIndices, variationIndices + other.variationIndices)
    }
  }

  const NoVariations: Variations := Variations([], [], [], [])

  /** The instanced-output key of original `i`: the part's identifier split by the original's index. */
  function KeyFor(base: Identifier, i: nat): (r: Identifier)
    ensures r.splitIdentifier == NatToString(i)
    ensures r.(splitIdentifier := base.splitIdentifier) == base
  {
    base.(splitIdentifier := NatToString(i))
  }

  /** Different originals get different keys. */
  lemma KeysDistinct(base: Identifier)
    ensures forall i: nat, j: nat :: i != j ==> KeyFor(base, i) != KeyFor(base, j)
  {
    NatToStringIsInjective();
  }

  // ---------------------------------------------------------------------
  // Removing dead variations.

  /** A variation is removed when it is null, pending kill, or the original it replaced. */
  predicate IsStale(p: Ptr, replaced: Ptr, scene: Scene)
  {
    !IsLive(p, scene) || (replaced.Ref? && replaced == p)
  }

  function StaleMarks(objs: seq<Ptr>, replaced: Ptr, scene: Scene): (m: seq<bool>)
    ensures |m| == |objs| && forall k :: 0 <= k < |objs| ==> m[k] == IsStale(objs[k], replaced, scene)
  {
    seq(|objs|, k requires 0 <= k < |objs| => IsStale(objs[k], replaced, scene))
  }

  /** The stale indices at or above `lo`, highest first: the order they are collected in. */
  function StaleFrom(objs: seq<Ptr>, replaced: Ptr, scene: Scene, lo: nat): seq<nat>
    requires lo <= |objs|
    decreases |objs| - lo
  {
    if lo == |objs| then []
    else StaleFrom(objs, replaced, scene, lo + 1) + (if IsStale(objs[lo], replaced, scene) then [lo] else [])
  }

  /** A removal list: strictly descending indices, exactly the marked ones. */
  predicate RemovalList(marks: seq<bool>, toRemove: seq<nat>)
  {
    (forall j :: 0 <= j < |toRemove| ==> toRemove[j] < |marks| && marks[toRemove[j]]) &&
    (forall i, j :: 0 <= i < j < |toRemove| ==> toRemove[i] > toRemove[j]) &&
    (forall k :: 0 <= k < |marks| && marks[k] ==> k in toRemove)
  }

  lemma {:induction false} StaleFromBounds(objs: seq<Ptr>, replaced: Ptr, scene: Scene, lo: nat)
    requires lo <= |objs|
    ensures forall j :: 0 <= j < |StaleFrom(objs, replaced, scene, lo)| ==>
      lo <= StaleFrom(objs, replaced, scene, lo)[j] < |objs| && IsStale(objs[StaleFrom(objs, replaced, scene, lo)[j]], replaced, scene)
    decreases |objs| - lo
  {
    if lo < |objs| {
      StaleFromBounds(objs, replaced, scene, lo + 1);
      var prev := StaleFrom(objs, replaced, scene, lo + 1);
      var d := StaleFrom(objs, replaced, scene, lo);
      assert d == prev + (if IsStale(objs[lo], replaced, scene) then [lo] else []);
    }
  }

  lemma {:induction false} StaleFromDescending(objs: seq<Ptr>, replaced: Ptr, scene: Scene, lo: nat)
    requires lo <= |objs|
    ensures forall i, j :: 0 <= i < j < |StaleFrom(objs, replaced, scene, lo)| ==> StaleFrom(objs, replaced, scene, lo)[i] > StaleFrom(objs, replaced, scene, lo)[j]
    decreases |objs| - lo
  {
    if lo < |objs| {
      StaleFromDescending(objs, replaced, scene, lo + 1);
      StaleFromBounds(objs, replaced, scene, lo + 1);
      var prev := StaleFrom(objs, replaced, scene, lo + 1);
      var d := StaleFrom(objs, replaced, scene, lo);
      assert d == prev + (if IsStale(objs[lo], replaced, scene) then [lo] else []);
    }
  }

  lemma {:induction false} StaleFromCovers(objs: seq<Ptr>, replaced: Ptr, scene: Scene, lo: nat)
    requires lo <= |objs|
    ensures forall k :: lo <= k < |objs| && IsStale(objs[k], replaced, scene) ==> k in StaleFrom(objs, replaced, scene, lo)
    decreases |objs| - lo
  {
    if lo < |objs| {
      StaleFromCovers(objs, replaced, scene, lo + 1);
    }
  }

  /** The stale indices, collected from the top down, form a removal list. */
  lemma StaleFromIsRemovalList(objs: seq<Ptr>, replaced: Ptr, scene: Scene)
    ensures RemovalList(StaleMarks(objs, replaced, scene), StaleFrom(objs, replaced, scene, 0))
  {
    StaleFromBounds(objs, replaced, scene, 0);
    StaleFromDescending(objs, replaced, scene, 0);
    StaleFromCovers(objs, replaced, scene, 0);
  }

  /** Where `RemoveAt` of the `j` first listed indices leaves `s`: everything
      below the last removed index untouched, everything above it dropped. */
  function Removing<T>(s: seq<T>, marks: seq<bool>, toRemove: seq<nat>, j: nat): seq<T>
    requires |marks| == |s| && j <= |toRemove| && RemovalList(marks, toRemove)
  {
    var b := if j == 0 then |s| else toRemove[j - 1];
    s[..b] + Drop(s[b..], marks[b..])
  }

  lemma RemovingStep<T>(s: seq<T>, marks: seq<bool>, toRemove: seq<nat>, j: nat)
    requires |marks| == |s| && j < |toRemove| && RemovalList(marks, toRemove)
    ensures toRemove[j] < |Removing(s, marks, toRemove, j)|
    ensures RemoveAt(Removing(s, marks, toRemove, j), toRemove[j]) == Removing(s, marks, toRemove, j + 1)
  {
    var b := if j == 0 then |s| else toRemove[j - 1];
    var d := toRemove[j];
    assert forall i :: 0 <= i < |toRemove| ==> toRemove[i] <= d || (j > 0 && toRemove[i] >= b) by {
      forall i | 0 <= i < |toRemove| ensures toRemove[i] <= d || (j > 0 && toRemove[i] >= b) {
        if i < j {
          assert i == j - 1 || toRemove[i] > toRemove[j - 1];
        } else {
          assert i == j || toRemove[i] < toRemove[j];
        }
      }
    }
    RemoveOne(s, marks, d, b);
  }

  lemma RemovingDone<T>(s: seq<T>, marks: seq<bool>, toRemove: seq<nat>)
    requires |marks| == |s| && RemovalList(marks, toRemove)
    ensures Removing(s, marks, toRemove, |toRemove|) == Drop(s, marks)
  {
    var j := |toRemove|;
    var b := if j == 0 then |s| else toRemove[j - 1];
    assert forall i :: 0 <= i < |toRemove| ==> toRemove[i] >= b by {
      forall i | 0 <= i < |toRemove| ensures toRemove[i] >= b {
        assert i == j - 1 || toRemove[i] > toRemove[j - 1];
      }
    }
    DropSplit(s, marks, b);
  }

  lemma RemovingStart<T>(s: seq<T>, marks: seq<bool>, toRemove: seq<nat>)
    requires |marks| == |s| && RemovalList(marks, toRemove)
    ensures Removing(s, marks, toRemove, 0) == s
  {
    assert s[..|s|] == s;
  }

  /** The indices of the stale variations, scanned from the highest down. */
  method CollectStale(objs: seq<Ptr>, replaced: Ptr, scene: Scene) returns (toRemove: seq<nat>)
    ensures toRemove == StaleFrom(objs, replaced, scene, 0)
    ensures RemovalList(StaleMarks(objs, replaced, scene), toRemove)
  {
    toRemove := [];
    var v := |objs| - 1;
    while v >= 0
      invariant -1 <= v < |objs|
      invariant toRemove == StaleFrom(objs, replaced, scene, v + 1)
    {
      if IsStale(objs[v], replaced, scene) {
        toRemove := toRemove + [v];
      }
      v := v - 1;
    }
    StaleFromIsRemovalList(objs, replaced, scene);
  }

  /**
   * Collects the stale variations from the highest index down, then removes
   * each from both arrays; afterwards exactly the live, non-replaced
   * variations are left, with their offsets, in their order.
   */
  method RemoveStaleVariations(objs: seq<Ptr>, offs: seq<Transform>, replaced: Ptr, scene: Scene)
    returns (objs': seq<Ptr>, offs': seq<Transform>, removedAny: bool)
    requires |objs| == |offs|
    ensures objs' == Drop(objs, StaleMarks(objs, replaced, scene))
    ensures offs' == Drop(offs, StaleMarks(objs, replaced, scene))
    ensures removedAny <==> exists k :: 0 <= k < |objs| && IsStale(objs[k], replaced, scene)
  {
    ghost var marks := StaleMarks(objs, replaced, scene);
    var toRemove := CollectStale(objs, replaced, scene);
    RemovingStart(objs, marks, toRemove);
    RemovingStart(offs, marks, toRemove);
    objs', offs' := objs, offs;
    var j := 0;
    while j < |toRemove|
      invariant 0 <= j <= |toRemove|
      invariant objs' == Removing(objs, marks, toRemove, j)
      invariant offs' == Removing(offs, marks, toRemove, j)
    {
      RemovingStep(objs, marks, toRemove, j);
      RemovingStep(offs, marks, toRemove, j);
      objs' := RemoveAt(objs', toRemove[j]);
      offs' := RemoveAt(offs', toRemove[j]);
      j := j + 1;
    }
    RemovingDone(objs, marks, toRemove);
    RemovingDone(offs, marks, toRemove);
    removedAny := |toRemove| > 0;
    RemovalListEmpty(objs, replaced, scene, toRemove);
  }

  lemma RemovalListEmpty(objs: seq<Ptr>, replaced: Ptr, scene: Scene, toRemove: seq<nat>)
    requires RemovalList(StaleMarks(objs, replaced, scene), toRemove)
    ensures |toRemove| > 0 <==> exists k :: 0 <= k < |objs| && IsStale(objs[k], replaced, scene)
  {
    if |toRemove| > 0 {
      assert IsStale(objs[toRemove[0]], replaced, scene);
    }
  }

  lemma RemoveOne<T>(s: seq<T>, marks: seq<bool>, d: nat, b: nat)
    requires |marks| == |s| && d < b <= |s| && marks[d]
    requires forall k :: d < k < b ==> !marks[k]
    ensures var cur := s[..b] + Drop(s[b..], marks[b..]);
      cur[..d] + cur[d + 1..] == s[..d] + Drop(s[d..], marks[d..])
  {
    var cur := s[..b] + Drop(s[b..], marks[b..]);
    assert cur[..d] == s[..d];
    assert cur[d + 1..] == s[d + 1..b] + Drop(s[b..], marks[b..]);
    assert Drop(s[d..], marks[d..]) == Drop(s[d + 1..], marks[d + 1..]) by {
      assert s[d..][1..] == s[d + 1..] && marks[d..][1..] == marks[d + 1..];
    }
    DropSplit(s[d + 1..], marks[d + 1..], b - d - 1);
    assert s[d + 1..][..b - d - 1] == s[d + 1..b];
    assert s[d + 1..][b - d - 1..] == s[b..];
    assert marks[d + 1..][b - d - 1..] == marks[b..];
  }

  // ---------------------------------------------------------------------
  // One original object.

  /** The original an instanced output used to have, when a new one replaces it. */
  function Replaced(io: InstancedOutput, orig: Ptr): Ptr
  {
    if io.originalObject != orig then io.originalObject else Null
  }

  lemma {:induction false} DropStaleKeepsFresh(objs: seq<Ptr>, replaced: Ptr, scene: Scene)
    ensures forall x :: x in Drop(objs, StaleMarks(objs, replaced, scene)) ==> !IsStale(x, replaced, scene)
    decreases |objs|
  {
    if |objs| > 0 {
      DropStaleKeepsFresh(objs[1..], replaced, scene);
      assert StaleMarks(objs, replaced, scene)[1..] == StaleMarks(objs[1..], replaced, scene);
    }
  }

  lemma {:induction false} DropSubset<T>(s: seq<T>, marks: seq<bool>)
    requires |marks| == |s|
    ensures forall x :: x in Drop(s, marks) ==> x in s
    decreases |s|
  {
    if |s| > 0 {
      DropSubset(s[1..], marks[1..]);
    }
  }

  lemma {:induction false} DropSameLength<T, U>(s: seq<T>, t: seq<U>, marks: seq<bool>)
    requires |marks| == |s| == |t|
    ensures |Drop(s, marks)| == |Drop(t, marks)|
    decreases |s|
  {
    if |s| > 0 {
      DropSameLength(s[1..], t[1..], marks[1..]);
    }
  }

  /** The first repair step: new original and transforms, stale variations
      removed from both arrays, and the indices cleared if any was. */
  function Pruned(io: InstancedOutput, i: nat, orig: Ptr, transforms: seq<Transform>, scene: Scene): InstancedOutput
    requires io.InLockstep()
  {
    var marks := StaleMarks(io.variationObjects, Replaced(io, orig), scene);
    var objs := Drop(io.variationObjects, marks);
    io.(originalObject := orig, originalTransforms := transforms, originalObjectIndex := i,
        variationObjects := objs, variationTransformOffsets := Drop(io.variationTransformOffsets, marks),
        transformVariationIndices := if |objs| < |io.variationObjects| then [] else io.transformVariationIndices)
  }

  /** The second step: with no variation left, the original stands in. */
  function Refilled(io: InstancedOutput, orig: Ptr): InstancedOutput
  {
    if |io.variationObjects| == 0
    then io.(variationObjects := [orig], variationTransformOffsets := [IdentityTransform], transformVariationIndices := [])
    else io
  }

  /** The third step: assignments redrawn when their count does not match the transforms. */
  function Reindexed(io: InstancedOutput): InstancedOutput
  {
    if |io.transformVariationIndices| != |io.originalTransforms|
    then io.(transformVariationIndices := ReassignedIndices(io))
    else io
  }

  /**
   * An existing instanced output refreshed for original `i`: the original and
   * its transforms replace the old ones, stale variations go (with the index
   * array), the original stands in when no variation is left, and the indices
   * are redrawn when their count no longer matches the transforms.
   */
  function Refreshed(io: InstancedOutput, i: nat, orig: Ptr, transforms: seq<Transform>, scene: Scene): InstancedOutput
    requires io.InLockstep()
  {
    Reindexed(Refilled(Pruned(io, i, orig, transforms, scene), orig)).(changed := false, stale := false)
  }

  /** After pruning, the arrays are one-to-one, no variation is stale, every offset
      is an old one, and the indices survive only when nothing was removed. */
  lemma PrunedShape(io: InstancedOutput, i: nat, orig: Ptr, transforms: seq<Transform>, scene: Scene)
    requires io.InLockstep()
    ensures Pruned(io, i, orig, transforms, scene).InLockstep()
    ensures forall x :: x in Pruned(io, i, orig, transforms, scene).variationObjects ==> !IsStale(x, Replaced(io, orig), scene)
    ensures forall x :: x in Pruned(io, i, orig, transforms, scene).variationTransformOffsets ==> x in io.variationTransformOffsets
    ensures |Pruned(io, i, orig, transforms, scene).transformVariationIndices| == 0 ||
            Pruned(io, i, orig, transforms, scene).transformVariationIndices == io.transformVariationIndices
  {
    var marks := StaleMarks(io.variationObjects, Replaced(io, orig), scene);
    DropSameLength(io.variationObjects, io.variationTransformOffsets, marks);
    DropStaleKeepsFresh(io.variationObjects, Replaced(io, orig), scene);
    DropSubset(io.variationTransformOffsets, marks);
  }

  /** Refilling leaves at least one variation, each a pruned one or the new original. */
  lemma RefilledShape(io: InstancedOutput, i: nat, orig: Ptr, transforms: seq<Transform>, scene: Scene)
    requires io.InLockstep()
    ensures var f := Refilled(Pruned(io, i, orig, transforms, scene), orig);
      f.InLockstep() && |f.variationObjects| >= 1 &&
      f.originalObject == orig && f.originalObjectIndex == i && f.originalTransforms == transforms
    ensures var f := Refilled(Pruned(io, i, orig, transforms, scene), orig);
      forall x :: x in f.variationObjects ==> !IsStale(x, Replaced(io, orig), scene) || x == orig
    ensures var f := Refilled(Pruned(io, i, orig, transforms, scene), orig);
      forall x :: x in f.variationTransformOffsets ==> x == IdentityTransform || x in io.variationTransformOffsets
  {
    PrunedShape(io, i, orig, transforms, scene);
  }

  /** Reindexing gives every transform an index and touches nothing else. */
  lemma ReindexedShape(io: InstancedOutput)
    ensures |Reindexed(io).transformVariationIndices| == |io.originalTransforms|
    ensures Reindexed(io).(transformVariationIndices := io.transformVariationIndices) == io
  {
  }

  /**
   * After a refresh the variation arrays are one-to-one and non-empty, every
   * transform has an index, both flags are clear, every variation is live and
   * the replaced original is gone; offsets are old offsets or the identity.
   */
  lemma RefreshedShape(io: InstancedOutput, i: nat, orig: Ptr, transforms: seq<Transform>, scene: Scene)
    requires io.InLockstep() && IsLive(orig, scene)
    ensures var r := Refreshed(io, i, orig, transforms, scene);
      r.InLockstep() && |r.variationObjects| >= 1 &&
      r.originalObject == orig && r.originalObjectIndex == i && r.originalTransforms == transforms &&
      |r.transformVariationIndices| == |transforms| && !r.changed && !r.stale
    ensures var r := Refreshed(io, i, orig, transforms, scene);
      (forall v :: 0 <= v < |r.variationObjects| ==> IsLive(r.variationObjects[v], scene)) &&
      (io.originalObject != orig ==> io.originalObject !in r.variationObjects)
    ensures var r := Refreshed(io, i, orig, transforms, scene);
      forall v :: 0 <= v < |r.variationTransformOffsets| ==>
        r.variationTransformOffsets[v] == IdentityTransform || r.variationTransformOffsets[v] in io.variationTransformOffsets
  {
    var f := Refilled(Pruned(io, i, orig, transforms, scene), orig);
    RefilledShape(io, i, orig, transforms, scene);
    ReindexedShape(f);
    var r := Refreshed(io, i, orig, transforms, scene);
    assert r.variationObjects == f.variationObjects && r.variationTransformOffsets == f.variationTransformOffsets;
    assert forall v :: 0 <= v < |r.variationObjects| ==> r.variationObjects[v] in f.variationObjects;
    assert forall v :: 0 <= v < |r.variationTransformOffsets| ==> r.variationTransformOffsets[v] in f.variationTransformOffsets;
  }

  /** A clean output (nothing stale, indices matching the transforms) keeps its
      variations, offsets and assignments. */
  lemma RefreshedKeepsClean(io: InstancedOutput, i: nat, orig: Ptr, transforms: seq<Transform>, scene: Scene)
    requires io.InLockstep() && |io.variationObjects| > 0
    requires forall v :: 0 <= v < |io.variationObjects| ==> !IsStale(io.variationObjects[v], Replaced(io, orig), scene)
    requires |io.transformVariationIndices| == |transforms|
    ensures var r := Refreshed(io, i, orig, transforms, scene);
      r.variationObjects == io.variationObjects && r.variationTransformOffsets == io.variationTransformOffsets &&
      r.transformVariationIndices == io.transformVariationIndices
  {
    var marks := StaleMarks(io.variationObjects, Replaced(io, orig), scene);
    DropUnmarked(io.variationObjects, marks);
    DropUnmarked(io.variationTransformOffsets, marks);
  }

  /** Refreshing keeps every index pointing at a variation. */
  lemma RefreshedKeepsIndicesValid(io: InstancedOutput, i: nat, orig: Ptr, transforms: seq<Transform>, scene: Scene)
    requires io.InLockstep() && IsLive(orig, scene)
    requires IndicesNameVariations(io)
    ensures IndicesNameVariations(Refreshed(io, i, orig, transforms, scene))
  {
    var marks := StaleMarks(io.variationObjects, Replaced(io, orig), scene);
    DropLength(io.variationObjects, marks);
    DropSameLength(io.variationObjects, io.variationTransformOffsets, marks);
  }

  /** The transforms `ProcessInstanceTransforms` gives each variation of `io`. */
  function AllProcessed(io: InstancedOutput, math: TransformMath): (r: seq<seq<Transform>>)
    requires |io.transformVariationIndices| <= |io.originalTransforms|
    ensures |r| == |io.variationObjects|
    ensures forall v :: 0 <= v < |r| ==> r[v] == Processed(io, v, [], math)
  {
    seq(|io.variationObjects|, v requires 0 <= v < |io.variationObjects| => Processed(io, v, [], math))
  }

  /** The entries emitted for the first `n` variations `objs` of original `i`
      given their processed transforms: the live ones that receive at least
      one transform, in variation order. */
  function EmitFrom(objs: seq<Ptr>, processed: seq<seq<Transform>>, i: nat, scene: Scene, n: nat): (r: Variations)
    requires n <= |objs| == |processed|
    ensures r.InLockstep()
  {
    if n == 0 then NoVariations
    else
      var prev := EmitFrom(objs, processed, i, scene, n - 1);
      if IsLive(objs[n - 1], scene) && |processed[n - 1]| > 0
      then prev.Add(objs[n - 1], processed[n - 1], i, n - 1)
      else prev
  }

  /** What a refreshed output emits. */
  function Emitted(io: InstancedOutput, i: nat, scene: Scene, math: TransformMath): Variations
    requires |io.transformVariationIndices| <= |io.originalTransforms|
  {
    EmitFrom(io.variationObjects, AllProcessed(io, math), i, scene, |io.variationObjects|)
  }

  /** Entry `j` of `r` is variation `r.variationIndices[j] < n` of original `i`,
      live, with its non-empty processed transforms. */
  predicate SoundEntry(objs: seq<Ptr>, processed: seq<seq<Transform>>, i: nat, scene: Scene, n: nat, r: Variations, j: nat)
    requires r.InLockstep() && j < |r.objects| && n <= |objs| == |processed|
  {
    r.originalIndices[j] == i && 0 <= r.variationIndices[j] < n &&
    r.objects[j] == objs[r.variationIndices[j]] && IsLive(r.objects[j], scene) &&
    r.transforms[j] == processed[r.variationIndices[j]] && |r.transforms[j]| > 0
  }

  /** Each emitted entry is a live variation of original `i` with its non-empty processed transforms. */
  lemma {:induction false} EmitFromSound(objs: seq<Ptr>, processed: seq<seq<Transform>>, i: nat, scene: Scene, n: nat)
    requires n <= |objs| == |processed|
    ensures forall j :: 0 <= j < |EmitFrom(objs, processed, i, scene, n).objects| ==>
      SoundEntry(objs, processed, i, scene, n, EmitFrom(objs, processed, i, scene, n), j)
  {
    if n > 0 {
      EmitFromSound(objs, processed, i, scene, n - 1);
      var prev := EmitFrom(objs, processed, i, scene, n - 1);
      var r := EmitFrom(objs, processed, i, scene, n);
      forall j | 0 <= j < |r.objects| ensures SoundEntry(objs, processed, i, scene, n, r, j) {
        if j < |prev.objects| {
          assert SoundEntry(objs, processed, i, scene, n - 1, prev, j);
        }
      }
    }
  }

  /** The emitted variations come in strictly increasing variation order. */
  lemma {:induction false} EmitFromOrdered(objs: seq<Ptr>, processed: seq<seq<Transform>>, i: nat, scene: Scene, n: nat)
    requires n <= |objs| == |processed|
    ensures forall j :: 0 <= j < |EmitFrom(objs, processed, i, scene, n).objects| ==>
      EmitFrom(objs, processed, i, scene, n).originalIndices[j] == i &&
      0 <= EmitFrom(objs, processed, i, scene, n).variationIndices[j] < n
    ensures forall j, j' :: 0 <= j < j' < |EmitFrom(objs, processed, i, scene, n).objects| ==>
      EmitFrom(objs, processed, i, scene, n).variationIndices[j] < EmitFrom(objs, processed, i, scene, n).variationIndices[j']
  {
    if n > 0 {
      EmitFromOrdered(objs, processed, i, scene, n - 1);
    }
  }

  /** Every live variation that receives a transform is emitted. */
  lemma {:induction false} EmitFromComplete(objs: seq<Ptr>, processed: seq<seq<Transform>>, i: nat, scene: Scene, n: nat, v: nat)
    requires n <= |objs| == |processed|
    requires v < n && IsLive(objs[v], scene) && |processed[v]| > 0
    ensures v in EmitFrom(objs, processed, i, scene, n).variationIndices
  {
    if v < n - 1 {
      EmitFromComplete(objs, processed, i, scene, n - 1, v);
    }
  }

  /** With every variation live, the emitted transforms are all processed transforms, one after the other. */
  lemma {:induction false} EmitFromFlatten(objs: seq<Ptr>, processed: seq<seq<Transform>>, i: nat, scene: Scene, n: nat)
    requires n <= |objs| == |processed|
    requires forall v :: 0 <= v < n ==> IsLive(objs[v], scene)
    ensures Flatten(EmitFrom(objs, processed, i, scene, n).transforms) == Flatten(processed[..n])
  {
    if n > 0 {
      EmitFromFlatten(objs, processed, i, scene, n - 1);
      var prev := EmitFrom(objs, processed, i, scene, n - 1);
      assert processed[..n] == processed[..n - 1] + [processed[n - 1]];
      FlattenAppend(processed[..n - 1], processed[n - 1]);
      if |processed[n - 1]| > 0 {
        FlattenAppend(prev.transforms, processed[n - 1]);
      } else {
        assert processed[n - 1] == [];
      }
    }
  }

  lemma {:induction false} ConcatProcessedFlatten(io: InstancedOutput, math: TransformMath, n: nat)
    requires |io.transformVariationIndices| <= |io.originalTransforms| && n <= |io.variationObjects|
    ensures ConcatProcessed(io, Range(n), math) == Flatten(AllProcessed(io, math)[..n])
  {
    if n > 0 {
      ConcatProcessedFlatten(io, math, n - 1);
      var ps := AllProcessed(io, math);
      assert Range(n)[..n - 1] == Range(n - 1);
      assert ps[..n] == ps[..n - 1] + [ps[n - 1]];
      FlattenAppend(ps[..n - 1], ps[n - 1]);
    }
  }

  /** The instanced output made for an original seen for the first time. */
  function Created(orig: Ptr, i: nat, transforms: seq<Transform>): (r: InstancedOutput)
    ensures r.InLockstep() && r.variationObjects == [orig] && r.variationTransformOffsets == [IdentityTransform]
    ensures r.originalObject == orig && r.originalObjectIndex == i && r.originalTransforms == transforms
    ensures |r.transformVariationIndices| == |transforms| && IndicesNameVariations(r)
    ensures !r.changed && !r.stale
  {
    InstancedOutput(orig, i, transforms, [orig], [IdentityTransform], ResizeZeroed([], |transforms|), false, false)
  }

  /** The first repair step of `UpdateInstanceVariationObjects` on an existing output. */
  method PruneInstancedOutput(io: InstancedOutput, i: nat, orig: Ptr, transforms: seq<Transform>, scene: Scene)
    returns (cur: InstancedOutput)
    requires io.InLockstep()
    ensures cur == Pruned(io, i, orig, transforms, scene)
  {
    cur := io;
    var replaced := Null;
    if cur.originalObject != orig {
      replaced := cur.originalObject;
      cur := cur.(originalObject := orig);
    }
    cur := cur.(originalTransforms := transforms, originalObjectIndex := i);
    var objs, offs, removedAny := RemoveStaleVariations(cur.variationObjects, cur.variationTransformOffsets, replaced, scene);
    DropLength(io.variationObjects, StaleMarks(io.variationObjects, replaced, scene));
    cur := cur.(variationObjects := objs, variationTransformOffsets := offs);
    if removedAny {
      cur := cur.(transformVariationIndices := []);
    }
  }

  /**
   * The repair of an existing instanced output for original `i`: new original
   * and transforms, stale variations removed, the original re-added when none
   * is left, and assignments redrawn when their count is off.
   */
  method RefreshInstancedOutput(io: InstancedOutput, i: nat, orig: Ptr, transforms: seq<Transform>, scene: Scene)
    returns (r: InstancedOutput)
    requires io.InLockstep()
    ensures r == Refreshed(io, i, orig, transforms, scene)
  {
    var cur := PruneInstancedOutput(io, i, orig, transforms, scene);
    PrunedShape(io, i, orig, transforms, scene);
    if |cur.variationObjects| <= 0 {
      assert cur.variationObjects == [] && cur.variationTransformOffsets == [];
      cur := cur.(variationObjects := cur.variationObjects + [orig],
                  variationTransformOffsets := cur.variationTransformOffsets + [IdentityTransform],
                  transformVariationIndices := []);
    }
    assert cur == Refilled(Pruned(io, i, orig, transforms, scene), orig);
    if |cur.transformVariationIndices| != |cur.originalTransforms| {
      cur := UpdateVariationAssignements(cur);
    }
    r := cur.(changed := false, stale := false);
  }

  /** The emission loop over the variations of a refreshed output. */
  method EmitVariations(io: InstancedOutput, i: nat, scene: Scene, math: TransformMath) returns (out: Variations)
    requires |io.transformVariationIndices| <= |io.originalTransforms|
    ensures out == Emitted(io, i, scene, math)
  {
    out := NoVariations;
    var v := 0;
    while v < |io.variationObjects|
      invariant 0 <= v <= |io.variationObjects|
      invariant out == EmitFrom(io.variationObjects, AllProcessed(io, math), i, scene, v)
    {
      out := EmitVariation(io, v, i, scene, math, out);
      v := v + 1;
    }
  }

  /** One turn of the emission loop: variation `v` is emitted when it is live and receives a transform. */
  method EmitVariation(io: InstancedOutput, v: nat, i: nat, scene: Scene, math: TransformMath, out: Variations)
    returns (out': Variations)
    requires |io.transformVariationIndices| <= |io.originalTransforms| && v < |io.variationObjects|
    requires out == EmitFrom(io.variationObjects, AllProcessed(io, math), i, scene, v)
    ensures out' == EmitFrom(io.variationObjects, AllProcessed(io, math), i, scene, v + 1)
  {
    out' := out;
    var obj := io.variationObjects[v];
    if IsLive(obj, scene) {
      var ts := ProcessInstanceTransforms(io, v, [], math);
      assert ts == AllProcessed(io, math)[v];
      if |ts| > 0 {
        out' := out.Add(obj, ts, i, v);
      }
    }
  }

  /**
   * Without transform offsets, and with all variations live and every
   * transform assigned to one of them, the emitted variations together place
   * every original transform exactly once.
   */
  lemma EmitsEveryTransform(io: InstancedOutput, i: nat, scene: Scene, math: TransformMath)
    requires io.InLockstep() && |io.variationObjects| >= 1
    requires |io.transformVariationIndices| == |io.originalTransforms| && IndicesNameVariations(io)
    requires forall v :: 0 <= v < |io.variationObjects| ==> IsLive(io.variationObjects[v], scene)
    requires forall v :: 0 <= v < |io.variationTransformOffsets| ==> io.variationTransformOffsets[v] == IdentityTransform
    ensures multiset(Flatten(Emitted(io, i, scene, math).transforms)) == multiset(io.originalTransforms)
  {
    var n := |io.variationObjects|;
    var ps := AllProcessed(io, math);
    EmitFromFlatten(io.variationObjects, ps, i, scene, n);
    ConcatProcessedFlatten(io, math, n);
    assert ps[..n] == ps;
    if n > 1 {
      VariationsPartitionTransforms(io, math);
    } else {
      assert Range(1)[..0] == [];
      assert ConcatProcessed(io, Range(1), math) == Processed(io, 0, [], math);
    }
  }

  /** The same for an output just refreshed: its emission places the new transforms exactly once. */
  lemma RefreshedEmitsEveryTransform(io: InstancedOutput, i: nat, orig: Ptr, transforms: seq<Transform>, scene: Scene,
                                     math: TransformMath)
    requires io.InLockstep() && IsLive(orig, scene) && IndicesNameVariations(io)
    requires forall v :: 0 <= v < |io.variationTransformOffsets| ==> io.variationTransformOffsets[v] == IdentityTransform
    ensures var r := Refreshed(io, i, orig, transforms, scene);
      |r.transformVariationIndices| <= |r.originalTransforms| &&
      multiset(Flatten(Emitted(r, i, scene, math).transforms)) == multiset(transforms)
  {
    var r := Refreshed(io, i, orig, transforms, scene);
    RefreshedShape(io, i, orig, transforms, scene);
    RefreshedKeepsIndicesValid(io, i, orig, transforms, scene);
    EmitsEveryTransform(r, i, scene, math);
  }

  // ---------------------------------------------------------------------
  // All originals.

  predicate AllInLockstep(m: map<Identifier, InstancedOutput>)
  {
    forall k :: k in m ==> m[k].InLockstep()
  }

  /** Original `i` processed against the instanced outputs `m`, appending to `out`. */
  function ResolveOne(base: Identifier, i: nat, orig: Ptr, ts: seq<Transform>, scene: Scene, math: TransformMath,
                      m: map<Identifier, InstancedOutput>, out: Variations)
    : (r: (map<Identifier, InstancedOutput>, Variations))
    requires AllInLockstep(m) && out.InLockstep()
    ensures AllInLockstep(r.0) && r.1.InLockstep()
  {
    if !IsLive(orig, scene) then (m, out)
    else
      var key := KeyFor(base, i);
      if key in m then
        var io := Refreshed(m[key], i, orig, ts, scene);
        RefreshedShape(m[key], i, orig, ts, scene);
        (m[key := io], out.Concat(Emitted(io, i, scene, math)))
      else
        (m[key := Created(orig, i, ts)], out.Add(orig, ts, i, 0))
  }

  /** The instanced outputs and emitted variations after the first `k` originals. */
  function ResolveAll(base: Identifier, originals: seq<Ptr>, transforms: seq<seq<Transform>>,
                      m: map<Identifier, InstancedOutput>, scene: Scene, math: TransformMath, k: nat)
    : (r: (map<Identifier, InstancedOutput>, Variations))
    requires k <= |originals| == |transforms| && AllInLockstep(m)
    ensures AllInLockstep(r.0) && r.1.InLockstep()
  {
    if k == 0 then (m, NoVariations)
    else
      var prev := ResolveAll(base, originals, transforms, m, scene, math, k - 1);
      ResolveOne(base, k - 1, originals[k - 1], transforms[k - 1], scene, math, prev.0, prev.1)
  }

  /**
   * `UpdateInstanceVariationObjects`: for each live original, in order, finds its
   * instanced output under the split identifier of its index or creates one,
   * and appends the variations to instance.
   */
  method UpdateInstanceVariationObjects(base: Identifier, originals: seq<Ptr>, transforms: seq<seq<Transform>>,
                                        instanced: map<Identifier, InstancedOutput>, scene: Scene,
                                        math: TransformMath)
    returns (instanced': map<Identifier, InstancedOutput>, out: Variations)
    requires |originals| == |transforms| && AllInLockstep(instanced)
    ensures (instanced', out) == ResolveAll(base, originals, transforms, instanced, scene, math, |originals|)
  {
    instanced' := instanced;
    out := NoVariations;
    var identifier := base;
    var i := 0;
    while i < |originals|
      invariant 0 <= i <= |originals|
      invariant identifier.(splitIdentifier := base.splitIdentifier) == base
      invariant (instanced', out) == ResolveAll(base, originals, transforms, instanced, scene, math, i)
    {
      var orig := originals[i];
      if IsLive(orig, scene) {
        identifier := identifier.(splitIdentifier := NatToString(i));
        assert identifier == KeyFor(base, i);
        if identifier !in instanced' {
          var created := InstancedOutput(orig, i, transforms[i], [orig], [IdentityTransform],
                                         ResizeZeroed([], |transforms[i]|), false, false);
          out := out.Add(orig, transforms[i], i, 0);
          instanced' := instanced'[identifier := created];
        } else {
          var io := RefreshInstancedOutput(instanced'[identifier], i, orig, transforms[i], scene);
          RefreshedShape(instanced'[identifier], i, orig, transforms[i], scene);
          var emitted := EmitVariations(io, i, scene, math);
          instanced' := instanced'[identifier := io];
          out := out.Concat(emitted);
        }
      }
      i := i + 1;
    }
  }

  /** The transform lists of the live originals among the first `k`, in order. */
  function LiveTransforms(originals: seq<Ptr>, transforms: seq<seq<Transform>>, scene: Scene, k: nat): seq<seq<Transform>>
    requires k <= |originals| == |transforms|
  {
    if k == 0 then []
    else LiveTransforms(originals, transforms, scene, k - 1) + (if IsLive(originals[k - 1], scene) then [transforms[k - 1]] else [])
  }

  /** An instanced output whose variations are all offset-free and whose indices name variations. */
  predicate Plain(io: InstancedOutput)
  {
    io.InLockstep() && IndicesNameVariations(io) &&
    forall v :: 0 <= v < |io.variationTransformOffsets| ==> io.variationTransformOffsets[v] == IdentityTransform
  }

  predicate AllPlain(m: map<Identifier, InstancedOutput>)
  {
    forall key :: key in m ==> Plain(m[key])
  }

  /** One original keeps the instanced outputs offset-free. */
  lemma ResolveOneStaysPlain(base: Identifier, i: nat, orig: Ptr, ts: seq<Transform>, scene: Scene,
                             math: TransformMath, m: map<Identifier, InstancedOutput>, out: Variations)
    requires AllInLockstep(m) && AllPlain(m) && out.InLockstep()
    ensures AllPlain(ResolveOne(base, i, orig, ts, scene, math, m, out).0)
  {
    if IsLive(orig, scene) {
      var key := KeyFor(base, i);
      if key in m {
        RefreshedShape(m[key], i, orig, ts, scene);
        RefreshedKeepsIndicesValid(m[key], i, orig, ts, scene);
        assert Plain(Refreshed(m[key], i, orig, ts, scene));
      } else {
        assert Plain(Created(orig, i, ts));
      }
    }
  }

  /** One original emits each of its transforms once when it is live, and nothing otherwise. */
  lemma ResolveOneEmits(base: Identifier, i: nat, orig: Ptr, ts: seq<Transform>, scene: Scene,
                        math: TransformMath, m: map<Identifier, InstancedOutput>, out: Variations)
    requires AllInLockstep(m) && AllPlain(m) && out.InLockstep()
    ensures multiset(Flatten(ResolveOne(base, i, orig, ts, scene, math, m, out).1.transforms))
         == multiset(Flatten(out.transforms)) + (if IsLive(orig, scene) then multiset(ts) else multiset{})
  {
    if IsLive(orig, scene) {
      var key := KeyFor(base, i);
      if key in m {
        var emitted := Emitted(Refreshed(m[key], i, orig, ts, scene), i, scene, math);
        RefreshedEmitsEveryTransform(m[key], i, orig, ts, scene, math);
        FlattenConcat(out.transforms, emitted.transforms);
      } else {
        FlattenAppend(out.transforms, ts);
      }
    }
  }

  lemma ResolveAllNone(base: Identifier, originals: seq<Ptr>, transforms: seq<seq<Transform>>,
                       m: map<Identifier, InstancedOutput>, scene: Scene, math: TransformMath)
    requires |originals| == |transforms| && AllInLockstep(m)
    ensures ResolveAll(base, originals, transforms, m, scene, math, 0) == (m, NoVariations)
    ensures Flatten(LiveTransforms(originals, transforms, scene, 0)) == []
  {
  }

  /** One more original: `ResolveAll` at `k` is `ResolveOne` on the result at `k - 1`. */
  lemma ResolveAllStep(base: Identifier, originals: seq<Ptr>, transforms: seq<seq<Transform>>,
                       m: map<Identifier, InstancedOutput>, scene: Scene, math: TransformMath, k: nat)
    requires 0 < k <= |originals| == |transforms| && AllInLockstep(m)
    ensures var prev := ResolveAll(base, originals, transforms, m, scene, math, k - 1);
      ResolveAll(base, originals, transforms, m, scene, math, k) ==
      ResolveOne(base, k - 1, originals[k - 1], transforms[k - 1], scene, math, prev.0, prev.1)
  {
  }

  /** Without transform offsets anywhere, resolving keeps the instanced outputs offset-free. */
  lemma {:induction false} ResolveAllStaysPlain(base: Identifier, originals: seq<Ptr>, transforms: seq<seq<Transform>>,
                                                m: map<Identifier, InstancedOutput>, scene: Scene,
                                                math: TransformMath, k: nat)
    requires k <= |originals| == |transforms| && AllInLockstep(m) && AllPlain(m)
    ensures AllPlain(ResolveAll(base, originals, transforms, m, scene, math, k).0)
  {
    if k > 0 {
      ResolveAllStaysPlain(base, originals, transforms, m, scene, math, k - 1);
      var prev := ResolveAll(base, originals, transforms, m, scene, math, k - 1);
      ResolveOneStaysPlain(base, k - 1, originals[k - 1], transforms[k - 1], scene, math, prev.0, prev.1);
      ResolveAllStep(base, originals, transforms, m, scene, math, k);
    }
  }

  /**
   * Without transform offsets anywhere, resolving the first `k` originals
   * emits every transform of every live original exactly once, and leaves the
   * instanced outputs offset-free.
   */
  lemma {:induction false} ResolveAllPlacesEveryTransform(base: Identifier, originals: seq<Ptr>, transforms: seq<seq<Transform>>,
                                                          m: map<Identifier, InstancedOutput>, scene: Scene,
                                                          math: TransformMath, k: nat)
    requires k <= |originals| == |transforms| && AllInLockstep(m) && AllPlain(m)
    ensures AllPlain(ResolveAll(base, originals, transforms, m, scene, math, k).0)
    ensures multiset(Flatten(ResolveAll(base, originals, transforms, m, scene, math, k).1.transforms))
         == multiset(Flatten(LiveTransforms(originals, transforms, scene, k)))
  {
    ResolveAllStaysPlain(base, originals, transforms, m, scene, math, k);
    if k > 0 {
      ResolveAllPlacesEveryTransform(base, originals, transforms, m, scene, math, k - 1);
      ResolveAllStaysPlain(base, originals, transforms, m, scene, math, k - 1);
      ResolveAllStepPlaces(base, originals, transforms, m, scene, math, k);
      var live := LiveTransforms(originals, transforms, scene, k - 1);
      if IsLive(originals[k - 1], scene) {
        assert LiveTransforms(originals, transforms, scene, k) == live + [transforms[k - 1]];
        FlattenAppend(live, transforms[k - 1]);
      } else {
        assert LiveTransforms(originals, transforms, scene, k) == live;
      }
    } else {
      ResolveAllNone(base, originals, transforms, m, scene, math);
    }
  }

  /** One more original adds its transforms, when it is live, to what the first `k - 1` emit. */
  lemma ResolveAllStepPlaces(base: Identifier, originals: seq<Ptr>, transforms: seq<seq<Transform>>,
                             m: map<Identifier, InstancedOutput>, scene: Scene, math: TransformMath, k: nat)
    requires 0 < k <= |originals| == |transforms| && AllInLockstep(m)
    requires AllPlain(ResolveAll(base, originals, transforms, m, scene, math, k - 1).0)
    ensures multiset(Flatten(ResolveAll(base, originals, transforms, m, scene, math, k).1.transforms))
         == multiset(Flatten(ResolveAll(base, originals, transforms, m, scene, math, k - 1).1.transforms)) +
            (if IsLive(originals[k - 1], scene) then multiset(transforms[k - 1]) else multiset{})
  {
    var prev := ResolveAll(base, originals, transforms, m, scene, math, k - 1);
    ResolveOneEmits(base, k - 1, originals[k - 1], transforms[k - 1], scene, math, prev.0, prev.1);
  }

  /** The entry of a live original after it is processed. */
  predicate HoldsOriginal(r: map<Identifier, InstancedOutput>, key: Identifier, j: nat, orig: Ptr, ts: seq<Transform>)
  {
    key in r && r[key].originalObject == orig && r[key].originalObjectIndex == j && r[key].originalTransforms == ts &&
    |r[key].variationObjects| >= 1 && !r[key].changed && !r[key].stale
  }

  lemma ResolveOneKeys(base: Identifier, i: nat, orig: Ptr, ts: seq<Transform>, scene: Scene,
                       math: TransformMath, m: map<Identifier, InstancedOutput>, out: Variations)
    requires AllInLockstep(m) && out.InLockstep()
    ensures IsLive(orig, scene) ==> HoldsOriginal(ResolveOne(base, i, orig, ts, scene, math, m, out).0, KeyFor(base, i), i, orig, ts)
    ensures forall key :: key in m && key != KeyFor(base, i) ==>
      key in ResolveOne(base, i, orig, ts, scene, math, m, out).0 && ResolveOne(base, i, orig, ts, scene, math, m, out).0[key] == m[key]
    ensures !IsLive(orig, scene) ==> ResolveOne(base, i, orig, ts, scene, math, m, out).0 == m
  {
    if IsLive(orig, scene) && KeyFor(base, i) in m {
      RefreshedShape(m[KeyFor(base, i)], i, orig, ts, scene);
    }
  }

  /**
   * After the first `k` originals, each live one has its instanced output
   * under its own key, holding it, its index and its transforms, with at least
   * one variation and both flags clear; any other entry is left as it was.
   */
  lemma {:induction false} ResolveAllKeys(base: Identifier, originals: seq<Ptr>, transforms: seq<seq<Transform>>,
                                          m: map<Identifier, InstancedOutput>, scene: Scene,
                                          math: TransformMath, k: nat)
    requires k <= |originals| == |transforms| && AllInLockstep(m)
    ensures forall j :: 0 <= j < k && IsLive(originals[j], scene) ==>
      HoldsOriginal(ResolveAll(base, originals, transforms, m, scene, math, k).0, KeyFor(base, j), j, originals[j], transforms[j])
    ensures forall key :: key in m && (forall j :: 0 <= j < k ==> key != KeyFor(base, j)) ==>
      key in ResolveAll(base, originals, transforms, m, scene, math, k).0 &&
      ResolveAll(base, originals, transforms, m, scene, math, k).0[key] == m[key]
  {
    if k > 0 {
      ResolveAllKeys(base, originals, transforms, m, scene, math, k - 1);
      KeysDistinct(base);
      var prev := ResolveAll(base, originals, transforms, m, scene, math, k - 1);
      ResolveOneKeys(base, k - 1, originals[k - 1], transforms[k - 1], scene, math, prev.0, prev.1);
      var cur := ResolveAll(base, originals, transforms, m, scene, math, k).0;
      assert cur == ResolveOne(base, k - 1, originals[k - 1], transforms[k - 1], scene, math, prev.0, prev.1).0;
      forall j | 0 <= j < k && IsLive(originals[j], scene)
        ensures HoldsOriginal(cur, KeyFor(base, j), j, originals[j], transforms[j])
      {
        if j < k - 1 {
          assert HoldsOriginal(prev.0, KeyFor(base, j), j, originals[j], transforms[j]);
          assert KeyFor(base, j) != KeyFor(base, k - 1);
        }
      }
      forall key | key in m && (forall j :: 0 <= j < k ==> key != KeyFor(base, j))
        ensures key in cur && cur[key] == m[key]
      {
        assert key != KeyFor(base, k - 1);
        assert key in prev.0 && prev.0[key] == m[key];
      }
    }
  }

  /** Entries emitted from live originals below `k`, ordered by original and then by variation. */
  predicate OrderedEmission(out: Variations, originals: seq<Ptr>, scene: Scene, k: nat)
    requires out.InLockstep() && k <= |originals|
  {
    (forall j :: 0 <= j < |out.objects| ==>
      0 <= out.originalIndices[j] < k && IsLive(originals[out.originalIndices[j]], scene) && 0 <= out.variationIndices[j]) &&
    (forall j, j' :: 0 <= j < j' < |out.objects| ==>
      out.originalIndices[j] < out.originalIndices[j'] ||
      (out.originalIndices[j] == out.originalIndices[j'] && out.variationIndices[j] < out.variationIndices[j']))
  }

  lemma ResolveOneOrdered(base: Identifier, originals: seq<Ptr>, i: nat, ts: seq<Transform>, scene: Scene,
                          math: TransformMath, m: map<Identifier, InstancedOutput>, out: Variations)
    requires i < |originals| && AllInLockstep(m) && out.InLockstep() && OrderedEmission(out, originals, scene, i)
    ensures OrderedEmission(ResolveOne(base, i, originals[i], ts, scene, math, m, out).1, originals, scene, i + 1)
  {
    var key := KeyFor(base, i);
    var r := ResolveOne(base, i, originals[i], ts, scene, math, m, out).1;
    if IsLive(originals[i], scene) && key in m {
      var io := Refreshed(m[key], i, originals[i], ts, scene);
      RefreshedShape(m[key], i, originals[i], ts, scene);
      var e := Emitted(io, i, scene, math);
      assert r == out.Concat(e);
      EmitFromOrdered(io.variationObjects, AllProcessed(io, math), i, scene, |io.variationObjects|);
      ConcatOrdered(out, e, originals, scene, i);
    } else if IsLive(originals[i], scene) {
      assert r == out.Add(originals[i], ts, i, 0);
    } else {
      assert r == out;
    }
  }

  /** Appending the ordered emission of live original `i` keeps the whole emission ordered. */
  lemma ConcatOrdered(out: Variations, e: Variations, originals: seq<Ptr>, scene: Scene, i: nat)
    requires i < |originals| && out.InLockstep() && e.InLockstep() && OrderedEmission(out, originals, scene, i)
    requires IsLive(originals[i], scene)
    requires forall j :: 0 <= j < |e.objects| ==> e.originalIndices[j] == i && 0 <= e.variationIndices[j]
    requires forall j, j' :: 0 <= j < j' < |e.objects| ==> e.variationIndices[j] < e.variationIndices[j']
    ensures OrderedEmission(out.Concat(e), originals, scene, i + 1)
  {
    var r := out.Concat(e);
    var n := |out.objects|;
    assert forall j :: 0 <= j < n ==> r.originalIndices[j] == out.originalIndices[j] && r.variationIndices[j] == out.variationIndices[j];
    assert forall j :: n <= j < |r.objects| ==> r.originalIndices[j] == e.originalIndices[j - n] && r.variationIndices[j] == e.variationIndices[j - n];
  }

  /** Entries are emitted from live originals, ordered by original and then by variation. */
  lemma {:induction false} ResolveAllOrdered(base: Identifier, originals: seq<Ptr>, transforms: seq<seq<Transform>>,
                                             m: map<Identifier, InstancedOutput>, scene: Scene,
                                             math: TransformMath, k: nat)
    requires k <= |originals| == |transforms| && AllInLockstep(m)
    ensures OrderedEmission(ResolveAll(base, originals, transforms, m, scene, math, k).1, originals, scene, k)
  {
    if k > 0 {
      ResolveAllOrdered(base, originals, transforms, m, scene, math, k - 1);
      var prev := ResolveAll(base, originals, transforms, m, scene, math, k - 1);
      ResolveOneOrdered(base, originals, k - 1, transforms[k - 1], scene, math, prev.0, prev.1);
      var cur := ResolveAll(base, originals, transforms, m, scene, math, k);
      assert cur.1 == ResolveOne(base, k - 1, originals[k - 1], transforms[k - 1], scene, math, prev.0, prev.1).1;
    } else {
      ResolveAllNone(base, originals, transforms, m, scene, math);
      assert OrderedEmission(NoVariations, originals, scene, k);
    }
  }
}
