/**
 * Instance variations: which variation each instance transform uses, how a
 * variation's transforms are extracted and offset, and how the instanced
 * outputs of a part are refreshed after a cook.
 */
module Variation {
  import opened Common
  import opened Seqs
  import opened Text
  import opened HoudiniOutput

  // ---------------------------------------------------------------------
  // fastrand: a linear congruential generator on a 32-bit int that wraps.

  const FastrandMultiplier: bv32 := 214013
  const FastrandIncrement: bv32 := 2531011

  /** The seed every variation assignment starts from. */
  const AssignmentSeed: bv32 := 1234

  function NextSeed(seed: bv32): bv32
  {
    seed * FastrandMultiplier + FastrandIncrement
  }

  /** The value fastrand returns once the seed has advanced to `s`: bits 16 to 30 of `s`. */
  function DrawnValue(s: bv32): (r: int)
    ensures 0 <= r <= 0x7FFF
  {
    ((s >> 16) & 0x7FFF) as int
  }

  /** `fastrand(nSeed)`: advances the seed in place and returns a value in [0, 32767]. */
  method Fastrand(seed: bv32) returns (newSeed: bv32, r: int)
    ensures newSeed == NextSeed(seed)
    ensures r == DrawnValue(newSeed)
  {
    newSeed := seed * FastrandMultiplier + FastrandIncrement;
    r := DrawnValue(newSeed);
  }

  /** The seed after `k` draws from the assignment seed. */
  function SeedAfter(k: nat): bv32
  {
    if k == 0 then AssignmentSeed else NextSeed(SeedAfter(k - 1))
  }

  /** The variation drawn for each of `n` transforms among `v` variations. */
  function Assignments(n: nat, v: nat): (r: seq<int>)
    requires v >= 2
    ensures |r| == n
    ensures forall k :: 0 <= k < n ==> 0 <= r[k] < v
  {
    seq(n, k requires 0 <= k < n => DrawnValue(SeedAfter(k + 1)) % v)
  }

  /** Growing the transform count keeps the variations already drawn. */
  lemma AssignmentsPrefixStable(n: nat, m: nat, v: nat)
    requires m <= n && v >= 2
    ensures Assignments(n, v)[..m] == Assignments(m, v)
  {
  }

  /** The variation indices `UpdateVariationAssignements` leaves behind. */
  function ReassignedIndices(io: InstancedOutput): (r: seq<int>)
    ensures |r| == |io.originalTransforms|
  {
    var n := |io.originalTransforms|;
    var v := |io.variationObjects|;
    if v <= 1 then ResizeZeroed(io.transformVariationIndices, n) else Assignments(n, v)
  }

  /** Every index names a variation. */
  predicate IndicesNameVariations(io: InstancedOutput)
  {
    forall k :: 0 <= k < |io.transformVariationIndices| ==>
      0 <= io.transformVariationIndices[k] < |io.variationObjects|
  }

  /**
   * Resizes the index array to one entry per transform (zero-filling growth);
   * with two or more variations every entry is redrawn from the fixed seed, so
   * the result depends only on the transform and variation counts.
   */
  method UpdateVariationAssignements(io: InstancedOutput) returns (r: InstancedOutput)
    ensures r == io.(transformVariationIndices := ReassignedIndices(io))
  {
    var n := |io.originalTransforms|;
    var indices := ResizeZeroed(io.transformVariationIndices, n);
    var v := |io.variationObjects|;
    if v <= 1 {
      return io.(transformVariationIndices := indices);
    }
    var seed: bv32 := 1234;
    var i := 0;
    while i < n
      invariant 0 <= i <= n && |indices| == n
      invariant seed == SeedAfter(i)
      invariant forall k :: 0 <= k < i ==> indices[k] == DrawnValue(SeedAfter(k + 1)) % v
    {
      var x;
      seed, x := Fastrand(seed);
      indices := indices[i := x % v];
      i := i + 1;
    }
    assert indices == Assignments(n, v);
    r := io.(transformVariationIndices := indices);
  }

  /** After reassignment every index names a variation, given that the old ones did
      whenever there is at most one variation. */
  lemma ReassignedIndicesNameVariations(io: InstancedOutput)
    requires |io.variationObjects| >= 1
    requires |io.variationObjects| == 1 ==> IndicesNameVariations(io)
    ensures IndicesNameVariations(io.(transformVariationIndices := ReassignedIndices(io)))
  {
  }

  // ---------------------------------------------------------------------
  // Transform offsets.

  /** HAPI_UNREAL_SCALE_SMALL_VALUE: the smallest scale magnitude an instance may have. */
  const ScaleSmall: real := 0.0001

  /**
   * A scale component smaller in magnitude than `ScaleSmall` is pushed out to
   * it, keeping its sign; zero counts as negative.
   */
  function ClampScale(s: real): (r: real)
    ensures r >= ScaleSmall || r <= -ScaleSmall
    ensures s > 0.0 ==> r > 0.0
    ensures s <= 0.0 ==> r < 0.0
    ensures (s >= ScaleSmall || s <= -ScaleSmall) ==> r == s
  {
    if -ScaleSmall < s < ScaleSmall then (if s > 0.0 then ScaleSmall else -ScaleSmall) else s
  }

  function ClampScale3(v: Vec3): Vec3
  {
    Vec3(ClampScale(v.x), ClampScale(v.y), ClampScale(v.z))
  }

  /** Position added, rotation multiplied, scale multiplied component-wise then clamped. */
  function ApplyOffset(t: Transform, offset: Transform, math: TransformMath): Transform
  {
    Transform(VAdd(t.loc, offset.loc), math.rotMul(t.rot, offset.rot), ClampScale3(math.scaleMul(t.scale, offset.scale)))
  }

  /** No component is small enough to be clamped. */
  predicate ScaleIsClear(v: Vec3)
  {
    (v.x >= ScaleSmall || v.x <= -ScaleSmall) &&
    (v.y >= ScaleSmall || v.y <= -ScaleSmall) &&
    (v.z >= ScaleSmall || v.z <= -ScaleSmall)
  }

  /** A pure translation offset moves an instance and changes nothing else, given the
      identity laws of the products (which FQuat and FVector obey). */
  lemma TranslationOffsetMoves(t: Transform, d: Vec3, math: TransformMath)
    requires ScaleIsClear(t.scale)
    requires math.rotMul(t.rot, IdentityTransform.rot) == t.rot
    requires math.scaleMul(t.scale, IdentityTransform.scale) == t.scale
    ensures ApplyOffset(t, Transform(d, IdentityTransform.rot, IdentityTransform.scale), math)
         == Transform(VAdd(t.loc, d), t.rot, t.scale)
  {
  }

  /** A scale component whose product is zero becomes -ScaleSmall. */
  lemma ZeroScaleBecomesNegative(t: Transform, offset: Transform, math: TransformMath)
    requires math.scaleMul(t.scale, offset.scale).x == 0.0
    ensures ApplyOffset(t, offset, math).scale.x == -ScaleSmall
  {
  }

  /** Offsets every transform; a result the engine rejects as invalid keeps the input. */
  function OffsetAll(ts: seq<Transform>, offset: Transform, math: TransformMath): (r: seq<Transform>)
    ensures |r| == |ts|
  {
    seq(|ts|, k requires 0 <= k < |ts| => if math.isValid(ApplyOffset(ts[k], offset, math)) then ApplyOffset(ts[k], offset, math) else ts[k])
  }

  /** Each transform is offset, unless the offset one is invalid, which keeps it as it was. */
  lemma OffsetAllKeepsInvalid(ts: seq<Transform>, offset: Transform, math: TransformMath, k: nat)
    requires k < |ts|
    ensures math.isValid(ApplyOffset(ts[k], offset, math)) ==> OffsetAll(ts, offset, math)[k] == ApplyOffset(ts[k], offset, math)
    ensures !math.isValid(ApplyOffset(ts[k], offset, math)) ==> OffsetAll(ts, offset, math)[k] == ts[k]
  {
  }

  /** Whether variation `v` of `io` is processed at all. */
  predicate IsVariation(io: InstancedOutput, v: int)
  {
    0 <= v < |io.variationObjects| && v < |io.variationTransformOffsets|
  }

  /** The extraction can read the original transform of each indexed instance. */
  predicate CanExtract(io: InstancedOutput, v: int)
  {
    IsVariation(io, v) && |io.variationObjects| > 1 ==> |io.transformVariationIndices| <= |io.originalTransforms|
  }

  /** What `ProcessInstanceTransforms` leaves in its output array, which held `prior`. */
  function Processed(io: InstancedOutput, v: int, prior: seq<Transform>, math: TransformMath): seq<Transform>
    requires CanExtract(io, v)
  {
    if !IsVariation(io, v) then prior
    else
      var hasVariations := |io.variationObjects| > 1;
      var hasOffset := io.variationTransformOffsets[v] != IdentityTransform;
      if !hasVariations && !hasOffset then io.originalTransforms
      else
        var base := if hasVariations
          then prior + SelectUpTo(io.originalTransforms, io.transformVariationIndices, v, |io.transformVariationIndices|)
          else io.originalTransforms;
        if hasOffset then OffsetAll(base, io.variationTransformOffsets[v], math) else base
  }

  /** `ProcessInstanceTransforms`: the transforms variation `v` places, offset by its transform offset. */
  method ProcessInstanceTransforms(io: InstancedOutput, v: int, prior: seq<Transform>, math: TransformMath)
    returns (out: seq<Transform>)
    requires CanExtract(io, v)
    ensures out == Processed(io, v, prior, math)
  {
    out := prior;
    if !(0 <= v < |io.variationObjects|) || !(0 <= v < |io.variationTransformOffsets|) {
      return;
    }
    var hasVariations := |io.variationObjects| > 1;
    var hasOffset := io.variationTransformOffsets[v] != IdentityTransform;
    if !hasVariations && !hasOffset {
      out := io.originalTransforms;
      return;
    }
    if hasVariations {
      var t := 0;
      while t < |io.transformVariationIndices|
        invariant 0 <= t <= |io.transformVariationIndices|
        invariant out == prior + SelectUpTo(io.originalTransforms, io.transformVariationIndices, v, t)
      {
        if io.transformVariationIndices[t] == v {
          out := out + [io.originalTransforms[t]];
        }
        t := t + 1;
      }
    } else {
      out := io.originalTransforms;
    }
    if hasOffset {
      var offset := io.variationTransformOffsets[v];
      ghost var base := out;
      var t := 0;
      while t < |out|
        invariant 0 <= t <= |out| == |base|
        invariant forall k :: 0 <= k < t ==> out[k] == OffsetAll(base, offset, math)[k]
        invariant forall k :: t <= k < |out| ==> out[k] == base[k]
      {
        var current := ApplyOffset(out[t], offset, math);
        if math.isValid(current) {
          out := out[t := current];
        }
        t := t + 1;
      }
      assert out == OffsetAll(base, offset, math);
    }
  }

  /** The transforms of each variation in `groups`, one after the other, before offsets. */
  function ConcatProcessed(io: InstancedOutput, groups: seq<int>, math: TransformMath): seq<Transform>
    requires forall j :: 0 <= j < |groups| ==> CanExtract(io, groups[j])
  {
    if |groups| == 0 then []
    else ConcatProcessed(io, groups[..|groups| - 1], math) + Processed(io, groups[|groups| - 1], [], math)
  }

  /** With several variations and no offsets, a variation places exactly the transforms assigned to it. */
  lemma ProcessedSelects(io: InstancedOutput, v: int, math: TransformMath)
    requires |io.variationObjects| > 1 && IsVariation(io, v) && CanExtract(io, v)
    requires io.variationTransformOffsets[v] == IdentityTransform
    ensures Processed(io, v, [], math)
         == SelectUpTo(io.originalTransforms, io.transformVariationIndices, v, |io.transformVariationIndices|)
  {
  }

  lemma {:induction false} ConcatProcessedSelects(io: InstancedOutput, groups: seq<int>, math: TransformMath)
    requires |io.variationObjects| > 1 && io.InLockstep()
    requires |io.transformVariationIndices| <= |io.originalTransforms|
    requires forall j :: 0 <= j < |groups| ==> IsVariation(io, groups[j])
    requires forall j :: 0 <= j < |io.variationTransformOffsets| ==> io.variationTransformOffsets[j] == IdentityTransform
    ensures ConcatProcessed(io, groups, math)
         == ConcatSelected(io.originalTransforms, io.transformVariationIndices, groups, |io.transformVariationIndices|)
  {
    if |groups| > 0 {
      ConcatProcessedSelects(io, groups[..|groups| - 1], math);
      ProcessedSelects(io, groups[|groups| - 1], math);
    }
  }

  /**
   * Without transform offsets, and with every index naming a variation, the
   * variations together place every original transform exactly once.
   */
  lemma VariationsPartitionTransforms(io: InstancedOutput, math: TransformMath)
    requires io.InLockstep() && |io.variationObjects| > 1
    requires |io.transformVariationIndices| == |io.originalTransforms|
    requires IndicesNameVariations(io)
    requires forall j :: 0 <= j < |io.variationTransformOffsets| ==> io.variationTransformOffsets[j] == IdentityTransform
    ensures multiset(ConcatProcessed(io, Range(|io.variationObjects|), math)) == multiset(io.originalTransforms)
  {
    var n := |io.variationObjects|;
    var groups := Range(n);
    ConcatProcessedSelects(io, groups, math);
    var ts, ix := io.originalTransforms, io.transformVariationIndices;
    InRange(ix, n);
    SelectionsPartition(ts, ix, groups, |ix|);
    assert ts[..|ix|] == ts;
  }
}
