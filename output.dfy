/**
 * The output data model: what a cooked Houdini node produced and which engine
 * objects and components currently represent it.
 *
 * Value structs (identifiers, instanced outputs, output objects) are
 * datatypes, copied like the C++ structs are; the UObjects whose fields are
 * set in place (the output and the landscape pointer) are classes.
 */
module HoudiniOutput {
  import opened Common

  datatype OutputType = InvalidOutput | Mesh | Instancer | Landscape | Curve | Skeletal

  datatype LandscapeBakeType = Detachment | BakeToImage | BakeToWorld | InValidBake

  /** A landscape output: its soft pointer and how it is to be baked. */
  class LandscapePtr {
    var landscape: Ptr
    var isWorldCompositionLandscape: bool
    var bakeType: LandscapeBakeType

    constructor (landscape: Ptr)
      ensures this.landscape == landscape
    {
      this.landscape := landscape;
      isWorldCompositionLandscape := false;
      bakeType := Detachment;
    }

    function GetLandscapeOutputBakeType(): LandscapeBakeType
      reads this
    {
      bakeType
    }

    method SetLandscapeOutputBakeType(t: LandscapeBakeType)
      modifies this
      ensures GetLandscapeOutputBakeType() == t
      ensures landscape == old(landscape) && isWorldCompositionLandscape == old(isWorldCompositionLandscape)
    {
      bakeType := t;
    }

    function IsWorldCompositionLandscape(): bool
      reads this
    {
      isWorldCompositionLandscape
    }

    method SetIsWorldCompositionLandscape(b: bool)
      modifies this
      ensures IsWorldCompositionLandscape() == b
      ensures landscape == old(landscape) && bakeType == old(bakeType)
    {
      isWorldCompositionLandscape := b;
    }
  }

  /** Names one output object: the Houdini object / geo / part it comes from and
      the split (for instancers, the original and variation index) that made it. */
  datatype Identifier = Identifier(
    objectId: int,
    geoId: int,
    partId: int,
    splitIdentifier: string,
    partName: string,
    primitiveIndex: int,
    pointIndex: int,
    loaded: bool)

  /** The identifier a default-constructed FHoudiniOutputObjectIdentifier holds. */
  function DefaultIdentifier(): (r: Identifier)
    ensures r.objectId == -1 && r.geoId == -1 && r.partId == -1
    ensures r.splitIdentifier == "" && r.partName == ""
    ensures r.primitiveIndex == -1 && r.pointIndex == -1 && !r.loaded
  {
    Identifier(-1, -1, -1, "", "", -1, -1, false)
  }

  /** The kind of a cooked part. */
  datatype PartType = InvalidPart | MeshPart | InstancerPart | CurvePart | VolumePart

  datatype InstancerType = NoInstancer | ObjectInstancer | PackedPrimitive | AttributeInstancer | OldSchoolAttributeInstancer

  /** The subset of a cooked geometry part (FHoudiniGeoPartObject) the core reads. */
  datatype GeoPart = GeoPart(
    objectId: int,
    geoId: int,
    partId: int,
    partName: string,
    partType: PartType,
    instancerType: InstancerType,
    isInstanced: bool,
    objectToInstanceId: int,
    hasCustomPartName: bool,
    transformMatrix: Transform)

  /**
   * The variations of one instanced original: an object plus a transform offset
   * per variation, and for each original transform the variation it uses.
   */
  datatype InstancedOutput = InstancedOutput(
    originalObject: Ptr,
    originalObjectIndex: int,
    originalTransforms: seq<Transform>,
    variationObjects: seq<Ptr>,
    variationTransformOffsets: seq<Transform>,
    transformVariationIndices: seq<int>,
    changed: bool,
    stale: bool)
  {
    /** `MarkChanged`: only the changed flag moves. */
    function MarkChanged(b: bool): (r: InstancedOutput)
      ensures r.changed == b && r.(changed := changed) == this
    {
      this.(changed := b)
    }

    /** The variation objects and their offsets stay one-to-one. */
    predicate InLockstep()
    {
      |variationObjects| == |variationTransformOffsets|
    }
  }

  function DefaultInstancedOutput(): (r: InstancedOutput)
    ensures r.originalObject == Null && r.originalObjectIndex == -1
    ensures r.originalTransforms == [] && r.variationObjects == [] && r.variationTransformOffsets == []
    ensures r.transformVariationIndices == [] && !r.changed && !r.stale
  {
    InstancedOutput(Null, -1, [], [], [], [], false, false)
  }

  /** What currently represents one output: the object, its component, and
      their proxy counterparts. */
  datatype OutputObject = OutputObject(
    outputObject: Ptr,
    outputComponent: Ptr,
    proxyObject: Ptr,
    proxyComponent: Ptr,
    proxyIsCurrent: bool,
    bakeName: string)

  function DefaultOutputObject(): (r: OutputObject)
    ensures r.outputObject == Null && r.outputComponent == Null
    ensures r.proxyObject == Null && r.proxyComponent == Null
    ensures !r.proxyIsCurrent && r.bakeName == ""
  {
    OutputObject(Null, Null, Null, Null, false, "")
  }

  /** The four flags of an output. */
  datatype OutputFlags = OutputFlags(
    landscapeWorldComposition: bool,
    isEditableNode: bool,
    hasEditableNodeBuilt: bool,
    isUpdating: bool)

  /** One output of a cooked node. */
  class Output {
    var outputType: OutputType
    var geoParts: seq<GeoPart>
    var outputObjects: map<Identifier, OutputObject>
    var instancedOutputs: map<Identifier, InstancedOutput>
    var assignementMaterials: map<string, Ptr>
    var replacementMaterials: map<string, Ptr>
    var landscapeWorldComposition: bool
    var isEditableNode: bool
    var hasEditableNodeBuilt: bool
    var isUpdating: bool

    constructor (t: OutputType, parts: seq<GeoPart>)
      ensures outputType == t && geoParts == parts
      ensures outputObjects == map[] && instancedOutputs == map[]
      ensures assignementMaterials == map[] && replacementMaterials == map[]
      ensures Flags() == OutputFlags(false, false, false, false)
    {
      outputType := t;
      geoParts := parts;
      outputObjects := map[];
      instancedOutputs := map[];
      assignementMaterials := map[];
      replacementMaterials := map[];
      landscapeWorldComposition := false;
      isEditableNode := false;
      hasEditableNodeBuilt := false;
      isUpdating := false;
    }

    /** Every instanced output keeps its variation arrays one-to-one. */
    predicate InstancedOutputsInLockstep()
      reads this
    {
      forall k :: k in instancedOutputs ==> instancedOutputs[k].InLockstep()
    }

    function Flags(): OutputFlags
      reads this
    {
      OutputFlags(landscapeWorldComposition, isEditableNode, hasEditableNodeBuilt, isUpdating)
    }

    /** Everything of the output other than its output objects and instanced outputs. */
    function Settings(): (OutputType, seq<GeoPart>, map<string, Ptr>, map<string, Ptr>, OutputFlags)
      reads this
    {
      (outputType, geoParts, assignementMaterials, replacementMaterials, Flags())
    }

    function GetOutputObjects(): map<Identifier, OutputObject>
      reads this
    {
      outputObjects
    }

    function GetInstancedOutputs(): map<Identifier, InstancedOutput>
      reads this
    {
      instancedOutputs
    }

    /** Replaces the whole output-object map and touches nothing else. */
    method SetOutputObjects(m: map<Identifier, OutputObject>)
      modifies this
      ensures GetOutputObjects() == m
      ensures instancedOutputs == old(instancedOutputs) && geoParts == old(geoParts) && outputType == old(outputType)
      ensures assignementMaterials == old(assignementMaterials) && replacementMaterials == old(replacementMaterials)
      ensures Flags() == old(Flags())
    {
      outputObjects := m;
    }

    /** Replaces the whole instanced-output map and touches nothing else. */
    method SetInstancedOutputs(m: map<Identifier, InstancedOutput>)
      modifies this
      ensures GetInstancedOutputs() == m
      ensures outputObjects == old(outputObjects) && geoParts == old(geoParts) && outputType == old(outputType)
      ensures assignementMaterials == old(assignementMaterials) && replacementMaterials == old(replacementMaterials)
      ensures Flags() == old(Flags())
    {
      instancedOutputs := m;
    }

    function IsEditableNode(): bool reads this { isEditableNode }

    method SetIsEditableNode(b: bool)
      modifies this
      ensures IsEditableNode() == b
      ensures Flags() == old(Flags()).(isEditableNode := b)
      ensures outputObjects == old(outputObjects) && instancedOutputs == old(instancedOutputs)
      ensures geoParts == old(geoParts) && outputType == old(outputType)
      ensures assignementMaterials == old(assignementMaterials) && replacementMaterials == old(replacementMaterials)
    {
      isEditableNode := b;
    }

    function HasEditableNodeBuilt(): bool reads this { hasEditableNodeBuilt }

    method SetHasEditableNodeBuilt(b: bool)
      modifies this
      ensures HasEditableNodeBuilt() == b
      ensures Flags() == old(Flags()).(hasEditableNodeBuilt := b)
      ensures outputObjects == old(outputObjects) && instancedOutputs == old(instancedOutputs)
      ensures geoParts == old(geoParts) && outputType == old(outputType)
      ensures assignementMaterials == old(assignementMaterials) && replacementMaterials == old(replacementMaterials)
    {
      hasEditableNodeBuilt := b;
    }

    function IsUpdating(): bool reads this { isUpdating }

    method SetIsUpdating(b: bool)
      modifies this
      ensures IsUpdating() == b
      ensures Flags() == old(Flags()).(isUpdating := b)
      ensures outputObjects == old(outputObjects) && instancedOutputs == old(instancedOutputs)
      ensures geoParts == old(geoParts) && outputType == old(outputType)
      ensures assignementMaterials == old(assignementMaterials) && replacementMaterials == old(replacementMaterials)
    {
      isUpdating := b;
    }

    function IsLandscapeWorldComposition(): bool reads this { landscapeWorldComposition }

    method SetLandscapeWorldComposition(b: bool)
      modifies this
      ensures IsLandscapeWorldComposition() == b
      ensures Flags() == old(Flags()).(landscapeWorldComposition := b)
      ensures outputObjects == old(outputObjects) && instancedOutputs == old(instancedOutputs)
      ensures geoParts == old(geoParts) && outputType == old(outputType)
      ensures assignementMaterials == old(assignementMaterials) && replacementMaterials == old(replacementMaterials)
    {
      landscapeWorldComposition := b;
    }
  }
}
