# Houdini Engine for Unreal: instance translator, outputs, parameters and bgeo import

This project is a Dafny model of the core of the Houdini Engine for Unreal plugin (v2). The plugin drives a Houdini node through the Houdini Engine API (HAPI) and turns what the node cooks into Unreal objects and components. The model covers five parts and proves properties of each:

- **Outputs** (`HoudiniOutput.h`): the output-object identifier, the instanced output with its variation arrays, one output object, and the `UHoudiniOutput` and `UHoudiniLandscapePtr` classes with their setters.
- **Instance translator** (`HoudiniInstanceTranslator.cpp`):
  - how a cooked instancer part is classified (packed primitive, attribute instancer, old-school attribute instancer, object instancer) and which objects and transforms it instances;
  - how the instanced outputs are refreshed after a cook, and how each variation is given its transforms, offsets and seeded random assignment;
  - which instancer component kind each variation needs, whether the previous component is reused or destroyed, and which materials it gets;
  - how the components of unused output objects are destroyed;
  - how a changed instanced output is rebuilt from the details panel.
- **Output details callbacks** (`HoudiniOutputDetails.cpp`): adding, removing, setting and resetting variation objects; committing and reverting bake names; dropping a material onto a mesh or instancer and resetting it.
- **Parameter translator** (`HoudiniParameterTranslator.cpp`):
  - how a HAPI parameter info becomes a parameter type and class;
  - how `BuildAllParameters` reuses, creates and skips parameters, including those under hidden folders;
  - the unit-tag rewrite and the folder type;
  - the HAPI call sequences that `UploadMultiParmValues` and `UploadRampParameter` issue.
- **Geometry importer** (`HoudiniGeoImporter.cpp`): how `SetFilePath` splits a file path into directory, name and extension, and the order and clean-up of the steps of `ImportBGEOFile`.

Engine objects are values `Obj(id, cls, name)` behind pointers `Ptr = Null | Ref(obj)`. Whether an object is still alive is a `Scene` of dead ids. HAPI results, engine factories and UI services are parameters of the operations, so every branch the code takes on their outcome is modelled. Where the source loops or changes state in place, the model is a `method` with loop invariants or a `class` with `modifies` frames, each proved against a specification function; the lemmas then state the source's promises about those functions.

Files: `common.dfy` (shared types), `seqs.dfy` and `text.dfy` (sequence and string helpers standing in for `TArray` and `FString`), `output.dfy`, `variation.dfy`, `resolver.dfy`, `classifier.dfy`, `components.dfy`, `reconcile.dfy`, `instancers.dfy`, `changed.dfy`, `output_details.dfy`, `parameter_types.dfy`, `parameter_build.dfy`, `parameter_upload.dfy`, `geo_importer.dfy`.

## Model

| member | source | states |
|---|---|---|
| HoudiniOutput.LandscapePtr.constructor | HoudiniEngine/Source/HoudiniEngineRuntime/Private/HoudiniOutput.h:87-124 | a new landscape pointer holds the given landscape |
| HoudiniOutput.LandscapePtr.SetLandscapeOutputBakeType | HoudiniEngine/Source/HoudiniEngineRuntime/Private/HoudiniOutput.h:111-114 | after the call the getter returns the new bake type; the landscape and the world-composition flag are unchanged |
| HoudiniOutput.LandscapePtr.SetIsWorldCompositionLandscape | HoudiniEngine/Source/HoudiniEngineRuntime/Private/HoudiniOutput.h:105-108 | after the call the getter returns the new flag; the landscape and the bake type are unchanged |
| HoudiniOutput.DefaultIdentifier | HoudiniEngine/Source/HoudiniEngineRuntime/Private/HoudiniOutput.h:146-176 | a default identifier has object, geo, part, primitive and point index -1, empty split id and part name, and is not loaded |
| HoudiniOutput.InstancedOutput.MarkChanged | HoudiniEngine/Source/HoudiniEngineRuntime/Private/HoudiniOutput.h:189 | only the changed flag takes the new value; every other field is as before |
| HoudiniOutput.DefaultInstancedOutput | HoudiniEngine/Source/HoudiniEngineRuntime/Private/HoudiniOutput.h:199-232 | a default instanced output has no original object, index -1, empty transform, variation, offset and index arrays, and is neither changed nor stale |
| HoudiniOutput.DefaultOutputObject | HoudiniEngine/Source/HoudiniEngineRuntime/Private/HoudiniOutput.h:246-270 | a default output object has null object, component, proxy and proxy component, a proxy that is not current, and an empty bake name |
| HoudiniOutput.Output.constructor | HoudiniEngine/Source/HoudiniEngineRuntime/Private/HoudiniOutput.h:393-415 | a new output has the given type and parts, empty output-object, instanced-output and material maps, and all four flags false |
| HoudiniOutput.Output.SetOutputObjects | HoudiniEngine/Source/HoudiniEngineRuntime/Private/HoudiniOutput.h:345 | the output-object map is replaced by the argument; the instanced outputs, parts, type, material maps and four flags are unchanged |
| HoudiniOutput.Output.SetInstancedOutputs | HoudiniEngine/Source/HoudiniEngineRuntime/Private/HoudiniOutput.h:347 | the instanced-output map is replaced by the argument; the output objects, parts, type, material maps and four flags are unchanged |
| HoudiniOutput.Output.SetIsEditableNode | HoudiniEngine/Source/HoudiniEngineRuntime/Private/HoudiniOutput.h:353-356 | the getter returns the new value; the other three flags, both object maps, the parts, the type and both material maps are unchanged |
| HoudiniOutput.Output.SetHasEditableNodeBuilt | HoudiniEngine/Source/HoudiniEngineRuntime/Private/HoudiniOutput.h:359-362 | the getter returns the new value; the other three flags, both object maps, the parts, the type and both material maps are unchanged |
| HoudiniOutput.Output.SetIsUpdating | HoudiniEngine/Source/HoudiniEngineRuntime/Private/HoudiniOutput.h:365-368 | the getter returns the new value; the other three flags, both object maps, the parts, the type and both material maps are unchanged |
| HoudiniOutput.Output.SetLandscapeWorldComposition | HoudiniEngine/Source/HoudiniEngineRuntime/Private/HoudiniOutput.h:371-374 | the getter returns the new value; the other three flags, both object maps, the parts, the type and both material maps are unchanged |
| Variation.DrawnValue | HoudiniEngine/Source/HoudiniEngine/Private/HoudiniInstanceTranslator.cpp:56-60 | the value fastrand returns lies in [0, 0x7FFF] |
| Variation.Fastrand | HoudiniEngine/Source/HoudiniEngine/Private/HoudiniInstanceTranslator.cpp:56-60 | the seed advances by one 32-bit wrapping linear-congruential step, and the result is the drawn value of the new seed |
| Variation.Assignments | HoudiniEngine/Source/HoudiniEngine/Private/HoudiniInstanceTranslator.cpp:726-730 | with at least two variations, one index is drawn per transform from seed 1234, and each names a variation |
| Variation.AssignmentsPrefixStable | HoudiniEngine/Source/HoudiniEngine/Private/HoudiniInstanceTranslator.cpp:726-730 | the draws for the first m transforms do not depend on how many transforms follow, so adding instances keeps existing assignments |
| Variation.ReassignedIndices | HoudiniEngine/Source/HoudiniEngine/Private/HoudiniInstanceTranslator.cpp:717-731 | one index per original transform |
| Variation.UpdateVariationAssignements | HoudiniEngine/Source/HoudiniEngine/Private/HoudiniInstanceTranslator.cpp:717-731 | only the index array changes: it is resized with zero filling, then redrawn exactly when there are two or more variations |
| Variation.ReassignedIndicesNameVariations | HoudiniEngine/Source/HoudiniEngine/Private/HoudiniInstanceTranslator.cpp:717-731 | after reassignment every index names an existing variation |
| Variation.ClampScale | HoudiniEngine/Source/HoudiniEngine/Private/HoudiniInstanceTranslator.cpp:789-800 | a clamped scale component is at least the small value in magnitude and keeps its sign (zero becomes negative); components already large enough are unchanged |
| Variation.TranslationOffsetMoves | HoudiniEngine/Source/HoudiniEngine/Private/HoudiniInstanceTranslator.cpp:772-808 | a pure-translation offset only adds the translation to the position |
| Variation.ZeroScaleBecomesNegative | HoudiniEngine/Source/HoudiniEngine/Private/HoudiniInstanceTranslator.cpp:792-793 | a zero scale product becomes minus the small value |
| Variation.OffsetAll | HoudiniEngine/Source/HoudiniEngine/Private/HoudiniInstanceTranslator.cpp:780-807 | the offset keeps one transform per input transform |
| Variation.OffsetAllKeepsInvalid | HoudiniEngine/Source/HoudiniEngine/Private/HoudiniInstanceTranslator.cpp:802-806 | each transform is replaced by its offset version exactly when that version is valid, and kept otherwise |
| Variation.ProcessInstanceTransforms | HoudiniEngine/Source/HoudiniEngine/Private/HoudiniInstanceTranslator.cpp:734-809 | the output array equals Processed: unchanged for an invalid variation index, the original transforms when there are no variations and no offset, otherwise the transforms assigned to the variation (appended to the prior array) with the offset applied when it is not the identity |
| Variation.ProcessedSelects | HoudiniEngine/Source/HoudiniEngine/Private/HoudiniInstanceTranslator.cpp:755-764 | with several variations and an identity offset, a variation gets exactly the original transforms whose index names it, in order |
| Variation.ConcatProcessedSelects | HoudiniEngine/Source/HoudiniEngine/Private/HoudiniInstanceTranslator.cpp:755-764 | the same holds for a whole sequence of variations processed one after another |
| Variation.VariationsPartitionTransforms | HoudiniEngine/Source/HoudiniEngine/Private/HoudiniInstanceTranslator.cpp:717-764 | without offsets, and with every index naming a variation, the variations together place every original transform exactly once (a multiset equality) |
| Variation.Processed | HoudiniEngine/Source/HoudiniEngine/Private/HoudiniInstanceTranslator.cpp:734-809 | specification of ProcessInstanceTransforms: an invalid variation index leaves the prior array; one variation without offset gives the original transforms; otherwise the prior array followed by the transforms assigned to the variation (all of them with a single variation), each offset when the offset is not the identity |
| Resolver.KeyFor | HoudiniEngine/Source/HoudiniEngine/Private/HoudiniInstanceTranslator.cpp:585-593 | the key of original i is the part identifier with the split id replaced by the decimal text of i, and nothing else changed |
| Resolver.KeysDistinct | HoudiniEngine/Source/HoudiniEngine/Private/HoudiniInstanceTranslator.cpp:593 | different originals get different keys, so two originals never share an instanced output |
| Resolver.StaleMarks | HoudiniEngine/Source/HoudiniEngine/Private/HoudiniInstanceTranslator.cpp:659-660 | a variation is marked exactly when it is null, pending kill, or the replaced original |
| Resolver.StaleFromBounds | HoudiniEngine/Source/HoudiniEngine/Private/HoudiniInstanceTranslator.cpp:657-664 | every collected index is in range and names a stale variation |
| Resolver.StaleFromDescending | HoudiniEngine/Source/HoudiniEngine/Private/HoudiniInstanceTranslator.cpp:657-664 | the indices are collected in strictly descending order |
| Resolver.StaleFromCovers | HoudiniEngine/Source/HoudiniEngine/Private/HoudiniInstanceTranslator.cpp:657-664 | every stale variation's index is collected |
| Resolver.StaleFromIsRemovalList | HoudiniEngine/Source/HoudiniEngine/Private/HoudiniInstanceTranslator.cpp:657-664 | the collected indices are strictly descending and are exactly the stale ones |
| Resolver.RemovingStep | HoudiniEngine/Source/HoudiniEngine/Private/HoudiniInstanceTranslator.cpp:667-671 | removing the next listed index is in range and removes exactly that entry, because earlier removals were all above it |
| Resolver.RemovingDone | HoudiniEngine/Source/HoudiniEngine/Private/HoudiniInstanceTranslator.cpp:667-671 | after all listed removals the array is the input without the stale entries |
| Resolver.RemovingStart | HoudiniEngine/Source/HoudiniEngine/Private/HoudiniInstanceTranslator.cpp:667-671 | before any removal the array is the input |
| Resolver.CollectStale | HoudiniEngine/Source/HoudiniEngine/Private/HoudiniInstanceTranslator.cpp:656-664 | the downward scan returns the stale indices as a removal list |
| Resolver.RemoveStaleVariations | HoudiniEngine/Source/HoudiniEngine/Private/HoudiniInstanceTranslator.cpp:656-674 | both the objects and the offsets lose exactly the stale entries, in order, and the index array is cleared exactly when some variation was stale |
| Resolver.RemovalListEmpty | HoudiniEngine/Source/HoudiniEngine/Private/HoudiniInstanceTranslator.cpp:665 | the removal list is non-empty exactly when some variation is stale |
| Resolver.RemoveOne | HoudiniEngine/Source/HoudiniEngine/Private/HoudiniInstanceTranslator.cpp:669-670 | removing one stale entry below the part already cleaned extends the cleaned part by one step |
| Resolver.DropStaleKeepsFresh | HoudiniEngine/Source/HoudiniEngine/Private/HoudiniInstanceTranslator.cpp:655-674 | no variation left after the removal is stale |
| Resolver.DropSubset | HoudiniEngine/Source/HoudiniEngine/Private/HoudiniInstanceTranslator.cpp:667-671 | removal only removes: every survivor was in the array |
| Resolver.DropSameLength | HoudiniEngine/Source/HoudiniEngine/Private/HoudiniInstanceTranslator.cpp:669-670 | objects and offsets keep the same length after the removal |
| Resolver.PrunedShape | HoudiniEngine/Source/HoudiniEngine/Private/HoudiniInstanceTranslator.cpp:642-674 | after the first repair step the arrays are one-to-one, no variation is stale, every offset is an old one, and the index array is empty unless nothing was removed |
| Resolver.RefilledShape | HoudiniEngine/Source/HoudiniEngine/Private/HoudiniInstanceTranslator.cpp:676-683 | with no variation left the original stands in with an identity offset, so at least one variation remains, each a pruned one or the original |
| Resolver.ReindexedShape | HoudiniEngine/Source/HoudiniEngine/Private/HoudiniInstanceTranslator.cpp:685-688 | after reassignment every transform has an index, and nothing but the index array changed |
| Resolver.RefreshedShape | HoudiniEngine/Source/HoudiniEngine/Private/HoudiniInstanceTranslator.cpp:640-711 | a refreshed output holds the new original, its index and transforms; its variation arrays are one-to-one and non-empty; every transform has an index; both flags are clear; every variation is live and not the replaced original; every offset is old or the identity |
| Resolver.RefreshedKeepsClean | HoudiniEngine/Source/HoudiniEngine/Private/HoudiniInstanceTranslator.cpp:655-688 | an output with nothing stale and an index per transform keeps its variations, offsets and assignments |
| Resolver.RefreshedKeepsIndicesValid | HoudiniEngine/Source/HoudiniEngine/Private/HoudiniInstanceTranslator.cpp:655-688 | refreshing keeps every index naming a variation |
| Resolver.AllProcessed | HoudiniEngine/Source/HoudiniEngine/Private/HoudiniInstanceTranslator.cpp:698-699 | entry v holds what the transform processing gives variation v, starting from an empty array |
| Resolver.EmitFrom | HoudiniEngine/Source/HoudiniEngine/Private/HoudiniInstanceTranslator.cpp:691-707 | the four output arrays stay one-to-one |
| Resolver.EmitFromSound | HoudiniEngine/Source/HoudiniEngine/Private/HoudiniInstanceTranslator.cpp:691-707 | each emitted entry is a live variation of this original, with its index, and with its non-empty processed transforms |
| Resolver.EmitFromOrdered | HoudiniEngine/Source/HoudiniEngine/Private/HoudiniInstanceTranslator.cpp:691-707 | the emitted variation indices are in range and strictly increasing |
| Resolver.EmitFromComplete | HoudiniEngine/Source/HoudiniEngine/Private/HoudiniInstanceTranslator.cpp:691-707 | every live variation that receives at least one transform is emitted |
| Resolver.EmitFromFlatten | HoudiniEngine/Source/HoudiniEngine/Private/HoudiniInstanceTranslator.cpp:691-707 | with every variation live, the emitted transforms are all the processed transforms, one after another |
| Resolver.ConcatProcessedFlatten | HoudiniEngine/Source/HoudiniEngine/Private/HoudiniInstanceTranslator.cpp:691-707 | processing the variations one by one gives the same transforms as the processed lists laid end to end |
| Resolver.Created | HoudiniEngine/Source/HoudiniEngine/Private/HoudiniInstanceTranslator.cpp:617-638 | a new instanced output holds the original as its only variation, with an identity offset, the original's index and transforms, one zero index per transform, and both flags clear |
| Resolver.PruneInstancedOutput | HoudiniEngine/Source/HoudiniEngine/Private/HoudiniInstanceTranslator.cpp:642-674 | the method computes the first repair step |
| Resolver.RefreshInstancedOutput | HoudiniEngine/Source/HoudiniEngine/Private/HoudiniInstanceTranslator.cpp:640-688 | the method computes the whole repair of an existing output |
| Resolver.EmitVariations | HoudiniEngine/Source/HoudiniEngine/Private/HoudiniInstanceTranslator.cpp:690-707 | the emission loop gives what EmitFrom specifies for all variations |
| Resolver.EmitVariation | HoudiniEngine/Source/HoudiniEngine/Private/HoudiniInstanceTranslator.cpp:693-706 | one turn of the loop extends the emission by variation v |
| Resolver.EmitsEveryTransform | HoudiniEngine/Source/HoudiniEngine/Private/HoudiniInstanceTranslator.cpp:690-707 | without offsets, with all variations live and every index naming one, the emitted variations place every original transform exactly once (a multiset equality) |
| Resolver.RefreshedEmitsEveryTransform | HoudiniEngine/Source/HoudiniEngine/Private/HoudiniInstanceTranslator.cpp:640-711 | the same for an output just refreshed: its emission places each new transform exactly once |
| Resolver.ResolveOne | HoudiniEngine/Source/HoudiniEngine/Private/HoudiniInstanceTranslator.cpp:586-712 | one original keeps every instanced output and the emission one-to-one |
| Resolver.ResolveAll | HoudiniEngine/Source/HoudiniEngine/Private/HoudiniInstanceTranslator.cpp:586-712 | all originals together keep every instanced output and the emission one-to-one |
| Resolver.UpdateInstanceVariationObjects | HoudiniEngine/Source/HoudiniEngine/Private/HoudiniInstanceTranslator.cpp:575-713 | the new instanced-output map and the emission are those of ResolveAll over every original |
| Resolver.ResolveOneStaysPlain | HoudiniEngine/Source/HoudiniEngine/Private/HoudiniInstanceTranslator.cpp:617-711 | with no offsets present, processing one original adds none |
| Resolver.ResolveOneEmits | HoudiniEngine/Source/HoudiniEngine/Private/HoudiniInstanceTranslator.cpp:588-711 | a live original adds each of its transforms to the emission once; a null or dying one adds nothing |
| Resolver.ResolveAllNone | HoudiniEngine/Source/HoudiniEngine/Private/HoudiniInstanceTranslator.cpp:586 | with no original processed, nothing changes and nothing is emitted |
| Resolver.ResolveAllStep | HoudiniEngine/Source/HoudiniEngine/Private/HoudiniInstanceTranslator.cpp:586-712 | processing k originals is processing the first k-1, then ResolveOne on original k-1 |
| Resolver.ResolveAllStaysPlain | HoudiniEngine/Source/HoudiniEngine/Private/HoudiniInstanceTranslator.cpp:586-712 | with no offsets present, resolving adds none |
| Resolver.ResolveAllPlacesEveryTransform | HoudiniEngine/Source/HoudiniEngine/Private/HoudiniInstanceTranslator.cpp:586-712 | with no offsets present, the emission places every transform of every live original exactly once, and nothing from dead ones |
| Resolver.ResolveAllStepPlaces | HoudiniEngine/Source/HoudiniEngine/Private/HoudiniInstanceTranslator.cpp:586-712 | one more original adds its transforms to the emission exactly when it is live |
| Resolver.ResolveOneKeys | HoudiniEngine/Source/HoudiniEngine/Private/HoudiniInstanceTranslator.cpp:593-638 | a live original ends up under its own key, holding it, its index and transforms; other entries are unchanged; a dead original changes nothing |
| Resolver.ResolveAllKeys | HoudiniEngine/Source/HoudiniEngine/Private/HoudiniInstanceTranslator.cpp:586-712 | after k originals, each live one is held under its own key with at least one variation and both flags clear, and every entry under another key is as it was |
| Resolver.ResolveOneOrdered | HoudiniEngine/Source/HoudiniEngine/Private/HoudiniInstanceTranslator.cpp:586-712 | one more original keeps the emission ordered by original and then by variation |
| Resolver.ConcatOrdered | HoudiniEngine/Source/HoudiniEngine/Private/HoudiniInstanceTranslator.cpp:702-705 | appending a live original's increasing variations keeps that order |
| Resolver.ResolveAllOrdered | HoudiniEngine/Source/HoudiniEngine/Private/HoudiniInstanceTranslator.cpp:586-712 | every emitted entry comes from a live original, ordered by original index and then by variation index |
| Resolver.Pruned | HoudiniEngine/Source/HoudiniEngine/Private/HoudiniInstanceTranslator.cpp:642-674 | specification of the first repair stage: the new original and transforms, the stale variations removed from both arrays, and the index array cleared when any was removed |
| Resolver.Refilled | HoudiniEngine/Source/HoudiniEngine/Private/HoudiniInstanceTranslator.cpp:676-683 | specification of the refill: with no variation left the original, an identity offset and an empty index array stand in; otherwise nothing changes |
| Resolver.Reindexed | HoudiniEngine/Source/HoudiniEngine/Private/HoudiniInstanceTranslator.cpp:685-688 | specification of the reindex: the assignments are redrawn exactly when their count differs from the transforms |
| Resolver.Refreshed | HoudiniEngine/Source/HoudiniEngine/Private/HoudiniInstanceTranslator.cpp:640-711 | specification of the whole refresh of an existing instanced output: prune, refill and reindex, then marked neither changed nor stale |
| Classifier.PackedPart | HoudiniEngine/Source/HoudiniEngine/Private/HoudiniInstanceTranslator.cpp:857-868 | a packed part has the instancer's object, geo, name and transform, and the instanced part id |
| Classifier.PackedUpTo | HoudiniEngine/Source/HoudiniEngine/Private/HoudiniInstanceTranslator.cpp:857-874 | one packed part and one transform list per instanced part id |
| Classifier.PackedIsCrossProduct | HoudiniEngine/Source/HoudiniEngine/Private/HoudiniInstanceTranslator.cpp:857-874 | part k is the packed part of id k, and every one gets the whole instance transform list |
| Classifier.PackedInstances | HoudiniEngine/Source/HoudiniEngine/Private/HoudiniInstanceTranslator.cpp:812-877 | a result has one transform list per part; nothing when either HAPI read fails |
| Classifier.GetPackedPrimitiveInstancerHGPOsAndTransforms | HoudiniEngine/Source/HoudiniEngine/Private/HoudiniInstanceTranslator.cpp:812-877 | the method computes PackedInstances |
| Classifier.Lowered | HoudiniEngine/Source/HoudiniEngine/Private/HoudiniInstanceTranslator.cpp:985-997 | the values lowered one by one, as FString keys compare |
| Classifier.UniqueValuesKeys | HoudiniEngine/Source/HoudiniEngine/Private/HoudiniInstanceTranslator.cpp:985-997 | the map's keys are distinct up to case, each is a point value, and every point value has its key |
| Classifier.PointGroupsAsWritten | HoudiniEngine/Source/HoudiniEngine/Private/HoudiniInstanceTranslator.cpp:1000-1020 | as written, one transform list per loaded key, each holding the points whose value equals the key case-sensitively |
| Classifier.PointGroupsAsWrittenDropsPoints | HoudiniEngine/Source/HoudiniEngine/Private/HoudiniInstanceTranslator.cpp:985-1020 | counterexample: the values "A" and "a" give the single key "A", and only one of the two points is placed |
| Classifier.PointGroups | HoudiniEngine/Source/HoudiniEngine/Private/HoudiniInstanceTranslator.cpp:1000-1020 | corrected: one transform list per loaded key, selecting the points whose value equals the key up to case |
| Classifier.PointGroupsConcat | HoudiniEngine/Source/HoudiniEngine/Private/HoudiniInstanceTranslator.cpp:1000-1020 | with every object loading, the groups are exactly the per-key selections, key after key |
| Classifier.PointGroupsPartition | HoudiniEngine/Source/HoudiniEngine/Private/HoudiniInstanceTranslator.cpp:985-1020 | with every distinct value loading, the objects' transforms together are the points' transforms, each exactly once (a multiset equality) |
| Classifier.SelectPoints | HoudiniEngine/Source/HoudiniEngine/Private/HoudiniInstanceTranslator.cpp:1010-1015 | corrected: the inner loop selects the transforms of the points whose value equals the key up to case, in point order, where line 1013 compares case-sensitively (see "## Findings") |
| Classifier.CollectPointValues | HoudiniEngine/Source/HoudiniEngine/Private/HoudiniInstanceTranslator.cpp:985-997 | the first loop yields the distinct values in first-seen order, each with the object loaded for it |
| Classifier.GroupPointInstances | HoudiniEngine/Source/HoudiniEngine/Private/HoudiniInstanceTranslator.cpp:985-1023 | corrected: the point branch computes the corrected PointGroups over the distinct values, not the case-sensitive PointGroupsAsWritten |
| Classifier.AttributeInstances | HoudiniEngine/Source/HoudiniEngine/Private/HoudiniInstanceTranslator.cpp:881-1027 | corrected (case-insensitive point selection): a result has one transform list per object and at least one object |
| Classifier.AttributeInstancesCases | HoudiniEngine/Source/HoudiniEngine/Private/HoudiniInstanceTranslator.cpp:932-1023 | a detail value that loads places its one object at every point; point values fail when their count differs from the transforms, or when none loads |
| Classifier.PointGroupsNoneLoaded | HoudiniEngine/Source/HoudiniEngine/Private/HoudiniInstanceTranslator.cpp:1000-1023 | when no key loads, no object is placed |
| Classifier.GetAttributeInstancerObjectsAndTransforms | HoudiniEngine/Source/HoudiniEngine/Private/HoudiniInstanceTranslator.cpp:881-1027 | corrected (case-insensitive point selection): the method computes AttributeInstances, including the three attribute lookups and each failure |
| Classifier.MeshPartsOfSound | HoudiniEngine/Source/HoudiniEngine/Private/HoudiniInstanceTranslator.cpp:1069-1081 | every part found in an output is one of its non-instanced (when asked) mesh parts of the object |
| Classifier.PartsToInstanceSound | HoudiniEngine/Source/HoudiniEngine/Private/HoudiniInstanceTranslator.cpp:1064-1082 | only wanted parts are found across the mesh outputs |
| Classifier.UniqueIds | HoudiniEngine/Source/HoudiniEngine/Private/HoudiniInstanceTranslator.cpp:1057 | the distinct ids: no repeats, every point id is present, nothing else |
| Classifier.OldSchoolUpTo | HoudiniEngine/Source/HoudiniEngine/Private/HoudiniInstanceTranslator.cpp:1060-1100 | one transform list per found part |
| Classifier.OldSchoolInstances | HoudiniEngine/Source/HoudiniEngine/Private/HoudiniInstanceTranslator.cpp:1031-1106 | a result is non-empty with one transform list per part |
| Classifier.OldSchoolSound | HoudiniEngine/Source/HoudiniEngine/Private/HoudiniInstanceTranslator.cpp:1060-1100 | each part is a non-instanced mesh part of one of the ids, placed at exactly the points carrying that id |
| Classifier.OldSchoolPointsPartition | HoudiniEngine/Source/HoudiniEngine/Private/HoudiniInstanceTranslator.cpp:1057-1092 | with one id per transform, the per-id point selections place every transform exactly once |
| Classifier.CollectMeshParts | HoudiniEngine/Source/HoudiniEngine/Private/HoudiniInstanceTranslator.cpp:1069-1081 | the loop over one output's parts computes MeshPartsOf |
| Classifier.CollectParts | HoudiniEngine/Source/HoudiniEngine/Private/HoudiniInstanceTranslator.cpp:1064-1082 | the loop over the outputs computes PartsToInstance |
| Classifier.CollectUniqueIds | HoudiniEngine/Source/HoudiniEngine/Private/HoudiniInstanceTranslator.cpp:1057 | the set construction computes UniqueIds |
| Classifier.GetOldSchoolAttributeInstancerHGPOsAndTransforms | HoudiniEngine/Source/HoudiniEngine/Private/HoudiniInstanceTranslator.cpp:1031-1106 | the method computes OldSchoolInstances |
| Classifier.SelectObjectPoints | HoudiniEngine/Source/HoudiniEngine/Private/HoudiniInstanceTranslator.cpp:1085-1092 | the loop selects the transforms at the points carrying the id, skipping points past the transforms |
| Classifier.MovedTo | HoudiniEngine/Source/HoudiniEngine/Private/HoudiniInstanceTranslator.cpp:1156-1165 | one part out per part in |
| Classifier.MovedToParts | HoudiniEngine/Source/HoudiniEngine/Private/HoudiniInstanceTranslator.cpp:1156-1158 | moving changes only each part's transform, to the instancer's |
| Classifier.ObjectInstances | HoudiniEngine/Source/HoudiniEngine/Private/HoudiniInstanceTranslator.cpp:1110-1168 | a result has one transform list per part |
| Classifier.ObjectInstancesSound | HoudiniEngine/Source/HoudiniEngine/Private/HoudiniInstanceTranslator.cpp:1110-1168 | a result needs a non-negative object id, and every part is a mesh part of that object at the instancer's transform, placed at every instance transform |
| Classifier.GetObjectInstancerHGPOsAndTransforms | HoudiniEngine/Source/HoudiniEngine/Private/HoudiniInstanceTranslator.cpp:1110-1168 | the method computes ObjectInstances |
| Classifier.PickObject | HoudiniEngine/Source/HoudiniEngine/Private/HoudiniInstanceTranslator.cpp:538-546 | the proxy exactly when at most one transform is placed and the proxy is current and live; otherwise the live output object; nothing when neither applies |
| Classifier.ObjectsIn | HoudiniEngine/Source/HoudiniEngine/Private/HoudiniInstanceTranslator.cpp:529-547 | every object contributed is live |
| Classifier.ObjectsForLive | HoudiniEngine/Source/HoudiniEngine/Private/HoudiniInstanceTranslator.cpp:521-548 | every object found for a part across the mesh outputs is live |
| Classifier.PlaceParts | HoudiniEngine/Source/HoudiniEngine/Private/HoudiniInstanceTranslator.cpp:513-557 | one transform list per placed object |
| Classifier.PlacePartsLive | HoudiniEngine/Source/HoudiniEngine/Private/HoudiniInstanceTranslator.cpp:513-557 | every placed object is live |
| Classifier.PlacePartsTransforms | HoudiniEngine/Source/HoudiniEngine/Private/HoudiniInstanceTranslator.cpp:551-555 | every placed transform list is that of one of the parts |
| Classifier.ObjectsInEntries | HoudiniEngine/Source/HoudiniEngine/Private/HoudiniInstanceTranslator.cpp:529-547 | the loop over one output's objects computes ObjectsIn |
| Classifier.ObjectsToInstance | HoudiniEngine/Source/HoudiniEngine/Private/HoudiniInstanceTranslator.cpp:520-548 | the loop over the outputs computes ObjectsFor |
| Classifier.PartInstances | HoudiniEngine/Source/HoudiniEngine/Private/HoudiniInstanceTranslator.cpp:478-506 | a result has one transform list per part |
| Classifier.Classify | HoudiniEngine/Source/HoudiniEngine/Private/HoudiniInstanceTranslator.cpp:465-571 | a result has one transform list per object and at least one object; its attribute case uses the corrected point selection |
| Classifier.ClassifyPlacesLiveObjects | HoudiniEngine/Source/HoudiniEngine/Private/HoudiniInstanceTranslator.cpp:513-557 | a part-based classification places only live objects |
| Classifier.ClassifyFails | HoudiniEngine/Source/HoudiniEngine/Private/HoudiniInstanceTranslator.cpp:478-509 | a part of no instancer type, a failed transform read on the non-packed paths, or an object instancer with a negative object id gives nothing |
| Classifier.ClassifyPackedCrossProduct | HoudiniEngine/Source/HoudiniEngine/Private/HoudiniInstanceTranslator.cpp:480-557 | a packed classification read both HAPI arrays and places every object at the whole instance transform list |
| Classifier.GetInstancerObjectsAndTransforms | HoudiniEngine/Source/HoudiniEngine/Private/HoudiniInstanceTranslator.cpp:465-571 | the dispatch and lookup loop compute Classify |
| Classifier.PlaceInstances | HoudiniEngine/Source/HoudiniEngine/Private/HoudiniInstanceTranslator.cpp:515-556 | the loop over the found parts computes PlaceParts |
| Classifier.PlacePart | HoudiniEngine/Source/HoudiniEngine/Private/HoudiniInstanceTranslator.cpp:517-555 | one turn extends PlaceParts by part k |
| Components.OldKind | HoudiniEngine/Source/HoudiniEngine/Private/HoudiniInstanceTranslator.cpp:1195-1210 | a live prior component has the kind of its own class, matched from the most derived class down; a null or dying one has the invalid kind |
| Components.DesiredKind | HoudiniEngine/Source/HoudiniEngine/Private/HoudiniInstanceTranslator.cpp:1213-1243 | there is no kind exactly for a proxy mesh with other than one transform; otherwise the kind can host the object, is a single-instance kind exactly for one transform (actors aside), is the split instancer only when splitting, and is hierarchical exactly for a mesh with more than one LOD |
| Components.DesiredKindUnique | HoudiniEngine/Source/HoudiniEngine/Private/HoudiniInstanceTranslator.cpp:1213-1243 | any kind meeting those conditions is the one chosen, so the choice is determined by them |
| Components.PickInstancerMaterial | HoudiniEngine/Source/HoudiniEngine/Private/HoudiniInstanceTranslator.cpp:1248-1255 | no materials gives null; otherwise the material at the object's index when it is valid, else the first |
| Components.InstanceComponent | HoudiniEngine/Source/HoudiniEngine/Private/HoudiniInstanceTranslator.cpp:1171-1322 | it fails with no component when no kind fits; success implies a component; a prior component is reused exactly when its kind is the desired one; the prior one is destroyed exactly when it is live and replaced; the material is the picked one; only multi-instance kinds are placed at the instancer's transform |
| Components.ReuseByIdentity | HoudiniEngine/Source/HoudiniEngine/Private/HoudiniInstanceTranslator.cpp:1245-1246 | a prior component of the desired kind is kept, never destroyed, and the result is the creator's; a live one of another kind is destroyed once a new one exists |
| Components.AsMaterial | HoudiniEngine/Source/HoudiniEngine/Private/HoudiniInstanceTranslator.cpp:1985-1989 | the cast yields null, or the loaded object itself when it is a live material |
| Components.InstancerMaterials | HoudiniEngine/Source/HoudiniEngine/Private/HoudiniInstanceTranslator.cpp:1940-2001 | an unreadable attribute gives none; otherwise one entry per value, or none when no value loads a live material |
| Components.InstancerMaterialsValues | HoudiniEngine/Source/HoudiniEngine/Private/HoudiniInstanceTranslator.cpp:1981-1998 | every entry is null or a live material, and a non-empty result holds at least one real material |
| Components.GetInstancerMaterials | HoudiniEngine/Source/HoudiniEngine/Private/HoudiniInstanceTranslator.cpp:1974-2001 | the loading loop computes InstancerMaterials |
| Components.VariationMaterials | HoudiniEngine/Source/HoudiniEngine/Private/HoudiniInstanceTranslator.cpp:2005-2045 | there is a result exactly when an instanced output, some material and the variation exist; without one material per transform, it is the material at the variation's index, or the first |
| Components.VariationMaterialsPartition | HoudiniEngine/Source/HoudiniEngine/Private/HoudiniInstanceTranslator.cpp:2025-2035 | with one material per transform each variation gets exactly the materials of its transforms, so together the variations get every material once |
| Reconcile.HeldIds | HoudiniEngine/Source/HoudiniEngine/Private/HoudiniInstanceTranslator.cpp:273-285 | an entry holds exactly the ids of its output component and proxy component |
| Reconcile.HeldByStep | HoudiniEngine/Source/HoudiniEngine/Private/HoudiniInstanceTranslator.cpp:269-286 | destroying one more entry's components adds exactly what that entry holds |
| Reconcile.RemoveAndDestroyComponent | HoudiniEngine/Source/HoudiniEngine/Private/HoudiniInstanceTranslator.cpp:1916-1936 | the component is dead afterwards and nothing else dies |
| Reconcile.DropReused | HoudiniEngine/Source/HoudiniEngine/Private/HoudiniInstanceTranslator.cpp:229-266 | the old map loses exactly the entries the new map has and keeps |
| Reconcile.DestroyEntry | HoudiniEngine/Source/HoudiniEngine/Private/HoudiniInstanceTranslator.cpp:273-285 | both components of the entry are destroyed |
| Reconcile.DestroyUnused | HoudiniEngine/Source/HoudiniEngine/Private/HoudiniInstanceTranslator.cpp:269-287 | every component still held by a left-over entry is destroyed, and nothing else |
| Reconcile.ReconcileOutputObjects | HoudiniEngine/Source/HoudiniEngine/Private/HoudiniInstanceTranslator.cpp:229-291 | the output holds exactly the new map; the destroyed ids are those held by the unused old entries; the instanced outputs, parts, type, material maps and flags are unchanged |
| Reconcile.SparedIffIdentical | HoudiniEngine/Source/HoudiniEngine/Private/HoudiniInstanceTranslator.cpp:235-265 | an old entry is spared exactly when the new map has it and its new component is the identical live old one, with the proxy comparison overriding when a new proxy meets a live old one |
| Reconcile.UnkeptIsDestroyed | HoudiniEngine/Source/HoudiniEngine/Private/HoudiniInstanceTranslator.cpp:229-287 | both components of an entry that is not kept are destroyed |
| Reconcile.KeptSurvives | HoudiniEngine/Source/HoudiniEngine/Private/HoudiniInstanceTranslator.cpp:229-287 | the component that made an entry kept survives the pass, unless another left-over entry also holds it |
| Components.KindOfClass | HoudiniEngine/Source/HoudiniEngine/Private/HoudiniInstanceTranslator.cpp:1195-1210 | the component kind each component class stands for, Invalid for classes that are not instancer components |
| Reconcile.Keep | HoudiniEngine/Source/HoudiniEngine/Private/HoudiniInstanceTranslator.cpp:240-259 | specification of `bKeep`: a new proxy with a live old proxy decides by proxy identity alone; otherwise the new output component must be the identical live old one |
| Reconcile.Unused | HoudiniEngine/Source/HoudiniEngine/Private/HoudiniInstanceTranslator.cpp:229-266 | specification of the first loop: the old entries whose key the new map lacks or whose entry it does not keep |
| Instancers.PartIdentifier | HoudiniEngine/Source/HoudiniEngine/Private/HoudiniInstanceTranslator.cpp:96-100 | the identifier of a part matches it, carries its name and an empty split, and is otherwise the default |
| Instancers.VariationKey | HoudiniEngine/Source/HoudiniEngine/Private/HoudiniInstanceTranslator.cpp:175-178 | the output-object key of variation v of original o differs from the part identifier only in its split, "{o}_{v}" |
| Instancers.VariationKeysDistinct | HoudiniEngine/Source/HoudiniEngine/Private/HoudiniInstanceTranslator.cpp:175-178 | equal keys come from the same original and the same variation |
| Instancers.OriginalAndVariationKeysDiffer | HoudiniEngine/Source/HoudiniEngine/Private/HoudiniInstanceTranslator.cpp:165-178 | an instanced-output key "{o}" never equals an output-object key "{o}_{v}" |
| Instancers.PriorComponent | HoudiniEngine/Source/HoudiniEngine/Private/HoudiniInstanceTranslator.cpp:181-195 | no old entry gives null; otherwise the old proxy component for a proxy mesh, else the old output component |
| Instancers.Stored | HoudiniEngine/Source/HoudiniEngine/Private/HoudiniInstanceTranslator.cpp:216-224 | FindOrAdd adds the key, leaves every other entry alone, and sets only the proxy or the output component of the entry, the rest being the old entry's or the default's |
| Instancers.Destroying | HoudiniEngine/Source/HoudiniEngine/Private/HoudiniInstanceTranslator.cpp:1316-1319 | destroying a component adds its id to the dead set; null changes nothing |
| Instancers.PlaceVariation | HoudiniEngine/Source/HoudiniEngine/Private/HoudiniInstanceTranslator.cpp:151-225 | one turn of the creation loop computes VariationStep: skip a dead object or one without transforms, otherwise create or reuse, destroy the replaced component, and on success store under "{orig}_{var}" |
| Instancers.CreateInstancerComponents | HoudiniEngine/Source/HoudiniEngine/Private/HoudiniInstanceTranslator.cpp:151-225 | the creation loop computes the placements of all resolved variations |
| Instancers.VariationStepKeys | HoudiniEngine/Source/HoudiniEngine/Private/HoudiniInstanceTranslator.cpp:216 | one turn adds at most the key of its own variation |
| Instancers.PlacementKeys | HoudiniEngine/Source/HoudiniEngine/Private/HoudiniInstanceTranslator.cpp:151-225 | the loop keeps every key there was, and every key it adds is the "{orig}_{var}" key of one of the variations it went through |
| Instancers.VariationStepReuses | HoudiniEngine/Source/HoudiniEngine/Private/HoudiniInstanceTranslator.cpp:181-224 | an old component that is live and of the needed kind is stored again and nothing is destroyed; a live one of another kind is destroyed once a new component exists |
| Instancers.PartStep | HoudiniEngine/Source/HoudiniEngine/Private/HoudiniInstanceTranslator.cpp:89-225 | one part keeps every instanced output one-to-one |
| Instancers.Cooked | HoudiniEngine/Source/HoudiniEngine/Private/HoudiniInstanceTranslator.cpp:89-226 | all parts keep every instanced output one-to-one |
| Instancers.CreatePartInstancers | HoudiniEngine/Source/HoudiniEngine/Private/HoudiniInstanceTranslator.cpp:89-225 | one turn of the part loop skips a non-instancer part or one that does not classify; otherwise it resolves its variations and makes a component for each, as PartStep says |
| Instancers.MarkedStale | HoudiniEngine/Source/HoudiniEngine/Private/HoudiniInstanceTranslator.cpp:81-82 | every instanced output is marked stale and nothing else changes |
| Instancers.MarkAllStale | HoudiniEngine/Source/HoudiniEngine/Private/HoudiniInstanceTranslator.cpp:81-82 | the marking loop computes MarkedStale |
| Instancers.CreateAllInstancersFromHoudiniOutput | HoudiniEngine/Source/HoudiniEngine/Private/HoudiniInstanceTranslator.cpp:64-294 | success exactly when the output and outer component are live and the outer is a scene component; a dead output or outer changes nothing; a non-scene outer leaves the instanced outputs marked stale; on success the part loop runs from the stale-marked outputs and an empty new map, and the reconcile pass sets the new map; the parts, type, material maps and flags are unchanged; attribute instancers use the corrected point selection |
| Instancers.VariationStep | HoudiniEngine/Source/HoudiniEngine/Private/HoudiniInstanceTranslator.cpp:151-225 | specification of one creation-loop turn: a dead object or one without transforms is skipped; otherwise the component is created or reused, the replaced one destroyed, and on success stored under "{orig}_{var}" |
| Instancers.Placements | HoudiniEngine/Source/HoudiniEngine/Private/HoudiniInstanceTranslator.cpp:151-225 | specification of the creation loop: the first n turns folded from the old state |
| Changed.ChangedIdentifier | HoudiniEngine/Source/HoudiniEngine/Private/HoudiniInstanceTranslator.cpp:304-309 | the update's identifier copies the object, geo and part ids, the split and the part name, and leaves every other field at its default |
| Changed.ResolveAt | HoudiniEngine/Source/HoudiniEngine/Private/HoudiniInstanceTranslator.cpp:586-712 | resolving one original under a given key keeps every instanced output and the emission one-to-one |
| Changed.ResolveOneFromNothing | HoudiniEngine/Source/HoudiniEngine/Private/HoudiniInstanceTranslator.cpp:586-712 | resolving original i with nothing emitted yet is resolving it under its own key |
| Changed.AsWrittenResolvesUnderZero | HoudiniEngine/Source/HoudiniEngine/Private/HoudiniInstanceTranslator.cpp:311-327 | as written, the single original is resolved under split "0" with index 0, whatever the changed output's own split is |
| Changed.AsWrittenIgnoresChangedOutput | HoudiniEngine/Source/HoudiniEngine/Private/HoudiniInstanceTranslator.cpp:311-327 | counterexample: with a variation set on output "1" and no output under "0", the code as written creates an output under "0", instances only the bare original, and leaves output "1" untouched |
| Changed.ChangedResolution | HoudiniEngine/Source/HoudiniEngine/Private/HoudiniInstanceTranslator.cpp:311-327 | the corrected resolution keeps every instanced output and the emission one-to-one |
| Changed.ChangedResolutionUsesOwnEntry | HoudiniEngine/Source/HoudiniEngine/Private/HoudiniInstanceTranslator.cpp:311-327 | the corrected resolution refreshes the changed output under its own key and leaves every other entry alone; every emitted object is one of its variations; with plain variations each of its transforms is placed exactly once |
| Changed.ChangedKey | HoudiniEngine/Source/HoudiniEngine/Private/HoudiniInstanceTranslator.cpp:378-384 | the output-object key of a variation differs from the update's identifier only in its split, "{split}_{variation}" |
| Changed.Purged | HoudiniEngine/Source/HoudiniEngine/Private/HoudiniInstanceTranslator.cpp:435-458 | the purge leaves exactly the keys not in the delete copy, and destroys every component and proxy component the copy holds |
| Changed.ChangedAllShape | HoudiniEngine/Source/HoudiniEngine/Private/HoudiniInstanceTranslator.cpp:362-433 | after n turns the map's keys are the old keys plus those a component was stored under, and the delete copy holds exactly the old entries under the other keys |
| Changed.ChangedKeepsOnlyTouched | HoudiniEngine/Source/HoudiniEngine/Private/HoudiniInstanceTranslator.cpp:360-458 | after the update the output holds exactly the keys a component was stored under; every other old entry is gone and its components are destroyed |
| Changed.RebuildVariation | HoudiniEngine/Source/HoudiniEngine/Private/HoudiniInstanceTranslator.cpp:365-433 | one turn: dead objects and objects without transforms are skipped; otherwise a component is created or reused against the entry's old one, on success a different component replaces the old one, which is destroyed, and the key leaves the delete copy |
| Changed.PurgeUnused | HoudiniEngine/Source/HoudiniEngine/Private/HoudiniInstanceTranslator.cpp:437-458 | the loop over the delete copy computes Purged |
| Changed.UpdateChangedInstancedOutput | HoudiniEngine/Source/HoudiniEngine/Private/HoudiniInstanceTranslator.cpp:298-461 | returns true; the instanced outputs are those of the corrected resolution; the output objects and the scene are the rebuild loop followed by the purge, with the instancer materials; parts, type, material maps and flags are unchanged |
| Changed.ResolveChangedOutput | HoudiniEngine/Source/HoudiniEngine/Private/HoudiniInstanceTranslator.cpp:311-327 | the method computes the corrected resolution |
| Changed.ChangedResolutionAsWritten | HoudiniEngine/Source/HoudiniEngine/Private/HoudiniInstanceTranslator.cpp:311-327 | as written: the changed output resolved as original 0 of a one-element array, under split "0" |
| Changed.ChangedStep | HoudiniEngine/Source/HoudiniEngine/Private/HoudiniInstanceTranslator.cpp:365-433 | specification of one rebuild turn: a dead object or one without transforms is skipped; otherwise the component is created or reused against the entry's component, a different old one destroyed, and the key leaves the delete copy |
| Changed.ChangedAll | HoudiniEngine/Source/HoudiniEngine/Private/HoudiniInstanceTranslator.cpp:362-433 | specification of the rebuild loop: the first n turns folded from the start state |
| OutputDetails.ObjectAddedShape | HoudiniEngine/Source/HoudiniEngineEditor/Private/HoudiniOutputDetails.cpp:2147-2155 | adding keeps both variation arrays one-to-one, puts the object and an identity offset at the index with the old entries around them, marks the output changed, and leaves every assignment naming a variation |
| OutputDetails.ObjectRemovedShape | HoudiniEngine/Source/HoudiniEngineEditor/Private/HoudiniOutputDetails.cpp:2165-2181 | removing is a no-op exactly for an out-of-range index or the last variation; otherwise both arrays lose the same index, so one variation always remains |
| OutputDetails.RemovingToOneKeepsIndices | HoudiniEngine/Source/HoudiniEngineEditor/Private/HoudiniOutputDetails.cpp:2165-2181 | going down to one variation keeps the old assignments, which may still name the removed index |
| OutputDetails.RemoveUndoesAdd | HoudiniEngine/Source/HoudiniEngineEditor/Private/HoudiniOutputDetails.cpp:2147-2181 | removing at the index just added gives back the old variations and offsets |
| OutputDetails.ObjectSetShape | HoudiniEngine/Source/HoudiniEngineEditor/Private/HoudiniOutputDetails.cpp:2191-2199 | setting changes only the one variation object and marks the output changed; an invalid index changes nothing |
| OutputDetails.ResetRestoresOriginal | HoudiniEngine/Source/HoudiniEngineEditor/Private/HoudiniOutputDetails.cpp:2436-2438 | the reset button puts the original object back at that variation, whatever it was set to |
| OutputDetails.AddObjectAt | HoudiniEngine/Source/HoudiniEngineEditor/Private/HoudiniOutputDetails.cpp:2147-2162 | the output's entry under the key becomes the added variation; every other entry, the output objects, parts, type, material maps and flags are unchanged |
| OutputDetails.RemoveObjectAt | HoudiniEngine/Source/HoudiniEngineEditor/Private/HoudiniOutputDetails.cpp:2165-2188 | the output's entry under the key becomes the removed variation; every other entry, the output objects, parts, type, material maps and flags are unchanged |
| OutputDetails.SetObjectAt | HoudiniEngine/Source/HoudiniEngineEditor/Private/HoudiniOutputDetails.cpp:2191-2205 | the output's entry under the key becomes the set variation; every other entry, the output objects, parts, type, material maps and flags are unchanged |
| OutputDetails.ResetObjectAt | HoudiniEngine/Source/HoudiniEngineEditor/Private/HoudiniOutputDetails.cpp:2436-2438 | the entry under the key has that variation set to the original object; every other entry, the output objects, parts, type, material maps and flags are unchanged |
| OutputDetails.WithBakeNameShape | HoudiniEngine/Source/HoudiniEngineEditor/Private/HoudiniOutputDetails.cpp:2742-2771 | only the bake name of a present entry changes; an unknown identifier changes nothing |
| OutputDetails.RevertUndoesCommit | HoudiniEngine/Source/HoudiniEngineEditor/Private/HoudiniOutputDetails.cpp:2742-2771 | reverting after a commit equals reverting alone, and gives back the entry whose bake name was empty |
| OutputDetails.OnBakeNameCommitted | HoudiniEngine/Source/HoudiniEngineEditor/Private/HoudiniOutputDetails.cpp:2742-2756 | the committed text becomes the entry's bake name; a null output or unknown identifier is left alone; the instanced outputs, parts, type, material maps and flags are unchanged |
| OutputDetails.OnRevertBakeNameToDefault | HoudiniEngine/Source/HoudiniEngineEditor/Private/HoudiniOutputDetails.cpp:2759-2771 | the entry's bake name is emptied; a null output or unknown identifier is left alone; the instanced outputs, parts, type, material maps and flags are unchanged |
| OutputDetails.BakeObjectName | HoudiniEngine/Source/HoudiniEngineEditor/Private/HoudiniOutputDetails.cpp:2677-2690 | no name exactly for a null or pending-kill object; otherwise the given name, or the part's custom name, or the object's own name, in that order |
| OutputDetails.BakeNamePriority | HoudiniEngine/Source/HoudiniEngineEditor/Private/HoudiniOutputDetails.cpp:2683-2690 | the panel's bake name wins over the part's custom name, which wins over the object's name |
| OutputDetails.FindKey | HoudiniEngine/Source/HoudiniEngineEditor/Private/HoudiniOutputDetails.cpp:1942 | a key is found exactly when some key holds the material, and it holds it |
| OutputDetails.RestoredMaterial | HoudiniEngine/Source/HoudiniEngineEditor/Private/HoudiniOutputDetails.cpp:1734-1738 | the reset material is the key's non-null assignment, or the default material |
| OutputDetails.RetargetComponents | HoudiniEngine/Source/HoudiniEngineEditor/Private/HoudiniOutputDetails.cpp:1991-2003 | the loop over output objects reaches exactly the mesh components showing the mesh (live ones only when dropping) |
| OutputDetails.OnMaterialInterfaceDropped | HoudiniEngine/Source/HoudiniEngineEditor/Private/HoudiniOutputDetails.cpp:1917-2013 | the guards leave everything alone; otherwise the key is found in the stated order, the replacement map gets it, the slot takes the new material and the mesh's components are updated; the object maps, assignments, parts, type and flags are unchanged |
| OutputDetails.OnResetMaterialInterfaceClicked | HoudiniEngine/Source/HoudiniEngineEditor/Private/HoudiniOutputDetails.cpp:1695-1766 | a reset happens exactly for a live mesh, a valid non-empty slot and a replaced material; it removes that key and restores the assignment or the default material on the slot and the components; the object maps, assignments, parts, type and flags are unchanged |
| OutputDetails.ResetUndoesDrop | HoudiniEngine/Source/HoudiniEngineEditor/Private/HoudiniOutputDetails.cpp:1695-1766 | after a drop filed under an assignment key, the reset removes exactly the added entry and puts the old material back |
| OutputDetails.RedropReusesKey | HoudiniEngine/Source/HoudiniEngineEditor/Private/HoudiniOutputDetails.cpp:1940-1986 | a second drop onto the slot that took the first drop's material, with no other replacement holding it, files under the first drop's key, so the replacement map gains no second entry for the slot |
| OutputDetails.ObjectAdded | HoudiniEngine/Source/HoudiniEngineEditor/Private/HoudiniOutputDetails.cpp:2147-2155 | specification of the insert: the object and an identity offset at the same index, the assignments redrawn, the output marked changed |
| OutputDetails.ObjectRemoved | HoudiniEngine/Source/HoudiniEngineEditor/Private/HoudiniOutputDetails.cpp:2165-2181 | specification of the remove: no change out of range or for the last variation; otherwise the index leaves both arrays, assignments redrawn, marked changed |
| OutputDetails.ObjectSet | HoudiniEngine/Source/HoudiniEngineEditor/Private/HoudiniOutputDetails.cpp:2191-2199 | specification of the set: a valid index takes the object and the output is marked changed; an invalid one changes nothing |
| OutputDetails.WithBakeName | HoudiniEngine/Source/HoudiniEngineEditor/Private/HoudiniOutputDetails.cpp:2742-2771 | specification of the bake-name callbacks: the entry under the identifier, if present, takes the name |
| OutputDetails.IsDropKey | HoudiniEngine/Source/HoudiniEngineEditor/Private/HoudiniOutputDetails.cpp:1940-1972 | the key a drop files under: a replacement key holding the old material, else an assignment key holding it, else the default material name for the default material, else the material's own name |
| ParameterTypes.GetParmType | HoudiniEngine/Source/HoudiniEngine/Private/HoudiniParameterTranslator.cpp:396-559 | a string or an integer is a choice exactly when it has choices; a multiparm list is a float ramp, a colour ramp or a multiparm by its ramp type; a node parameter is a string unless it takes an input node; only a radio folder list or an unknown HAPI type is Invalid |
| ParameterTypes.ClassMatches | HoudiniEngine/Source/HoudiniEngine/Private/HoudiniParameterTranslator.cpp:657-784 | an existing parameter fits a type exactly when its class derives from the class the type requires; nothing fits Invalid |
| ParameterTypes.CreatedClassMatches | HoudiniEngine/Source/HoudiniEngine/Private/HoudiniParameterTranslator.cpp:875-974 | the class a new parameter of a type is created with fits that type, for every type except Invalid |
| ParameterTypes.RampsAreMultiParms | HoudiniEngine/Source/HoudiniEngine/Private/HoudiniParameterTranslator.cpp:657-784 | both ramp classes fit the multiparm type, the multiparm class fits neither ramp type, and each ramp class fits only its own ramp |
| ParameterTypes.GetDesiredParameterClass | HoudiniEngine/Source/HoudiniEngine/Private/HoudiniParameterTranslator.cpp:562-654 | every ramp multiparm list, float or colour, asks for the float-ramp class; a plain multiparm list asks for the base class |
| ParameterTypes.ColorRampDesiredClassMismatch | HoudiniEngine/Source/HoudiniEngine/Private/HoudiniParameterTranslator.cpp:614-620 | for a colour ramp the desired class fails the class check of the type the same info maps to, while the created class passes it |
| ParameterTypes.GetFolderType | HoudiniEngine/Source/HoudiniEngine/Private/HoudiniParameterTranslator.cpp:2217-2247 | never Invalid; Other exactly for a script type other than the four folder kinds |
| ParameterTypes.HapiGetParameterUnit | HoudiniEngine/Source/HoudiniEngine/Private/HoudiniParameterTranslator.cpp:1872-1901 | success exactly when the "units" tag is read; the unit is then the tag rewritten, and empty otherwise |
| ParameterTypes.UnitRewriteShape | HoudiniEngine/Source/HoudiniEngine/Private/HoudiniParameterTranslator.cpp:1888-1896 | after the rewrite no "--" is left and every remaining '1' follows a '-' |
| ParameterTypes.ClampChoice | HoudiniEngine/Source/HoudiniEngine/Private/HoudiniParameterTranslator.cpp:1543-1549 | a value at or past the choice count becomes 0; any other value is kept |
| ParameterTypes.ClampChoiceNamesChoice | HoudiniEngine/Source/HoudiniEngine/Private/HoudiniParameterTranslator.cpp:1543-1551 | a non-negative value of a menu with choices ends up naming a choice, and clamping twice is clamping once |
| ParameterTypes.RequiredClass | HoudiniEngine/Source/HoudiniEngine/Private/HoudiniParameterTranslator.cpp:657-784 | the class a parameter of each type must derive from, none for Invalid |
| ParameterTypes.CreatedClass | HoudiniEngine/Source/HoudiniEngine/Private/HoudiniParameterTranslator.cpp:875-974 | the class a new parameter of each type is created with |
| ParameterTypes.UnitRewrite | HoudiniEngine/Source/HoudiniEngine/Private/HoudiniParameterTranslator.cpp:1888-1896 | the five successive replacements applied to the "units" tag |
| ParameterBuild.Find | HoudiniEngine/Source/HoudiniEngine/Private/HoudiniParameterTranslator.cpp:253-255 | the first info at or after the start with the id, and none exactly when no info has it |
| ParameterBuild.WalkSkipsHidden | HoudiniEngine/Source/HoudiniEngine/Private/HoudiniParameterTranslator.cpp:248-269 | the walk skips a parameter exactly when one of its ancestors is an invisible folder or the chain of parent ids reaches an id that is not there |
| ParameterBuild.WalkFuel | HoudiniEngine/Source/HoudiniEngine/Private/HoudiniParameterTranslator.cpp:251-266 | a walk that has ended gives the same answer with more steps allowed |
| ParameterBuild.SkipForHiddenParent | HoudiniEngine/Source/HoudiniEngine/Private/HoudiniParameterTranslator.cpp:249-266 | the parent loop computes the walk's answer |
| ParameterBuild.NameIndexSound | HoudiniEngine/Source/HoudiniEngine/Private/HoudiniParameterTranslator.cpp:220-227 | every lookup entry is a current parameter filed under its own name, and every non-null current parameter's name is in the lookup |
| ParameterBuild.BuildNameIndex | HoudiniEngine/Source/HoudiniEngine/Private/HoudiniParameterTranslator.cpp:220-227 | the loop builds the lookup over the non-null current parameters, a later one of a name replacing an earlier |
| ParameterBuild.Created | HoudiniEngine/Source/HoudiniEngine/Private/HoudiniParameterTranslator.cpp:875-974 | a new parameter has the class and type for the parameter type and the info's name, and is not yet a multiparm child |
| ParameterBuild.Refresh | HoudiniEngine/Source/HoudiniEngine/Private/HoudiniParameterTranslator.cpp:324-364 | the update keeps the object, name, class and type, and takes the tuple size, id and parent id from the info |
| ParameterBuild.CreatedReusable | HoudiniEngine/Source/HoudiniEngine/Private/HoudiniParameterTranslator.cpp:283-364 | a parameter created and updated for an info passes the reuse test for that info on the next cook exactly when its type is valid |
| ParameterBuild.RemoveAll | HoudiniEngine/Source/HoudiniEngine/Private/HoudiniParameterTranslator.cpp:320 | every occurrence of the reused parameter leaves the current array and nothing else does |
| ParameterBuild.Flag | HoudiniEngine/Source/HoudiniEngine/Private/HoudiniParameterTranslator.cpp:374-385 | the direct-multiparm-child flag is set when the parent id is a multiparm id (counting itself when it is a multiparm), and never cleared: a reused parameter keeps a flag already set, as the source only ever sets it to true |
| ParameterBuild.StepKeepsLookupFresh | HoudiniEngine/Source/HoudiniEngine/Private/HoudiniParameterTranslator.cpp:314-321 | a step keeps every lookup entry filed under its name, from the old array and not yet taken |
| ParameterBuild.EachReusedOnce | HoudiniEngine/Source/HoudiniEngine/Private/HoudiniParameterTranslator.cpp:280-321 | over the whole pass each old parameter is reused at most once, and only old parameters are |
| ParameterBuild.FreshUpTo | HoudiniEngine/Source/HoudiniEngine/Private/HoudiniParameterTranslator.cpp:229-387 | the lookup stays fresh over the first n infos |
| ParameterBuild.StepAdds | HoudiniEngine/Source/HoudiniEngine/Private/HoudiniParameterTranslator.cpp:237-371 | a parameter is added for an info only when it is neither corrupt nor under a hidden folder, with that info's id, name and tuple size; otherwise nothing is added |
| ParameterBuild.BuildAllParameters | HoudiniEngine/Source/HoudiniEngine/Private/HoudiniParameterTranslator.cpp:176-392 | an invalid asset, unreadable infos or a negative count fail with nothing built; a zero count succeeds with nothing; otherwise the loop computes the specification pass |
| ParameterBuild.NameIndex | HoudiniEngine/Source/HoudiniEngine/Private/HoudiniParameterTranslator.cpp:220-227 | specification of the name lookup: null entries left out, a later entry of a name replacing an earlier one |
| ParameterBuild.CanReuse | HoudiniEngine/Source/HoudiniEngine/Private/HoudiniParameterTranslator.cpp:283-310 | the reuse test: live, same tuple size, a valid type equal to the info's, and a class that fits the type |
| ParameterBuild.Step | HoudiniEngine/Source/HoudiniEngine/Private/HoudiniParameterTranslator.cpp:237-387 | specification of one turn of the build loop: corrupt and hidden-parent infos skipped, a reusable parameter taken from the current array, otherwise a new one created; a parameter whose engine update succeeds is refreshed from the info, flagged and added to the new array |
| ParameterBuild.PassUpTo | HoudiniEngine/Source/HoudiniEngine/Private/HoudiniParameterTranslator.cpp:229-387 | specification of the build loop: the first n turns folded from the current array and its lookup |
| ParameterUpload.MultiParmParam.RemoveRemovedEntries | HoudiniEngine/Source/HoudiniEngine/Private/HoudiniParameterTranslator.cpp:2552-2557 | corrected: the pass from the last entry down removes exactly the Removed entries and keeps the rest in order |
| ParameterUpload.MultiParmParam.ResetModifications | HoudiniEngine/Source/HoudiniEngine/Private/HoudiniParameterTranslator.cpp:2559-2566 | every entry that is left reads NoModification; the length stays |
| ParameterUpload.RemovedMarks | HoudiniEngine/Source/HoudiniEngine/Private/HoudiniParameterTranslator.cpp:2541-2555 | marks exactly the Removed entries |
| ParameterUpload.InsertsAscend | HoudiniEngine/Source/HoudiniEngine/Private/HoudiniParameterTranslator.cpp:2527-2537 | the insert calls go to strictly ascending indices, each an Inserted entry's index plus the start offset |
| ParameterUpload.RemovesDescend | HoudiniEngine/Source/HoudiniEngine/Private/HoudiniParameterTranslator.cpp:2539-2550 | the remove calls go to strictly descending indices, each a Removed entry's index plus the start offset |
| ParameterUpload.RemovesCount | HoudiniEngine/Source/HoudiniEngine/Private/HoudiniParameterTranslator.cpp:2539-2550 | one remove call per Removed entry, as many as the compaction drops |
| ParameterUpload.InsertsPrefix | HoudiniEngine/Source/HoudiniEngine/Private/HoudiniParameterTranslator.cpp:2527-2537 | the inserts issued before an index are a prefix of all the inserts |
| ParameterUpload.RemovesPrefix | HoudiniEngine/Source/HoudiniEngine/Private/HoudiniParameterTranslator.cpp:2539-2550 | the removes issued down to an index are a prefix of all the removes |
| ParameterUpload.DropStepDown | HoudiniEngine/Source/HoudiniEngine/Private/HoudiniParameterTranslator.cpp:2553-2557 | one step of the downward pass drops a Removed entry and keeps any other |
| ParameterUpload.IssueMultiInserts | HoudiniEngine/Source/HoudiniEngine/Private/HoudiniParameterTranslator.cpp:2527-2537 | the insert loop issues the planned inserts in order and stops at the first refused one |
| ParameterUpload.IssueMultiRemoves | HoudiniEngine/Source/HoudiniEngine/Private/HoudiniParameterTranslator.cpp:2539-2550 | the remove loop issues the planned removes in order and stops at the first refused one |
| ParameterUpload.UploadMultiParmValues | HoudiniEngine/Source/HoudiniEngine/Private/HoudiniParameterTranslator.cpp:2517-2571 | corrected: a non-multiparm fails with no call; otherwise success exactly when every planned call is accepted; a failure stops at the refused call and leaves the array and the count; a success leaves one NoModification entry per kept instance and that count |
| ParameterUpload.AsWrittenKeepsTrailingRemoval | HoudiniEngine/Source/HoudiniEngine/Private/HoudiniParameterTranslator.cpp:2548-2568 | as written: for the entries [NoModification, Removed] one instance is removed but the pass keeps both entries and the count becomes 2 |
| ParameterUpload.CountAfterRemoves | HoudiniEngine/Source/HoudiniEngine/Private/HoudiniParameterTranslator.cpp:2539-2568 | corrected: the new count is the old length minus the remove calls |
| ParameterUpload.CountKind | HoudiniEngine/Source/HoudiniEngine/Private/HoudiniParameterTranslator.cpp:2411-2430 | the number of events of a kind is at most the number of events |
| ParameterUpload.DeleteCalls | HoudiniEngine/Source/HoudiniEngine/Private/HoudiniParameterTranslator.cpp:2405-2419 | one remove call per delete event |
| ParameterUpload.InsertCalls | HoudiniEngine/Source/HoudiniEngine/Private/HoudiniParameterTranslator.cpp:2424-2438 | one insert call per insert event |
| ParameterUpload.PointCalls | HoudiniEngine/Source/HoudiniEngine/Private/HoudiniParameterTranslator.cpp:2471-2507 | one point write per insert event |
| ParameterUpload.DeleteCallsBound | HoudiniEngine/Source/HoudiniEngine/Private/HoudiniParameterTranslator.cpp:2405-2419 | a lower bound on the delete indices bounds every remove call's index |
| ParameterUpload.DeletesDescend | HoudiniEngine/Source/HoudiniEngine/Private/HoudiniParameterTranslator.cpp:2399-2419 | after the sort the removes go to non-increasing indices, so no remove shifts an instance a later one names |
| ParameterUpload.InsertsConsecutive | HoudiniEngine/Source/HoudiniEngine/Private/HoudiniParameterTranslator.cpp:2421-2438 | the j-th insert goes to the insert start plus j, plus the offset |
| ParameterUpload.PointsThreeApart | HoudiniEngine/Source/HoudiniEngine/Private/HoudiniParameterTranslator.cpp:2468-2507 | the j-th point write starts at the first inserted parameter info plus 3j |
| ParameterUpload.IssueDeletes | HoudiniEngine/Source/HoudiniEngine/Private/HoudiniParameterTranslator.cpp:2405-2421 | the delete loop issues the delete calls and lowers the insert start by one per delete |
| ParameterUpload.IssueInserts | HoudiniEngine/Source/HoudiniEngine/Private/HoudiniParameterTranslator.cpp:2421-2438 | the insert loop issues the insert calls and ends one past the last insert |
| ParameterUpload.WritePoints | HoudiniEngine/Source/HoudiniEngine/Private/HoudiniParameterTranslator.cpp:2468-2507 | the loop writes every inserted point three infos apart |
| ParameterUpload.WriteInsertedPoints | HoudiniEngine/Source/HoudiniEngine/Private/HoudiniParameterTranslator.cpp:2440-2509 | with inserts made, success needs the asset info, the start lookup and a refreshed count equal to the insert end; only then are the points written |
| ParameterUpload.UploadRampParameter | HoudiniEngine/Source/HoudiniEngine/Private/HoudiniParameterTranslator.cpp:2370-2515 | an ineligible parameter fails with no call and its events kept; otherwise the deletes, then the inserts, then (on success) the point writes; success exactly as RampUploadSucceeds says, and the events are cleared only on success |
| ParameterUpload.AsWrittenCompaction | HoudiniEngine/Source/HoudiniEngine/Private/HoudiniParameterTranslator.cpp:2548-2557 | as written: the clean-up pass deletes the Removed entries among the first Size entries only, Size having been lowered by the remove loop |
| ParameterUpload.Planned | HoudiniEngine/Source/HoudiniEngine/Private/HoudiniParameterTranslator.cpp:2526-2546 | specification of the calls the multiparm upload plans: the inserts at ascending indices, then the removes at descending indices, each shifted by the start offset |
| ParameterUpload.RampUploadSucceeds | HoudiniEngine/Source/HoudiniEngine/Private/HoudiniParameterTranslator.cpp:2439-2465 | the ramp upload succeeds when nothing is inserted, or when the asset info and the instances' start can be read and the instance count is the insert index reached |
| GeoImporter.LastSeparator | HoudiniEngine/Source/HoudiniEngine/Private/HoudiniGeoImporter.cpp:88 | the index of the last '/' or '\\', with no separator after it; none exactly when there is no separator |
| GeoImporter.LastDot | HoudiniEngine/Source/HoudiniEngine/Private/HoudiniGeoImporter.cpp:88 | the index of a dot with no dot after it, so the last dot; none exactly when there is no dot |
| GeoImporter.ExtensionHasNoDot | HoudiniEngine/Source/HoudiniEngine/Private/HoudiniGeoImporter.cpp:88 | the extension FPaths splits off holds no dot, because the split is at the file name's last dot |
| GeoImporter.CleanFilename | HoudiniEngine/Source/HoudiniEngine/Private/HoudiniGeoImporter.cpp:88 | the file name part holds no separator |
| GeoImporter.BaseFilename | HoudiniEngine/Source/HoudiniEngine/Private/HoudiniGeoImporter.cpp:88-96 | the base name holds no separator |
| GeoImporter.FileNameRecombines | HoudiniEngine/Source/HoudiniEngine/Private/HoudiniGeoImporter.cpp:88 | the file name is the base name, followed by a dot and the extension when it has a dot |
| GeoImporter.PathRecombines | HoudiniEngine/Source/HoudiniEngine/Private/HoudiniGeoImporter.cpp:88 | the path is the directory, the last separator and the file name; a path without a separator is its file name |
| GeoImporter.CleanWithoutSeparators | HoudiniEngine/Source/HoudiniEngine/Private/HoudiniGeoImporter.cpp:88 | a name without separators is its own file name |
| GeoImporter.BaseDotExtension | HoudiniEngine/Source/HoudiniEngine/Private/HoudiniGeoImporter.cpp:88 | a non-empty extension means the file name is the base name, a dot and the extension |
| GeoImporter.ImportPartsRecombine | HoudiniEngine/Source/HoudiniEngine/Private/HoudiniGeoImporter.cpp:88-107 | an accepted file with an extension is rebuilt exactly from the kept name, a dot and the kept extension, ".bgeo.sc" included |
| GeoImporter.BgeoScExample | HoudiniEngine/Source/HoudiniEngine/Private/HoudiniGeoImporter.cpp:90-97 | "/tmp/x.bgeo.sc" gives the name "x" and the extension "bgeo.sc" |
| GeoImporter.BgeoScOuterSplit | HoudiniEngine/Source/HoudiniEngine/Private/HoudiniGeoImporter.cpp:90-97 | the outer split of "/tmp/x.bgeo.sc": extension "sc" and base name "x.bgeo" |
| GeoImporter.BgeoInnerSplit | HoudiniEngine/Source/HoudiniEngine/Private/HoudiniGeoImporter.cpp:90-97 | the inner split of "x.bgeo": extension "bgeo" and base name "x" |
| GeoImporter.ExtensionDefaults | HoudiniEngine/Source/HoudiniEngine/Private/HoudiniGeoImporter.cpp:90-107 | a file without an extension is taken as bgeo; a bare ".sc" file whose name has no inner extension is refused |
| GeoImporter.ReplaceAllAbsent | HoudiniEngine/Source/HoudiniEngine/Private/HoudiniGeoImporter.cpp:112 | replacing a character that is not there changes nothing |
| GeoImporter.NormalizeFolderShape | HoudiniEngine/Source/HoudiniEngine/Private/HoudiniGeoImporter.cpp:111-115 | the bake folder ends up with no backslash and a trailing '/', and normalising it again changes nothing |
| GeoImporter.SplitImportPath | HoudiniEngine/Source/HoudiniEngine/Private/HoudiniGeoImporter.cpp:87-100 | the directory, name and extension are the path part and the kept name and extension |
| GeoImporter.Importer.constructor | HoudiniEngine/Source/HoudiniEngine/Private/HoudiniGeoImporter.cpp:51-71 | every path field starts empty and the bake folder is "/Game/HoudiniEngine/Bake/" |
| GeoImporter.Importer.SetFilePath | HoudiniEngine/Source/HoudiniEngine/Private/HoudiniGeoImporter.cpp:74-122 | the source path is always stored; a missing file fails with the rest unchanged; otherwise the absolute path and its pieces are stored and success is exactly a bgeo extension; only on success the bake folder is normalised and an empty output file name takes the file name; verdict and fields are PathsAfter of the old fields |
| GeoImporter.Importer.ImportBGEOFile | HoudiniEngine/Source/HoudiniEngine/Private/HoudiniGeoImporter.cpp:369-437 | an empty file name fails with nothing done; otherwise the steps run in order up to the first that fails, success exactly when all eight pass, and once outputs are built every exit takes them out of the root set; without a session the importer is unchanged, with one its fields are what SetFilePath leaves (PathsAfter) |
| GeoImporter.FirstFailure | HoudiniEngine/Source/HoudiniEngine/Private/HoudiniGeoImporter.cpp:374-433 | the first failing step lies between the start and the end of the order |
| GeoImporter.StepsPassedIsFirstFailure | HoudiniEngine/Source/HoudiniEngine/Private/HoudiniGeoImporter.cpp:374-433 | the steps the import gets through are those before the first failure in the fixed order |
| GeoImporter.FirstFailureSound | HoudiniEngine/Source/HoudiniEngine/Private/HoudiniGeoImporter.cpp:374-433 | every step before the first failure succeeds, and the failing step does not |
| GeoImporter.ImportParts | HoudiniEngine/Source/HoudiniEngine/Private/HoudiniGeoImporter.cpp:87-100 | the name and extension the importer keeps: a "sc" extension takes the inner extension and shortens the name; an empty extension becomes "bgeo" |
| GeoImporter.IsBgeo | HoudiniEngine/Source/HoudiniEngine/Private/HoudiniGeoImporter.cpp:102-107 | the extension check: starts with "bgeo", ignoring case |
| GeoImporter.NormalizeFolder | HoudiniEngine/Source/HoudiniEngine/Private/HoudiniGeoImporter.cpp:111-115 | the bake folder with backslashes turned into '/' and a trailing '/' |
| GeoImporter.PathsAfter | HoudiniEngine/Source/HoudiniEngine/Private/HoudiniGeoImporter.cpp:74-122 | specification of SetFilePath on the importer's fields: its verdict and the fields it leaves |
| GeoImporter.PathsAfterVerdict | HoudiniEngine/Source/HoudiniEngine/Private/HoudiniGeoImporter.cpp:74-122 | the verdict is exactly an existing file with a bgeo extension; a missing file changes only the source path; a failure keeps the output name and the bake folder |

## Where the code and its design description differ

The model follows the code in each case.

- The object instancer (`HoudiniInstanceTranslator.cpp:1110-1168`) does not read a per-point id. It takes one object id from the instancer's object info and places every matching mesh part at every instance transform. Its check that skips parts already flagged as instanced is commented out (1142-1146), so only the old-school path (1071-1075) excludes those parts.
- Three places do not do what their surrounding comments or the data they build evidently intend; see "## Findings". The model keeps a member for the code as written and uses the corrected behaviour everywhere else:
  - `UploadMultiParmValues` leaves trailing removal events in place.
  - `UpdateChangedInstancedOutput` resolves the changed output under split "0".
  - The attribute instancer's point selection (985-1015) compares case-sensitively against case-insensitive keys. `SelectPoints`, `GroupPointInstances`, `AttributeInstances`, `GetAttributeInstancerObjectsAndTransforms`, and through them `Classify` and `CreateAllInstancersFromHoudiniOutput`, use the corrected case-insensitive selection.

## Left out

- HAPI calls (attribute reads, instance transforms, parameter reads and writes, instance insert and remove, node creation, cooking) are inputs or oracles. Every branch on their result is modelled; their internals are not.
- The cook polling loop of the bgeo import, and `LoadBGEOFileInHAPI`, `BuildOutputsForNode` and the mesh, landscape and instancer creators, are single success flags of `ImportBGEOFile`. Only the step order and the root-set clean-up are modelled.
- `FPaths` sources are not part of this model. `FileExists` and `ConvertRelativePathToFull` are inputs. `GetPath`, `GetCleanFilename`, `GetBaseFilename` and `GetExtension` are modelled by their documented behaviour: split at the last '/' or '\', then at the file name's last dot.
- `StaticLoadObject` and `LoadSynchronous` are oracles (`load`).
- Creating, attaching, registering and destroying components, spawning actors and the garbage-collector root set are modelled only as sets: the ids kept, destroyed and created.
- Float numerics are abstract operations of `Common.TransformMath`: the quaternion product, the scale product and `FTransform::IsValid`. The scale clamp is written out on reals.
- `HAPI_UNREAL_SCALE_SMALL_VALUE` is taken as 0.0001. Its header is not part of this model, and the proofs rely only on the value being positive.
- `HoudiniOutput.cpp` is not part of this model. Identifiers are compared field by field. `Matches` compares the object, geo and part ids.
- The `UHoudiniParameter` class headers are not part of this model. The class hierarchy is the one the casts in `HoudiniParameterTranslator.cpp` imply: every class derives from the base class, and the two ramp classes derive from the multiparm class.
- Vertex-colour painting, per-instance colour overrides, generic property overrides, blueprint and bake code, landscapes beyond `UHoudiniLandscapePtr`, curves, and all Slate widgets are left out.
- Map iteration order: a `TMap` or `TSet` that is only ever added to is iterated in insertion order. `FindKey` on a map where several keys hold the value returns one of them, unspecified.
- Resolver.UpdateInstanceVariationObjects: identifiers are compared field by field, and the key it builds always has `bLoaded` false. A loaded identifier therefore never matches, so the branch at `HoudiniInstanceTranslator.cpp:606-614` never runs in the model. That branch rewrites a loaded key's object, geo and part ids. In the model a loaded instanced output gets a fresh entry instead of being refreshed. `operator==` of the identifier lives in `HoudiniOutput.cpp`, which is not part of this model.
- Variation.ProcessInstanceTransforms: the offset test is exact equality with the identity. `FTransform::Equals` allows a small tolerance, so the model applies an offset within that tolerance of the identity where the source skips it. The same holds for `Variation.Processed`. Both also require `CanExtract`, that there are no more variation indices than original transforms; this is the bounds guard for `OriginalTransforms[TransformIndex]` (HoudiniInstanceTranslator.cpp:762), which UpdateVariationAssignements (:721) always establishes before the call.
- Reconcile.RemoveAndDestroyComponent: every component is destroyed. The source's early returns for a null, pending-kill or non-scene component (`HoudiniInstanceTranslator.cpp:1916-1936`) are not modelled. Only a dead component is treated as already destroyed. The components the translator creates are all scene components.
- Changed.RebuildVariation: the `Cast<USceneComponent>` of the old instancer component (`HoudiniInstanceTranslator.cpp:391`) is not modelled. The old component is taken as it stands. The components the translator stores are all scene components.
- Instancers.PriorComponent: the `Cast<USceneComponent>` of the found output object's proxy or output component (`HoudiniInstanceTranslator.cpp:189` and `:193`) is not modelled either. The component is taken as it stands, whereas the source yields null for a component that is not a scene component.
- Instanced outputs are values. Aliasing between the `InstancedOutputs` map and the pointer the translator holds into it is not modelled.
- `InstancerObjectIdx` of `CreateOrUpdateInstanceComponent` is a parameter. Both callers leave it at the header's default, and that header is not part of this model.
- `UpdateParameterFromInfo` is modelled by `ParameterBuild.Refresh` plus an oracle for its success. Its value reads and the ramp `bCaching` reset (`HoudiniParameterTranslator.cpp:327-356`) are left out.
- ParameterBuild.NameIndex: names are compared case-sensitively. `TMap<FString>` compares them case-insensitively, so the model does not capture two current parameters whose names differ only by case.
- ParameterBuild.BuildAllParameters: requires that the parent chain of every non-corrupt parameter ends (`WalksEnd`). The source loop has no cycle guard and would not terminate on a cycle.
- ParameterUpload.UploadRampParameter: takes the sorted event array as an input. It requires only that this array is a permutation of the events, sorted by descending delete index; the order of ties is the engine sort's own. Null event entries are not modelled.
- ParameterUpload.WritePoints: a point write is the abstract call `SetRampPoint(i, event)`. The bounds of `ParmInfos[Idx + 2]` are not checked, and the float and colour payloads are not told apart.
- OutputDetails.AddObjectAt: requires the offsets to be in lockstep with the variations and the index to be in range, which `TArray::Insert` asserts. OutputDetails.RemoveObjectAt likewise requires `InLockstep()`, the offsets in lockstep with the variations; the source does not check this before its `RemoveAt` calls, so the model does not cover an instanced output whose arrays have drifted apart.
- OutputDetails.OnMaterialInterfaceDropped: requires that the old material can be named when its name is read. The source would dereference a null material there.
- OutputDetails.OnMaterialInterfaceDropped: the replacement and assignment maps compare their keys case-sensitively, as `map<string, Ptr>` does, whereas the source's `TMap<FString, …>` `Add` (HoudiniOutputDetails.cpp:1984), `Remove` (:1730) and `Find` (:1736) ignore case. So in the model a drop filed under "Foo" sits beside an entry "foo" instead of replacing it, and OnResetMaterialInterfaceClicked and RestoredMaterial find or miss entries the source would treat the other way.
- OutputDetails.OnResetMaterialInterfaceClicked: removes the replacement and looks up the assignment by exact key; the source's `Remove` and `Find` at HoudiniOutputDetails.cpp:1730-1736 ignore case, so an entry differing only in case is kept and not restored here.
- OutputDetails.RestoredMaterial: looks the key up case-sensitively; the source's `Find(MaterialString)` at HoudiniOutputDetails.cpp:1736 ignores case, so an assignment under "foo" is restored for "Foo" there and not in the model.

## Findings

| source | as written | input that shows it | evidently intended | confidence | as-written member | corrected member |
|---|---|---|---|---|---|---|
| HoudiniEngine/Source/HoudiniEngine/Private/HoudiniParameterTranslator.cpp:2548-2557 | the clean-up loop starts from `Size`, which the remove loop has already lowered by one per remove, so it visits only the first `Size` entries | modification array [None, Removed]: one instance is removed, but both entries stay and `MultiParmInstanceCount` becomes 2 | every Removed entry is deleted and the count is the number of remaining instances | high; not executed | ParameterUpload.AsWrittenKeepsTrailingRemoval | ParameterUpload.UploadMultiParmValues |
| HoudiniEngine/Source/HoudiniEngine/Private/HoudiniInstanceTranslator.cpp:311-327 | the changed output's original is passed as a one-element array, so the resolver files it under split "0" with original index 0 | variations set on the output under split "1", and no output under split "0": a fresh output is created under "0" and only the bare original is placed; output "1" is ignored | the changed output is resolved under its own identifier with its own variations | high; not executed | Changed.AsWrittenIgnoresChangedOutput | Changed.ChangedResolutionUsesOwnEntry |
| HoudiniEngine/Source/HoudiniEngine/Private/HoudiniInstanceTranslator.cpp:985-1015 | the distinct values are keys of a `TMap<FString>`, which compares them case-insensitively, but points are selected with the case-sensitive `FString::Equals` | point values "A" and "a": one key "A" is kept, and the point carrying "a" is placed nowhere | every point is placed with the object its value names | medium; not executed | Classifier.PointGroupsAsWrittenDropsPoints | Classifier.PointGroupsPartition |
