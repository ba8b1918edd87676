/**
 * Uploading multiparm and ramp edits: the order and indices of the
 * insert/remove-instance calls, what is left of the modification array or
 * the ramp events afterwards, and when the upload fails.
 */
module ParameterUpload {
  import opened Common
  import opened Seqs
  import opened ParameterTypes

  /** The engine calls the uploads make. `SetRampPoint(i, e)` stands for the three
      writes of an inserted ramp point's position, value and interpolation at
      parameter infos `i`, `i + 1` and `i + 2`. */
  datatype HapiCall =
    | InsertInstance(index: int)
    | RemoveInstance(index: int)
    | SetRampPoint(infoIndex: int, event: RampEvent)

  /** EHoudiniMultiParmModificationType. */
  datatype ModType = NoModification | Modified | Inserted | Removed

  // ---------------------------------------------------------------------
  // UploadMultiParmValues

  /** A multiparm parameter: its class, its instance start offset, its pending
      per-instance modifications and its instance count. */
  class MultiParmParam {
    const cls: ParamClass
    const startOffset: int
    var lastModify: seq<ModType>
    var instanceCount: int

    constructor (cls: ParamClass, startOffset: int, lastModify: seq<ModType>, instanceCount: int)
      ensures this.cls == cls && this.startOffset == startOffset
      ensures this.lastModify == lastModify && this.instanceCount == instanceCount
    {
      this.cls := cls;
      this.startOffset := startOffset;
      this.lastModify := lastModify;
      this.instanceCount := instanceCount;
    }

    /** The compaction pass, from the last entry down: every Removed entry goes. */
    method RemoveRemovedEntries()
      modifies this
      ensures lastModify == Drop(old(lastModify), RemovedMarks(old(lastModify)))
      ensures instanceCount == old(instanceCount)
    {
      ghost var m := lastModify;
      var i := |lastModify|;
      while i > 0
        invariant 0 <= i <= |m| && instanceCount == old(instanceCount)
        invariant lastModify == m[..i] + Drop(m[i..], RemovedMarks(m)[i..])
      {
        DropStepDown(m, i);
        assert lastModify[i - 1] == m[i - 1];
        if lastModify[i - 1] == Removed {
          lastModify := RemoveAt(lastModify, i - 1);
          assert lastModify == m[..i - 1] + Drop(m[i..], RemovedMarks(m)[i..]);
        } else {
          assert m[..i] == m[..i - 1] + [m[i - 1]];
        }
        i := i - 1;
      }
      assert m[0..] == m && RemovedMarks(m)[0..] == RemovedMarks(m);
    }

    /** Every entry is reset to NoModification, from the last one down. */
    method ResetModifications()
      modifies this
      ensures lastModify == seq(|old(lastModify)|, _ => NoModification)
      ensures instanceCount == old(instanceCount)
    {
      var itr := |lastModify| - 1;
      while itr >= 0
        invariant -1 <= itr < |lastModify| == |old(lastModify)| && instanceCount == old(instanceCount)
        invariant forall k :: itr < k < |lastModify| ==> lastModify[k] == NoModification
      {
        lastModify := lastModify[itr := NoModification];
        itr := itr - 1;
      }
    }
  }

  /** The insert calls for the Inserted entries below `n`, at ascending indices. */
  function InsertsUpTo(m: seq<ModType>, n: nat, offset: int): (r: seq<HapiCall>)
    requires n <= |m|
  {
    if n == 0 then []
    else InsertsUpTo(m, n - 1, offset) + (if m[n - 1] == Inserted then [InsertInstance(n - 1 + offset)] else [])
  }

  /** The remove calls for the Removed entries from `lo` on, at descending indices. */
  function RemovesFrom(m: seq<ModType>, lo: nat, offset: int): (r: seq<HapiCall>)
    requires lo <= |m|
    decreases |m| - lo
  {
    if lo == |m| then []
    else RemovesFrom(m, lo + 1, offset) + (if m[lo] == Removed then [RemoveInstance(lo + offset)] else [])
  }

  /** Every call the upload plans: the inserts, then the removes. */
  function Planned(m: seq<ModType>, offset: int): seq<HapiCall>
  {
    InsertsUpTo(m, |m|, offset) + RemovesFrom(m, 0, offset)
  }

  /** Which entries are Removed. */
  function RemovedMarks(m: seq<ModType>): (r: seq<bool>)
    ensures |r| == |m| && forall k :: 0 <= k < |m| ==> (r[k] <==> m[k] == Removed)
  {
    seq(|m|, k requires 0 <= k < |m| => m[k] == Removed)
  }

  /** The inserts go to strictly ascending instance indices, each an Inserted entry's
      index plus the offset. */
  lemma {:induction false} InsertsAscend(m: seq<ModType>, n: nat, offset: int)
    requires n <= |m|
    ensures forall j :: 0 <= j < |InsertsUpTo(m, n, offset)| ==>
      InsertsUpTo(m, n, offset)[j].InsertInstance? && offset <= InsertsUpTo(m, n, offset)[j].index < n + offset
      && m[InsertsUpTo(m, n, offset)[j].index - offset] == Inserted
    ensures forall i, j :: 0 <= i < j < |InsertsUpTo(m, n, offset)| ==>
      InsertsUpTo(m, n, offset)[i].index < InsertsUpTo(m, n, offset)[j].index
  {
    if n > 0 {
      InsertsAscend(m, n - 1, offset);
    }
  }

  /** The removes go to strictly descending instance indices, each a Removed entry's
      index plus the offset. */
  lemma {:induction false} RemovesDescend(m: seq<ModType>, lo: nat, offset: int)
    requires lo <= |m|
    ensures forall j :: 0 <= j < |RemovesFrom(m, lo, offset)| ==>
      RemovesFrom(m, lo, offset)[j].RemoveInstance? && lo + offset <= RemovesFrom(m, lo, offset)[j].index < |m| + offset
      && m[RemovesFrom(m, lo, offset)[j].index - offset] == Removed
    ensures forall i, j :: 0 <= i < j < |RemovesFrom(m, lo, offset)| ==>
      RemovesFrom(m, lo, offset)[i].index > RemovesFrom(m, lo, offset)[j].index
    decreases |m| - lo
  {
    if lo < |m| {
      RemovesDescend(m, lo + 1, offset);
    }
  }

  /** One remove call per Removed entry: as many as the entries the compaction drops. */
  lemma {:induction false} RemovesCount(m: seq<ModType>, lo: nat, offset: int)
    requires lo <= |m|
    ensures |RemovesFrom(m, lo, offset)| + |Drop(m[lo..], RemovedMarks(m)[lo..])| == |m| - lo
    decreases |m| - lo
  {
    if lo < |m| {
      RemovesCount(m, lo + 1, offset);
      assert m[lo..][1..] == m[lo + 1..];
      assert RemovedMarks(m)[lo..][1..] == RemovedMarks(m)[lo + 1..];
    }
  }

  /** The inserts issued before index `n` are a prefix of all the inserts. */
  lemma {:induction false} InsertsPrefix(m: seq<ModType>, n: nat, offset: int)
    requires n <= |m|
    ensures InsertsUpTo(m, n, offset) <= InsertsUpTo(m, |m|, offset)
    decreases |m| - n
  {
    if n < |m| {
      InsertsPrefix(m, n + 1, offset);
      assert InsertsUpTo(m, n, offset) <= InsertsUpTo(m, n + 1, offset);
    }
  }

  /** The removes issued down to index `lo` are a prefix of all the removes. */
  lemma {:induction false} RemovesPrefix(m: seq<ModType>, lo: nat, offset: int)
    requires lo <= |m|
    ensures RemovesFrom(m, lo, offset) <= RemovesFrom(m, 0, offset)
    decreases lo
  {
    if lo > 0 {
      RemovesPrefix(m, lo - 1, offset);
      assert RemovesFrom(m, lo, offset) <= RemovesFrom(m, lo - 1, offset);
    }
  }

  /** Removing the Removed entries at indices `i - 1` down to 0, one at a time. */
  lemma DropStepDown(m: seq<ModType>, i: nat)
    requires 0 < i <= |m|
    ensures m[i - 1] == Removed ==>
      Drop(m[i - 1..], RemovedMarks(m)[i - 1..]) == Drop(m[i..], RemovedMarks(m)[i..])
    ensures m[i - 1] != Removed ==>
      Drop(m[i - 1..], RemovedMarks(m)[i - 1..]) == [m[i - 1]] + Drop(m[i..], RemovedMarks(m)[i..])
  {
    assert m[i - 1..][1..] == m[i..];
    assert RemovedMarks(m)[i - 1..][1..] == RemovedMarks(m)[i..];
  }

  /** The insert loop: stops at the first refused call. */
  method IssueMultiInserts(m: seq<ModType>, offset: int, hapiOk: HapiCall -> bool) returns (ok: bool, calls: seq<HapiCall>)
    ensures calls <= InsertsUpTo(m, |m|, offset)
    ensures ok ==> calls == InsertsUpTo(m, |m|, offset)
    ensures !ok ==> |calls| > 0 && !hapiOk(calls[|calls| - 1])
    ensures forall j :: 0 <= j < |calls| - 1 ==> hapiOk(calls[j])
    ensures ok ==> forall j :: 0 <= j < |calls| ==> hapiOk(calls[j])
  {
    calls := [];
    var index := 0;
    while index < |m|
      invariant index <= |m|
      invariant calls == InsertsUpTo(m, index, offset)
      invariant forall j :: 0 <= j < |calls| ==> hapiOk(calls[j])
    {
      if m[index] == Inserted {
        var call := InsertInstance(index + offset);
        calls := calls + [call];
        if !hapiOk(call) {
          InsertsPrefix(m, index + 1, offset);
          return false, calls;
        }
      }
      index := index + 1;
    }
    ok := true;
  }

  /** The remove loop, from the last entry down: stops at the first refused call and
      counts the removes issued. */
  method IssueMultiRemoves(m: seq<ModType>, offset: int, hapiOk: HapiCall -> bool) returns (ok: bool, calls: seq<HapiCall>)
    ensures calls <= RemovesFrom(m, 0, offset)
    ensures ok ==> calls == RemovesFrom(m, 0, offset)
    ensures !ok ==> |calls| > 0 && !hapiOk(calls[|calls| - 1])
    ensures forall j :: 0 <= j < |calls| - 1 ==> hapiOk(calls[j])
    ensures ok ==> forall j :: 0 <= j < |calls| ==> hapiOk(calls[j])
  {
    calls := [];
    var i := |m| - 1;
    while i >= 0
      invariant -1 <= i < |m|
      invariant calls == RemovesFrom(m, i + 1, offset)
      invariant forall j :: 0 <= j < |calls| ==> hapiOk(calls[j])
    {
      if m[i] == Removed {
        var call := RemoveInstance(i + offset);
        calls := calls + [call];
        if !hapiOk(call) {
          RemovesPrefix(m, i, offset);
          return false, calls;
        }
      }
      i := i - 1;
    }
    ok := true;
  }

  /**
   * `UploadMultiParmValues`, with the compaction pass running over the whole
   * modification array (see the findings in README.md). `hapiOk(c)` is whether
   * the engine accepts call `c`. Fails for a parameter that is not a multiparm,
   * or at the first refused call, leaving the parameter as it was; on success
   * the Removed entries are gone, the rest reads NoModification and the
   * instance count is the new length.
   */
  method UploadMultiParmValues(param: MultiParmParam?, hapiOk: HapiCall -> bool) returns (ok: bool, calls: seq<HapiCall>)
    modifies param
    ensures param == null || !IsChildOf(param.cls, MultiParmClass) ==> !ok && calls == []
    ensures param != null && IsChildOf(param.cls, MultiParmClass) ==>
      && calls <= Planned(old(param.lastModify), param.startOffset)
      && (ok <==> forall j :: 0 <= j < |Planned(old(param.lastModify), param.startOffset)| ==>
                    hapiOk(Planned(old(param.lastModify), param.startOffset)[j]))
      && (ok ==> calls == Planned(old(param.lastModify), param.startOffset))
      && (!ok ==> |calls| > 0 && !hapiOk(calls[|calls| - 1]))
    ensures param != null && !ok ==> param.lastModify == old(param.lastModify) && param.instanceCount == old(param.instanceCount)
    ensures param != null && ok ==>
      var kept := |Drop(old(param.lastModify), RemovedMarks(old(param.lastModify)))|;
      param.lastModify == seq(kept, _ => NoModification) && param.instanceCount == kept
  {
    calls := [];
    if param == null || !IsChildOf(param.cls, MultiParmClass) {
      return false, calls;
    }
    var m := param.lastModify;
    var offset := param.startOffset;
    ghost var plan := Planned(m, offset);
    var inserts;
    ok, inserts := IssueMultiInserts(m, offset, hapiOk);
    calls := inserts;
    if !ok {
      assert calls[|calls| - 1] == plan[|calls| - 1];
      return;
    }
    var removes;
    ok, removes := IssueMultiRemoves(m, offset, hapiOk);
    calls := inserts + removes;
    if !ok {
      assert calls[|calls| - 1] == plan[|calls| - 1];
      return;
    }
    assert calls == plan;
    param.RemoveRemovedEntries();
    param.ResetModifications();
    param.instanceCount := |param.lastModify|;
  }

  /**
   * The modification array left by the compaction pass as the source writes it:
   * the pass starts from the size already lowered by the remove loop, so only
   * the Removed entries among the first `|m| - #Removed` are deleted.
   */
  function AsWrittenCompaction(m: seq<ModType>): (r: seq<ModType>)
  {
    var lowered := |Drop(m, RemovedMarks(m))|;
    Drop(m[..lowered], RemovedMarks(m)[..lowered]) + m[lowered..]
  }

  /** With the last of two instances removed, the source's pass keeps both entries
      and reports two instances, where one remains. */
  lemma AsWrittenKeepsTrailingRemoval()
    ensures |AsWrittenCompaction([NoModification, Removed])| == 2
    ensures |Drop([NoModification, Removed], RemovedMarks([NoModification, Removed]))| == 1
    ensures |RemovesFrom([NoModification, Removed], 0, 0)| == 1
  {
    var m := [NoModification, Removed];
    assert RemovedMarks(m) == [false, true];
    assert Drop(m, RemovedMarks(m)) == [NoModification];
    assert m[..1] == [NoModification];
  }

  /** The corrected count is the number of instances left after the removes: the
      old count minus the removes, when it matched the array. */
  lemma CountAfterRemoves(m: seq<ModType>, offset: int)
    ensures |Drop(m, RemovedMarks(m))| == |m| - |RemovesFrom(m, 0, offset)|
  {
    RemovesCount(m, 0, offset);
    assert m[0..] == m && RemovedMarks(m)[0..] == RemovedMarks(m);
  }

  // ---------------------------------------------------------------------
  // UploadRampParameter

  /** The kind of a ramp modification event. */
  datatype RampEventKind = InsertEvent | DeleteEvent | NoEvent

  /** A ramp modification event; for an insert, the new point. */
  datatype RampEvent = RampEvent(
    kind: RampEventKind,
    deleteIndex: int,
    position: real,
    value: seq<real>,
    interpolation: int)

  /** A ramp parameter: its class, its instance count and start offset, and its
      pending events. */
  class RampParam {
    const obj: nat
    const cls: ParamClass
    const instanceCount: int
    const startOffset: int
    var events: seq<RampEvent>

    constructor (obj: nat, cls: ParamClass, instanceCount: int, startOffset: int, events: seq<RampEvent>)
      ensures this.obj == obj && this.cls == cls && this.instanceCount == instanceCount
      ensures this.startOffset == startOffset && this.events == events
    {
      this.obj := obj;
      this.cls := cls;
      this.instanceCount := instanceCount;
      this.startOffset := startOffset;
      this.events := events;
    }
  }

  function CountKind(evs: seq<RampEvent>, kind: RampEventKind): (r: nat)
    ensures r <= |evs|
  {
    if |evs| == 0 then 0
    else CountKind(evs[..|evs| - 1], kind) + (if evs[|evs| - 1].kind == kind then 1 else 0)
  }

  /** The remove calls, one per delete event in order. */
  function DeleteCalls(evs: seq<RampEvent>, offset: int): (r: seq<HapiCall>)
    ensures |r| == CountKind(evs, DeleteEvent)
  {
    if |evs| == 0 then []
    else
      DeleteCalls(evs[..|evs| - 1], offset)
      + (if evs[|evs| - 1].kind == DeleteEvent then [RemoveInstance(evs[|evs| - 1].deleteIndex + offset)] else [])
  }

  /** The insert calls, one per insert event, at consecutive indices from `from`. */
  function InsertCalls(evs: seq<RampEvent>, from: int, offset: int): (r: seq<HapiCall>)
    ensures |r| == CountKind(evs, InsertEvent)
  {
    if |evs| == 0 then []
    else
      var init := evs[..|evs| - 1];
      InsertCalls(init, from, offset)
      + (if evs[|evs| - 1].kind == InsertEvent then [InsertInstance(from + CountKind(init, InsertEvent) + offset)] else [])
  }

  /** The writes of the inserted points, three parameter infos apart from `first`. */
  function PointCalls(evs: seq<RampEvent>, first: int): (r: seq<HapiCall>)
    ensures |r| == CountKind(evs, InsertEvent)
  {
    if |evs| == 0 then []
    else
      var init := evs[..|evs| - 1];
      PointCalls(init, first)
      + (if evs[|evs| - 1].kind == InsertEvent then [SetRampPoint(first + 3 * CountKind(init, InsertEvent), evs[|evs| - 1])] else [])
  }

  /** Sorted by descending delete index. */
  predicate DeleteSorted(evs: seq<RampEvent>)
  {
    forall i, j :: 0 <= i < j < |evs| ==> evs[i].deleteIndex >= evs[j].deleteIndex
  }

  predicate IsRampClass(c: ParamClass)
  {
    c == RampFloatClass || c == RampColorClass
  }

  /** The upload goes ahead: a live ramp whose outer object is an asset component. */
  predicate RampEligible(param: RampParam?, scene: Scene, outerIsAsset: bool)
  {
    param != null && param.obj !in scene.dead && outerIsAsset && IsRampClass(param.cls)
  }

  lemma {:induction false} DeleteCallsBound(evs: seq<RampEvent>, offset: int, b: int)
    requires forall k :: 0 <= k < |evs| ==> evs[k].deleteIndex >= b
    ensures forall j :: 0 <= j < |DeleteCalls(evs, offset)| ==>
      DeleteCalls(evs, offset)[j].RemoveInstance? && DeleteCalls(evs, offset)[j].index >= b + offset
  {
    if |evs| > 0 {
      DeleteCallsBound(evs[..|evs| - 1], offset, b);
    }
  }

  /** Sorted events give removes at non-increasing indices, so removing one never
      shifts an instance a later remove names. */
  lemma {:induction false} DeletesDescend(evs: seq<RampEvent>, offset: int)
    requires DeleteSorted(evs)
    ensures forall i, j :: 0 <= i < j < |DeleteCalls(evs, offset)| ==>
      DeleteCalls(evs, offset)[i].RemoveInstance? && DeleteCalls(evs, offset)[j].RemoveInstance? &&
      DeleteCalls(evs, offset)[i].index >= DeleteCalls(evs, offset)[j].index
  {
    if |evs| > 0 {
      var init := evs[..|evs| - 1];
      var d, di := DeleteCalls(evs, offset), DeleteCalls(init, offset);
      DeletesDescend(init, offset);
      DeleteCallsBound(init, offset, evs[|evs| - 1].deleteIndex);
      forall i, j | 0 <= i < j < |d|
        ensures d[i].RemoveInstance? && d[j].RemoveInstance? && d[i].index >= d[j].index
      {
        assert d[i] == di[i];
        if j >= |di| {
          assert d[j] == RemoveInstance(evs[|evs| - 1].deleteIndex + offset);
        } else {
          assert d[j] == di[j];
        }
      }
    } else {
      assert DeleteCalls(evs, offset) == [];
    }
  }

  /** The j-th insert goes to instance `from + j` (plus the offset). */
  lemma {:induction false} InsertsConsecutive(evs: seq<RampEvent>, from: int, offset: int)
    ensures forall j :: 0 <= j < |InsertCalls(evs, from, offset)| ==>
      InsertCalls(evs, from, offset)[j] == InsertInstance(from + j + offset)
  {
    if |evs| > 0 {
      InsertsConsecutive(evs[..|evs| - 1], from, offset);
    }
  }

  /** The j-th point write starts at parameter info `first + 3j`. */
  lemma {:induction false} PointsThreeApart(evs: seq<RampEvent>, first: int)
    ensures forall j :: 0 <= j < |PointCalls(evs, first)| ==>
      PointCalls(evs, first)[j].SetRampPoint? && PointCalls(evs, first)[j].infoIndex == first + 3 * j
  {
    if |evs| > 0 {
      PointsThreeApart(evs[..|evs| - 1], first);
    }
  }

  lemma StepPrefix(evs: seq<RampEvent>, i: nat)
    requires i < |evs|
    ensures evs[..i + 1][..i] == evs[..i] && evs[..i + 1][i] == evs[i]
  {
  }

  /** The delete loop: one remove call per delete event, each lowering the index at
      which inserts start. */
  method IssueDeletes(evs: seq<RampEvent>, offset: int, count: int) returns (calls: seq<HapiCall>, insertIndexStart: int)
    ensures calls == DeleteCalls(evs, offset)
    ensures insertIndexStart == count - CountKind(evs, DeleteEvent)
  {
    calls, insertIndexStart := [], count;
    var i := 0;
    while i < |evs|
      invariant i <= |evs|
      invariant calls == DeleteCalls(evs[..i], offset)
      invariant insertIndexStart == count - CountKind(evs[..i], DeleteEvent)
    {
      StepPrefix(evs, i);
      if evs[i].kind == DeleteEvent {
        calls := calls + [RemoveInstance(evs[i].deleteIndex + offset)];
        insertIndexStart := insertIndexStart - 1;
      }
      i := i + 1;
    }
    assert evs[..|evs|] == evs;
  }

  /** The insert loop: one insert call per insert event at consecutive indices. */
  method IssueInserts(evs: seq<RampEvent>, from: int, offset: int) returns (calls: seq<HapiCall>, insertIndex: int)
    ensures calls == InsertCalls(evs, from, offset)
    ensures insertIndex == from + CountKind(evs, InsertEvent)
  {
    calls, insertIndex := [], from;
    var i := 0;
    while i < |evs|
      invariant i <= |evs|
      invariant calls == InsertCalls(evs[..i], from, offset)
      invariant insertIndex == from + CountKind(evs[..i], InsertEvent)
    {
      StepPrefix(evs, i);
      if evs[i].kind == InsertEvent {
        calls := calls + [InsertInstance(insertIndex + offset)];
        insertIndex := insertIndex + 1;
      }
      i := i + 1;
    }
    assert evs[..|evs|] == evs;
  }

  /** The loop writing the inserted points, three parameter infos apart. */
  method WritePoints(evs: seq<RampEvent>, first: int) returns (calls: seq<HapiCall>)
    ensures calls == PointCalls(evs, first)
  {
    calls := [];
    var idx := first;
    var i := 0;
    while i < |evs|
      invariant i <= |evs|
      invariant calls == PointCalls(evs[..i], first)
      invariant idx == first + 3 * CountKind(evs[..i], InsertEvent)
    {
      StepPrefix(evs, i);
      if evs[i].kind == InsertEvent {
        calls := calls + [SetRampPoint(idx, evs[i])];
        idx := idx + 3;
      }
      i := i + 1;
    }
    assert evs[..|evs|] == evs;
  }

  /** After the inserts: when any were made, the asset info and the instances' start
      are read and the refreshed instance count checked before the points are written. */
  method WriteInsertedPoints(evs: seq<RampEvent>, insertIndexStart: int, insertIndex: int,
                             assetInfoOk: bool, startLookup: Option<(int, int)>)
    returns (ok: bool, points: seq<HapiCall>)
    ensures ok <==>
      insertIndex <= insertIndexStart ||
      (assetInfoOk && startLookup.Some? && startLookup.value.1 >= 0 && startLookup.value.1 == insertIndex)
    ensures points == (if ok && insertIndex > insertIndexStart
                       then PointCalls(evs, startLookup.value.0 + 3 * insertIndexStart) else [])
  {
    points := [];
    if insertIndex > insertIndexStart {
      if !assetInfoOk || startLookup.None? {
        return false, points;
      }
      var (idx, instanceCount) := startLookup.value;
      if instanceCount < 0 || insertIndex != instanceCount {
        return false, points;
      }
      points := WritePoints(evs, idx + 3 * insertIndexStart);
    }
    ok := true;
  }

  /** Where the inserts start: the instance count less one per delete event. */
  function InsertIndexStart(instanceCount: int, sorted: seq<RampEvent>): int
  {
    instanceCount - CountKind(sorted, DeleteEvent)
  }

  /** The ramp upload succeeds when there is nothing to insert, or when the asset
      info and the instances' start can be read and the refreshed instance count is
      the start plus one per insert. */
  predicate RampUploadSucceeds(instanceCount: int, sorted: seq<RampEvent>, assetInfoOk: bool, startLookup: Option<(int, int)>)
  {
    CountKind(sorted, InsertEvent) == 0 ||
    (assetInfoOk && startLookup.Some? && startLookup.value.1 >= 0
     && startLookup.value.1 == InsertIndexStart(instanceCount, sorted) + CountKind(sorted, InsertEvent))
  }

  /**
   * `UploadRampParameter`. `sorted` is the events after the in-place sort by
   * descending delete index (the order of ties is the sort's own);
   * `assetInfoOk` is whether the asset info could be read and `startLookup`
   * the result of `GetMultiParmInstanceStartIdx` (the first parameter info of
   * the instances and the refreshed instance count).
   */
  method UploadRampParameter(param: RampParam?, scene: Scene, outerIsAsset: bool, sorted: seq<RampEvent>,
                             assetInfoOk: bool, startLookup: Option<(int, int)>)
    returns (ok: bool, calls: seq<HapiCall>)
    requires param != null ==> multiset(sorted) == multiset(param.events) && DeleteSorted(sorted)
    modifies param
    ensures !RampEligible(param, scene, outerIsAsset) ==>
      !ok && calls == [] && (param != null ==> param.events == old(param.events))
    ensures RampEligible(param, scene, outerIsAsset) ==>
      (ok <==> RampUploadSucceeds(param.instanceCount, sorted, assetInfoOk, startLookup))
    ensures RampEligible(param, scene, outerIsAsset) ==> param.events == (if ok then [] else sorted)
    ensures RampEligible(param, scene, outerIsAsset) ==>
      calls == DeleteCalls(sorted, param.startOffset)
             + InsertCalls(sorted, InsertIndexStart(param.instanceCount, sorted), param.startOffset)
             + (if ok && CountKind(sorted, InsertEvent) > 0
                then PointCalls(sorted, startLookup.value.0 + 3 * InsertIndexStart(param.instanceCount, sorted))
                else [])
  {
    calls := [];
    if param == null || param.obj in scene.dead || !outerIsAsset || !IsRampClass(param.cls) {
      return false, calls;
    }
    param.events := sorted;
    var deletes, insertIndexStart := IssueDeletes(sorted, param.startOffset, param.instanceCount);
    var inserts, insertIndex := IssueInserts(sorted, insertIndexStart, param.startOffset);
    var points;
    ok, points := WriteInsertedPoints(sorted, insertIndexStart, insertIndex, assetInfoOk, startLookup);
    calls := deletes + inserts + points;
    if ok {
      param.events := [];
    }
  }
}
