/**
 * `BuildAllParameters`: one pass over the node's parameter infos that reuses
 * an existing parameter object by name when it still fits, creates one
 * otherwise, skips corrupt parameters and those under an invisible folder,
 * and flags the direct children of multiparms.
 */
module ParameterBuild {
  import opened Common
  import opened Seqs
  import opened ParameterTypes

  /** The state of a UHoudiniParameter the pass reads and writes. */
  datatype Param = Param(
    obj: nat,
    name: string,
    cls: ParamClass,
    ptype: ParamType,
    tupleSize: int,
    parmId: int,
    parentId: int,
    directChild: bool)

  /** A `UHoudiniParameter*`. */
  datatype PPtr = NoParam | P(p: Param)

  predicate ParamLive(p: Param, scene: Scene)
  {
    p.obj !in scene.dead
  }

  // ---------------------------------------------------------------------
  // The ancestor-folder walk.

  /** `ParmInfos.FindByPredicate(id == ...)`: the first info with that id. */
  function Find(infos: seq<ParmInfo>, id: int, from: nat): (r: Option<nat>)
    requires from <= |infos|
    ensures r.Some? ==> from <= r.value < |infos| && infos[r.value].id == id
    ensures r.Some? ==> forall k :: from <= k < r.value ==> infos[k].id != id
    ensures r.None? <==> forall k :: from <= k < |infos| ==> infos[k].id != id
    decreases |infos| - from
  {
    if from == |infos| then None
    else if infos[from].id == id then Some(from)
    else Find(infos, id, from + 1)
  }

  predicate HiddenFolder(info: ParmInfo)
  {
    info.invisible && info.ptype == FolderParm
  }

  /**
   * Whether the walk up from parent id `pid` skips the parameter: it does when a
   * parent cannot be found or is an invisible folder; `fuel` bounds the number of
   * parents passed, and None means the bound was reached.
   */
  function Walk(infos: seq<ParmInfo>, pid: int, fuel: nat): Option<bool>
    decreases fuel
  {
    if pid <= 0 then Some(false)
    else match Find(infos, pid, 0)
      case None => Some(true)
      case Some(i) =>
        if HiddenFolder(infos[i]) then Some(true)
        else if fuel == 0 then None
        else Walk(infos, infos[i].parentId, fuel - 1)
  }

  /** The parents above `pid` up to the root or to the first missing id (true in
      the second component when one is missing), whatever they are. */
  function Chain(infos: seq<ParmInfo>, pid: int, fuel: nat): Option<(seq<ParmInfo>, bool)>
    decreases fuel
  {
    if pid <= 0 then Some(([], false))
    else match Find(infos, pid, 0)
      case None => Some(([], true))
      case Some(i) =>
        if fuel == 0 then None
        else match Chain(infos, infos[i].parentId, fuel - 1)
          case None => None
          case Some(rest) => Some(([infos[i]] + rest.0, rest.1))
  }

  /** The walk skips a parameter exactly when one of its ancestors is an invisible
      folder or the chain of parent ids reaches one that does not exist. */
  lemma {:induction false} WalkSkipsHidden(infos: seq<ParmInfo>, pid: int, fuel: nat)
    requires Chain(infos, pid, fuel).Some?
    ensures Walk(infos, pid, fuel).Some?
    ensures Walk(infos, pid, fuel).value <==>
      Chain(infos, pid, fuel).value.1 ||
      exists k :: 0 <= k < |Chain(infos, pid, fuel).value.0| && HiddenFolder(Chain(infos, pid, fuel).value.0[k])
    decreases fuel
  {
    if pid > 0 && Find(infos, pid, 0).Some? {
      var i := Find(infos, pid, 0).value;
      var c := Chain(infos, pid, fuel).value;
      var rest := Chain(infos, infos[i].parentId, fuel - 1).value;
      WalkSkipsHidden(infos, infos[i].parentId, fuel - 1);
      assert c.0 == [infos[i]] + rest.0;
      assert c.0[0] == infos[i];
      if exists k :: 0 <= k < |rest.0| && HiddenFolder(rest.0[k]) {
        var k :| 0 <= k < |rest.0| && HiddenFolder(rest.0[k]);
        assert c.0[k + 1] == rest.0[k];
      }
      if exists k :: 0 <= k < |c.0| && HiddenFolder(c.0[k]) {
        var k :| 0 <= k < |c.0| && HiddenFolder(c.0[k]);
        if k > 0 {
          assert rest.0[k - 1] == c.0[k];
        }
      }
    }
  }

  /** More fuel does not change an answer the walk already gives. */
  lemma {:induction false} WalkFuel(infos: seq<ParmInfo>, pid: int, fuel: nat, more: nat)
    requires Walk(infos, pid, fuel).Some? && fuel <= more
    ensures Walk(infos, pid, more) == Walk(infos, pid, fuel)
    decreases fuel
  {
    if pid > 0 && Find(infos, pid, 0).Some? {
      var i := Find(infos, pid, 0).value;
      if !HiddenFolder(infos[i]) {
        WalkFuel(infos, infos[i].parentId, fuel - 1, more - 1);
      }
    }
  }

  /** The walk ends within `|infos|` steps, as it does whenever the parent ids
      form no cycle. */
  predicate WalkEnds(infos: seq<ParmInfo>, pid: int)
  {
    Walk(infos, pid, |infos|).Some?
  }

  /** The parent loop of `BuildAllParameters`. It has no cycle guard, so it is only
      called where the walk ends. */
  method SkipForHiddenParent(infos: seq<ParmInfo>, parentId: int) returns (skip: bool)
    requires WalkEnds(infos, parentId)
    ensures skip == Walk(infos, parentId, |infos|).value
  {
    skip := false;
    var pid := parentId;
    ghost var fuel: nat := |infos|;
    while pid > 0 && !skip
      invariant !skip ==> Walk(infos, pid, fuel) == Walk(infos, parentId, |infos|)
      invariant skip ==> Walk(infos, parentId, |infos|) == Some(true)
      decreases fuel + (if skip then 0 else 1)
    {
      var found := Find(infos, pid, 0);
      if found.Some? {
        var parent := infos[found.value];
        if parent.invisible && parent.ptype == FolderParm {
          skip := true;
        } else {
          fuel := fuel - 1;
        }
        pid := parent.parentId;
      } else {
        skip := true;
      }
    }
  }

  // ---------------------------------------------------------------------
  // Reuse and creation.

  /** The name lookup of the current parameters: null entries are left out and a
      later entry of a name replaces an earlier one. */
  function NameIndex(current: seq<PPtr>): map<string, Param>
  {
    if |current| == 0 then map[]
    else
      var m := NameIndex(current[..|current| - 1]);
      var last := current[|current| - 1];
      if last.P? then m[last.p.name := last.p] else m
  }

  /** Every entry of the lookup is a current parameter filed under its own name, and
      every non-null current parameter's name is in it. */
  lemma {:induction false} NameIndexSound(current: seq<PPtr>)
    ensures forall n :: n in NameIndex(current) ==> NameIndex(current)[n].name == n && P(NameIndex(current)[n]) in current
    ensures forall k :: 0 <= k < |current| && current[k].P? ==> current[k].p.name in NameIndex(current)
  {
    if |current| > 0 {
      var init := current[..|current| - 1];
      NameIndexSound(init);
      forall k | 0 <= k < |init| && init[k].P? ensures init[k] in current {
        assert current[k] == init[k];
      }
    }
  }

  /** The loop building the name lookup. */
  method BuildNameIndex(current: seq<PPtr>) returns (m: map<string, Param>)
    ensures m == NameIndex(current)
  {
    m := map[];
    var i := 0;
    while i < |current|
      invariant i <= |current|
      invariant m == NameIndex(current[..i])
    {
      assert current[..i + 1][..i] == current[..i];
      if current[i].P? {
        m := m[current[i].p.name := current[i].p];
      }
      i := i + 1;
    }
    assert current[..|current|] == current;
  }

  /** The reuse test: the parameter found by name is live and has the tuple size,
      a valid type equal to the info's, and a class that fits that type. */
  predicate CanReuse(found: Param, info: ParmInfo, t: ParamType, scene: Scene)
  {
    ParamLive(found, scene) && found.tupleSize == info.size && t != Invalid
    && t == found.ptype && ClassMatches(found.cls, t)
  }

  /** `CreateTypedParameter`: a new object of the class and type for `t`. */
  function Created(t: ParamType, name: string, obj: nat): (r: Param)
    ensures r.cls == CreatedClass(t) && r.ptype == t && r.name == name && !r.directChild
  {
    Param(obj, name, CreatedClass(t), t, 0, -1, -1, false)
  }

  /** What `UpdateParameterFromInfo` sets of the fields the pass reads later. */
  function Refresh(p: Param, info: ParmInfo): (r: Param)
    ensures r.obj == p.obj && r.name == p.name && r.cls == p.cls && r.ptype == p.ptype
    ensures r.tupleSize == info.size && r.parmId == info.id && r.parentId == info.parentId
  {
    p.(tupleSize := info.size, parmId := info.id, parentId := info.parentId)
  }

  /** A parameter created and updated for an info passes the reuse test for that
      info on the next cook, unless the type is Invalid. */
  lemma CreatedReusable(info: ParmInfo, obj: nat, scene: Scene)
    requires obj !in scene.dead
    ensures CanReuse(Refresh(Created(GetParmType(info), info.name, obj), info), info, GetParmType(info), scene)
        <==> GetParmType(info) != Invalid
  {
    CreatedClassMatches(GetParmType(info));
  }

  /** `TArray::Remove(x)`: every occurrence goes. */
  function RemoveAll(s: seq<PPtr>, x: PPtr): (r: seq<PPtr>)
    ensures x !in r
    ensures forall y :: y in r <==> y in s && y != x
  {
    if |s| == 0 then []
    else (if s[0] == x then [] else [s[0]]) + RemoveAll(s[1..], x)
  }

  /** The direct-child-of-multiparm bookkeeping for the parameter just added. */
  function Flag(q: Param, multi: seq<int>): (r: (Param, seq<int>))
    ensures r.0 == q.(directChild := q.directChild || q.parentId in multi + (if q.ptype == MultiParm then [q.parmId] else []))
  {
    var withSelf := if q.ptype == MultiParm then multi + [q.parmId] else multi;
    if q.parentId in withSelf then
      (q.(directChild := true), if q.ptype == FolderList then withSelf + [q.parmId] else withSelf)
    else (q, withSelf)
  }

  /** The pass's state: the current array, the name lookup, the new parameters,
      their ids, the multiparm ids, and the old parameters taken for reuse. */
  datatype Pass = Pass(
    current: seq<PPtr>,
    byName: map<string, Param>,
    built: seq<Param>,
    ids: seq<int>,
    multi: seq<int>,
    taken: seq<Param>)

  /** The walk ends for every parameter the pass does not reject as corrupt. */
  predicate WalksEnd(infos: seq<ParmInfo>)
  {
    forall k :: 0 <= k < |infos| && infos[k].id >= 0 && infos[k].childIndex >= 0 ==> WalkEnds(infos, infos[k].parentId)
  }

  /** One iteration on `infos[k]`; `updated(k, full)` is whether the engine update
      of that parameter succeeds and `newObj(k)` the object a creation makes. */
  function Step(infos: seq<ParmInfo>, k: nat, s: Pass, scene: Scene,
                updated: (nat, bool) -> bool, newObj: nat -> nat): Pass
    requires k < |infos| && WalksEnd(infos)
  {
    var info := infos[k];
    if info.id < 0 || info.childIndex < 0 then s
    else if Walk(infos, info.parentId, |infos|).value then s
    else
      var t := GetParmType(info);
      if info.name in s.byName && CanReuse(s.byName[info.name], info, t, scene) then
        var p := s.byName[info.name];
        var s' := s.(current := RemoveAll(s.current, P(p)), byName := s.byName - {info.name}, taken := s.taken + [p]);
        if !updated(k, false) then s'
        else
          var f := Flag(Refresh(p, info), s.multi);
          s'.(built := s.built + [f.0], ids := s.ids + [info.id], multi := f.1)
      else if !updated(k, true) then s
      else
        var f := Flag(Refresh(Created(t, info.name, newObj(k)), info), s.multi);
        s.(built := s.built + [f.0], ids := s.ids + [info.id], multi := f.1)
  }

  /** The pass over the first `n` infos. */
  function PassUpTo(infos: seq<ParmInfo>, n: nat, current: seq<PPtr>, scene: Scene,
                    updated: (nat, bool) -> bool, newObj: nat -> nat): Pass
    requires n <= |infos| && WalksEnd(infos)
  {
    if n == 0 then Pass(current, NameIndex(current), [], [], [], [])
    else Step(infos, n - 1, PassUpTo(infos, n - 1, current, scene, updated, newObj), scene, updated, newObj)
  }

  /** The lookup's entries are filed under their names, come from the old array
      and have not been taken. */
  predicate LookupFresh(s: Pass, current: seq<PPtr>)
  {
    && (forall n :: n in s.byName ==> s.byName[n].name == n && P(s.byName[n]) in current && s.byName[n] !in s.taken)
    && (forall j :: 0 <= j < |s.taken| ==> P(s.taken[j]) in current)
    && Distinct(s.taken)
  }

  lemma StepKeepsLookupFresh(infos: seq<ParmInfo>, k: nat, s: Pass, scene: Scene,
                             updated: (nat, bool) -> bool, newObj: nat -> nat, current: seq<PPtr>)
    requires k < |infos| && WalksEnd(infos) && LookupFresh(s, current)
    ensures LookupFresh(Step(infos, k, s, scene, updated, newObj), current)
  {
    var info := infos[k];
    if info.id >= 0 && info.childIndex >= 0 && !Walk(infos, info.parentId, |infos|).value
       && info.name in s.byName && CanReuse(s.byName[info.name], info, GetParmType(info), scene) {
      var p := s.byName[info.name];
      var r := Step(infos, k, s, scene, updated, newObj);
      assert r.taken == s.taken + [p] && r.byName == s.byName - {info.name};
      forall n | n in r.byName ensures r.byName[n] !in r.taken {
        assert r.byName[n] == s.byName[n] && s.byName[n].name == n != info.name;
      }
    }
  }

  /** Each old parameter is taken for reuse at most once, and only parameters of the
      old array are. */
  lemma {:induction false} EachReusedOnce(infos: seq<ParmInfo>, n: nat, current: seq<PPtr>, scene: Scene,
                                          updated: (nat, bool) -> bool, newObj: nat -> nat)
    requires n <= |infos| && WalksEnd(infos)
    ensures Distinct(PassUpTo(infos, n, current, scene, updated, newObj).taken)
    ensures forall j :: 0 <= j < |PassUpTo(infos, n, current, scene, updated, newObj).taken| ==>
      P(PassUpTo(infos, n, current, scene, updated, newObj).taken[j]) in current
  {
    FreshUpTo(infos, n, current, scene, updated, newObj);
  }

  lemma {:induction false} FreshUpTo(infos: seq<ParmInfo>, n: nat, current: seq<PPtr>, scene: Scene,
                                     updated: (nat, bool) -> bool, newObj: nat -> nat)
    requires n <= |infos| && WalksEnd(infos)
    ensures LookupFresh(PassUpTo(infos, n, current, scene, updated, newObj), current)
  {
    if n == 0 {
      NameIndexSound(current);
    } else {
      FreshUpTo(infos, n - 1, current, scene, updated, newObj);
      StepKeepsLookupFresh(infos, n - 1, PassUpTo(infos, n - 1, current, scene, updated, newObj), scene, updated, newObj, current);
    }
  }

  /** A parameter is added for an info only when it is neither corrupt nor under a
      hidden folder, and then with that info's id. */
  lemma StepAdds(infos: seq<ParmInfo>, k: nat, s: Pass, scene: Scene,
                 updated: (nat, bool) -> bool, newObj: nat -> nat)
    requires k < |infos| && WalksEnd(infos)
    requires forall n :: n in s.byName ==> s.byName[n].name == n
    ensures |Step(infos, k, s, scene, updated, newObj).built| == |s.built| + 1 ==>
      infos[k].id >= 0 && infos[k].childIndex >= 0 && Walk(infos, infos[k].parentId, |infos|) == Some(false)
      && Step(infos, k, s, scene, updated, newObj).ids == s.ids + [infos[k].id]
      && Step(infos, k, s, scene, updated, newObj).built[|s.built|].name == infos[k].name
      && Step(infos, k, s, scene, updated, newObj).built[|s.built|].tupleSize == infos[k].size
    ensures |Step(infos, k, s, scene, updated, newObj).built| == |s.built| + 1 ||
      Step(infos, k, s, scene, updated, newObj).built == s.built
  {
    var info := infos[k];
    var r := Step(infos, k, s, scene, updated, newObj);
    if info.id >= 0 && info.childIndex >= 0 && !Walk(infos, info.parentId, |infos|).value {
      var t := GetParmType(info);
      if info.name in s.byName && CanReuse(s.byName[info.name], info, t, scene) {
        if updated(k, false) {
          var f := Flag(Refresh(s.byName[info.name], info), s.multi);
          assert r.built == s.built + [f.0];
        }
      }
    }
  }

  /**
   * `BuildAllParameters`. `assetOk` says whether the asset id is valid,
   * `infoOk` whether the asset and node infos could be read, `parmCount` is the
   * node's parameter count and `infos` the parameter infos, None if they could
   * not be read. Returns the verdict, the new parameters and the current array
   * with the reused parameters removed.
   */
  method BuildAllParameters(assetOk: bool, infoOk: bool, parmCount: int, infos: Option<seq<ParmInfo>>,
                            current: seq<PPtr>, scene: Scene,
                            updated: (nat, bool) -> bool, newObj: nat -> nat)
    returns (ok: bool, built: seq<Param>, remaining: seq<PPtr>)
    requires infos.Some? ==> |infos.value| == parmCount && WalksEnd(infos.value)
    ensures !assetOk || !infoOk || parmCount < 0 || (parmCount > 0 && infos.None?) ==> !ok && built == [] && remaining == current
    ensures assetOk && infoOk && parmCount == 0 ==> ok && built == [] && remaining == current
    ensures assetOk && infoOk && parmCount > 0 && infos.Some? ==>
      ok && built == PassUpTo(infos.value, parmCount, current, scene, updated, newObj).built
      && remaining == PassUpTo(infos.value, parmCount, current, scene, updated, newObj).current
  {
    built, remaining := [], current;
    if !assetOk || !infoOk {
      return false, built, remaining;
    }
    if parmCount == 0 {
      return true, built, remaining;
    } else if parmCount < 0 {
      return false, built, remaining;
    }
    if infos.None? {
      return false, built, remaining;
    }
    var all := infos.value;
    var byName := BuildNameIndex(current);
    var ids: seq<int> := [];
    var multi: seq<int> := [];
    ghost var taken: seq<Param> := [];
    var k := 0;
    while k < parmCount
      invariant k <= parmCount
      invariant Pass(remaining, byName, built, ids, multi, taken) == PassUpTo(all, k, current, scene, updated, newObj)
    {
      ghost var before := Pass(remaining, byName, built, ids, multi, taken);
      var info := all[k];
      k := k + 1;
      if info.id < 0 || info.childIndex < 0 {
        continue;
      }
      var skip := SkipForHiddenParent(all, info.parentId);
      if skip {
        continue;
      }
      var t := GetParmType(info);
      var param: Param;
      if info.name in byName && CanReuse(byName[info.name], info, t, scene) {
        param := byName[info.name];
        remaining := RemoveAll(remaining, P(param));
        byName := byName - {info.name};
        taken := taken + [param];
        if !updated(k - 1, false) {
          continue;
        }
      } else {
        param := Created(t, info.name, newObj(k - 1));
        if !updated(k - 1, true) {
          continue;
        }
      }
      param := Refresh(param, info);
      if param.ptype == MultiParm {
        multi := multi + [param.parmId];
      }
      if param.parentId in multi {
        param := param.(directChild := true);
        if param.ptype == FolderList {
          multi := multi + [param.parmId];
        }
      }
      built := built + [param];
      ids := ids + [info.id];
    }
    ok := true;
  }
}
