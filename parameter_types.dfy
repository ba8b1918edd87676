/**
 * The pure part of the parameter translator: which parameter type and class a
 * HAPI parameter info calls for, whether an existing parameter object fits a
 * type, which class a new parameter of a type gets, the folder style, the unit
 * string rewrite and the integer-choice clamp.
 */
module ParameterTypes {
  import opened Common
  import opened Text

  /** HAPI_ParmType. */
  datatype HapiParmType =
    | IntParm | MultiParmList | ToggleParm | ButtonParm | FloatParm | ColorParm | StringParm
    | PathFile | PathFileGeo | PathFileImage | NodeParm | FolderListParm | FolderListRadio
    | FolderParm | LabelParm | SeparatorParm | PathFileDir | OtherParmType

  /** HAPI_RampType. */
  datatype RampType = NoRamp | FloatRampType | ColorRampType

  /** HAPI_NodeType, as far as the translator tells node types apart. */
  datatype NodeType = AnyNode | SopNode | ObjNode | OtherNode

  /** HAPI_PrmScriptType, as far as folders tell script types apart. */
  datatype ScriptType = GroupSimple | GroupCollapsible | Group | GroupRadio | OtherScript

  /** The fields of HAPI_ParmInfo the translator reads. */
  datatype ParmInfo = ParmInfo(
    id: int,
    parentId: int,
    childIndex: int,
    ptype: HapiParmType,
    choiceCount: int,
    rampType: RampType,
    inputNodeType: NodeType,
    size: int,
    invisible: bool,
    name: string,
    scriptType: ScriptType)

  /** EHoudiniParameterType. */
  datatype ParamType =
    | Invalid | Button | Color | ColorRamp | File | FileDir | FileGeo | FileImage | Float
    | FloatRamp | Folder | FolderList | Input | Int | IntChoice | Label | MultiParm
    | Separator | String | StringAssetRef | StringChoice | Toggle

  /** The UHoudiniParameter classes. */
  datatype ParamClass =
    | BaseParamClass | ButtonClass | ColorClass | RampColorClass | RampFloatClass | FileClass
    | FloatClass | FolderClass | FolderListClass | OperatorPathClass | IntClass | ChoiceClass
    | LabelClass | MultiParmClass | SeparatorClass | StringClass | ToggleClass

  /** `UClass::IsChildOf`: every class derives from the base parameter class, and the
      two ramp classes from the multiparm class. */
  predicate IsChildOf(c: ParamClass, base: ParamClass)
  {
    c == base || base == BaseParamClass || ((c == RampFloatClass || c == RampColorClass) && base == MultiParmClass)
  }

  /** `GetParmTypeFromParmInfo`. */
  function GetParmType(info: ParmInfo): (r: ParamType)
    ensures info.ptype == StringParm ==> r == (if info.choiceCount > 0 then StringChoice else String)
    ensures info.ptype == IntParm ==> r == (if info.choiceCount > 0 then IntChoice else Int)
    ensures info.ptype == MultiParmList ==>
      r == (match info.rampType case FloatRampType => FloatRamp case ColorRampType => ColorRamp case NoRamp => MultiParm)
    ensures info.ptype == NodeParm ==> r == (if info.inputNodeType.OtherNode? then String else Input)
    ensures r == Invalid <==> info.ptype == FolderListRadio || info.ptype == OtherParmType
  {
    match info.ptype
    case ButtonParm => Button
    case StringParm => if info.choiceCount > 0 then StringChoice else String
    case IntParm => if info.choiceCount > 0 then IntChoice else Int
    case FloatParm => Float
    case ToggleParm => Toggle
    case ColorParm => Color
    case LabelParm => Label
    case SeparatorParm => Separator
    case FolderListParm => FolderList
    case FolderParm => Folder
    case MultiParmList =>
      if info.rampType == FloatRampType then FloatRamp
      else if info.rampType == ColorRampType then ColorRamp
      else MultiParm
    case PathFile => File
    case PathFileDir => FileDir
    case PathFileGeo => FileGeo
    case PathFileImage => FileImage
    case NodeParm =>
      if info.inputNodeType == AnyNode || info.inputNodeType == SopNode || info.inputNodeType == ObjNode then Input
      else String
    case FolderListRadio => Invalid
    case OtherParmType => Invalid
  }

  /** The class `CheckParameterTypeAndClassMatch` asks a parameter of type `t` to derive
      from; none for Invalid. */
  function RequiredClass(t: ParamType): Option<ParamClass>
  {
    match t
    case Invalid => None
    case Button => Some(ButtonClass)
    case Color => Some(ColorClass)
    case ColorRamp => Some(RampColorClass)
    case FloatRamp => Some(RampFloatClass)
    case File => Some(FileClass)
    case FileDir => Some(FileClass)
    case FileGeo => Some(FileClass)
    case FileImage => Some(FileClass)
    case Float => Some(FloatClass)
    case Folder => Some(FolderClass)
    case FolderList => Some(FolderListClass)
    case Input => Some(OperatorPathClass)
    case Int => Some(IntClass)
    case IntChoice => Some(ChoiceClass)
    case StringChoice => Some(ChoiceClass)
    case Label => Some(LabelClass)
    case MultiParm => Some(MultiParmClass)
    case Separator => Some(SeparatorClass)
    case String => Some(StringClass)
    case StringAssetRef => Some(StringClass)
    case Toggle => Some(ToggleClass)
  }

  /** `CheckParameterTypeAndClassMatch`: the parameter's class derives from the class the
      type requires; never for Invalid. */
  function ClassMatches(cls: ParamClass, t: ParamType): (r: bool)
    ensures t == Invalid ==> !r
    ensures r <==> RequiredClass(t).Some? && IsChildOf(cls, RequiredClass(t).value)
  {
    match RequiredClass(t)
    case None => false
    case Some(c) => IsChildOf(cls, c)
  }

  /** The class `CreateTypedParameter` instantiates for `t`. */
  function CreatedClass(t: ParamType): ParamClass
  {
    match t
    case Invalid => BaseParamClass
    case Button => ButtonClass
    case Color => ColorClass
    case ColorRamp => RampColorClass
    case FloatRamp => RampFloatClass
    case File => FileClass
    case FileDir => FileClass
    case FileGeo => FileClass
    case FileImage => FileClass
    case Float => FloatClass
    case Folder => FolderClass
    case FolderList => FolderListClass
    case Input => OperatorPathClass
    case Int => IntClass
    case IntChoice => ChoiceClass
    case StringChoice => ChoiceClass
    case Label => LabelClass
    case MultiParm => MultiParmClass
    case Separator => SeparatorClass
    case String => StringClass
    case StringAssetRef => StringClass
    case Toggle => ToggleClass
  }

  /** A parameter created for a type passes the class check for that type, so it can be
      reused on the next cook; one created for Invalid never does. */
  lemma CreatedClassMatches(t: ParamType)
    ensures ClassMatches(CreatedClass(t), t) <==> t != Invalid
  {
  }

  /** A multiparm-class parameter is never taken for a ramp, but a ramp-class one passes
      the multiparm check. */
  lemma RampsAreMultiParms()
    ensures ClassMatches(RampFloatClass, MultiParm) && ClassMatches(RampColorClass, MultiParm)
    ensures !ClassMatches(MultiParmClass, FloatRamp) && !ClassMatches(MultiParmClass, ColorRamp)
    ensures !ClassMatches(RampFloatClass, ColorRamp) && !ClassMatches(RampColorClass, FloatRamp)
  {
  }

  /**
   * `GetDesiredParameterClass`, as written: its multiparm-list case tests
   * "float or colour" first, so a colour ramp gets the float-ramp class and the
   * colour-ramp branch after it is never taken; an unknown type gets the base class.
   */
  function GetDesiredParameterClass(info: ParmInfo): (r: ParamClass)
    ensures info.ptype == MultiParmList && !info.rampType.NoRamp? ==> r == RampFloatClass
    ensures info.ptype == MultiParmList && info.rampType == NoRamp ==> r == BaseParamClass
  {
    match info.ptype
    case StringParm => if info.choiceCount == 0 then StringClass else ChoiceClass
    case IntParm => if info.choiceCount == 0 then IntClass else ChoiceClass
    case FloatParm => FloatClass
    case ToggleParm => ToggleClass
    case ColorParm => ColorClass
    case LabelParm => LabelClass
    case ButtonParm => ButtonClass
    case SeparatorParm => SeparatorClass
    case FolderListParm => FolderListClass
    case FolderParm => FolderClass
    case MultiParmList =>
      if info.rampType == FloatRampType || info.rampType == ColorRampType then RampFloatClass
      else if info.rampType == ColorRampType then RampColorClass
      else BaseParamClass
    case PathFile => FileClass
    case PathFileDir => FileClass
    case PathFileGeo => FileClass
    case PathFileImage => FileClass
    case NodeParm =>
      if info.inputNodeType == AnyNode || info.inputNodeType == SopNode || info.inputNodeType == ObjNode then BaseParamClass
      else StringClass
    case FolderListRadio => BaseParamClass
    case OtherParmType => BaseParamClass
  }

  /** For a colour ramp the desired class is the float-ramp one, which fails the class
      check for the colour-ramp type that the same info maps to, while the class a new
      colour-ramp parameter is created with passes it. */
  lemma ColorRampDesiredClassMismatch(info: ParmInfo)
    requires info.ptype == MultiParmList && info.rampType == ColorRampType
    ensures GetParmType(info) == ColorRamp
    ensures GetDesiredParameterClass(info) == RampFloatClass
    ensures !ClassMatches(GetDesiredParameterClass(info), GetParmType(info))
    ensures ClassMatches(CreatedClass(GetParmType(info)), GetParmType(info))
  {
  }

  /** EHoudiniFolderParameterType. */
  datatype FolderType = InvalidFolder | Simple | Collapsible | Tabs | Radio | OtherFolder

  /** `GetFolderTypeFromParamInfo`: the folder style a script type calls for; never Invalid. */
  function GetFolderType(info: ParmInfo): (r: FolderType)
    ensures r != InvalidFolder
    ensures r == OtherFolder <==> info.scriptType == OtherScript
  {
    match info.scriptType
    case GroupSimple => Simple
    case GroupCollapsible => Collapsible
    case Group => Tabs
    case GroupRadio => Radio
    case OtherScript => OtherFolder
  }

  // ---------------------------------------------------------------------
  // The unit tag.

  /** The rewrite of the "units" tag before the engine parses it. */
  function UnitRewrite(s: string): string
  {
    var perSecond := ReplaceAll(s, "s-1", "/s");
    var perHour := ReplaceAll(perSecond, "h-1", "/h");
    var marked := ReplaceAll(perHour, "-1", "--");
    var noOnes := ReplaceAll(marked, "1", "");
    ReplaceAll(noOnes, "--", "-1")
  }

  /** `HapiGetParameterUnit`: the unit is emptied first; false, leaving it empty, when
      the "units" tag cannot be read; otherwise the tag rewritten by five successive replacements. */
  method HapiGetParameterUnit(tag: Option<string>) returns (ok: bool, unit: string)
    ensures ok <==> tag.Some?
    ensures unit == (if ok then UnitRewrite(tag.value) else "")
  {
    unit := "";
    if tag.None? {
      return false, unit;
    }
    var s := tag.value;
    s := ReplaceAll(s, "s-1", "/s");
    s := ReplaceAll(s, "h-1", "/h");
    s := ReplaceAll(s, "-1", "--");
    s := ReplaceAll(s, "1", "");
    s := ReplaceAll(s, "--", "-1");
    unit := s;
    ok := true;
  }

  /** After the rewrite the only '1's left are in "-1", and no "--" is left. */
  lemma UnitRewriteShape(s: string)
    ensures NoDoubleDash(UnitRewrite(s)) && OnesFollowDash(UnitRewrite(s))
  {
    var marked := ReplaceAll(ReplaceAll(ReplaceAll(s, "s-1", "/s"), "h-1", "/h"), "-1", "--");
    ReplaceAllRemovesChar(marked, '1', "");
    CollapseDashes(ReplaceAll(marked, "1", ""));
  }

  // ---------------------------------------------------------------------
  // Integer choices.

  /** The value an integer-choice parameter keeps: one at or past the choice count
      becomes 0; a negative one is kept. */
  function ClampChoice(v: int, choiceCount: int): (r: int)
    ensures v >= choiceCount ==> r == 0
    ensures v < choiceCount ==> r == v
  {
    if v >= choiceCount then 0 else v
  }

  /** A non-negative value of a menu with choices ends up naming a choice, and a
      valid one is kept. */
  lemma ClampChoiceNamesChoice(v: int, choiceCount: int)
    requires v >= 0 && choiceCount > 0
    ensures 0 <= ClampChoice(v, choiceCount) < choiceCount
    ensures ClampChoice(ClampChoice(v, choiceCount), choiceCount) == ClampChoice(v, choiceCount)
  {
  }
}
