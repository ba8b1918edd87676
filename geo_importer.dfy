/**
 * The bgeo importer: how `SetFilePath` splits and normalises the file path,
 * extension and bake folder, and the order and clean-up of the steps of
 * `ImportBGEOFile`.
 */
module GeoImporter {
  import opened Common
  import opened Text

  // ---------------------------------------------------------------------
  // Path pieces, as FPaths splits them.

  predicate IsSeparator(c: char)
  {
    c == '/' || c == '\\'
  }

  /** The index of the last separator. */
  function LastSeparator(s: string): (r: Option<nat>)
    ensures r.Some? ==> r.value < |s| && IsSeparator(s[r.value])
    ensures r.Some? ==> forall k :: r.value < k < |s| ==> !IsSeparator(s[k])
    ensures r.None? ==> forall k :: 0 <= k < |s| ==> !IsSeparator(s[k])
  {
    if |s| == 0 then None
    else if IsSeparator(s[|s| - 1]) then Some(|s| - 1)
    else LastSeparator(s[..|s| - 1])
  }

  /** The index of the last dot. */
  function LastDot(s: string): (r: Option<nat>)
    ensures r.Some? ==> r.value < |s| && s[r.value] == '.'
    ensures r.Some? ==> forall k :: r.value < k < |s| ==> s[k] != '.'
    ensures r.None? ==> '.' !in s
  {
    if |s| == 0 then None
    else if s[|s| - 1] == '.' then Some(|s| - 1)
    else LastDot(s[..|s| - 1])
  }

  /** `FPaths::GetCleanFilename`: what follows the last separator. */
  function CleanFilename(p: string): (r: string)
    ensures forall k :: 0 <= k < |r| ==> !IsSeparator(r[k])
  {
    match LastSeparator(p)
    case None => p
    case Some(i) => p[i + 1..]
  }

  /** `FPaths::GetPath`: what precedes the last separator. */
  function PathPart(p: string): string
  {
    match LastSeparator(p)
    case None => ""
    case Some(i) => p[..i]
  }

  /** `FPaths::GetExtension`: the file name after its last dot, without the dot. */
  function Extension(p: string): string
  {
    var f := CleanFilename(p);
    match LastDot(f)
    case None => ""
    case Some(i) => f[i + 1..]
  }

  /** `FPaths::GetBaseFilename`: the file name up to its last dot. */
  function BaseFilename(p: string): (r: string)
    ensures forall k :: 0 <= k < |r| ==> !IsSeparator(r[k])
  {
    var f := CleanFilename(p);
    match LastDot(f)
    case None => f
    case Some(i) => f[..i]
  }

  /** The extension is what follows the last dot, so it holds no dot itself. */
  lemma ExtensionHasNoDot(p: string)
    ensures '.' !in Extension(p)
  {
    var f := CleanFilename(p);
    if LastDot(f).Some? {
      var i := LastDot(f).value;
      var e := f[i + 1..];
      forall k | 0 <= k < |e|
        ensures e[k] != '.'
      {
        assert e[k] == f[i + 1 + k];
      }
    }
  }

  /** The base name and extension put back together give the file name again. */
  lemma FileNameRecombines(p: string)
    ensures CleanFilename(p) == BaseFilename(p) + (if LastDot(CleanFilename(p)).Some? then "." + Extension(p) else "")
  {
    var f := CleanFilename(p);
    if LastDot(f).Some? {
      var i := LastDot(f).value;
      assert f == f[..i] + "." + f[i + 1..];
    }
  }

  /** The directory, the last separator and the file name put back together give the path again. */
  lemma PathRecombines(p: string)
    ensures LastSeparator(p).Some? ==> p == PathPart(p) + [p[LastSeparator(p).value]] + CleanFilename(p)
    ensures LastSeparator(p).None? ==> p == CleanFilename(p)
  {
    if LastSeparator(p).Some? {
      var i := LastSeparator(p).value;
      assert p == p[..i] + [p[i]] + p[i + 1..];
    }
  }

  /** A name without separators is its own clean file name. */
  lemma CleanWithoutSeparators(s: string)
    requires forall k :: 0 <= k < |s| ==> !IsSeparator(s[k])
    ensures CleanFilename(s) == s
  {
  }

  // ---------------------------------------------------------------------
  // SetFilePath

  /** The file name and extension `SetFilePath` keeps for an absolute path: a "sc"
      extension takes the inner extension in front of it and the name loses it,
      and an empty extension becomes "bgeo". */
  function ImportParts(abs: string): (string, string)
  {
    var name := BaseFilename(abs);
    var ext := Extension(abs);
    if ext == "sc" then (BaseFilename(name), Extension(name) + ".sc")
    else (name, if ext == "" then "bgeo" else ext)
  }

  /** The extension check. */
  predicate IsBgeo(ext: string)
  {
    StartsWithIgnoreCase(ext, "bgeo")
  }

  /** A file name with a dot is its base name, a dot and its extension. */
  lemma BaseDotExtension(p: string)
    requires Extension(p) != ""
    ensures CleanFilename(p) == BaseFilename(p) + "." + Extension(p)
  {
    var f := CleanFilename(p);
    var i := LastDot(f).value;
    assert f == f[..i] + "." + f[i + 1..];
  }

  /** An accepted extension that was not defaulted, with the name, gives back the
      file name: "x.bgeo.sc" splits into "x" and "bgeo.sc". */
  lemma ImportPartsRecombine(abs: string)
    requires Extension(abs) != "" && IsBgeo(ImportParts(abs).1)
    ensures ImportParts(abs).0 + "." + ImportParts(abs).1 == CleanFilename(abs)
  {
    BaseDotExtension(abs);
    if Extension(abs) == "sc" {
      var name := BaseFilename(abs);
      assert ImportParts(abs) == (BaseFilename(name), Extension(name) + ".sc");
      assert Extension(name) != "";
      BaseDotExtension(name);
      CleanWithoutSeparators(name);
    }
  }

  /** "x.bgeo.sc" imports as name "x" with extension "bgeo.sc". */
  lemma BgeoScExample()
    ensures ImportParts("/tmp/x.bgeo.sc") == ("x", "bgeo.sc")
  {
    BgeoScOuterSplit();
    BgeoInnerSplit();
    assert "bgeo" + ".sc" == "bgeo.sc";
  }

  /** The outer split of the example: extension "sc", base name "x.bgeo". */
  lemma BgeoScOuterSplit()
    ensures Extension("/tmp/x.bgeo.sc") == "sc" && BaseFilename("/tmp/x.bgeo.sc") == "x.bgeo"
  {
    var p := "/tmp/x.bgeo.sc";
    assert LastSeparator(p) == Some(4) by {
      assert p[4] == '/' && forall k :: 4 < k < |p| ==> !IsSeparator(p[k]);
    }
    assert CleanFilename(p) == "x.bgeo.sc";
    assert LastDot("x.bgeo.sc") == Some(6);
  }

  /** The inner split of the example: extension "bgeo", base name "x". */
  lemma BgeoInnerSplit()
    ensures Extension("x.bgeo") == "bgeo" && BaseFilename("x.bgeo") == "x"
  {
    assert LastSeparator("x.bgeo") == None;
    assert CleanFilename("x.bgeo") == "x.bgeo";
    assert LastDot("x.bgeo") == Some(1);
  }

  /** A file without an extension imports as bgeo; one with a "sc" extension and no
      inner extension is refused. */
  lemma ExtensionDefaults(abs: string)
    ensures Extension(abs) == "" ==> ImportParts(abs) == (BaseFilename(abs), "bgeo") && IsBgeo("bgeo")
    ensures Extension(abs) == "sc" && Extension(BaseFilename(abs)) == "" ==> !IsBgeo(ImportParts(abs).1)
  {
    if Extension(abs) == "sc" && Extension(BaseFilename(abs)) == "" {
      assert |ImportParts(abs).1| == 3;
    }
  }

  /** The bake folder with separators turned into '/' and a trailing '/'. */
  function NormalizeFolder(f: string): string
  {
    var g := ReplaceAll(f, "\\", "/");
    if EndsWith(g, "/") then g else g + "/"
  }

  lemma {:induction false} ReplaceAllAbsent(s: string, c: char, to: string)
    requires !IsLetter(c) && c !in s
    ensures ReplaceAll(s, [c], to) == s
    decreases |s|
  {
    if |s| >= 1 {
      EqualsIgnoreCaseNoLetters(s[..1], [c]);
      ReplaceAllAbsent(s[1..], c, to);
      assert s == [s[0]] + s[1..];
    }
  }

  /** The normalised folder has no backslash and ends with '/', and normalising it
      again changes nothing. */
  lemma NormalizeFolderShape(f: string)
    ensures '\\' !in NormalizeFolder(f) && EndsWith(NormalizeFolder(f), "/")
    ensures NormalizeFolder(NormalizeFolder(f)) == NormalizeFolder(f)
  {
    var g := ReplaceAll(f, "\\", "/");
    ReplaceAllRemovesChar(f, '\\', "/");
    var n := NormalizeFolder(f);
    ReplaceAllAbsent(n, '\\', "/");
  }

  /** The split of the absolute path, with the ".bgeo.sc" and missing-extension
      handling of `SetFilePath`. */
  method SplitImportPath(full: string) returns (dir: string, name: string, ext: string)
    ensures dir == PathPart(full) && (name, ext) == ImportParts(full)
  {
    dir, name, ext := PathPart(full), BaseFilename(full), Extension(full);
    if ext == "sc" {
      ext := Extension(name) + "." + ext;
      assert ext == Extension(name) + ".sc";
      name := BaseFilename(name);
    }
    if ext == "" {
      ext := "bgeo";
    }
  }

  /** The path fields of an importer. */
  datatype ImporterPaths = ImporterPaths(
    sourceFilePath: string,
    absoluteFilePath: string,
    absoluteFileDirectory: string,
    fileName: string,
    fileExtension: string,
    outputFilename: string,
    bakeRootFolder: string)

  /** `SetFilePath` on the fields `p`: its verdict and the fields it leaves. */
  function PathsAfter(p: ImporterPaths, inFilePath: string, fileExists: bool, full: string): (bool, ImporterPaths)
  {
    var q := p.(sourceFilePath := inFilePath);
    if !fileExists then (false, q)
    else
      var parts := ImportParts(full);
      var q := q.(absoluteFilePath := full, absoluteFileDirectory := PathPart(full),
                  fileName := parts.0, fileExtension := parts.1);
      if !IsBgeo(parts.1) then (false, q)
      else (true, q.(bakeRootFolder := NormalizeFolder(p.bakeRootFolder),
                     outputFilename := if p.outputFilename == "" then parts.0 else p.outputFilename))
  }

  /** The verdict is `PathsOk`; a failure keeps the output name and the bake folder,
      and a missing file changes nothing but the source path. */
  lemma PathsAfterVerdict(p: ImporterPaths, inFilePath: string, fileExists: bool, full: string)
    ensures PathsAfter(p, inFilePath, fileExists, full).0 <==> PathsOk(fileExists, full)
    ensures !fileExists ==> PathsAfter(p, inFilePath, fileExists, full).1 == p.(sourceFilePath := inFilePath)
    ensures !PathsOk(fileExists, full) ==>
      var q := PathsAfter(p, inFilePath, fileExists, full).1;
      q.outputFilename == p.outputFilename && q.bakeRootFolder == p.bakeRootFolder
  {
  }

  /** The state of a UHoudiniGeoImporter. */
  class Importer {
    var sourceFilePath: string
    var absoluteFilePath: string
    var absoluteFileDirectory: string
    var fileName: string
    var fileExtension: string
    var outputFilename: string
    var bakeRootFolder: string

    constructor ()
      ensures sourceFilePath == "" && absoluteFilePath == "" && absoluteFileDirectory == ""
      ensures fileName == "" && fileExtension == "" && outputFilename == ""
      ensures bakeRootFolder == "/Game/HoudiniEngine/Bake/"
    {
      sourceFilePath, absoluteFilePath, absoluteFileDirectory := "", "", "";
      fileName, fileExtension, outputFilename := "", "", "";
      bakeRootFolder := "/Game/HoudiniEngine/Bake/";
    }

    function Paths(): ImporterPaths
      reads this
    {
      ImporterPaths(sourceFilePath, absoluteFilePath, absoluteFileDirectory, fileName, fileExtension,
                    outputFilename, bakeRootFolder)
    }

    /**
     * `SetFilePath`. `fileExists` is `FPaths::FileExists` of the path and
     * `full` its `ConvertRelativePathToFull`. The source path is stored first;
     * then a missing file or an extension that is not bgeo fails.
     */
    method SetFilePath(inFilePath: string, fileExists: bool, full: string) returns (ok: bool)
      modifies this
      ensures sourceFilePath == inFilePath
      ensures !fileExists ==>
        !ok && absoluteFilePath == old(absoluteFilePath) && absoluteFileDirectory == old(absoluteFileDirectory)
        && fileName == old(fileName) && fileExtension == old(fileExtension)
      ensures fileExists ==>
        absoluteFilePath == full && absoluteFileDirectory == PathPart(full)
        && (fileName, fileExtension) == ImportParts(full)
        && (ok <==> IsBgeo(fileExtension))
      ensures ok ==> bakeRootFolder == NormalizeFolder(old(bakeRootFolder))
      ensures ok ==> outputFilename == (if old(outputFilename) == "" then fileName else old(outputFilename))
      ensures !ok ==> bakeRootFolder == old(bakeRootFolder) && outputFilename == old(outputFilename)
      ensures (ok, Paths()) == PathsAfter(old(Paths()), inFilePath, fileExists, full)
    {
      sourceFilePath := inFilePath;
      if !fileExists {
        return false;
      }
      absoluteFilePath := full;
      absoluteFileDirectory, fileName, fileExtension := SplitImportPath(full);
      if !StartsWithIgnoreCase(fileExtension, "bgeo") {
        return false;
      }
      bakeRootFolder := ReplaceAll(bakeRootFolder, "\\", "/");
      if !EndsWith(bakeRootFolder, "/") {
        bakeRootFolder := bakeRootFolder + "/";
      }
      if outputFilename == "" {
        outputFilename := fileName;
      }
      ok := true;
    }

    /**
     * `ImportBGEOFile`. `session` is whether a session could be started,
     * `fileExists` and `full` feed `SetFilePath`, `stepOk` says whether each
     * later step succeeds, `outputs` are the outputs the node yields and `root`
     * the objects in the root set before the call. Returns the verdict, the
     * steps attempted, in order up to the first that fails, and the root set
     * after the call.
     */
    method ImportBGEOFile(inFile: string, session: bool, fileExists: bool, full: string,
                          stepOk: ImportStep -> bool, outputs: set<nat>, root: set<nat>)
      returns (ok: bool, steps: seq<ImportStep>, rootAfter: set<nat>)
      modifies this
      ensures inFile == "" ==> !ok && steps == [] && rootAfter == root && unchanged(this)
      ensures inFile != "" ==>
        var failed := StepsPassed(session, PathsOk(fileExists, full), stepOk);
        && steps == ImportOrder[..if failed < |ImportOrder| then failed + 1 else failed]
        && (ok <==> failed == |ImportOrder|)
        && rootAfter == (if failed > 3 then root - outputs else root)
      ensures inFile != "" && !session ==> unchanged(this)
      ensures inFile != "" && session ==> Paths() == PathsAfter(old(Paths()), inFile, fileExists, full).1
    {
      steps, rootAfter := [], root;
      if inFile == "" {
        return false, steps, rootAfter;
      }
      ghost var pathsOk := PathsOk(fileExists, full);
      steps := ImportOrder[..1];
      if !session {
        return false, steps, rootAfter;
      }
      steps := ImportOrder[..2];
      var pathsSet := SetFilePath(inFile, fileExists, full);
      PathsAfterVerdict(old(Paths()), inFile, fileExists, full);
      if !pathsSet {
        return false, steps, rootAfter;
      }
      steps := ImportOrder[..3];
      if !stepOk(LoadFile) {
        return false, steps, rootAfter;
      }
      steps := ImportOrder[..4];
      if !stepOk(BuildOutputs) {
        return false, steps, rootAfter;
      }
      // From here the outputs are in the root set, and every exit takes them out.
      rootAfter := rootAfter + outputs;
      steps := ImportOrder[..5];
      if !stepOk(CreateMeshes) {
        return false, steps, rootAfter - outputs;
      }
      steps := ImportOrder[..6];
      if !stepOk(CreateLandscapes) {
        return false, steps, rootAfter - outputs;
      }
      steps := ImportOrder[..7];
      if !stepOk(CreateInstancers) {
        return false, steps, rootAfter - outputs;
      }
      steps := ImportOrder;
      if !stepOk(DeleteNode) {
        return false, steps, rootAfter - outputs;
      }
      return true, steps, rootAfter - outputs;
    }
  }

  /** The steps of `ImportBGEOFile`. */
  datatype ImportStep =
    | StartSession | UpdatePaths | LoadFile | BuildOutputs
    | CreateMeshes | CreateLandscapes | CreateInstancers | DeleteNode

  const ImportOrder: seq<ImportStep> :=
    [StartSession, UpdatePaths, LoadFile, BuildOutputs, CreateMeshes, CreateLandscapes, CreateInstancers, DeleteNode]

  /** `SetFilePath` succeeds. */
  predicate PathsOk(fileExists: bool, full: string)
  {
    fileExists && IsBgeo(ImportParts(full).1)
  }

  predicate Succeeds(s: ImportStep, session: bool, pathsOk: bool, stepOk: ImportStep -> bool)
  {
    match s
    case StartSession => session
    case UpdatePaths => pathsOk
    case _ => stepOk(s)
  }

  /** How many steps succeed before the first that fails. */
  function StepsPassed(session: bool, pathsOk: bool, stepOk: ImportStep -> bool): nat
  {
    if !session then 0
    else if !pathsOk then 1
    else if !stepOk(LoadFile) then 2
    else if !stepOk(BuildOutputs) then 3
    else if !stepOk(CreateMeshes) then 4
    else if !stepOk(CreateLandscapes) then 5
    else if !stepOk(CreateInstancers) then 6
    else if !stepOk(DeleteNode) then 7
    else 8
  }

  /** The index of the first step from `k` on that fails, or the number of steps. */
  function FirstFailure(session: bool, pathsOk: bool, stepOk: ImportStep -> bool, k: nat): (r: nat)
    requires k <= |ImportOrder|
    ensures k <= r <= |ImportOrder|
    decreases |ImportOrder| - k
  {
    if k == |ImportOrder| then k
    else if !Succeeds(ImportOrder[k], session, pathsOk, stepOk) then k
    else FirstFailure(session, pathsOk, stepOk, k + 1)
  }

  /** The steps `ImportBGEOFile` gets through are those before the first failure in
      the fixed order. */
  lemma StepsPassedIsFirstFailure(session: bool, pathsOk: bool, stepOk: ImportStep -> bool)
    ensures StepsPassed(session, pathsOk, stepOk) == FirstFailure(session, pathsOk, stepOk, 0)
  {
  }

  /** Every step before the first failure succeeds, and the failing one does not. */
  lemma {:induction false} FirstFailureSound(session: bool, pathsOk: bool, stepOk: ImportStep -> bool, k: nat)
    requires k <= |ImportOrder|
    ensures forall j :: k <= j < FirstFailure(session, pathsOk, stepOk, k) ==> Succeeds(ImportOrder[j], session, pathsOk, stepOk)
    ensures FirstFailure(session, pathsOk, stepOk, k) < |ImportOrder| ==>
      !Succeeds(ImportOrder[FirstFailure(session, pathsOk, stepOk, k)], session, pathsOk, stepOk)
    decreases |ImportOrder| - k
  {
    if k < |ImportOrder| && Succeeds(ImportOrder[k], session, pathsOk, stepOk) {
      FirstFailureSound(session, pathsOk, stepOk, k + 1);
    }
  }
}
