/** `RamItem` (ramses/ram_item.py): an asset, a shot or a general item of a project. The item derives
    its root folder, its asset group and its project short name, and writes each answer into a cache
    field. Then it scans its step and versions folders by decoding the names they list.

    The outside world is an `Env` value. It holds the current project, the folders that exist with
    the names they list, and the collaborators whose code is not modelled: `buildPath`,
    `decomposeRamsesFilePath`, `getSaveFilePath`, the sort key `_versionFilesSorter`, the assets
    folder name and `intToStr`. The daemon is taken to be offline, so the daemon updates do nothing. */
module Items {
  import opened Wrappers
  import opened Strings
  import opened Naming
  import opened NamingLemmas
  import opened Paths
  import FileManager

  datatype ItemType = General | Asset | Shot

  /** The type letter the codec writes for each kind of item. */
  function Letter(t: ItemType): string
  {
    match t
    case General => "G"
    case Asset => "A"
    case Shot => "S"
  }

  datatype ItemError =
    | RecursionError  // `folderPath` and `group` call each other without end
    | FolderNotFound  // `os.listdir` of a folder that does not exist

  /** The current project as the item sees it. */
  datatype Project = Project(shortName: string, shotsPath: string, assetsPath: string)

  datatype Env = Env(
    currentProject: Option<Project>,
    folders: map<string, seq<string>>,               // the folders that exist, with the names they list
    buildPath: seq<string> -> string,                // `RamFileManager.buildPath`
    decomposePath: string -> Option<FileNameInfo>,   // `RamFileManager.decomposeRamsesFilePath`
    saveFilePath: string -> string,                  // `RamFileManager.getSaveFilePath`
    assetsFolderName: string,                        // `FolderNames.assets`
    ps: PrefixList,                                  // the version prefixes of the name grammar
    intToStr: int -> string,
    sortKey: string -> int)                          // `RamFileManager._versionFilesSorter`

  /** `os.listdir` of a folder that `stepFolderPath` or `versionFolderPath` creates when it is missing:
      a new folder lists nothing. */
  function ListOrCreated(env: Env, folder: string): seq<string>
  {
    if folder in env.folders then env.folders[folder] else []
  }

  /** `os.listdir` of the step folder: a missing folder raises, unless `stepFolderPath` has just
      created it. */
  function ListDir(env: Env, folder: string, created: bool): Result<seq<string>, ItemError>
  {
    if folder in env.folders then Ok(env.folders[folder]) else if created then Ok([]) else Err(FolderNotFound)
  }

  /** `decomposeRamsesFileName` under the project's prefixes. */
  function Decode(env: Env): string -> Option<FileNameInfo>
  {
    FileManager.Decoder(env.ps)
  }

  // ---------------------------------------------------------------------------------------------
  // Item folder names

  /** The name of an item's root folder: project, type letter and item short name. */
  function ItemFolderName(project: string, t: ItemType, shortName: string): (r: string)
    ensures IsIdField(project) && IsIdField(shortName) ==> IsRamsesItemFolderName(r)
  {
    var r := project + "_" + Letter(t) + "_" + shortName;
    if IsIdField(project) && IsIdField(shortName) then
      ItemFolderNameRecognised(project, Letter(t), shortName);
      r
    else r
  }

  /** The item folder name as `folderPath` builds it: the item short name goes into the step slot of
      `buildRamsesFileName`, and the object slot stays empty. */
  function ItemFolderNameAsWritten(project: string, t: ItemType, shortName: string, intToStr: int -> string): string
  {
    RamsesFileName(project, shortName, "", Letter(t), "", "", -1, "v", intToStr)
  }

  /** For an asset the built folder name has an empty object block, which the item folder pattern
      rejects; the corrected name is recognised. */
  lemma AssetFolderNameAsWritten(intToStr: int -> string)
    ensures ItemFolderNameAsWritten("FPE", Asset, "TRI", intToStr) == "FPE_A__TRI"
    ensures !IsRamsesItemFolderName("FPE_A__TRI")
    ensures ItemFolderName("FPE", Asset, "TRI") == "FPE_A_TRI" && IsRamsesItemFolderName("FPE_A_TRI")
  {
    AssetFolderNameBuilt(intToStr);
    EmptyObjectRejected();
    assert IsIdField("FPE") && IsIdField("TRI");
  }

  lemma AssetFolderNameBuilt(intToStr: int -> string)
    ensures ItemFolderNameAsWritten("FPE", Asset, "TRI", intToStr) == "FPE_A__TRI"
  {
    assert FixResource("") == "";
    assert "FPE" + "_" + "A" + "_" + "" + "_" + "TRI" == "FPE_A__TRI";
  }

  lemma EmptyObjectRejected()
    ensures !IsRamsesItemFolderName("FPE_A__TRI")
  {
    var ts := ["FPE", "A", "", "TRI"];
    assert Join(ts, '_') == "FPE_A__TRI" by {
      JoinThree("A", "", "TRI", '_');
      assert ts[1..] == ["A", "", "TRI"];
    }
    assert NoneContains(ts, '_');
    SplitJoin(ts, '_');
    assert DropFinalNewline("FPE_A__TRI") == "FPE_A__TRI";
  }

  /** For a general item the built folder name is the corrected one. */
  lemma GeneralFolderNameAgrees(project: string, shortName: string, intToStr: int -> string)
    ensures ItemFolderNameAsWritten(project, General, shortName, intToStr) == ItemFolderName(project, General, shortName)
  {
    assert FixResource("") == "";
  }

  // ---------------------------------------------------------------------------------------------
  // The item and its cached answers

  /** An item's identity and its cache fields `_folderPath`, `_group`, `_project` (kept as the short
      name it reports) and `_projectShortName`. */
  datatype Item = Item(name: string, shortName: string, itemType: ItemType, folderPath: string, group: string,
                       project: Option<string>, projectShortName: string)

  /** `folderPath()`: the cached folder, else the folder built under the current project. An asset
      without a cached group asks `group()`, which asks `folderPath()` again, and so on without end. */
  function FolderPathOf(it: Item, env: Env): (Result<string, ItemError>, Item)
  {
    if it.folderPath != "" then (Ok(it.folderPath), it)
    else
      match env.currentProject
      case None => (Ok(""), it)
      case Some(p) =>
        var itemFolderName := ItemFolderName(p.shortName, it.itemType, it.shortName);
        match it.itemType
        case Shot =>
          var f := env.buildPath([p.shotsPath, itemFolderName]);
          (Ok(f), it.(folderPath := f))
        case Asset =>
          if it.group == "" then (Err(RecursionError), it)
          else
            var f := env.buildPath([p.assetsPath, it.group, itemFolderName]);
            (Ok(f), it.(folderPath := f))
        case General => (Ok(""), it)
  }

  /** `group()`: empty for anything but an asset; else the cached group, or the name of the folder
      above the item folder unless that is the assets folder. */
  function GroupOf(it: Item, env: Env): (Result<string, ItemError>, Item)
  {
    if it.itemType != Asset then (Ok(""), it)
    else if it.group != "" then (Ok(it.group), it)
    else
      match FolderPathOf(it, env)
      case (Err(e), it1) => (Err(e), it1)
      case (Ok(f), it1) =>
        if f !in env.folders then (Ok(it1.group), it1)
        else
          var parentFolderName := Basename(Dirname(f));
          var g := if parentFolderName != env.assetsFolderName then parentFolderName else "";
          (Ok(g), it1.(group := g))
  }

  /** `projectShortName()`: the cached short name, else that of the cached project, else the project
      block of the item folder. */
  function ProjectShortNameOf(it: Item, env: Env): (Result<string, ItemError>, Item)
  {
    if it.projectShortName != "" then (Ok(it.projectShortName), it)
    else if it.project.Some? then (Ok(it.project.value), it.(projectShortName := it.project.value))
    else
      match FolderPathOf(it, env)
      case (Err(e), it1) => (Err(e), it1)
      case (Ok(f), it1) =>
        if f == "" then (Ok(it1.projectShortName), it1)
        else
          match env.decomposePath(f)
          case None => (Ok(it1.projectShortName), it1)
          case Some(info) => (Ok(info.project), it1.(projectShortName := info.project))
  }

  /** Whether `stepFolderPath` answers with the item folder itself rather than a step subfolder. */
  predicate StaysInItemFolder(it: Item, step: string, folder: string)
  {
    folder == "" || step == "" || it.itemType == General
  }

  /** `stepFolderPath(step)`: the item folder for a general item, an empty step or an empty folder;
      else its step subfolder, named like a file of that step. */
  function StepFolderPathOf(it: Item, step: string, env: Env): (Result<string, ItemError>, Item)
  {
    match FolderPathOf(it, env)
    case (Err(e), it1) => (Err(e), it1)
    case (Ok(f), it1) =>
      if StaysInItemFolder(it1, step, f) then (Ok(f), it1)
      else
        match ProjectShortNameOf(it1, env)
        case (Err(e), it2) => (Err(e), it2)
        case (Ok(p), it2) =>
          var stepFolderName := RamsesFileName(p, step, "", Letter(it.itemType), it.shortName, "", -1, "v", env.intToStr);
          (Ok(env.buildPath([f, stepFolderName])), it2)
  }

  /** `versionFolderPath(step)`: the `_versions` folder inside the step folder. */
  function VersionFolderPathOf(it: Item, step: string, env: Env): (Result<string, ItemError>, Item)
  {
    match StepFolderPathOf(it, step, env)
    case (Err(e), it1) => (Err(e), it1)
    case (Ok(s), it1) =>
      if s == "" then (Ok(""), it1) else (Ok(env.buildPath([s, VersionsFolderName])), it1)
  }

  // ---------------------------------------------------------------------------------------------
  // Scans of a listing

  /** The filter of `latestVersion` and `latestVersionFilePath`: a name that decodes, of the step
      (any step when it is empty), of the resource and of the state (any state when it is empty). */
  predicate Candidate(file: string, resource: string, state: string, step: string,
                      decode: string -> Option<FileNameInfo>)
  {
    && decode(file).Some?
    && (decode(file).value.step == step || step == "")
    && decode(file).value.resource == resource
    && (decode(file).value.state == state || state == "")
  }

  function VersionOf(file: string, decode: string -> Option<FileNameInfo>): int
    requires decode(file).Some?
  {
    decode(file).value.version
  }

  /** The scan of `latestVersionFilePath`, whose version half is the scan of `latestVersion`: the
      highest version above -1 among the candidates, and the index of the first candidate that
      reaches it. */
  function LatestIn(files: seq<string>, resource: string, state: string, step: string,
                    decode: string -> Option<FileNameInfo>): (int, Option<nat>)
  {
    if files == [] then (-1, None)
    else
      var prev := LatestIn(files[..|files| - 1], resource, state, step, decode);
      var file := files[|files| - 1];
      if Candidate(file, resource, state, step, decode) && VersionOf(file, decode) > prev.0
      then (VersionOf(file, decode), Some(|files| - 1))
      else prev
  }

  /** The path `latestVersionFilePath` answers for an index found by the scan. */
  function PathAt(folder: string, files: seq<string>, found: Option<nat>, buildPath: seq<string> -> string): string
  {
    if found.Some? && found.value < |files| then buildPath([folder, files[found.value]]) else ""
  }

  /** A filtered listing: the paths of the names that decode to blocks `keep` accepts, in listing
      order. */
  function FilesIn(files: seq<string>, folder: string, keep: FileNameInfo -> bool,
                   decode: string -> Option<FileNameInfo>, buildPath: seq<string> -> string): seq<string>
  {
    if files == [] then []
    else
      var prev := FilesIn(files[..|files| - 1], folder, keep, decode, buildPath);
      var file := files[|files| - 1];
      if decode(file).Some? && keep(decode(file).value) then prev + [buildPath([folder, file])] else prev
  }

  /** The filter of `versionFilePaths`: project, type and resource; then the step for a general item,
      the step and the object for the others. */
  predicate KeepsVersionFile(info: FileNameInfo, pShortName: string, t: ItemType, shortName: string,
                             resource: string, step: string)
  {
    && info.project == pShortName
    && info.ramType == Some(Letter(t))
    && (if t == General then info.step == shortName else info.step == step && info.objectShortName == shortName)
    && info.resource == resource
  }

  /** The filter of `stepFilePaths`: project, step, object and type. */
  predicate KeepsStepFile(info: FileNameInfo, pShortName: string, t: ItemType, shortName: string, step: string)
  {
    info.project == pShortName && info.step == step && info.objectShortName == shortName
    && info.ramType == Some(Letter(t))
  }

  predicate SortedBy(s: seq<string>, key: string -> int)
  {
    forall i, j :: 0 <= i < j < |s| ==> key(s[i]) <= key(s[j])
  }

  /** `x` placed before the first element whose key is not below its own. */
  function InsertByKey(x: string, s: seq<string>, key: string -> int): (r: seq<string>)
    ensures multiset(r) == multiset(s) + multiset{x}
    ensures |r| == |s| + 1 && (r[0] == x || (s != [] && r[0] == s[0]))
    ensures SortedBy(s, key) ==> SortedBy(r, key)
  {
    if s == [] then [x]
    else if key(x) <= key(s[0]) then [x] + s
    else
      var rest := InsertByKey(x, s[1..], key);
      assert s == [s[0]] + s[1..];
      [s[0]] + rest
  }

  /** `list.sort(key=...)`: a stable insertion sort by key. */
  function SortByKey(s: seq<string>, key: string -> int): (r: seq<string>)
    ensures SortedBy(r, key)
    ensures multiset(r) == multiset(s)
  {
    if s == [] then []
    else
      assert s == [s[0]] + s[1..];
      InsertByKey(s[0], SortByKey(s[1..], key), key)
  }

  // ---------------------------------------------------------------------------------------------
  // The answers of the scanning operations

  /** `latestVersion(resource, state, step)`. */
  function LatestVersionOf(it: Item, resource: string, state: string, step: string, env: Env)
    : (Result<int, ItemError>, Item)
  {
    match VersionFolderPathOf(it, step, env)
    case (Err(e), it1) => (Err(e), it1)
    case (Ok(vf), it1) =>
      if vf == "" then (Ok(-1), it1)
      else (Ok(LatestIn(ListOrCreated(env, vf), resource, state, step, Decode(env)).0), it1)
  }

  /** `latestVersionFilePath(resource, state, step)`. */
  function LatestVersionFilePathOf(it: Item, resource: string, state: string, step: string, env: Env)
    : (Result<string, ItemError>, Item)
  {
    match VersionFolderPathOf(it, step, env)
    case (Err(e), it1) => (Err(e), it1)
    case (Ok(vf), it1) =>
      if vf == "" then (Ok(""), it1)
      else
        var files := ListOrCreated(env, vf);
        (Ok(PathAt(vf, files, LatestIn(files, resource, state, step, Decode(env)).1, env.buildPath)), it1)
  }

  /** What `versionFilePaths` returns: the empty string when there is no versions folder, else a list. */
  datatype VersionFiles = NoVersionFolder | Files(paths: seq<string>)

  /** `versionFilePaths(resource, step)`. */
  function VersionFilePathsOf(it: Item, resource: string, step: string, env: Env): (Result<VersionFiles, ItemError>, Item)
  {
    match VersionFolderPathOf(it, step, env)
    case (Err(e), it1) => (Err(e), it1)
    case (Ok(vf), it1) =>
      if vf == "" then (Ok(NoVersionFolder), it1)
      else
        match ProjectShortNameOf(it1, env)
        case (Err(e), it2) => (Err(e), it2)
        case (Ok(p), it2) =>
          if p == "" then (Ok(Files([])), it2)
          else
            var keep := (info: FileNameInfo) => KeepsVersionFile(info, p, it.itemType, it.shortName, resource, step);
            (Ok(Files(SortByKey(FilesIn(ListOrCreated(env, vf), vf, keep, Decode(env), env.buildPath), env.sortKey))), it2)
  }

  /** `stepFilePaths(step)`. */
  function StepFilePathsOf(it: Item, step: string, env: Env): (Result<seq<string>, ItemError>, Item)
  {
    match StepFolderPathOf(it, step, env)
    case (Err(e), it1) => (Err(e), it1)
    case (Ok(sf), it1) =>
      if sf == "" then (Ok([]), it1)
      else
        match ProjectShortNameOf(it1, env)
        case (Err(e), it2) => (Err(e), it2)
        case (Ok(p), it2) =>
          if p == "" then (Ok([]), it2)
          else
            match ListDir(env, sf, it.itemType != General && step != "")
            case Err(e) => (Err(e), it2)
            case Ok(listing) =>
              var keep := (info: FileNameInfo) => KeepsStepFile(info, p, it.itemType, it.shortName, step);
              (Ok(FilesIn(listing, sf, keep, Decode(env), env.buildPath)), it2)
  }

  // ---------------------------------------------------------------------------------------------
  // The loops

  lemma LatestStep(files: seq<string>, i: nat, resource: string, state: string, step: string,
                   decode: string -> Option<FileNameInfo>)
    requires i < |files|
    ensures var prev := LatestIn(files[..i], resource, state, step, decode);
            LatestIn(files[..i + 1], resource, state, step, decode)
            == if Candidate(files[i], resource, state, step, decode) && VersionOf(files[i], decode) > prev.0
               then (VersionOf(files[i], decode), Some(i)) else prev
  {
    assert files[..i + 1][..i] == files[..i];
  }

  lemma FilesStep(files: seq<string>, i: nat, folder: string, keep: FileNameInfo -> bool,
                  decode: string -> Option<FileNameInfo>, buildPath: seq<string> -> string)
    requires i < |files|
    ensures FilesIn(files[..i + 1], folder, keep, decode, buildPath)
         == FilesIn(files[..i], folder, keep, decode, buildPath)
            + if decode(files[i]).Some? && keep(decode(files[i]).value) then [buildPath([folder, files[i]])] else []
  {
    assert files[..i + 1][..i] == files[..i];
  }

  /** The index the scan finds lies in the listing. */
  lemma {:induction false} LatestIndexInRange(files: seq<string>, resource: string, state: string, step: string,
                                             decode: string -> Option<FileNameInfo>)
    ensures LatestIn(files, resource, state, step, decode).1.Some? ==>
              LatestIn(files, resource, state, step, decode).1.value < |files|
  {
    if files != [] {
      LatestIndexInRange(files[..|files| - 1], resource, state, step, decode);
    }
  }

  /** The loop of `latestVersion`. */
  method ScanLatestVersion(files: seq<string>, resource: string, state: string, step: string,
                           decode: string -> Option<FileNameInfo>) returns (highestVersion: int)
    ensures highestVersion == LatestIn(files, resource, state, step, decode).0
  {
    highestVersion := -1;
    for i := 0 to |files|
      invariant highestVersion == LatestIn(files[..i], resource, state, step, decode).0
    {
      LatestStep(files, i, resource, state, step, decode);
      var fileInfo := decode(files[i]);
      if fileInfo.None? {
        continue;
      }
      if fileInfo.value.step != step && step != "" {
        continue;
      }
      if fileInfo.value.resource == resource {
        if fileInfo.value.state == state || state == "" {
          if fileInfo.value.version > highestVersion {
            highestVersion := fileInfo.value.version;
          }
        }
      }
    }
    assert files[..|files|] == files;
  }

  /** The loop of `latestVersionFilePath`. */
  method ScanLatestVersionFile(files: seq<string>, folder: string, resource: string, state: string, step: string,
                               decode: string -> Option<FileNameInfo>, buildPath: seq<string> -> string)
    returns (versionFile: string)
    ensures versionFile == PathAt(folder, files, LatestIn(files, resource, state, step, decode).1, buildPath)
  {
    versionFile := "";
    var highestVersion := -1;
    for i := 0 to |files|
      invariant highestVersion == LatestIn(files[..i], resource, state, step, decode).0
      invariant versionFile == PathAt(folder, files, LatestIn(files[..i], resource, state, step, decode).1, buildPath)
    {
      LatestStep(files, i, resource, state, step, decode);
      LatestIndexInRange(files[..i], resource, state, step, decode);
      var file := files[i];
      var fileInfo := decode(file);
      if fileInfo.None? {
        continue;
      }
      if fileInfo.value.step != step && step != "" {
        continue;
      }
      if fileInfo.value.resource == resource {
        if fileInfo.value.state == state || state == "" {
          if fileInfo.value.version > highestVersion {
            highestVersion := fileInfo.value.version;
            versionFile := buildPath([folder, file]);
          }
        }
      }
    }
    assert files[..|files|] == files;
  }

  /** The loop of `versionFilePaths`, before the sort. */
  method ScanVersionFiles(files: seq<string>, folder: string, pShortName: string, itemType: ItemType, shortName: string,
                          resource: string, step: string, decode: string -> Option<FileNameInfo>,
                          buildPath: seq<string> -> string) returns (paths: seq<string>)
    ensures paths == FilesIn(files, folder, (info: FileNameInfo) => KeepsVersionFile(info, pShortName, itemType, shortName, resource, step),
                             decode, buildPath)
  {
    ghost var keep := (info: FileNameInfo) => KeepsVersionFile(info, pShortName, itemType, shortName, resource, step);
    paths := [];
    for i := 0 to |files|
      invariant paths == FilesIn(files[..i], folder, keep, decode, buildPath)
    {
      FilesStep(files, i, folder, keep, decode, buildPath);
      var file := files[i];
      var fileInfo := decode(file);
      if fileInfo.None? {
        continue;
      }
      if fileInfo.value.project != pShortName {
        continue;
      }
      if fileInfo.value.ramType != Some(Letter(itemType)) {
        continue;
      }
      if itemType == General {
        if fileInfo.value.step != shortName {
          continue;
        }
      } else {
        if fileInfo.value.step != step || fileInfo.value.objectShortName != shortName {
          continue;
        }
      }
      if fileInfo.value.resource == resource {
        paths := paths + [buildPath([folder, file])];
      }
    }
    assert files[..|files|] == files;
  }

  /** The loop of `stepFilePaths`. */
  method ScanStepFiles(files: seq<string>, folder: string, pShortName: string, itemType: ItemType, shortName: string,
                       step: string, decode: string -> Option<FileNameInfo>, buildPath: seq<string> -> string)
    returns (paths: seq<string>)
    ensures paths == FilesIn(files, folder, (info: FileNameInfo) => KeepsStepFile(info, pShortName, itemType, shortName, step),
                             decode, buildPath)
  {
    ghost var keep := (info: FileNameInfo) => KeepsStepFile(info, pShortName, itemType, shortName, step);
    paths := [];
    for i := 0 to |files|
      invariant paths == FilesIn(files[..i], folder, keep, decode, buildPath)
    {
      FilesStep(files, i, folder, keep, decode, buildPath);
      var file := files[i];
      var fileInfo := decode(file);
      if fileInfo.None? {
        continue;
      }
      if fileInfo.value.project != pShortName || fileInfo.value.step != step
         || fileInfo.value.objectShortName != shortName || fileInfo.value.ramType != Some(Letter(itemType)) {
        continue;
      }
      paths := paths + [buildPath([folder, file])];
    }
    assert files[..|files|] == files;
  }

  // ---------------------------------------------------------------------------------------------
  // The item object

  class RamItem {
    const name: string
    const shortName: string
    const itemType: ItemType
    var folderPath: string
    var group: string
    var project: Option<string>
    var projectShortName: string

    /** The item's identity and caches as one value. */
    function View(): Item
      reads this
    {
      Item(name, shortName, itemType, folderPath, group, project, projectShortName)
    }

    constructor(itemName: string, itemShortName: string, itemFolder: string, itemType: ItemType, assetGroup: string)
      ensures View() == Item(itemName, itemShortName, itemType, itemFolder, assetGroup, None, "")
    {
      name := itemName;
      shortName := itemShortName;
      this.itemType := itemType;
      folderPath := itemFolder;
      group := assetGroup;
      project := None;
      projectShortName := "";
    }

    method FolderPath(env: Env) returns (r: Result<string, ItemError>)
      modifies this
      ensures (r, View()) == FolderPathOf(old(View()), env)
    {
      if folderPath != "" {
        return Ok(folderPath);
      }
      if env.currentProject.None? {
        return Ok("");
      }
      var current := env.currentProject.value;
      var itemFolderName := ItemFolderName(current.shortName, itemType, shortName);
      if itemType == Shot {
        folderPath := env.buildPath([current.shotsPath, itemFolderName]);
        return Ok(folderPath);
      }
      if itemType == Asset {
        if group == "" {
          return Err(RecursionError);
        }
        folderPath := env.buildPath([current.assetsPath, group, itemFolderName]);
        return Ok(folderPath);
      }
      return Ok("");
    }

    method Group(env: Env) returns (r: Result<string, ItemError>)
      modifies this
      ensures (r, View()) == GroupOf(old(View()), env)
    {
      if itemType != Asset {
        return Ok("");
      }
      if group != "" {
        return Ok(group);
      }
      var folder :- FolderPath(env);
      if folder !in env.folders {
        return Ok(group);
      }
      var parentFolderName := Basename(Dirname(folder));
      if parentFolderName != env.assetsFolderName {
        group := parentFolderName;
      } else {
        group := "";
      }
      return Ok(group);
    }

    method ProjectShortName(env: Env) returns (r: Result<string, ItemError>)
      modifies this
      ensures (r, View()) == ProjectShortNameOf(old(View()), env)
    {
      if projectShortName != "" {
        return Ok(projectShortName);
      }
      if project.Some? {
        projectShortName := project.value;
        return Ok(projectShortName);
      }
      var folder :- FolderPath(env);
      if folder == "" {
        return Ok(projectShortName);
      }
      var folderInfo := env.decomposePath(folder);
      if folderInfo.None? {
        return Ok(projectShortName);
      }
      projectShortName := folderInfo.value.project;
      return Ok(projectShortName);
    }

    method StepFolderPath(step: string, env: Env) returns (r: Result<string, ItemError>)
      modifies this
      ensures (r, View()) == StepFolderPathOf(old(View()), step, env)
    {
      var folder :- FolderPath(env);
      if folder == "" || step == "" || itemType == General {
        return Ok(folder);
      }
      var pShortName :- ProjectShortName(env);
      var stepFolderName := RamsesFileName(pShortName, step, "", Letter(itemType), shortName, "", -1, "v", env.intToStr);
      return Ok(env.buildPath([folder, stepFolderName]));
    }

    method VersionFolderPath(step: string, env: Env) returns (r: Result<string, ItemError>)
      modifies this
      ensures (r, View()) == VersionFolderPathOf(old(View()), step, env)
    {
      var stepFolder :- StepFolderPath(step, env);
      if stepFolder == "" {
        return Ok("");
      }
      return Ok(env.buildPath([stepFolder, VersionsFolderName]));
    }

    method LatestVersion(resource: string, state: string, step: string, env: Env) returns (r: Result<int, ItemError>)
      modifies this
      ensures (r, View()) == LatestVersionOf(old(View()), resource, state, step, env)
    {
      var versionFolder :- VersionFolderPath(step, env);
      if versionFolder == "" {
        return Ok(-1);
      }
      var highestVersion := ScanLatestVersion(ListOrCreated(env, versionFolder), resource, state, step, Decode(env));
      return Ok(highestVersion);
    }

    method LatestVersionFilePath(resource: string, state: string, step: string, env: Env)
      returns (r: Result<string, ItemError>)
      modifies this
      ensures (r, View()) == LatestVersionFilePathOf(old(View()), resource, state, step, env)
    {
      var versionFolderPath :- VersionFolderPath(step, env);
      if versionFolderPath == "" {
        return Ok("");
      }
      var versionFile := ScanLatestVersionFile(ListOrCreated(env, versionFolderPath), versionFolderPath, resource, state,
                                               step, Decode(env), env.buildPath);
      return Ok(versionFile);
    }

    method VersionFilePaths(resource: string, step: string, env: Env) returns (r: Result<VersionFiles, ItemError>)
      modifies this
      ensures (r, View()) == VersionFilePathsOf(old(View()), resource, step, env)
    {
      var versionFolderPath :- VersionFolderPath(step, env);
      if versionFolderPath == "" {
        return Ok(NoVersionFolder);
      }
      var pShortName :- ProjectShortName(env);
      if pShortName == "" {
        return Ok(Files([]));
      }
      var files := ScanVersionFiles(ListOrCreated(env, versionFolderPath), versionFolderPath, pShortName, itemType,
                                    shortName, resource, step, Decode(env), env.buildPath);
      return Ok(Files(SortByKey(files, env.sortKey)));
    }

    method StepFilePaths(step: string, env: Env) returns (r: Result<seq<string>, ItemError>)
      modifies this
      ensures (r, View()) == StepFilePathsOf(old(View()), step, env)
    {
      var stepFolder :- StepFolderPath(step, env);
      if stepFolder == "" {
        return Ok([]);
      }
      var pShortName :- ProjectShortName(env);
      if pShortName == "" {
        return Ok([]);
      }
      var listing :- ListDir(env, stepFolder, itemType != General && step != "");
      var files := ScanStepFiles(listing, stepFolder, pShortName, itemType, shortName, step, Decode(env), env.buildPath);
      return Ok(files);
    }
  }

  // ---------------------------------------------------------------------------------------------
  // What the scans find

  /** The latest-version scan finds the highest version among the candidates, or -1 when none is above
      -1, and the first listed candidate that reaches it (a later tie does not replace it). */
  lemma {:induction false} LatestInIsFirstMaximum(files: seq<string>, resource: string, state: string, step: string,
                                                 decode: string -> Option<FileNameInfo>)
    ensures LatestIn(files, resource, state, step, decode).0 >= -1
    ensures forall k :: 0 <= k < |files| && Candidate(files[k], resource, state, step, decode) ==>
              VersionOf(files[k], decode) <= LatestIn(files, resource, state, step, decode).0
    ensures LatestIn(files, resource, state, step, decode).1.None? <==> LatestIn(files, resource, state, step, decode).0 == -1
    ensures var r := LatestIn(files, resource, state, step, decode);
            r.1.Some? ==>
              && r.1.value < |files|
              && Candidate(files[r.1.value], resource, state, step, decode)
              && VersionOf(files[r.1.value], decode) == r.0
              && forall k :: 0 <= k < r.1.value && Candidate(files[k], resource, state, step, decode) ==>
                   VersionOf(files[k], decode) < r.0
  {
    if files != [] {
      var init := files[..|files| - 1];
      LatestInIsFirstMaximum(init, resource, state, step, decode);
      assert forall k :: 0 <= k < |init| ==> files[k] == init[k];
    }
  }

  /** The indices of the listed names that decode to a block `keep` accepts, in increasing order. */
  function KeptIndices(files: seq<string>, keep: FileNameInfo -> bool, decode: string -> Option<FileNameInfo>)
    : (r: seq<nat>)
    ensures forall j :: 0 <= j < |r| ==> r[j] < |files|
    ensures forall i, j :: 0 <= i < j < |r| ==> r[i] < r[j]
    ensures forall k :: k in r <==> 0 <= k < |files| && decode(files[k]).Some? && keep(decode(files[k]).value)
  {
    if files == [] then []
    else
      var init := files[..|files| - 1];
      var prev := KeptIndices(init, keep, decode);
      assert forall k :: 0 <= k < |init| ==> files[k] == init[k];
      var last := |files| - 1;
      if decode(files[last]).Some? && keep(decode(files[last]).value) then prev + [last] else prev
  }

  /** A filtered listing holds the path of every kept name and nothing else, in listing order. */
  lemma {:induction false} FilesInFollowsListing(files: seq<string>, folder: string, keep: FileNameInfo -> bool,
                                                decode: string -> Option<FileNameInfo>, buildPath: seq<string> -> string)
    ensures |FilesIn(files, folder, keep, decode, buildPath)| == |KeptIndices(files, keep, decode)| <= |files|
    ensures forall j :: 0 <= j < |FilesIn(files, folder, keep, decode, buildPath)| ==>
              FilesIn(files, folder, keep, decode, buildPath)[j]
              == buildPath([folder, files[KeptIndices(files, keep, decode)[j]]])
  {
    if files != [] {
      var init := files[..|files| - 1];
      FilesInFollowsListing(init, folder, keep, decode, buildPath);
      assert forall k :: 0 <= k < |init| ==> files[k] == init[k];
      var ki := KeptIndices(files, keep, decode);
      if ki != [] {
        IncreasingAtLeastIndex(ki, |ki| - 1);
      }
    }
  }

  lemma {:induction false} IncreasingAtLeastIndex(s: seq<nat>, j: nat)
    requires forall a, b :: 0 <= a < b < |s| ==> s[a] < s[b]
    requires j < |s|
    ensures s[j] >= j
  {
    if j > 0 {
      IncreasingAtLeastIndex(s, j - 1);
    }
  }

  /** Membership in a filtered listing, both ways. */
  lemma FilesInExactly(files: seq<string>, folder: string, keep: FileNameInfo -> bool,
                       decode: string -> Option<FileNameInfo>, buildPath: seq<string> -> string)
    ensures forall q :: q in FilesIn(files, folder, keep, decode, buildPath) <==>
              exists k :: 0 <= k < |files| && decode(files[k]).Some? && keep(decode(files[k]).value)
                          && q == buildPath([folder, files[k]])
  {
    FilesInFollowsListing(files, folder, keep, decode, buildPath);
    var r := FilesIn(files, folder, keep, decode, buildPath);
    var ki := KeptIndices(files, keep, decode);
    forall q | q in r
      ensures exists k :: 0 <= k < |files| && decode(files[k]).Some? && keep(decode(files[k]).value)
                          && q == buildPath([folder, files[k]])
    {
      var j :| 0 <= j < |r| && r[j] == q;
      assert ki[j] in ki;
    }
    forall k | 0 <= k < |files| && decode(files[k]).Some? && keep(decode(files[k]).value)
      ensures buildPath([folder, files[k]]) in r
    {
      var j :| 0 <= j < |ki| && ki[j] == k;
      assert r[j] == buildPath([folder, files[k]]);
    }
  }

  // ---------------------------------------------------------------------------------------------
  // The answers, end to end

  /** `buildPath` never answers the empty string. */
  ghost predicate NeverEmpty(buildPath: seq<string> -> string)
  {
    forall parts :: buildPath(parts) != ""
  }

  /** `latestVersion` and `latestVersionFilePath` agree: they leave the item in the same state, fail
      together, report "nothing" together (-1 and ""), and a path found names a listed candidate whose
      version is the latest version. */
  lemma LatestVersionAgrees(it: Item, resource: string, state: string, step: string, env: Env)
    requires NeverEmpty(env.buildPath)
    ensures LatestVersionOf(it, resource, state, step, env).1 == LatestVersionFilePathOf(it, resource, state, step, env).1
    ensures LatestVersionOf(it, resource, state, step, env).0.Err? <==> LatestVersionFilePathOf(it, resource, state, step, env).0.Err?
    ensures LatestVersionOf(it, resource, state, step, env).0 == Ok(-1)
            <==> LatestVersionFilePathOf(it, resource, state, step, env).0 == Ok("")
    ensures var v := LatestVersionOf(it, resource, state, step, env).0;
            var p := LatestVersionFilePathOf(it, resource, state, step, env).0;
            var vf := VersionFolderPathOf(it, step, env).0;
            p.Ok? && p.value != "" ==>
              v.Ok? && vf.Ok? &&
              exists name :: name in ListOrCreated(env, vf.value) && Candidate(name, resource, state, step, Decode(env))
                             && VersionOf(name, Decode(env)) == v.value && p.value == env.buildPath([vf.value, name])
  {
    var (vr, _) := VersionFolderPathOf(it, step, env);
    if vr.Ok? && vr.value != "" {
      var files := ListOrCreated(env, vr.value);
      LatestInIsFirstMaximum(files, resource, state, step, Decode(env));
      var found := LatestIn(files, resource, state, step, Decode(env)).1;
      if found.Some? {
        assert files[found.value] in files;
      }
    }
  }

  /** The kept files by name rather than by position in the listing. */
  lemma FilesInByName(files: seq<string>, folder: string, keep: FileNameInfo -> bool,
                      decode: string -> Option<FileNameInfo>, buildPath: seq<string> -> string)
    ensures forall q :: q in FilesIn(files, folder, keep, decode, buildPath) <==>
              exists name :: name in files && decode(name).Some? && keep(decode(name).value)
                             && q == buildPath([folder, name])
  {
    var listed := FilesIn(files, folder, keep, decode, buildPath);
    FilesInExactly(files, folder, keep, decode, buildPath);
    forall q | q in listed
      ensures exists name :: name in files && decode(name).Some? && keep(decode(name).value)
                             && q == buildPath([folder, name])
    {
      var k :| 0 <= k < |files| && decode(files[k]).Some? && keep(decode(files[k]).value)
               && q == buildPath([folder, files[k]]);
      assert files[k] in files;
    }
    forall name | name in files && decode(name).Some? && keep(decode(name).value)
      ensures buildPath([folder, name]) in listed
    {
      var k :| 0 <= k < |files| && files[k] == name;
    }
  }

  /** Sorting keeps the kept files, and only them. */
  lemma SortedFilesInByName(files: seq<string>, folder: string, keep: FileNameInfo -> bool,
                            decode: string -> Option<FileNameInfo>, buildPath: seq<string> -> string,
                            key: string -> int)
    ensures forall q :: q in SortByKey(FilesIn(files, folder, keep, decode, buildPath), key) <==>
              exists name :: name in files && decode(name).Some? && keep(decode(name).value)
                             && q == buildPath([folder, name])
  {
    var listed := FilesIn(files, folder, keep, decode, buildPath);
    FilesInByName(files, folder, keep, decode, buildPath);
    var sorted := SortByKey(listed, key);
    forall q ensures q in sorted <==> q in listed {
      assert q in sorted <==> q in multiset(sorted);
      assert q in listed <==> q in multiset(listed);
    }
  }

  /** `versionFilePaths`: the empty string exactly when there is no versions folder, an empty list
      without a project short name, else the listed files of the item and resource, sorted by the key. */
  lemma VersionFilePathsExactly(it: Item, resource: string, step: string, env: Env)
    ensures VersionFilePathsOf(it, resource, step, env).0 == Ok(NoVersionFolder)
            <==> VersionFolderPathOf(it, step, env).0 == Ok("")
    ensures var r := VersionFilePathsOf(it, resource, step, env).0;
            var (vr, it1) := VersionFolderPathOf(it, step, env);
            r.Ok? && r.value.Files? ==>
              && vr.Ok? && vr.value != "" && ProjectShortNameOf(it1, env).0.Ok?
              && var p := ProjectShortNameOf(it1, env).0.value;
                 && (p == "" ==> r.value.paths == [])
                 && SortedBy(r.value.paths, env.sortKey)
                 && forall q :: q in r.value.paths <==>
                      p != "" &&
                      exists name :: name in ListOrCreated(env, vr.value) && Decode(env)(name).Some?
                                     && KeepsVersionFile(Decode(env)(name).value, p, it.itemType, it.shortName, resource, step)
                                     && q == env.buildPath([vr.value, name])
  {
    var (vr, it1) := VersionFolderPathOf(it, step, env);
    if vr.Ok? && vr.value != "" && ProjectShortNameOf(it1, env).0.Ok? && ProjectShortNameOf(it1, env).0.value != "" {
      var p := ProjectShortNameOf(it1, env).0.value;
      var keep := (info: FileNameInfo) => KeepsVersionFile(info, p, it.itemType, it.shortName, resource, step);
      SortedFilesInByName(ListOrCreated(env, vr.value), vr.value, keep, Decode(env), env.buildPath, env.sortKey);
    }
  }

  /** `stepFilePaths`: it fails on a missing step folder only when `stepFolderPath` answers the item
      folder itself; otherwise it lists, exactly, the step files of the item in that folder. */
  lemma StepFilePathsExactly(it: Item, step: string, env: Env)
    ensures var r := StepFilePathsOf(it, step, env).0;
            var (sr, it1) := StepFolderPathOf(it, step, env);
            var pr := ProjectShortNameOf(it1, env).0;
            r == Err(FolderNotFound) <==>
              sr.Ok? && sr.value != "" && pr.Ok? && pr.value != "" && sr.value !in env.folders
              && (it.itemType == General || step == "")
    ensures var r := StepFilePathsOf(it, step, env).0;
            var (sr, it1) := StepFolderPathOf(it, step, env);
            var pr := ProjectShortNameOf(it1, env).0;
            r.Ok? ==>
              forall q :: q in r.value <==>
                sr.Ok? && sr.value != "" && pr.Ok? && pr.value != "" &&
                exists name :: name in ListOrCreated(env, sr.value) && Decode(env)(name).Some?
                               && KeepsStepFile(Decode(env)(name).value, pr.value, it.itemType, it.shortName, step)
                               && q == env.buildPath([sr.value, name])
  {
    var (sr, it1) := StepFolderPathOf(it, step, env);
    if sr.Ok? && sr.value != "" && ProjectShortNameOf(it1, env).0.Ok? && ProjectShortNameOf(it1, env).0.value != "" {
      var p := ProjectShortNameOf(it1, env).0.value;
      var keep := (info: FileNameInfo) => KeepsStepFile(info, p, it.itemType, it.shortName, step);
      FilesInByName(ListOrCreated(env, sr.value), sr.value, keep, Decode(env), env.buildPath);
    }
  }

  // ---------------------------------------------------------------------------------------------
  // The caches

  /** What an operation keeps of an item: its identity, its project, and every cache once set. */
  predicate KeepsCaches(it: Item, it1: Item)
  {
    && it1.name == it.name && it1.shortName == it.shortName && it1.itemType == it.itemType
    && it1.project == it.project
    && (it.folderPath != "" ==> it1.folderPath == it.folderPath)
    && (it.group != "" ==> it1.group == it.group)
    && (it.projectShortName != "" ==> it1.projectShortName == it.projectShortName)
  }

  lemma {:induction false} KeepsCachesTransitive(a: Item, b: Item, c: Item)
    requires KeepsCaches(a, b) && KeepsCaches(b, c)
    ensures KeepsCaches(a, c)
  {
  }

  /** No cache-deriving operation changes the item's identity or overwrites a cache already set. */
  lemma DerivationsKeepCaches(it: Item, step: string, env: Env)
    ensures KeepsCaches(it, FolderPathOf(it, env).1)
    ensures KeepsCaches(it, GroupOf(it, env).1)
    ensures KeepsCaches(it, ProjectShortNameOf(it, env).1)
    ensures KeepsCaches(it, StepFolderPathOf(it, step, env).1)
    ensures KeepsCaches(it, VersionFolderPathOf(it, step, env).1)
  {
    var it1 := FolderPathOf(it, env).1;
    assert KeepsCaches(it, it1);
    assert KeepsCaches(it1, ProjectShortNameOf(it1, env).1);
    KeepsCachesTransitive(it, it1, ProjectShortNameOf(it1, env).1);
  }

  /** No scan changes the item's identity or overwrites a cache already set. */
  lemma ScansKeepCaches(it: Item, resource: string, state: string, step: string, env: Env)
    ensures KeepsCaches(it, LatestVersionOf(it, resource, state, step, env).1)
    ensures KeepsCaches(it, LatestVersionFilePathOf(it, resource, state, step, env).1)
    ensures KeepsCaches(it, VersionFilePathsOf(it, resource, step, env).1)
    ensures KeepsCaches(it, StepFilePathsOf(it, step, env).1)
  {
    VersionScansKeepCaches(it, resource, state, step, env);
    StepScanKeepsCaches(it, step, env);
  }

  /** The project short name, asked after an operation that kept the caches, keeps them too. */
  lemma ProjectShortNameAfter(it: Item, it1: Item, env: Env)
    requires KeepsCaches(it, it1)
    ensures KeepsCaches(it, ProjectShortNameOf(it1, env).1)
  {
    DerivationsKeepCaches(it1, "", env);
    KeepsCachesTransitive(it, it1, ProjectShortNameOf(it1, env).1);
  }

  lemma VersionScansKeepCaches(it: Item, resource: string, state: string, step: string, env: Env)
    ensures KeepsCaches(it, LatestVersionOf(it, resource, state, step, env).1)
    ensures KeepsCaches(it, LatestVersionFilePathOf(it, resource, state, step, env).1)
    ensures KeepsCaches(it, VersionFilePathsOf(it, resource, step, env).1)
  {
    DerivationsKeepCaches(it, step, env);
    ProjectShortNameAfter(it, VersionFolderPathOf(it, step, env).1, env);
  }

  lemma StepScanKeepsCaches(it: Item, step: string, env: Env)
    ensures KeepsCaches(it, StepFilePathsOf(it, step, env).1)
  {
    DerivationsKeepCaches(it, step, env);
    ProjectShortNameAfter(it, StepFolderPathOf(it, step, env).1, env);
  }

  /** Asking for the folder twice answers the same and changes nothing more. */
  lemma FolderPathIdempotent(it: Item, env: Env)
    ensures FolderPathOf(FolderPathOf(it, env).1, env) == FolderPathOf(it, env)
  {
  }

  /** Asking for the group twice answers the same and changes nothing more; a group once set is
      returned as it is. */
  lemma GroupIdempotent(it: Item, env: Env)
    ensures GroupOf(GroupOf(it, env).1, env) == GroupOf(it, env)
    ensures it.group != "" ==> GroupOf(it, env).0 == Ok(if it.itemType == Asset then it.group else "")
  {
    FolderPathIdempotent(it, env);
  }

  /** Asking for the project short name twice answers the same and changes nothing more. */
  lemma ProjectShortNameIdempotent(it: Item, env: Env)
    ensures ProjectShortNameOf(ProjectShortNameOf(it, env).1, env) == ProjectShortNameOf(it, env)
  {
    FolderPathIdempotent(it, env);
  }

  /** `stepFolderPath` answers the item folder itself for an empty folder, an empty step or a general
      item, and otherwise a path built inside the item folder. */
  lemma StepFolderInItemFolder(it: Item, step: string, env: Env)
    ensures var fr := FolderPathOf(it, env).0;
            fr.Ok? && StaysInItemFolder(it, step, fr.value) ==> StepFolderPathOf(it, step, env) == FolderPathOf(it, env)
    ensures var fr := FolderPathOf(it, env).0;
            var sr := StepFolderPathOf(it, step, env).0;
            fr.Ok? && !StaysInItemFolder(it, step, fr.value) && sr.Ok? ==>
              exists name :: sr.value == env.buildPath([fr.value, name])
    ensures FolderPathOf(it, env).0.Err? ==> StepFolderPathOf(it, step, env).0 == FolderPathOf(it, env).0
  {
    var (fr, it1) := FolderPathOf(it, env);
    if fr.Ok? && !StaysInItemFolder(it, step, fr.value) {
      var (pr, _) := ProjectShortNameOf(it1, env);
      if pr.Ok? {
        var name := RamsesFileName(pr.value, step, "", Letter(it.itemType), it.shortName, "", -1, "v", env.intToStr);
        assert StepFolderPathOf(it, step, env).0.value == env.buildPath([fr.value, name]);
      }
    }
  }

  // ---------------------------------------------------------------------------------------------
  // Items from paths

  /** `RamItem.fromPath`: the item a file or folder path belongs to. The item folder is the folder of
      the save file when its name is an item folder name, else the folder above it; when neither is,
      the item is a general one rooted at the save folder. An asset's group is the folder above its
      item folder. */
  function FromPath(path: string, env: Env): (r: Option<Item>)
    ensures env.decomposePath(path).None? || env.saveFilePath(path) == "" ==> r.None?
    ensures r.Some? ==> r.value.project.None? && r.value.projectShortName == ""
    ensures r.Some? && r.value.itemType != General ==>
              var info := env.decomposePath(path).value;
              var saveFolder := Dirname(env.saveFilePath(path));
              && IsRamsesItemFolderName(Basename(r.value.folderPath))
              && (r.value.folderPath == saveFolder || r.value.folderPath == Dirname(saveFolder))
              && r.value.name == "" && r.value.shortName == info.objectShortName
              && r.value.itemType == (if info.ramType == Some("A") then Asset else Shot)
              && info.ramType in {Some("A"), Some("S")}
    ensures r.Some? && r.value.itemType != Asset ==> r.value.group == ""
    ensures r.Some? && r.value.itemType == Asset ==> r.value.group == Basename(Dirname(r.value.folderPath))
    ensures r.Some? && r.value.itemType == General ==>
              var info := env.decomposePath(path).value;
              && r.value.folderPath == Dirname(env.saveFilePath(path))
              && r.value.name == info.objectShortName && r.value.shortName == info.step
    ensures r.None? && env.decomposePath(path).Some? && env.saveFilePath(path) != "" ==>
              env.decomposePath(path).value.ramType !in {Some("A"), Some("S"), Some("G")}
  {
    match env.decomposePath(path)
    case None => None
    case Some(pathInfo) =>
      var saveFilePath := env.saveFilePath(path);
      if saveFilePath == "" then None
      else
        var saveFolder := Dirname(saveFilePath);
        var itemFolder := if IsRamsesItemFolderName(Basename(saveFolder)) then saveFolder else Dirname(saveFolder);
        if !IsRamsesItemFolderName(Basename(itemFolder)) then
          Some(Item(pathInfo.objectShortName, pathInfo.step, General, saveFolder, "", None, ""))
        else if pathInfo.ramType == Some("A") then
          Some(Item("", pathInfo.objectShortName, Asset, itemFolder, Basename(Dirname(itemFolder)), None, ""))
        else if pathInfo.ramType == Some("S") then
          Some(Item("", pathInfo.objectShortName, Shot, itemFolder, "", None, ""))
        else if pathInfo.ramType == Some("G") then
          Some(Item(pathInfo.objectShortName, pathInfo.step, General, saveFolder, "", None, ""))
        else None
  }

  /** A path outside any item folder gives a general item rooted at the folder of its save file. */
  lemma FromPathGeneralFallback(path: string, env: Env)
    requires env.decomposePath(path).Some? && env.saveFilePath(path) != ""
    requires !IsRamsesItemFolderName(Basename(Dirname(env.saveFilePath(path))))
    requires !IsRamsesItemFolderName(Basename(Dirname(Dirname(env.saveFilePath(path)))))
    ensures FromPath(path, env).Some? && FromPath(path, env).value.itemType == General
    ensures FromPath(path, env).value.folderPath == Dirname(env.saveFilePath(path))
  {
  }
}
