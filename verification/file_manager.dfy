/** `RamFileManager.increment` (ramses/file_manager.py): copy a file into its versions folder under
    the next version number of its lineage. The file system is a map from folder paths to their
    listings; a copy adds a name to a listing, the bytes are not modelled. */
module FileManager {
  import opened Wrappers
  import opened Strings
  import opened Naming
  import opened NamingLemmas
  import opened Paths

  /** One name in a folder listing, and whether it is a regular file. */
  datatype Entry = Entry(name: string, isFile: bool)

  /** Folder paths and their listings, in listing order. */
  type Folders = map<string, seq<Entry>>

  /** The ways `increment` fails. */
  datatype IncrementError =
    | MissingFile    // the source path is not a regular file
    | FileExists     // a file already sits where the versions folder must be created
    | MalformedName  // the source name does not decode; the source raises at that check, before any disk change
    | TypeError      // the source name decodes without a type; concatenating it raises
    | SameFile       // the copy would overwrite its own source

  function Listing(folders: Folders, folder: string): seq<Entry>
  {
    if folder in folders then folders[folder] else []
  }

  predicate HasName(entries: seq<Entry>, name: string)
  {
    exists i :: 0 <= i < |entries| && entries[i].name == name
  }

  /** `os.path.isfile`: the path's folder is known and lists the path's basename as a file. */
  predicate IsFileIn(folders: Folders, path: string)
  {
    Dirname(path) in folders && Entry(Basename(path), true) in folders[Dirname(path)]
  }

  /** The path of `name` inside `folder`. The source writes `folder + '/' + name`, which for a bare
      file name (empty folder) points at the root; see `RootVersionsFolder`. */
  function ChildPath(folder: string, name: string): (r: string)
    ensures folder != "" ==> r == folder + "/" + name
  {
    if folder == "" then name else folder + "/" + name
  }

  /** The versions folder: the file's own folder when it is already a versions folder, else its
      `_versions` child. */
  function VersionsFolderOf(fileFolder: string): string
  {
    if Basename(fileFolder) == VersionsFolderName then fileFolder else ChildPath(fileFolder, VersionsFolderName)
  }

  // ---------------------------------------------------------------------------------------------
  // Lineage scan

  /** Two decoded names of the same lineage: same project, type, object, step and resource. */
  predicate SameLineage(d: FileNameInfo, ref: FileNameInfo)
  {
    d.project == ref.project && d.ramType == ref.ramType && d.objectShortName == ref.objectShortName
    && d.step == ref.step && d.resource == ref.resource
  }

  /** The name decoder under a prefix list, as one value the scan can be stated over. */
  function Decoder(ps: PrefixList): string -> Option<FileNameInfo>
  {
    n => Decompose(n, ps)
  }

  /** A listed regular file that decodes, belongs to the lineage of `ref` and carries a version. */
  predicate IsSibling(e: Entry, ref: FileNameInfo, decode: string -> Option<FileNameInfo>)
  {
    e.isFile && decode(e.name).Some? && SameLineage(decode(e.name).value, ref) && decode(e.name).value.version != -1
  }

  function SiblingVersion(e: Entry, decode: string -> Option<FileNameInfo>): int
    requires decode(e.name).Some?
  {
    decode(e.name).value.version
  }

  function SiblingState(e: Entry, decode: string -> Option<FileNameInfo>): string
    requires decode(e.name).Some?
  {
    decode(e.name).value.state
  }

  /** The highest version and its state after scanning `entries` in order, starting from (0, "v")
      and replacing the pair only on a strictly higher version. */
  function Highest(entries: seq<Entry>, ref: FileNameInfo, decode: string -> Option<FileNameInfo>): (int, string)
  {
    if entries == [] then (0, "v")
    else
      var prev := Highest(entries[..|entries| - 1], ref, decode);
      var e := entries[|entries| - 1];
      if IsSibling(e, ref, decode) && SiblingVersion(e, decode) > prev.0 then (SiblingVersion(e, decode), SiblingState(e, decode))
      else prev
  }

  /** The scan's version is at least 0 and at least every sibling's version. */
  lemma {:induction false} HighestIsUpperBound(entries: seq<Entry>, ref: FileNameInfo, decode: string -> Option<FileNameInfo>)
    ensures Highest(entries, ref, decode).0 >= 0
    ensures forall i :: 0 <= i < |entries| && IsSibling(entries[i], ref, decode) ==>
              SiblingVersion(entries[i], decode) <= Highest(entries, ref, decode).0
  {
    if entries != [] {
      var init := entries[..|entries| - 1];
      HighestIsUpperBound(init, ref, decode);
      assert forall i :: 0 <= i < |init| ==> entries[i] == init[i];
    }
  }

  /** The scan's pair is (0, "v") when no sibling is above 0; otherwise it is the version and state
      of the first sibling that reaches the maximum. */
  lemma {:induction false} HighestIsFirstMaximum(entries: seq<Entry>, ref: FileNameInfo, decode: string -> Option<FileNameInfo>)
    ensures (forall i :: 0 <= i < |entries| && IsSibling(entries[i], ref, decode) ==> SiblingVersion(entries[i], decode) <= 0)
            ==> Highest(entries, ref, decode) == (0, "v")
    ensures (exists i :: 0 <= i < |entries| && IsSibling(entries[i], ref, decode) && SiblingVersion(entries[i], decode) > 0)
            ==> exists i :: 0 <= i < |entries| && IsSibling(entries[i], ref, decode)
                         && (SiblingVersion(entries[i], decode), SiblingState(entries[i], decode)) == Highest(entries, ref, decode)
                         && forall j :: 0 <= j < i && IsSibling(entries[j], ref, decode) ==>
                                          SiblingVersion(entries[j], decode) < Highest(entries, ref, decode).0
  {
    if entries != [] {
      var init := entries[..|entries| - 1];
      var last := |entries| - 1;
      HighestIsFirstMaximum(init, ref, decode);
      HighestIsUpperBound(init, ref, decode);
      assert forall i :: 0 <= i < |init| ==> entries[i] == init[i];
      var h := Highest(entries, ref, decode);
      if IsSibling(entries[last], ref, decode) && SiblingVersion(entries[last], decode) > Highest(init, ref, decode).0 {
        assert h == (SiblingVersion(entries[last], decode), SiblingState(entries[last], decode));
      } else if exists i :: 0 <= i < |entries| && IsSibling(entries[i], ref, decode) && SiblingVersion(entries[i], decode) > 0 {
        var i :| 0 <= i < |entries| && IsSibling(entries[i], ref, decode) && SiblingVersion(entries[i], decode) > 0;
        if i == last {
          assert SiblingVersion(entries[last], decode) <= Highest(init, ref, decode).0;
        }
        assert exists i :: 0 <= i < |init| && IsSibling(init[i], ref, decode) && SiblingVersion(init[i], decode) > 0;
      }
    }
  }

  // ---------------------------------------------------------------------------------------------
  // File system effects

  /** `os.makedirs` of `name` inside `parent`: fails when the parent lists that name already;
      otherwise the new folder is empty and the parent lists it as a folder. */
  function MadeDir(folders: Folders, parent: string, name: string): (r: Result<Folders, IncrementError>)
    ensures r.Err? <==> HasName(Listing(folders, parent), name)
    ensures r.Ok? ==> ChildPath(parent, name) in r.value && r.value[ChildPath(parent, name)] == []
  {
    if HasName(Listing(folders, parent), name) then Err(FileExists)
    else Ok(folders[parent := Listing(folders, parent) + [Entry(name, false)]][ChildPath(parent, name) := []])
  }

  /** `shutil.copy2` of `src` to `name` inside `folder`: the destination path on success; the
      listing gains the name unless it already lists it (an overwrite). */
  function Copied(folders: Folders, src: string, folder: string, name: string): (Result<string, IncrementError>, Folders)
  {
    var dst := ChildPath(folder, name);
    if dst == src then (Err(SameFile), folders)
    else if HasName(Listing(folders, folder), name) then (Ok(dst), folders)
    else (Ok(dst), folders[folder := Listing(folders, folder) + [Entry(name, true)]])
  }

  /** The first version: the versions folder is created, then the file is copied beside itself
      under `compose(decoded, True)`. */
  function FirstVersion(folders: Folders, filePath: string, fileFolder: string, c: FileNameInfo,
                        intToStr: int -> string): (Result<string, IncrementError>, Folders)
  {
    match MadeDir(folders, fileFolder, VersionsFolderName)
    case Err(e) => (Err(e), folders)
    case Ok(made) =>
      if c.ramType.None? then (Err(TypeError), made)
      else Copied(made, filePath, fileFolder, Compose(c, true, intToStr).value)
  }

  /** The name of lineage `c` at the version after `h.0`, with state `h.1`. */
  function NextVersionName(c: FileNameInfo, h: (int, string), intToStr: int -> string): string
    requires c.ramType.Some?
  {
    RamsesFileName(c.project, c.step, c.extension, c.ramType.value, c.objectShortName, c.resource,
                   h.0 + 1, h.1, intToStr)
  }

  /** A later version: the file is copied into the existing versions folder under the next version. */
  function NextVersion(folders: Folders, filePath: string, versionsFolder: string, c: FileNameInfo,
                       decode: string -> Option<FileNameInfo>, intToStr: int -> string): (Result<string, IncrementError>, Folders)
    requires versionsFolder in folders
  {
    if c.ramType.None? then (Err(TypeError), folders)
    else Copied(folders, filePath, versionsFolder, NextVersionName(c, Highest(folders[versionsFolder], c, decode), intToStr))
  }

  /** The outcome of `increment(filePath)` and the file system after it. A name that does not decode
      stops it before the versions folder is looked at: the source's log call there names a level
      its module never imports, so it raises. */
  function IncrementResult(folders: Folders, filePath: string, decode: string -> Option<FileNameInfo>, intToStr: int -> string)
    : (Result<string, IncrementError>, Folders)
  {
    if !IsFileIn(folders, filePath) then (Err(MissingFile), folders)
    else
      match decode(Basename(filePath))
      case None => (Err(MalformedName), folders)
      case Some(c) =>
        var fileFolder := Dirname(filePath);
        var versionsFolder := VersionsFolderOf(fileFolder);
        if versionsFolder !in folders then FirstVersion(folders, filePath, fileFolder, c, intToStr)
        else NextVersion(folders, filePath, versionsFolder, c, decode, intToStr)
  }

  // ---------------------------------------------------------------------------------------------
  // Properties of `increment`

  /** A decoder that only yields blocks the grammar can produce. */
  ghost predicate YieldsWellFormed(decode: string -> Option<FileNameInfo>, ps: PrefixList)
  {
    forall n :: decode(n).Some? ==> WellFormed(decode(n).value, ps)
  }

  lemma DecoderYieldsWellFormed(ps: PrefixList)
    ensures YieldsWellFormed(Decoder(ps), ps)
  {
    forall n | Decoder(ps)(n).Some?
      ensures WellFormed(Decoder(ps)(n).value, ps)
    {
      assert Decoder(ps)(n) == Decompose(n, ps);
    }
  }

  /** The scan's state is the default `v` or the state some listed name decoded to. */
  lemma HighestState(entries: seq<Entry>, ref: FileNameInfo, decode: string -> Option<FileNameInfo>, ps: PrefixList)
    requires YieldsWellFormed(decode, ps)
    ensures Highest(entries, ref, decode).1 == "v" || IsState(Highest(entries, ref, decode).1, ps)
  {
    HighestIsFirstMaximum(entries, ref, decode);
    if exists i :: 0 <= i < |entries| && IsSibling(entries[i], ref, decode) && SiblingVersion(entries[i], decode) > 0 {
      var i :| 0 <= i < |entries| && IsSibling(entries[i], ref, decode)
               && SiblingState(entries[i], decode) == Highest(entries, ref, decode).1;
      assert WellFormed(decode(entries[i].name).value, ps);
    }
  }

  /** The blocks of the next version are well formed: a version of at least 1 and a known state. */
  lemma NextBlocksWellFormed(c: FileNameInfo, h: (int, string), ps: PrefixList)
    requires WellFormed(c, ps) && h.0 >= 0 && (h.1 == "v" || IsState(h.1, ps)) && IsState("v", ps)
    ensures WellFormed(c.(version := h.0 + 1, state := h.1), ps)
  {
  }

  /** The next version name decodes to the lineage of `c` at version `h.0 + 1` with state `h.1`,
      for any version the scan can return and any state it can carry. */
  lemma NextVersionNameDecodes(c: FileNameInfo, h: (int, string), ps: PrefixList, intToStr: int -> string)
    requires WellFormed(c, ps) && c.ramType.Some? && c.extension[0] != '.'
    requires h.0 >= 0 && (h.1 == "v" || IsState(h.1, ps)) && IsState("v", ps)
    requires NoPrefixEndsWithDigit(ps) && IntToStrReadsBack(intToStr)
    ensures Decompose(RamsesFileName(c.project, c.step, c.extension, c.ramType.value, c.objectShortName, c.resource,
                                     h.0 + 1, h.1, intToStr), ps)
            == Some(c.(version := h.0 + 1, state := h.1))
  {
    NextBlocksWellFormed(c, h, ps);
    EncodeInfo(c.(version := h.0 + 1, state := h.1), intToStr, ps);
  }

  /** `folders` is `after` restricted to its own folders, each listing a prefix of the new one. */
  predicate Grows(folders: Folders, after: Folders)
  {
    && folders.Keys <= after.Keys
    && forall f :: f in folders ==> |folders[f]| <= |after[f]| && after[f][..|folders[f]|] == folders[f]
  }

  predicate ListsName(folders: Folders, folder: string, name: string)
  {
    folder in folders && HasName(folders[folder], name)
  }

  /** Every folder of `folders` outside `changed` keeps its listing in `after`. */
  predicate ElsewhereUnchanged(folders: Folders, after: Folders, changed: set<string>)
  {
    forall f :: f in folders && f !in changed ==> f in after && after[f] == folders[f]
  }

  /** A copy fails only onto its own source, and then changes nothing; otherwise it returns the
      destination, which its folder lists: the listing gains exactly that name at its end when it
      did not list it, and nothing changes when it did (an overwrite). No other folder changes. */
  lemma CopiedGrows(folders: Folders, src: string, folder: string, name: string)
    ensures Grows(folders, Copied(folders, src, folder, name).1)
    ensures Copied(folders, src, folder, name).1.Keys <= folders.Keys + {folder}
    ensures ElsewhereUnchanged(folders, Copied(folders, src, folder, name).1, {folder})
    ensures Copied(folders, src, folder, name).0.Err? <==> ChildPath(folder, name) == src
    ensures Copied(folders, src, folder, name).0.Err? ==> Copied(folders, src, folder, name).1 == folders
    ensures Copied(folders, src, folder, name).0.Ok? ==>
              Copied(folders, src, folder, name).0.value == ChildPath(folder, name)
              && ListsName(Copied(folders, src, folder, name).1, folder, name)
    ensures var (r, after) := Copied(folders, src, folder, name);
            r.Ok? && !HasName(Listing(folders, folder), name) ==>
              after[folder] == Listing(folders, folder) + [Entry(name, true)]
    ensures var (r, after) := Copied(folders, src, folder, name);
            r.Ok? && HasName(Listing(folders, folder), name) ==> after == folders
  {
    var after: Folders := Copied(folders, src, folder, name).1;
    if ChildPath(folder, name) != src && !HasName(Listing(folders, folder), name) {
      assert after[folder][|Listing(folders, folder)|].name == name;
    }
  }

  lemma MadeDirGrows(folders: Folders, parent: string, name: string)
    requires ChildPath(parent, name) !in folders
    ensures MadeDir(folders, parent, name).Ok? ==>
              Grows(folders, MadeDir(folders, parent, name).value)
              && MadeDir(folders, parent, name).value.Keys <= folders.Keys + {parent, ChildPath(parent, name)}
              && ElsewhereUnchanged(folders, MadeDir(folders, parent, name).value, {parent})
  {
  }

  /** The first-version branch: it fails on a file named like the versions folder and changes
      nothing; otherwise the versions folder exists and is empty, the file's folder lists it as a
      folder, then (on success) the new name, and no other folder changes. */
  lemma FirstVersionFrame(folders: Folders, filePath: string, fileFolder: string, c: FileNameInfo,
                          intToStr: int -> string)
    requires ChildPath(fileFolder, VersionsFolderName) !in folders
    ensures var (r, after) := FirstVersion(folders, filePath, fileFolder, c, intToStr);
            && Grows(folders, after)
            && after.Keys <= folders.Keys + {fileFolder, ChildPath(fileFolder, VersionsFolderName)}
            && ElsewhereUnchanged(folders, after, {fileFolder})
            && (r == Err(FileExists) <==> HasName(Listing(folders, fileFolder), VersionsFolderName))
            && (r == Err(FileExists) ==> after == folders)
            && (r != Err(FileExists) ==>
                  && ChildPath(fileFolder, VersionsFolderName) in after
                  && after[ChildPath(fileFolder, VersionsFolderName)] == []
                  && |Listing(folders, fileFolder)| < |after[fileFolder]| <= |Listing(folders, fileFolder)| + 2
                  && after[fileFolder][..|Listing(folders, fileFolder)| + 1]
                     == Listing(folders, fileFolder) + [Entry(VersionsFolderName, false)])
            && (r.Ok? ==> c.ramType.Some?
                          && r.value == ChildPath(fileFolder, Compose(c, true, intToStr).value)
                          && ListsName(after, fileFolder, Compose(c, true, intToStr).value))
  {
    MadeDirGrows(folders, fileFolder, VersionsFolderName);
    var m := MadeDir(folders, fileFolder, VersionsFolderName);
    var vf := ChildPath(fileFolder, VersionsFolderName);
    assert vf != fileFolder by {
      if fileFolder != "" {
        assert |vf| > |fileFolder|;
      }
    }
    if m.Ok? {
      var made := m.value;
      var before := Listing(folders, fileFolder);
      assert made[fileFolder] == before + [Entry(VersionsFolderName, false)];
      if c.ramType.Some? {
        var n := Compose(c, true, intToStr).value;
        CopiedGrows(made, filePath, fileFolder, n);
        var after := Copied(made, filePath, fileFolder, n).1;
        assert after[fileFolder][..|before| + 1] == made[fileFolder] by {
          assert after[fileFolder][..|made[fileFolder]|] == made[fileFolder];
        }
      }
    }
  }

  /** The next-version branch changes only the versions folder: its listing gains the new name at
      its end, unless it listed it already; it changes nothing when it fails. */
  lemma NextVersionFrame(folders: Folders, filePath: string, versionsFolder: string, c: FileNameInfo,
                         decode: string -> Option<FileNameInfo>, intToStr: int -> string)
    requires versionsFolder in folders
    ensures var (r, after) := NextVersion(folders, filePath, versionsFolder, c, decode, intToStr);
            && Grows(folders, after) && after.Keys == folders.Keys
            && ElsewhereUnchanged(folders, after, {versionsFolder})
            && (r.Err? ==> after == folders)
            && (r.Ok? ==> c.ramType.Some?
                          && var n := NextVersionName(c, Highest(folders[versionsFolder], c, decode), intToStr);
                             && r.value == ChildPath(versionsFolder, n) && ListsName(after, versionsFolder, n)
                             && after[versionsFolder]
                                == folders[versionsFolder] + (if HasName(folders[versionsFolder], n) then [] else [Entry(n, true)]))
  {
    if c.ramType.Some? {
      CopiedGrows(folders, filePath, versionsFolder,
                  NextVersionName(c, Highest(folders[versionsFolder], c, decode), intToStr));
    }
  }

  lemma GrowsKeepsFiles(folders: Folders, after: Folders, path: string)
    requires Grows(folders, after) && IsFileIn(folders, path)
    ensures IsFileIn(after, path)
  {
    var f := Dirname(path);
    var k :| 0 <= k < |folders[f]| && folders[f][k] == Entry(Basename(path), true);
    assert after[f][..|folders[f]|][k] == after[f][k];
  }

  /** `increment` leaves every existing listing in place (it only appends), changes no folder but
      the file's folder and its versions folder, creates no folder but the versions folder, keeps
      the source file, fails on an undecodable name without touching anything, changes nothing when
      the versions folder existed and it fails, and returns a path whose folder lists the new name. */
  lemma IncrementFrame(folders: Folders, filePath: string, decode: string -> Option<FileNameInfo>, intToStr: int -> string)
    ensures var (r, after) := IncrementResult(folders, filePath, decode, intToStr);
            && Grows(folders, after)
            && after.Keys - folders.Keys <= {ChildPath(Dirname(filePath), VersionsFolderName)}
            && ElsewhereUnchanged(folders, after, {Dirname(filePath), VersionsFolderOf(Dirname(filePath))})
            && (IsFileIn(folders, filePath) ==> IsFileIn(after, filePath))
            && (r == Err(MissingFile) <==> !IsFileIn(folders, filePath))
            && (r == Err(MalformedName) <==> IsFileIn(folders, filePath) && decode(Basename(filePath)).None?)
            && (r == Err(MalformedName) ==> after == folders)
            && (r.Err? && VersionsFolderOf(Dirname(filePath)) in folders ==> after == folders)
            && (r.Ok? ==> exists folder, name :: r.value == ChildPath(folder, name) && ListsName(after, folder, name))
  {
    var (r, after) := IncrementResult(folders, filePath, decode, intToStr);
    if IsFileIn(folders, filePath) && decode(Basename(filePath)).Some? {
      var c := decode(Basename(filePath)).value;
      var fileFolder := Dirname(filePath);
      var versionsFolder := VersionsFolderOf(fileFolder);
      if versionsFolder !in folders {
        FirstVersionFrame(folders, filePath, fileFolder, c, intToStr);
        assert fileFolder in folders;
      } else {
        NextVersionFrame(folders, filePath, versionsFolder, c, decode, intToStr);
      }
      GrowsKeepsFiles(folders, after, filePath);
    }
  }

  /** With no versions folder yet, a successful `increment` returns the file's folder joined with
      `compose(decoded, True)`, which decodes to the same blocks at the next version by
      `NamingLemmas.ComposeIncrement`; that folder now lists the new name and the versions folder
      exists. */
  lemma IncrementFirstVersion(folders: Folders, filePath: string, decode: string -> Option<FileNameInfo>, intToStr: int -> string)
    requires IsFileIn(folders, filePath) && VersionsFolderOf(Dirname(filePath)) !in folders
    ensures var (r, after) := IncrementResult(folders, filePath, decode, intToStr);
            var info := decode(Basename(filePath));
            r.Ok? ==> && info.Some? && info.value.ramType.Some?
                      && r.value == ChildPath(Dirname(filePath), Compose(info.value, true, intToStr).value)
                      && ListsName(after, Dirname(filePath), Compose(info.value, true, intToStr).value)
                      && VersionsFolderOf(Dirname(filePath)) in after
  {
    var fileFolder := Dirname(filePath);
    assert VersionsFolderOf(fileFolder) == ChildPath(fileFolder, VersionsFolderName) by {
      if Basename(fileFolder) == VersionsFolderName {
        assert fileFolder in folders;
      }
    }
    if decode(Basename(filePath)).Some? {
      FirstVersionFrame(folders, filePath, fileFolder, decode(Basename(filePath)).value, intToStr);
    }
  }

  /** With a versions folder, where the scan of its listing returns `h`, a successful `increment`
      returns that folder joined with the next version name of `h` (which decodes back by
      `NextVersionNameDecodes`); `h.0` is at least 0 and `h.0 + 1` is above every version of the
      lineage listed there, and `h.1` is the default `v` or a state the decoder accepts. */
  lemma IncrementNextVersion(folders: Folders, filePath: string, c: FileNameInfo, h: (int, string), decode: string -> Option<FileNameInfo>,
                             ps: PrefixList, intToStr: int -> string)
    requires IsFileIn(folders, filePath) && VersionsFolderOf(Dirname(filePath)) in folders
    requires decode(Basename(filePath)) == Some(c) && c.ramType.Some? && YieldsWellFormed(decode, ps)
    requires h == Highest(folders[VersionsFolderOf(Dirname(filePath))], c, decode)
    ensures var r := IncrementResult(folders, filePath, decode, intToStr).0;
            r.Ok? ==> r.value == ChildPath(VersionsFolderOf(Dirname(filePath)), NextVersionName(c, h, intToStr))
    ensures h.0 >= 0 && (h.1 == "v" || IsState(h.1, ps))
    ensures forall e :: e in folders[VersionsFolderOf(Dirname(filePath))] && IsSibling(e, c, decode) ==>
              SiblingVersion(e, decode) < h.0 + 1
  {
    var vf := VersionsFolderOf(Dirname(filePath));
    HighestIsUpperBound(folders[vf], c, decode);
    HighestState(folders[vf], c, decode, ps);
    NextVersionFrame(folders, filePath, vf, c, decode, intToStr);
    forall e | e in folders[vf] && IsSibling(e, c, decode)
      ensures SiblingVersion(e, decode) < h.0 + 1
    {
      var i :| 0 <= i < |folders[vf]| && folders[vf][i] == e;
    }
  }

  /** A versions folder is the `_versions` child of the file's folder, for a file in the current
      folder too. */
  lemma VersionsFolderIsChild(fileFolder: string)
    requires Basename(fileFolder) != VersionsFolderName
    requires fileFolder == "" || fileFolder[|fileFolder| - 1] != '/'
    ensures Dirname(VersionsFolderOf(fileFolder)) == fileFolder
    ensures Basename(VersionsFolderOf(fileFolder)) == VersionsFolderName
  {
    if fileFolder == "" {
      assert '/' !in VersionsFolderName;
    } else {
      DirnameOfChild(fileFolder, VersionsFolderName);
      BasenameOfChild(fileFolder, VersionsFolderName);
    }
  }

  /** The versions folder as the source joins it: `fileFolder + '/' + '_versions'`. */
  function VersionsFolderAsWritten(fileFolder: string): string
  {
    if Basename(fileFolder) == VersionsFolderName then fileFolder else fileFolder + "/" + VersionsFolderName
  }

  /** For a bare file name the folder is empty and the joined versions folder lands at the root of
      the file system instead of beside the file; `VersionsFolderOf` keeps it relative. */
  lemma RootVersionsFolder(name: string)
    requires '/' !in name
    ensures Dirname(name) == ""
    ensures VersionsFolderAsWritten(Dirname(name)) == "/" + VersionsFolderName
    ensures Dirname(VersionsFolderAsWritten(Dirname(name))) == "/"
    ensures VersionsFolderOf(Dirname(name)) == VersionsFolderName
  {
    assert '/' !in VersionsFolderName;
    assert Basename("") == "";
    DirnameOfRootChild(VersionsFolderName);
  }

  // ---------------------------------------------------------------------------------------------
  // The file system and `increment`

  class FileSystem {
    var folders: Folders

    constructor(folders: Folders)
      ensures this.folders == folders
    {
      this.folders := folders;
    }

    predicate IsDir(path: string)
      reads this
    {
      path in folders
    }

    predicate IsFile(path: string)
      reads this
    {
      IsFileIn(folders, path)
    }

    method MakeDir(parent: string, name: string) returns (r: Result<(), IncrementError>)
      modifies this
      ensures MadeDir(old(folders), parent, name).Ok? ==> r == Ok(()) && folders == MadeDir(old(folders), parent, name).value
      ensures MadeDir(old(folders), parent, name).Err? ==> r == Err(FileExists) && folders == old(folders)
    {
      var listing := Listing(folders, parent);
      var i := 0;
      while i < |listing|
        invariant 0 <= i <= |listing|
        invariant forall j :: 0 <= j < i ==> listing[j].name != name
      {
        if listing[i].name == name {
          return Err(FileExists);
        }
        i := i + 1;
      }
      folders := folders[parent := listing + [Entry(name, false)]][ChildPath(parent, name) := []];
      return Ok(());
    }

    method Copy(src: string, folder: string, name: string) returns (r: Result<string, IncrementError>)
      modifies this
      ensures (r, folders) == Copied(old(folders), src, folder, name)
    {
      var dst := ChildPath(folder, name);
      if dst == src {
        return Err(SameFile);
      }
      var listing := Listing(folders, folder);
      var i := 0;
      while i < |listing|
        invariant 0 <= i <= |listing|
        invariant forall j :: 0 <= j < i ==> listing[j].name != name
      {
        if listing[i].name == name {
          return Ok(dst);
        }
        i := i + 1;
      }
      folders := folders[folder := listing + [Entry(name, true)]];
      return Ok(dst);
    }
  }

  /** One more entry in the scan: the pair moves to that entry exactly when it is a sibling above it. */
  lemma HighestStep(entries: seq<Entry>, i: nat, ref: FileNameInfo, decode: string -> Option<FileNameInfo>)
    requires i < |entries|
    ensures var prev := Highest(entries[..i], ref, decode);
            Highest(entries[..i + 1], ref, decode)
            == if IsSibling(entries[i], ref, decode) && SiblingVersion(entries[i], decode) > prev.0
               then (SiblingVersion(entries[i], decode), SiblingState(entries[i], decode)) else prev
  {
    assert entries[..i + 1][..i] == entries[..i];
  }

  /** The loop of `increment`: the highest version among the siblings of `c` in the listing, and the
      state of the first file reaching it. */
  method ScanHighest(foundFiles: seq<Entry>, c: FileNameInfo, decode: string -> Option<FileNameInfo>)
    returns (highestVersion: int, state: string)
    ensures (highestVersion, state) == Highest(foundFiles, c, decode)
  {
    highestVersion := 0;
    state := "v";
    for i := 0 to |foundFiles|
      invariant (highestVersion, state) == Highest(foundFiles[..i], c, decode)
    {
      HighestStep(foundFiles, i, c, decode);
      var foundFile := foundFiles[i];
      if !foundFile.isFile {
        continue;
      }
      var decomposedFoundFile := decode(foundFile.name);
      if decomposedFoundFile.None? {
        continue;
      }
      var d := decomposedFoundFile.value;
      if d.project != c.project || d.ramType != c.ramType || d.objectShortName != c.objectShortName
         || d.step != c.step || d.resource != c.resource || d.version == -1 {
        continue;
      }
      if d.version > highestVersion {
        highestVersion := d.version;
        state := d.state;
      }
    }
    assert foundFiles[..|foundFiles|] == foundFiles;
  }

  /** The branch of `increment` that creates the versions folder, then copies the file beside itself
      under its first version name. */
  method CopyFirstVersion(fs: FileSystem, filePath: string, fileFolder: string, c: FileNameInfo,
                          intToStr: int -> string)
    returns (r: Result<string, IncrementError>)
    modifies fs
    ensures (r, fs.folders) == FirstVersion(old(fs.folders), filePath, fileFolder, c, intToStr)
  {
    var made := fs.MakeDir(fileFolder, VersionsFolderName);
    if made.Err? {
      return Err(made.error);
    }
    if c.ramType.None? {
      return Err(TypeError);
    }
    var newFileName := Compose(c, true, intToStr).value;
    r := fs.Copy(filePath, fileFolder, newFileName);
  }

  /** The branch of `increment` that scans an existing versions folder and copies the file into it
      under the next version name. */
  method CopyNextVersion(fs: FileSystem, filePath: string, versionsFolder: string, c: FileNameInfo,
                         decode: string -> Option<FileNameInfo>, intToStr: int -> string)
    returns (r: Result<string, IncrementError>)
    requires versionsFolder in fs.folders
    modifies fs
    ensures (r, fs.folders) == NextVersion(old(fs.folders), filePath, versionsFolder, c, decode, intToStr)
  {
    if c.ramType.None? {
      return Err(TypeError);
    }
    var highestVersion, state := ScanHighest(fs.folders[versionsFolder], c, decode);
    var newFileName := NextVersionName(c, (highestVersion, state), intToStr);
    r := fs.Copy(filePath, versionsFolder, newFileName);
  }

  /** `increment`: the file is copied under the next version of its lineage, into its versions
      folder, or beside itself when that folder has to be created first. */
  method Increment(fs: FileSystem, filePath: string, ps: PrefixList, intToStr: int -> string)
    returns (r: Result<string, IncrementError>)
    modifies fs
    ensures (r, fs.folders) == IncrementResult(old(fs.folders), filePath, Decoder(ps), intToStr)
  {
    if !fs.IsFile(filePath) {
      return Err(MissingFile);
    }
    var decode := Decoder(ps);
    var fileName := Basename(filePath);
    var decomposedFileName := decode(fileName);
    if decomposedFileName.None? {
      return Err(MalformedName);
    }
    var fileFolder := Dirname(filePath);
    var versionsFolder := VersionsFolderOf(fileFolder);
    if !fs.IsDir(versionsFolder) {
      r := CopyFirstVersion(fs, filePath, fileFolder, decomposedFileName.value, intToStr);
    } else {
      r := CopyNextVersion(fs, filePath, versionsFolder, decomposedFileName.value, decode, intToStr);
    }
  }
}
