# Ramses naming, versioning and item scans in Dafny

Ramses names every production file after the blocks of a fixed convention:

    project_T[_object]_step[_resource][_<prefix>digits].ext

`T` is `A` (asset), `S` (shot) or `G` (general). This project models the part of Ramses-Py that
works on those names:

- **The naming codec** (`Naming`, `NamingLemmas`). It covers:
  - `buildRamsesFileName`, `composeRamsesFileName` and `decomposeRamsesFileName`;
  - the version-prefix alternation;
  - the resource sanitiser `_fixResourceStr`;
  - the item-folder recogniser `_isRamsesItemFoldername`.

  The decoder is a hand-written splitter for the one grammar of the source. It follows the
  grammar's case-insensitive classes, its case-sensitive `A`/`S` branch and its negative lookahead at
  the resource position. The list of version prefixes is a parameter.
- **`RamFileManager.increment`** (`FileManager`). The file system is a `FileSystem` object whose
  field maps folder paths to their listings. `Increment` is proved to compute the function
  `IncrementResult`, which lemmas then characterise: the versions folder, the lineage scan, the
  next name and what changes on disk.
- **`RamItem`** (`Items`). The class keeps the source's cache fields. Its methods
  `FolderPath`, `Group`, `ProjectShortName`, `StepFolderPath` and `VersionFolderPath` fill those
  caches. Its scanning methods `LatestVersion`, `LatestVersionFilePath`, `VersionFilePaths` and
  `StepFilePaths` loop over a listing. Each method is proved equal to a specification function on
  the item's value (`…Of`), and the lemmas are stated about those functions. `FromPath` models the
  classification done by `RamItem.fromPath`.

Collaborators whose code is not shown are parameters with no behaviour of their own:

- `intToStr`;
- `buildPath`;
- `getSaveFilePath`;
- `decomposeRamsesFilePath`;
- `_versionFilesSorter`;
- `RamObject.getObjectShortName`, whose result is passed in as a plain string;
- `FolderNames.assets` (ramses/constants.py is not part of this model).

The folders an item sees are a map from paths to listings. The daemon is taken to be offline, so
`__updateFromDaemon` does nothing.

Where the specification of the system and the code differ, the model follows the code (except for
the two defects under "## Findings", whose corrected forms the rest of the model uses; see
"## Left out"):

- A file name that does not decode stops `increment` before any change on disk: the log call at
  `ramses/file_manager.py:27` names `LogLevel`, which that module never imports, so it raises.

- The lineage scan keeps the first file that reaches the highest version. The comparison is a
  strict `>`, so ties are not broken by modification time.
- `increment` ignores its `stateShortName` argument. The state comes from the scan, and is `v`
  when no file qualifies.
- The first version is copied beside the source file, into its own folder, not into the new
  `_versions` folder (`ramses/file_manager.py:41`).
- `versionFilePaths` sorts by the key `_versionFilesSorter`, whose definition is not shown.
- `makedirs` of the versions folder fails when a file of that name exists; it is not idempotent.

`ram_item.py` reads the decoded blocks under the keys `project`/`type`/`object`/`step`/`resource`.
`decomposeRamsesFileName` emits `projectID`/`ramType`/`objectShortName`/`ramStep`/`resourceStr`.
Both sides use one record, `FileNameInfo`, so the model reads the field each key evidently means.

## Model

| member | source | states |
|---|---|---|
| Naming.FixChar | ramses/file_manager.py:291-306 | a table key maps to its replacement, any other character to itself, and the result is never a table key |
| Naming.FixResource | ramses/file_manager.py:286-314 | same length as the input; each character is replaced by its table entry or kept; no table key survives |
| Naming.FixResourceStr | ramses/file_manager.py:308-314 | the character loop computes `FixResource` |
| Naming.VersionRegExStr | ramses/file_manager.py:279-283 | the prefixes joined with `\|`; an empty list (where the source crashes at `prefixes[-1]`) gives no pattern |
| Naming.PrefixedVersion | ramses/file_manager.py:259 | a version block is found iff the token is one of the prefixes followed by digits; it yields the first such prefix in list order, as written in the token, and the digits' value |
| Naming.SplitName | ramses/file_manager.py:259 | a name splits at its first dot into `_`-tokens free of `_` and `.` and an extension of `[a-z0-9.]+` |
| Naming.Decompose | ramses/file_manager.py:181-239 | a name without a dot does not decode; every decoded record is well formed: fields in their classes, the object present iff the type is `A`/`S`, version -1 with an empty state, the state one of the prefixes |
| Naming.RamsesFileName | ramses/file_manager.py:158-178 | the name starts with `project_T`; it ends with the extension, given a leading dot when it lacks one |
| Naming.Compose | ramses/file_manager.py:91-124 | a name is produced iff the record has a type |
| NamingLemmas.RamsesFileNameSegments | ramses/file_manager.py:158-178 | the name is the `_`-join of project, type, the object iff the type is `A`/`S`, step, the sanitised resource iff non-empty and the version block iff version is not -1, followed by the dotted extension |
| NamingLemmas.VersionBlockOf | ramses/file_manager.py:259 | a state followed by digits is read back as that state and value, and the lookahead refuses it as a resource |
| NamingLemmas.EncodeDecode | ramses/file_manager.py:158-239 | decoding a built name gives back its blocks, with the resource sanitised and the state dropped when there is no version |
| NamingLemmas.ResourceTokenIsFixed | ramses/file_manager.py:291-314 | a decoded resource is left unchanged by the sanitiser |
| NamingLemmas.EncodeInfo | ramses/file_manager.py:158-239 | building the name of a well-formed typed record and decoding it gives the record back |
| NamingLemmas.ComposeDecompose | ramses/file_manager.py:91-124 | composing a decoded name and decoding again gives the same record, with the version `ComposedVersion` makes of it |
| NamingLemmas.RoundTrip | ramses/file_manager.py:91-239 | `decompose(compose(decompose(n), False)) == decompose(n)` for every typed name with a dot-free extension start |
| NamingLemmas.ComposeIncrement | ramses/file_manager.py:108-113 | composing with increment gives version 1 for a version ≤ 0, else version + 1; every other block is kept |
| NamingLemmas.LeadingDotExtensionLost | ramses/file_manager.py:173-176 | an extension decoded with a leading dot loses that dot on re-encoding; every other block survives |
| NamingLemmas.FixResourceIdempotent | ramses/file_manager.py:286-314 | sanitising twice equals sanitising once |
| NamingLemmas.FixResourceSeparators | ramses/file_manager.py:291-306 | a sanitised resource holds no `_`, `.`, `/` or `\` |
| NamingLemmas.AlternationLists | ramses/file_manager.py:279-283 | splitting the alternation at `\|` gives back the prefix list |
| NamingLemmas.ItemFolderNameParts | ramses/file_manager.py:250 | a recognised item folder name is an id field, a type letter in either case and an id field, joined by `_` |
| NamingLemmas.ItemFolderNameRecognised | ramses/file_manager.py:250 | every such triple is recognised |
| NamingLemmas.AssetWorkingFileName | ramses/file_manager.py:158-178 | the asset TRI of project FPE at step MOD with extension blend is named `FPE_A_TRI_MOD.blend` |
| NamingLemmas.AssetVersionDecodes | ramses/file_manager.py:181-239 | `FPE_A_TRI_MOD_v003.blend` decodes to FPE, A, TRI, MOD, no resource, state v, version 3, blend |
| NamingLemmas.NoExtensionRejected | ramses/file_manager.py:259 | example: under any prefix list, `FPE_A_TRI_MOD` (no extension) does not decode; the general fact is `Naming.Decompose`'s own ensures |
| NamingLemmas.LongStepRejected | ramses/file_manager.py:259 | example: under any prefix list, `FPE_G_MODELLINGXYZ.blend` (an eleven-character step) does not decode; the general bound is `WellFormed`, ensured of every decoded record |
| NamingLemmas.TrailingVersionLikeRejected | ramses/file_manager.py:259 | a lone trailing token such as `v1abc` is neither a resource nor a version, so the name does not decode |
| NamingLemmas.LowerCaseAssetLetter | ramses/file_manager.py:212-216 | under any prefix list, a lower-case `a` matches the pattern but decodes with no type and an empty object |
| NamingLemmas.LeadingDotExample | ramses/file_manager.py:173-176 | a general item's name with a doubled dot (`FPE_G_MOD..blend`) decodes with extension `.blend`, re-encodes with a single dot (`FPE_G_MOD.blend`), and that decodes with extension `blend` |
| NamingLemmas.GeneralModelDecodes | ramses/file_manager.py:181-239 | `<project>_G_<step>.<ext>`, with valid id fields and extension, decodes under any prefix list as a general item with no object, resource, state or version |
| NamingLemmas.DigitEndingPrefixExample | ramses/file_manager.py:259 | with a prefix `v1` listed before `v`, the name built for version 12 decodes as state `v1` and version 2 |
| FileManager.ChildPath | ramses/file_manager.py:35 | a name inside a non-empty folder is `folder/name` |
| FileManager.MadeDir | ramses/file_manager.py:38-39 | creating the versions folder fails iff its parent already lists that name; on success the new folder exists and is empty |
| FileManager.HighestIsUpperBound | ramses/file_manager.py:46-74 | the scan's version is at least 0 and no sibling of the lineage has a higher version |
| FileManager.HighestIsFirstMaximum | ramses/file_manager.py:46-74 | with no sibling above 0 the scan gives (0, `v`); otherwise it gives the version and state of the first listed sibling that reaches the maximum |
| FileManager.HighestState | ramses/file_manager.py:48-74 | the state found is `v` or a decoded state |
| FileManager.NextVersionNameDecodes | ramses/file_manager.py:76-85 | the new name decodes to the source's blocks with version highest + 1 and the state found |
| FileManager.CopiedGrows | ramses/file_manager.py:86-87 | a copy fails only onto its own source and then changes nothing; on success it returns `folder/name`, the destination listing gains exactly that entry at its end (or stays as it is when the name was listed), and every other folder is unchanged |
| FileManager.MadeDirGrows | ramses/file_manager.py:38-39 | creating a folder only adds to listings, adds only the parent and the new folder, and leaves every other listing unchanged |
| FileManager.FirstVersionFrame | ramses/file_manager.py:37-43 | the first version fails on a name clash with `_versions` and then changes nothing; otherwise `_versions` exists and is empty, the file's folder gains `_versions` and then at most the copy under `compose(decoded, True)`, and no other folder changes |
| FileManager.NextVersionFrame | ramses/file_manager.py:76-88 | a later version copies into the versions folder under the next name, which that listing gains at its end unless already listed; no other folder changes and no folder is added; nothing changes when it fails |
| FileManager.GrowsKeepsFiles | ramses/file_manager.py:42 | a file that existed before `increment` still exists after it |
| FileManager.IncrementFrame | ramses/file_manager.py:15-88 | `increment` only adds names, changes no folder but the file's folder and its versions folder, creates at most the `_versions` folder, keeps the source, fails with `MissingFile` iff the source is not a file and with `MalformedName` iff its name does not decode (changing nothing), changes nothing when it fails on an existing versions folder, and on success returns a listed path |
| FileManager.IncrementFirstVersion | ramses/file_manager.py:20-43 | without a versions folder, success means the name decoded with a type, the result is the incremented name beside the source, it is listed, and the versions folder now exists |
| FileManager.IncrementNextVersion | ramses/file_manager.py:45-88 | with a versions folder, success returns the next-version name there; the found version is ≥ 0, its state is `v` or decoded, and every listed sibling's version is below the new one |
| FileManager.VersionsFolderIsChild | ramses/file_manager.py:30-35 | for a folder not named `_versions`, the versions folder is its `_versions` child |
| FileManager.RootVersionsFolder | ramses/file_manager.py:30-35 | for any bare file name (no `/`) the folder is `""`, the source's versions folder is `/_versions`, whose own folder is the root `/`; the corrected one is `_versions` beside the file |
| FileManager.FileSystem.MakeDir | ramses/file_manager.py:38-39 | the state after `makedirs` is `MadeDir` of the state before, or unchanged with `FileExists` |
| FileManager.FileSystem.Copy | ramses/file_manager.py:42 | the state after `copy2` is `Copied` of the state before |
| FileManager.ScanHighest | ramses/file_manager.py:46-74 | the loop computes the highest sibling version and its state, `Highest` |
| FileManager.CopyFirstVersion | ramses/file_manager.py:37-43 | result and new state are `FirstVersion` of the old state |
| FileManager.CopyNextVersion | ramses/file_manager.py:45-88 | result and new state are `NextVersion` of the old state |
| FileManager.Increment | ramses/file_manager.py:15-88 | result and new state are `IncrementResult` of the old state |
| Items.ItemFolderName | ramses/ram_item.py:204-209 | the corrected item folder name `project_T_shortName` is recognised as an item folder name whenever both parts are id fields |
| Items.AssetFolderNameAsWritten | ramses/ram_item.py:204-209 | the folder name the source builds for asset TRI of FPE is `FPE_A__TRI`, which is not recognised; the corrected `FPE_A_TRI` is |
| Items.GeneralFolderNameAgrees | ramses/ram_item.py:204-209 | for a general item the built name and the corrected name coincide |
| Items.InsertByKey | ramses/ram_item.py:523 | insertion keeps the elements and adds one, and keeps a sorted list sorted |
| Items.SortByKey | ramses/ram_item.py:523 | the sorted list is a permutation of the input, ordered by the key |
| Items.ScanLatestVersion | ramses/ram_item.py:331-348 | the loop computes the version half of `LatestIn` |
| Items.ScanLatestVersionFile | ramses/ram_item.py:466-484 | the loop's path is that of the index `LatestIn` finds, or empty |
| Items.ScanVersionFiles | ramses/ram_item.py:500-522 | the loop computes `FilesIn` under the version-file filter |
| Items.ScanStepFiles | ramses/ram_item.py:272-285 | the loop computes `FilesIn` under the step-file filter |
| Items.RamItem.constructor | ramses/ram_item.py:95-107 | a new item holds its arguments and empty project caches |
| Items.RamItem.FolderPath | ramses/ram_item.py:180-230 | result and new caches are `FolderPathOf` |
| Items.RamItem.Group | ramses/ram_item.py:652-686 | result and new caches are `GroupOf` |
| Items.RamItem.ProjectShortName | ramses/ram_item.py:630-649 | result and new caches are `ProjectShortNameOf` |
| Items.RamItem.StepFolderPath | ramses/ram_item.py:232-258 | result and new caches are `StepFolderPathOf` |
| Items.RamItem.VersionFolderPath | ramses/ram_item.py:423-446 | result and new caches are `VersionFolderPathOf` |
| Items.RamItem.LatestVersion | ramses/ram_item.py:316-348 | result and new caches are `LatestVersionOf` |
| Items.RamItem.LatestVersionFilePath | ramses/ram_item.py:448-484 | result and new caches are `LatestVersionFilePathOf` |
| Items.RamItem.VersionFilePaths | ramses/ram_item.py:486-524 | result and new caches are `VersionFilePathsOf` |
| Items.RamItem.StepFilePaths | ramses/ram_item.py:260-285 | result and new caches are `StepFilePathsOf` |
| Items.LatestInIsFirstMaximum | ramses/ram_item.py:337-348 | the latest version is ≥ -1 and no candidate is above it; "nothing found" iff it is -1; the index found is the first candidate that reaches it |
| Items.KeptIndices | ramses/ram_item.py:502-522 | the kept indices are increasing and are exactly the indices of names that decode and pass the filter |
| Items.FilesInFollowsListing | ramses/ram_item.py:502-522 | a filtered listing has one path per kept index, in listing order |
| Items.FilesInExactly | ramses/ram_item.py:274-284 | a path is in a filtered listing iff it is built from a listed name that decodes and passes the filter |
| Items.LatestVersionAgrees | ramses/ram_item.py:331-348 | `latestVersion` and `latestVersionFilePath` leave the item alike, fail together, give -1 and `""` together, and a path found names a listed candidate of the latest version |
| Items.VersionFilePathsExactly | ramses/ram_item.py:486-524 | `""` iff there is no versions folder; `[]` without a project short name; else exactly the listed files of the project, type, step/object rule and resource, sorted by the key |
| Items.StepFilePathsExactly | ramses/ram_item.py:260-285 | a missing step folder fails only when it is the item folder itself; else exactly the listed files of the project, step, object and type |
| Items.DerivationsKeepCaches | ramses/ram_item.py:180-258 | folder, group, project short name, step folder and versions folder never change identity nor overwrite a set cache |
| Items.ScansKeepCaches | ramses/ram_item.py:316-524 | the four scans never change identity nor overwrite a set cache |
| Items.FolderPathIdempotent | ramses/ram_item.py:190-228 | asking for the folder twice gives the same answer and the same caches |
| Items.GroupIdempotent | ramses/ram_item.py:659-686 | asking for the group twice gives the same answer and the same caches; a set group is returned as is, and `""` for non-assets |
| Items.ProjectShortNameIdempotent | ramses/ram_item.py:633-649 | asking for the project short name twice gives the same answer and the same caches |
| Items.StepFolderInItemFolder | ramses/ram_item.py:236-258 | for an empty folder, an empty step or a general item the step folder is the item folder; otherwise it is a path built inside the item folder |
| Items.FromPath | ramses/ram_item.py:22-92 | None without a decoded name or a save file; an asset or shot sits in a recognised item folder (the save folder or the one above), has an empty name and the object as short name; an asset's group is the folder above; a general item sits in the save folder and is named by object and step; None otherwise only for an unknown type |
| Items.FromPathGeneralFallback | ramses/ram_item.py:53-62 | when neither the save folder nor its parent is an item folder, the item is general and rooted at the save folder |

## Left out

- I/O (`os.listdir`, `isfile`, `isdir`, `makedirs`, `shutil.copy2`): it is modelled as listings.
  File contents and metadata are not modelled.
- `makedirs` in `stepFolderPath`/`versionFolderPath`: the creation is not recorded in an item's
  folders. A created folder lists nothing, and later `isdir` checks in `group` see the folders as
  they were.
- The daemon: `__updateFromDaemon`, the online branches, `setStatus` and `currentStatus`. The
  model is offline throughout.
- `RamObject.getObjectShortName`: step and state arrive as short-name strings. Its `TypeError` on
  other objects is not modelled.
- `stepFilePath`, `previewFolderPath`, `previewFilePaths`, `publishFolderPath`,
  `publishFilePaths`, `project`, `isPublished`, `steps` and `name` of ram_item.py: these are
  outside the scanning core modelled here.
- `fromPath`: the duration argument of `RamShot` (0.0) and the subclass types `RamAsset`/`RamShot`.
  The result is the `Item` value the base constructor would hold; ram_asset.py is not part of this
  model.
- `_getVersionRegExStr`: appending the states to the settings' own prefix list on every call is
  not modelled. The prefix list is a value.
- Python `re` in general: only the one file-name grammar and the item-folder pattern are modelled.
  Case folding is ASCII only.
- Console output and the `log` calls are not modelled.
- Sort stability: `SortByKey` is an insertion sort ordered by the key. Its order among equal keys
  is stated nowhere.
- Copy onto an existing name: the listing is kept as it is (an overwrite), even when the existing
  entry is a folder.
- Items.FolderPathOf: the mutual recursion of `folderPath` and `group` for an asset with neither
  cache set is modelled as `Err(RecursionError)`, not as a stack overflow.
- Items.LatestVersionAgrees: assumes that `buildPath` never returns `""`, which its code is not
  shown to guarantee.
- NamingLemmas.RoundTrip: stated only for names with a type letter (a lower-case `a`/`s` makes
  `composeRamsesFileName` raise). It also requires an extension that does not start with a dot
  (see `LeadingDotExtensionLost`), no prefix ending in a digit (see `DigitEndingPrefixExample`), and
  an `intToStr` that writes a non-negative value in decimal digits.
- Items.FolderPathOf: for an asset or a shot it builds the corrected folder name
  `project_T_shortName` (`Items.ItemFolderName`), not the `project_T__shortName` of
  `ramses/ram_item.py:204-209` (see "## Findings"). `RamItem.FolderPath` and everything derived from
  it (`ProjectShortName`, `StepFolderPath`, `VersionFolderPath` and the four scans) therefore find
  the folder the source evidently intends, not the one it builds.
- Items.RamItem.FolderPath: uses `Items.FolderPathOf`, so it builds the corrected name as above.
- FileManager.IncrementResult: for a bare file name it uses the versions folder `_versions` and the
  copy path `name` beside the file (`ChildPath("", n) == n`), not the `/_versions` and `/name` of
  `ramses/file_manager.py:35` and `:41` (see "## Findings").
- FileManager.Increment: computes `IncrementResult`, so the same correction applies.
- The decoded-block keys: `ram_item.py` reads `project`/`type`/`object`/`step`/`resource`, which
  `decomposeRamsesFileName` does not emit, so as written the scans at `ramses/ram_item.py:279`,
  `:341`, `:473` and `:506` raise `KeyError` on the first listed name that decodes. The model reads
  the field each key evidently means instead.
- The versions folder name: the source reads it from the settings
  (`RamSettings.instance().folderNames.versions`, `ramses/file_manager.py:31`); the model uses the
  constant `_versions` (`Naming.VersionsFolderName`).
- FileManager.IncrementFrame: on success it states only that the result is listed at some
  `folder/name`. The name itself is stated branch by branch in `IncrementFirstVersion` and
  `IncrementNextVersion`.
- FileManager.CopiedGrows: it states that the destination name is listed, not that it is listed
  as a file, because a copy onto an existing folder of that name keeps the folder entry.

## Findings

| source | as written | input that shows it | evidently intended | confidence | as-written member | corrected member |
|---|---|---|---|---|---|---|
| ramses/ram_item.py:204-209 | `folderPath` builds the item folder name with `buildRamsesFileName(project, shortName, '', type)`, so the short name lands in the step slot and an asset or shot gets an empty object block | asset TRI of project FPE: `FPE_A__TRI`, which `_isRamsesItemFoldername` rejects | `FPE_A_TRI`, the folder name `_isRamsesItemFoldername` and `fromPath` expect | not executed | Items.AssetFolderNameAsWritten | Items.ItemFolderName |
| ramses/file_manager.py:30-35 | the versions folder is `fileFolder + '/' + '_versions'`, and the first copy goes to `fileFolder + '/' + name` (line 41) | a bare file name `FPE_G_MOD.blend`: `dirname` is `""`, so the folder becomes `/_versions` at the file-system root | `_versions` beside the file, as for any other folder | not executed | FileManager.RootVersionsFolder | FileManager.VersionsFolderIsChild |
