/** Properties of the naming codec: the segment structure of built names, the decoding of built
    names, the round trip through `Compose`, the sanitiser and the item folder names. */
module NamingLemmas {
  import opened Wrappers
  import opened Strings
  import opened Naming

  /** No version prefix ends with a digit, so a prefix and the digits after it cannot be re-split. */
  predicate NoPrefixEndsWithDigit(ps: seq<string>)
  {
    forall i :: 0 <= i < |ps| ==> !EndsWithDigit(ps[i])
  }

  /** The number formatter writes every non-negative number as digits that read back as that number. */
  ghost predicate IntToStrReadsBack(intToStr: int -> string)
  {
    forall v: int :: v >= 0 ==> |intToStr(v)| > 0 && AllDigits(intToStr(v)) && DigitsValue(intToStr(v)) == v
  }

  // ---------------------------------------------------------------------------------------------
  // Segments of a built name

  /** The extension as appended: omitted when empty, given a leading dot when it has none. */
  function Dotted(ext: string): string
  {
    if ext == "" then "" else if ext[0] == '.' then ext else "." + ext
  }

  /** The resource and version blocks, each present only when it has content. */
  function OptionalBlocks(resource: string, version: int, versionPrefix: string, intToStr: int -> string): seq<string>
  {
    (if resource != "" then [resource] else []) + (if version != -1 then [versionPrefix + intToStr(version)] else [])
  }

  /** The `_`-separated segments of a name: project and type, the object for assets and shots only,
      the step, then the optional blocks with the sanitised resource. */
  function FileNameSegments(project: string, step: string, ramType: string, objectShortName: string,
                            resourceStr: string, version: int, versionPrefix: string,
                            intToStr: int -> string): seq<string>
  {
    [project, ramType] + (if ramType == "A" || ramType == "S" then [objectShortName] else []) + [step]
    + OptionalBlocks(FixResource(resourceStr), version, versionPrefix, intToStr)
  }

  /** A built name is its segments joined by `_`, followed by the dotted extension. */
  lemma RamsesFileNameSegments(project: string, step: string, ext: string, ramType: string,
                               objectShortName: string, resourceStr: string, version: int,
                               versionPrefix: string, intToStr: int -> string)
    ensures RamsesFileName(project, step, ext, ramType, objectShortName, resourceStr, version, versionPrefix, intToStr)
         == Join(FileNameSegments(project, step, ramType, objectShortName, resourceStr, version, versionPrefix, intToStr), '_')
            + Dotted(ext)
  {
    var resource := FixResource(resourceStr);
    var s0 := [project, ramType];
    var n0 := project + "_" + ramType;
    assert Join(s0, '_') == n0 by {
      assert s0[1..] == [ramType];
    }
    var s1 := s0 + (if ramType == "A" || ramType == "S" then [objectShortName] else []);
    var n1 := if ramType == "A" || ramType == "S" then n0 + "_" + objectShortName else n0;
    if ramType == "A" || ramType == "S" {
      JoinAppend(s0, objectShortName, '_');
    } else {
      assert s1 == s0;
    }
    assert Join(s1, '_') == n1;
    var s2 := s1 + [step];
    var n2 := n1 + "_" + step;
    JoinAppend(s1, step, '_');
    assert Join(s2, '_') == n2;
    var s3 := s2 + (if resource != "" then [resource] else []);
    var n3 := if resource != "" then n2 + "_" + resource else n2;
    if resource != "" {
      JoinAppend(s2, resource, '_');
    } else {
      assert s3 == s2;
    }
    assert Join(s3, '_') == n3;
    var s4 := s3 + (if version != -1 then [versionPrefix + intToStr(version)] else []);
    var n4 := if version != -1 then n3 + "_" + versionPrefix + intToStr(version) else n3;
    if version != -1 {
      JoinAppend(s3, versionPrefix + intToStr(version), '_');
      assert n3 + "_" + versionPrefix + intToStr(version) == n3 + ['_'] + (versionPrefix + intToStr(version));
    } else {
      assert s4 == s3;
    }
    assert Join(s4, '_') == n4;
    assert s4 == FileNameSegments(project, step, ramType, objectShortName, resourceStr, version, versionPrefix, intToStr);
  }

  // ---------------------------------------------------------------------------------------------
  // Decoding what was built

  /** Tokens free of `_` and `.`, joined and followed by an extension, split back into themselves. */
  lemma SplitNameOf(ts: seq<string>, ext: string)
    requires |ts| > 0 && NoneContains(ts, '_') && NoneContains(ts, '.') && IsExtension(ext)
    ensures SplitName(Join(ts, '_') + "." + ext) == Some((ts, ext))
  {
    var j := Join(ts, '_');
    var name := j + "." + ext;
    assert name[|name| - 1] == ext[|ext| - 1];
    assert DropFinalNewline(name) == name;
    JoinAvoids(ts, '_', '.');
    IndexOfAfterPrefix(j, ext, '.');
    assert IndexOf(name, '.') == Some(|j|);
    assert name[..|j|] == j;
    assert name[|j| + 1..] == ext;
    SplitJoin(ts, '_');
  }

  /** A prefix shorter than `s` that matches the start of `s + d` leaves the last character of `s`
      to the digits. */
  lemma ShortPrefixLeavesDigit(s: string, d: string, p: string)
    requires |p| < |s| && PrefixThenDigits(s + d, p)
    ensures EndsWithDigit(s)
  {
    assert (s + d)[|p|..][|s| - 1 - |p|] == s[|s| - 1];
  }

  /** A prefix that matches the start of `s + d` has the length of `s`, when neither ends with a digit:
      a shorter one would leave a digit of `s` to the version, a longer one would end on a digit of `d`. */
  lemma MatchLength(s: string, d: string, p: string)
    requires IsPlainToken(s) && !EndsWithDigit(s) && !EndsWithDigit(p)
    requires AllDigits(d) && PrefixThenDigits(s + d, p)
    ensures |p| == |s|
  {
    var x := s + d;
    if |p| < |s| {
      ShortPrefixLeavesDigit(s, d, p);
    } else if |p| > |s| {
      assert x[|p| - 1] == d[|p| - 1 - |s|];
      assert Lower(x[..|p|][|p| - 1]) == Lower(p[|p| - 1]);
      LowerKeepsClass(x[|p| - 1]);
      LowerKeepsClass(p[|p| - 1]);
    }
  }

  /** A state and the digits of a version, glued together, read back as that state and that value,
      and are never taken for a resource. */
  lemma VersionBlockOf(s: string, d: string, ps: seq<string>)
    requires |d| > 0 && AllDigits(d) && IsState(s, ps) && NoPrefixEndsWithDigit(ps)
    requires forall i :: 0 <= i < |ps| ==> IsPlainToken(ps[i])
    ensures VersionBlock(s + d, ps) == Some((s, DigitsValue(d)))
    ensures !IsResourceToken(s + d, ps)
  {
    var x := s + d;
    var k: int := -1;
    if s != "" {
      k :| 0 <= k < |ps| && SameIgnoringCase(s, ps[k]);
      SameIgnoringCasePlain(s, ps[k]);
      assert x[..|ps[k]|] == s && x[|ps[k]|..] == d;
      assert PrefixThenDigits(x, ps[k]);
      assert PrefixThenDigit(x, ps[k]);
    } else {
      assert x == d;
      assert IsDigit(x[0]);
    }
    match PrefixedVersion(x, ps)
    case Some(b) =>
      var i :| 0 <= i < |ps| && PrefixThenDigits(x, ps[i]) && b == (x[..|ps[i]|], DigitsValue(x[|ps[i]|..]));
      MatchLength(s, d, ps[i]);
      assert x[..|s|] == s && x[|s|..] == d;
    case None =>
      assert s == "";
  }

  /** The resource and version blocks of a built name decode to the resource, the state and the version. */
  lemma DecomposeTailOf(project: string, ramType: Option<string>, objectShortName: string, step: string,
                        resource: string, version: int, versionPrefix: string, intToStr: int -> string,
                        ext: string, ps: seq<string>)
    requires resource == "" || IsResourceToken(resource, ps)
    requires version >= -1 && (version != -1 ==> IsState(versionPrefix, ps))
    requires NoPrefixEndsWithDigit(ps) && IntToStrReadsBack(intToStr)
    requires forall i :: 0 <= i < |ps| ==> IsPlainToken(ps[i])
    ensures DecomposeTail(project, ramType, objectShortName, step,
                          OptionalBlocks(resource, version, versionPrefix, intToStr), ext, ps)
         == Some(FileNameInfo(project, ramType, objectShortName, step, resource,
                              if version == -1 then "" else versionPrefix, version, ext))
  {
    if version != -1 {
      var d := intToStr(version);
      assert |d| > 0 && AllDigits(d) && DigitsValue(d) == version;
      VersionBlockOf(versionPrefix, d, ps);
    }
  }

  /** Every segment of a well-formed built name is free of `_` and `.`. */
  lemma SegmentsAvoidSeparators(project: string, step: string, ramType: string, objectShortName: string,
                                resourceStr: string, version: int, versionPrefix: string,
                                intToStr: int -> string, ps: seq<string>)
    requires IsIdField(project) && IsIdField(step) && ramType in {"A", "S", "G", "g"}
    requires ramType == "A" || ramType == "S" ==> IsIdField(objectShortName)
    requires version >= -1 && (version != -1 ==> IsState(versionPrefix, ps))
    requires IntToStrReadsBack(intToStr)
    requires forall i :: 0 <= i < |ps| ==> IsPlainToken(ps[i])
    ensures var ts := FileNameSegments(project, step, ramType, objectShortName, resourceStr, version, versionPrefix, intToStr);
            NoneContains(ts, '_') && NoneContains(ts, '.')
  {
    var ts := FileNameSegments(project, step, ramType, objectShortName, resourceStr, version, versionPrefix, intToStr);
    if version != -1 {
      var v := versionPrefix + intToStr(version);
      assert AllDigits(intToStr(version));
      if versionPrefix != "" {
        var k :| 0 <= k < |ps| && SameIgnoringCase(versionPrefix, ps[k]);
        SameIgnoringCasePlain(versionPrefix, ps[k]);
      }
      assert forall i :: 0 <= i < |v| ==> IsAlnum(v[i]) by {
        forall i | 0 <= i < |v| ensures IsAlnum(v[i]) {
          if i >= |versionPrefix| {
            assert v[i] == intToStr(version)[i - |versionPrefix|];
          }
        }
      }
    }
    forall i | 0 <= i < |ts| ensures '_' !in ts[i] && '.' !in ts[i] {
      var t := ts[i];
      assert forall j :: 0 <= j < |t| ==> t[j] != '_' && t[j] != '.';
    }
  }

  /** Decoding a name built from well-formed fields gives those fields back, with the sanitised
      resource, the object only for assets and shots, and no state without a version. */
  lemma EncodeDecode(project: string, step: string, ext: string, ramType: string, objectShortName: string,
                     resourceStr: string, version: int, versionPrefix: string, intToStr: int -> string,
                     ps: PrefixList)
    requires IsIdField(project) && IsIdField(step) && ramType in {"A", "S", "G", "g"}
    requires ramType == "A" || ramType == "S" ==> IsIdField(objectShortName)
    requires FixResource(resourceStr) == "" || IsResourceToken(FixResource(resourceStr), ps)
    requires version >= -1 && (version != -1 ==> IsState(versionPrefix, ps))
    requires IsExtension(ext) && ext[0] != '.'
    requires NoPrefixEndsWithDigit(ps) && IntToStrReadsBack(intToStr)
    ensures Decompose(RamsesFileName(project, step, ext, ramType, objectShortName, resourceStr, version,
                                     versionPrefix, intToStr), ps)
         == Some(FileNameInfo(project, Some(ramType), if ramType == "A" || ramType == "S" then objectShortName else "",
                              step, FixResource(resourceStr), if version == -1 then "" else versionPrefix, version, ext))
  {
    var ts := FileNameSegments(project, step, ramType, objectShortName, resourceStr, version, versionPrefix, intToStr);
    var name := RamsesFileName(project, step, ext, ramType, objectShortName, resourceStr, version, versionPrefix, intToStr);
    RamsesFileNameSegments(project, step, ext, ramType, objectShortName, resourceStr, version, versionPrefix, intToStr);
    assert name == Join(ts, '_') + "." + ext;
    SegmentsAvoidSeparators(project, step, ramType, objectShortName, resourceStr, version, versionPrefix, intToStr, ps);
    SplitNameOf(ts, ext);
    assert Decompose(name, ps) == DecomposeTokens(ts, ext, ps);
    DecomposeSegments(project, step, ramType, objectShortName, FixResource(resourceStr), version, versionPrefix,
                      intToStr, ext, ps);
  }

  /** The tokens of a built name decode to its fields. */
  lemma DecomposeSegments(project: string, step: string, ramType: string, objectShortName: string,
                          resource: string, version: int, versionPrefix: string, intToStr: int -> string,
                          ext: string, ps: PrefixList)
    requires IsIdField(project) && IsIdField(step) && ramType in {"A", "S", "G", "g"}
    requires ramType == "A" || ramType == "S" ==> IsIdField(objectShortName)
    requires resource == "" || IsResourceToken(resource, ps)
    requires version >= -1 && (version != -1 ==> IsState(versionPrefix, ps))
    requires NoPrefixEndsWithDigit(ps) && IntToStrReadsBack(intToStr)
    ensures DecomposeTokens([project, ramType] + (if ramType == "A" || ramType == "S" then [objectShortName] else [])
                            + [step] + OptionalBlocks(resource, version, versionPrefix, intToStr), ext, ps)
         == Some(FileNameInfo(project, Some(ramType), if ramType == "A" || ramType == "S" then objectShortName else "",
                              step, resource, if version == -1 then "" else versionPrefix, version, ext))
  {
    var tail := OptionalBlocks(resource, version, versionPrefix, intToStr);
    var ts := [project, ramType] + (if ramType == "A" || ramType == "S" then [objectShortName] else []) + [step] + tail;
    DecomposeTailOf(project, Some(ramType), if ramType == "A" || ramType == "S" then objectShortName else "", step,
                    resource, version, versionPrefix, intToStr, ext, ps);
    if ramType == "A" || ramType == "S" {
      assert ts[1] == ramType && ts[2] == objectShortName && ts[3] == step && ts[4..] == tail;
    } else {
      assert ts[1] == ramType && ts[2] == step && ts[3..] == tail;
    }
  }

  // ---------------------------------------------------------------------------------------------
  // Round trip

  /** A resource the grammar accepts holds no character the sanitiser replaces. */
  lemma ResourceTokenIsFixed(x: string, ps: seq<string>)
    requires IsResourceToken(x, ps)
    ensures FixResource(x) == x
  {
    assert forall i :: 0 <= i < |x| ==> x[i] !in ForbiddenCharacters;
  }

  /** Well-formed blocks with a type and an extension without a leading dot encode to a name that
      decodes to exactly those blocks. */
  lemma EncodeInfo(c: FileNameInfo, intToStr: int -> string, ps: PrefixList)
    requires WellFormed(c, ps) && c.ramType.Some? && c.extension[0] != '.'
    requires NoPrefixEndsWithDigit(ps) && IntToStrReadsBack(intToStr)
    ensures Decompose(RamsesFileName(c.project, c.step, c.extension, c.ramType.value, c.objectShortName, c.resource,
                                     c.version, c.state, intToStr), ps) == Some(c)
  {
    if c.resource != "" {
      ResourceTokenIsFixed(c.resource, ps);
    }
    EncodeDecode(c.project, c.step, c.extension, c.ramType.value, c.objectShortName, c.resource, c.version, c.state,
                 intToStr, ps);
  }

  /** Re-encoding decoded blocks, with or without increment, decodes to the same blocks with the
      encoded version. Needs a type that re-encodes (not None), an extension without the leading dot
      the encoder would otherwise drop, prefixes that do not end with a digit, and a formatter that
      writes numbers back as digits. */
  lemma ComposeDecompose(n: string, c: FileNameInfo, increment: bool, intToStr: int -> string, ps: PrefixList)
    requires Decompose(n, ps) == Some(c) && c.ramType.Some?
    requires c.extension == "" || c.extension[0] != '.'
    requires NoPrefixEndsWithDigit(ps) && IntToStrReadsBack(intToStr)
    ensures Compose(c, increment, intToStr).Some?
    ensures Decompose(Compose(c, increment, intToStr).value, ps)
         == Some(c.(version := ComposedVersion(c.version, increment)))
  {
    assert WellFormed(c, ps);
    var d := c.(version := ComposedVersion(c.version, increment));
    assert WellFormed(d, ps);
    EncodeInfo(d, intToStr, ps);
  }

  /** `decompose(compose(decompose(n), False)) == decompose(n)`. */
  lemma RoundTrip(n: string, c: FileNameInfo, intToStr: int -> string, ps: PrefixList)
    requires Decompose(n, ps) == Some(c) && c.ramType.Some?
    requires c.extension == "" || c.extension[0] != '.'
    requires NoPrefixEndsWithDigit(ps) && IntToStrReadsBack(intToStr)
    ensures Compose(c, false, intToStr).Some? && Decompose(Compose(c, false, intToStr).value, ps) == Decompose(n, ps)
  {
    ComposeDecompose(n, c, false, intToStr, ps);
  }

  /** `compose(c, True)` moves to the next version: 1 from no version or version 0, otherwise one more;
      every other block decodes unchanged. */
  lemma ComposeIncrement(n: string, c: FileNameInfo, intToStr: int -> string, ps: PrefixList)
    requires Decompose(n, ps) == Some(c) && c.ramType.Some?
    requires c.extension == "" || c.extension[0] != '.'
    requires NoPrefixEndsWithDigit(ps) && IntToStrReadsBack(intToStr)
    ensures Compose(c, true, intToStr).Some?
    ensures var d := Decompose(Compose(c, true, intToStr).value, ps);
            d.Some? && d.value.version == (if c.version <= 0 then 1 else c.version + 1)
            && d.value.(version := c.version) == c
  {
    ComposeDecompose(n, c, true, intToStr, ps);
  }

  /** An extension that starts with a dot loses it on re-encoding: the encoder takes that dot for its
      own separator, so the re-decoded extension is one character shorter. */
  lemma LeadingDotExtensionLost(n: string, c: FileNameInfo, intToStr: int -> string, ps: PrefixList)
    requires Decompose(n, ps) == Some(c) && c.ramType.Some?
    requires |c.extension| > 1 && c.extension[0] == '.' && c.extension[1] != '.'
    requires NoPrefixEndsWithDigit(ps) && IntToStrReadsBack(intToStr)
    ensures Compose(c, false, intToStr).Some?
    ensures Decompose(Compose(c, false, intToStr).value, ps) == Some(c.(extension := c.extension[1..]))
  {
    assert WellFormed(c, ps);
    var e := c.extension[1..];
    assert IsExtension(e) by {
      assert forall i :: 0 <= i < |e| ==> e[i] == c.extension[i + 1];
    }
    assert "." + e == c.extension;
    var d := c.(extension := e);
    assert WellFormed(d, ps);
    EncodeInfo(d, intToStr, ps);
  }

  // ---------------------------------------------------------------------------------------------
  // Sanitiser

  /** Sanitising twice is sanitising once. */
  lemma FixResourceIdempotent(s: string)
    ensures FixResource(FixResource(s)) == FixResource(s)
  {
    var r := FixResource(s);
    assert forall i :: 0 <= i < |r| ==> FixResource(r)[i] == r[i];
  }

  /** A sanitised resource never holds a block separator, a dot or a path separator. */
  lemma FixResourceSeparators(s: string)
    ensures '_' !in FixResource(s) && '.' !in FixResource(s) && '/' !in FixResource(s) && '\\' !in FixResource(s)
  {
    var r := FixResource(s);
    assert forall i :: 0 <= i < |r| ==> r[i] !in ForbiddenCharacters;
  }

  // ---------------------------------------------------------------------------------------------
  // Version prefix alternation

  /** The alternation lists the prefixes, in order, and nothing else. */
  lemma AlternationLists(ps: PrefixList)
    ensures Split(Join(ps, '|'), '|') == ps
  {
    assert NoneContains(ps, '|');
    SplitJoin(ps, '|');
  }

  // ---------------------------------------------------------------------------------------------
  // Item folder names

  /** A recognised item folder name is a project field, a type letter and an object field, joined by
      `_`, possibly followed by the one newline `$` allows. */
  lemma ItemFolderNameParts(n: string)
    requires IsRamsesItemFolderName(n)
    ensures exists p, l, o :: IsIdField(p) && l in {"A", "S", "G", "a", "s", "g"} && IsIdField(o)
                              && (n == p + "_" + l + "_" + o || n == p + "_" + l + "_" + o + "\n")
  {
    var b := DropFinalNewline(n);
    var t := Split(b, '_');
    JoinSplit(b, '_');
    assert t == [t[0], t[1], t[2]];
    JoinThree(t[0], t[1], t[2], '_');
    if b != n {
      assert n == b + "\n";
    }
  }

  /** A project field, a type letter and an object field, joined by `_`, are a recognised item folder name. */
  lemma ItemFolderNameRecognised(p: string, l: string, o: string)
    requires IsIdField(p) && l in {"A", "S", "G", "a", "s", "g"} && IsIdField(o)
    ensures IsRamsesItemFolderName(p + "_" + l + "_" + o)
  {
    var n := p + "_" + l + "_" + o;
    assert DropFinalNewline(n) == n by {
      assert n[|n| - 1] == o[|o| - 1];
    }
    var ts := [p, l, o];
    JoinThree(p, l, o, '_');
    assert '_' !in p && '_' !in o;
    SplitJoin(ts, '_');
  }

  // ---------------------------------------------------------------------------------------------
  // Examples

  /** A name made of `_`-joined tokens and an extension decodes as its tokens. */
  lemma DecomposeJoined(ts: seq<string>, ext: string, ps: PrefixList)
    requires |ts| > 0 && NoneContains(ts, '_') && NoneContains(ts, '.') && IsExtension(ext)
    ensures Decompose(Join(ts, '_') + "." + ext, ps) == DecomposeTokens(ts, ext, ps)
  {
    SplitNameOf(ts, ext);
  }

  lemma ValueOf003()
    ensures AllDigits("003") && DigitsValue("003") == 3
  {
    assert "003"[..2] == "00" && "00"[..1] == "0" && "0"[..0] == "";
  }

  /** The working file of asset TRI at step MOD. */
  lemma AssetWorkingFileName(intToStr: int -> string)
    ensures RamsesFileName("FPE", "MOD", "blend", "A", "TRI", "", -1, "v", intToStr) == "FPE_A_TRI_MOD.blend"
  {
    assert FixResource("") == "";
  }

  lemma AssetVersionJoined()
    ensures Join(["FPE", "A", "TRI", "MOD", "v003"], '_') + "." + "blend" == "FPE_A_TRI_MOD_v003.blend"
  {
    JoinFive("FPE", "A", "TRI", "MOD", "v003");
    assert "FPE" + "_" + "A" + "_" + "TRI" + "_" + "MOD" + "_" + "v003" + "." + "blend" == "FPE_A_TRI_MOD_v003.blend";
  }

  /** Five tokens joined with `_`. */
  lemma JoinFive(a: string, b: string, c: string, d: string, e: string)
    ensures Join([a, b, c, d, e], '_') == a + "_" + b + "_" + c + "_" + d + "_" + e
  {
    JoinThree(a, b, c, '_');
    JoinAppend([a, b, c], d, '_');
    assert [a, b, c] + [d] == [a, b, c, d];
    JoinAppend([a, b, c, d], e, '_');
    assert [a, b, c, d] + [e] == [a, b, c, d, e];
  }

  lemma AssetVersionTokens()
    ensures DecomposeTokens(["FPE", "A", "TRI", "MOD", "v003"], "blend", ["v"])
         == Some(FileNameInfo("FPE", Some("A"), "TRI", "MOD", "", "v", 3, "blend"))
  {
    var ts := ["FPE", "A", "TRI", "MOD", "v003"];
    assert ts[4..] == ["v003"];
    assert PrefixThenDigit("v003", "v");
    ValueOf003();
    assert "v003"[..1] == "v" && "v003"[1..] == "003";
    assert PrefixThenDigits("v003", "v");
    assert PrefixedVersion("v003", ["v"]) == Some(("v", 3));
    assert VersionBlock("v003", ["v"]) == Some(("v", 3));
    assert !IsResourceToken("v003", ["v"]);
    assert DecomposeTail("FPE", Some("A"), "TRI", "MOD", ["v003"], "blend", ["v"])
        == Some(FileNameInfo("FPE", Some("A"), "TRI", "MOD", "", "v", 3, "blend"));
    assert IsIdField("FPE") && IsIdField("TRI") && IsIdField("MOD");
    assert ts[1] == "A";
  }

  /** Version 3 of that file, under prefix `v`. */
  lemma AssetVersionDecodes()
    ensures Decompose("FPE_A_TRI_MOD_v003.blend", ["v"])
         == Some(FileNameInfo("FPE", Some("A"), "TRI", "MOD", "", "v", 3, "blend"))
  {
    AssetVersionJoined();
    DecomposeJoined(["FPE", "A", "TRI", "MOD", "v003"], "blend", ["v"]);
    AssetVersionTokens();
  }

  /** `project_G_step` followed by one more token, joined. */
  lemma JoinedGeneral(project: string, step: string, last: string)
    ensures Join([project, "G", step, last], '_') == project + "_G_" + step + "_" + last
  {
    JoinThree(project, "G", step, '_');
    JoinAppend([project, "G", step], last, '_');
    assert [project, "G", step] + [last] == [project, "G", step, last];
  }

  /** Without a dot there is no extension, and no match. */
  lemma NoExtensionRejected(ps: PrefixList)
    ensures Decompose("FPE_A_TRI_MOD", ps) == None
  {
    var n := "FPE_A_TRI_MOD";
    assert DropFinalNewline(n) == n;
    assert forall i :: 0 <= i < |n| ==> n[i] != '.';
  }

  /** A step of twelve characters is longer than the ten the grammar allows. */
  lemma LongStepRejected(ps: PrefixList)
    ensures Decompose("FPE_G_MODELLINGXYZ.blend", ps) == None
  {
    LongStepJoined();
    DecomposeJoined(["FPE", "G", "MODELLINGXYZ"], "blend", ps);
    LongStepTokens(ps);
  }

  lemma LongStepJoined()
    ensures Join(["FPE", "G", "MODELLINGXYZ"], '_') + "." + "blend" == "FPE_G_MODELLINGXYZ.blend"
  {
    JoinThree("FPE", "G", "MODELLINGXYZ", '_');
  }

  lemma LongStepTokens(ps: seq<string>)
    ensures DecomposeTokens(["FPE", "G", "MODELLINGXYZ"], "blend", ps) == None
  {
    assert !IsIdField("MODELLINGXYZ");
  }

  /** `v1abc` is no resource (it starts like a version) and no version block (it does not end like one). */
  lemma TrailingVersionLikeRejected()
    ensures Decompose("FPE_G_MOD_v1abc.blend", ["v"]) == None
  {
    TrailingVersionLikeJoined();
    DecomposeJoined(["FPE", "G", "MOD", "v1abc"], "blend", ["v"]);
    TrailingVersionLikeTokens();
  }

  lemma TrailingVersionLikeJoined()
    ensures Join(["FPE", "G", "MOD", "v1abc"], '_') + "." + "blend" == "FPE_G_MOD_v1abc.blend"
  {
    JoinedGeneral("FPE", "MOD", "v1abc");
  }

  lemma TrailingVersionLikeTokens()
    ensures DecomposeTokens(["FPE", "G", "MOD", "v1abc"], "blend", ["v"]) == None
  {
    assert LooksLikeVersion("v1abc", ["v"]) by {
      assert PrefixThenDigit("v1abc", ["v"][0]);
    }
    assert "v1abc"[1..][1] == 'a';
    assert !PrefixThenDigits("v1abc", "v");
    assert !AllDigits("v1abc");
    assert VersionBlock("v1abc", ["v"]) == None;
    assert ["FPE", "G", "MOD", "v1abc"][3..] == ["v1abc"];
    assert IsIdField("FPE") && IsIdField("MOD");
  }

  /** A lower-case `a` passes the case-insensitive pattern but not the case-sensitive type test: no
      type, and no object. */
  lemma LowerCaseAssetLetter(ps: PrefixList)
    ensures Decompose("FPE_a_TRI_MOD.blend", ps) == Some(FileNameInfo("FPE", None, "", "MOD", "", "", -1, "blend"))
  {
    LowerCaseJoined();
    DecomposeJoined(["FPE", "a", "TRI", "MOD"], "blend", ps);
    LowerCaseTokens(ps);
  }

  lemma LowerCaseJoined()
    ensures Join(["FPE", "a", "TRI", "MOD"], '_') + "." + "blend" == "FPE_a_TRI_MOD.blend"
  {
    JoinThree("FPE", "a", "TRI", '_');
    JoinAppend(["FPE", "a", "TRI"], "MOD", '_');
    assert ["FPE", "a", "TRI"] + ["MOD"] == ["FPE", "a", "TRI", "MOD"];
  }

  lemma LowerCaseTokens(ps: seq<string>)
    ensures DecomposeTokens(["FPE", "a", "TRI", "MOD"], "blend", ps)
         == Some(FileNameInfo("FPE", None, "", "MOD", "", "", -1, "blend"))
  {
    assert ["FPE", "a", "TRI", "MOD"][4..] == [];
    assert IsIdField("FPE") && IsIdField("TRI") && IsIdField("MOD");
  }

  /** A general item's name with a doubled dot, such as `FPE_G_MOD..blend`, decodes with the
      extension `.blend`; re-encoding drops the dot (`FPE_G_MOD.blend`), and that name decodes with
      the extension `blend`. */
  lemma LeadingDotExample(project: string, step: string, ext: string, intToStr: int -> string, ps: PrefixList)
    requires IsIdField(project) && IsIdField(step) && IsExtension(ext)
    ensures Decompose(project + "_G_" + step + ".." + ext, ps)
         == Some(FileNameInfo(project, Some("G"), "", step, "", "", -1, "." + ext))
    ensures Compose(FileNameInfo(project, Some("G"), "", step, "", "", -1, "." + ext), false, intToStr)
         == Some(project + "_G_" + step + "." + ext)
    ensures Decompose(project + "_G_" + step + "." + ext, ps)
         == Some(FileNameInfo(project, Some("G"), "", step, "", "", -1, ext))
  {
    LeadingDotDecoded(project, step, ext, ps);
    LeadingDotComposed(project, step, ext, intToStr);
    GeneralModelDecodes(project, step, ext, ps);
  }

  lemma LeadingDotDecoded(project: string, step: string, ext: string, ps: PrefixList)
    requires IsIdField(project) && IsIdField(step) && IsExtension(ext)
    ensures Decompose(project + "_G_" + step + ".." + ext, ps)
         == Some(FileNameInfo(project, Some("G"), "", step, "", "", -1, "." + ext))
  {
    var dotted := "." + ext;
    assert IsExtension(dotted) by {
      assert forall i :: 1 <= i < |dotted| ==> dotted[i] == ext[i - 1];
    }
    GeneralModelDecodes(project, step, dotted, ps);
    assert project + "_G_" + step + "." + dotted == project + "_G_" + step + ".." + ext;
  }

  lemma LeadingDotComposed(project: string, step: string, ext: string, intToStr: int -> string)
    ensures Compose(FileNameInfo(project, Some("G"), "", step, "", "", -1, "." + ext), false, intToStr)
         == Some(project + "_G_" + step + "." + ext)
  {
    assert FixResource("") == "";
    assert RamsesFileName(project, step, "." + ext, "G", "", "", -1, "", intToStr)
        == project + "_G" + "_" + step + "." + ext;
    assert project + "_G" + "_" + step + "." + ext == project + "_G_" + step + "." + ext;
  }

  /** `<project>_G_<step>.<ext>` decodes as a general item with no version, whatever the prefixes. */
  lemma GeneralModelDecodes(project: string, step: string, ext: string, ps: PrefixList)
    requires IsIdField(project) && IsIdField(step) && IsExtension(ext)
    ensures Decompose(project + "_G_" + step + "." + ext, ps)
         == Some(FileNameInfo(project, Some("G"), "", step, "", "", -1, ext))
  {
    GeneralModelJoined(project, step, ext);
    DecomposeJoined([project, "G", step], ext, ps);
    GeneralModelTokens(project, step, ext, ps);
  }

  lemma GeneralModelJoined(project: string, step: string, ext: string)
    ensures Join([project, "G", step], '_') + "." + ext == project + "_G_" + step + "." + ext
  {
    JoinThree(project, "G", step, '_');
  }

  lemma GeneralModelTokens(project: string, step: string, ext: string, ps: seq<string>)
    requires IsIdField(project) && IsIdField(step)
    ensures DecomposeTokens([project, "G", step], ext, ps)
         == Some(FileNameInfo(project, Some("G"), "", step, "", "", -1, ext))
  {
    assert [project, "G", step][3..] == [];
  }

  /** With a prefix that ends with a digit, version 12 under prefix `v` reads back as version 2 under `v1`. */
  lemma DigitEndingPrefixExample()
    ensures RamsesFileName("FPE", "MOD", "blend", "G", "", "", 12, "v", v => if v == 12 then "12" else "0")
         == "FPE_G_MOD_v12.blend"
    ensures Decompose("FPE_G_MOD_v12.blend", ["v1", "v"])
         == Some(FileNameInfo("FPE", Some("G"), "", "MOD", "", "v1", 2, "blend"))
  {
    DigitEndingBuilt();
    DigitEndingJoined();
    DecomposeJoined(["FPE", "G", "MOD", "v12"], "blend", ["v1", "v"]);
    DigitEndingTokens();
  }

  lemma DigitEndingBuilt()
    ensures RamsesFileName("FPE", "MOD", "blend", "G", "", "", 12, "v", v => if v == 12 then "12" else "0")
         == "FPE_G_MOD_v12.blend"
  {
    assert FixResource("") == "";
  }

  lemma DigitEndingJoined()
    ensures Join(["FPE", "G", "MOD", "v12"], '_') + "." + "blend" == "FPE_G_MOD_v12.blend"
  {
    JoinedGeneral("FPE", "MOD", "v12");
  }

  lemma DigitEndingTokens()
    ensures DecomposeTokens(["FPE", "G", "MOD", "v12"], "blend", ["v1", "v"])
         == Some(FileNameInfo("FPE", Some("G"), "", "MOD", "", "v1", 2, "blend"))
  {
    assert "v12"[..2] == "v1" && "v12"[2..] == "2" && "2"[..0] == "";
    assert LooksLikeVersion("v12", ["v1", "v"]) by {
      assert PrefixThenDigit("v12", ["v1", "v"][0]);
    }
    assert PrefixThenDigits("v12", "v1");
    assert VersionBlock("v12", ["v1", "v"]) == Some(("v1", 2));
    assert ["FPE", "G", "MOD", "v12"][3..] == ["v12"];
    assert IsIdField("FPE") && IsIdField("MOD");
  }
}
