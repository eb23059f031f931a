/** The Ramses file-naming codec (ramses/file_manager.py):

      project_T[_object]_step[_resource][_<prefix>digits].ext

    `Decompose` decodes a name with the single grammar of the source, `RamsesFileName` and `Compose`
    encode one, `FixResource` sanitises free-form resources and `IsRamsesItemFolderName` recognises the
    root folders of items. The version prefixes are passed in explicitly. */
module Naming {
  import opened Wrappers
  import opened Strings

  /** Reserved folder names (ramses/ramSettings.py). */
  const VersionsFolderName := "_versions"
  const PreviewFolderName := "_preview"
  const PublishFolderName := "_published"

  /** Short names of the default workflow states, which become version prefixes. */
  const DefaultStateShortNames: seq<string> := ["NO", "TODO", "WIP", "OK"]

  /** The runtime list of version prefixes, in the order the pattern tries them. The pattern builder
      indexes the last element (an empty list makes it raise), and every prefix is a plain token that
      the pattern treats as a literal. */
  type PrefixList = ps: seq<string> | |ps| > 0 && forall i :: 0 <= i < |ps| ==> IsPlainToken(ps[i])
    witness ["v"]

  // ---------------------------------------------------------------------------------------------
  // Character classes of the grammar (all compiled case-insensitively)

  /** `[a-z0-9+-]`, the class of the project, object and step fields. */
  predicate IsIdChar(c: char) { IsAlnum(c) || c == '+' || c == '-' }

  /** `[a-z0-9+-]{1,10}` */
  predicate IsIdField(s: string)
  {
    1 <= |s| <= 10 && forall i :: 0 <= i < |s| ==> IsIdChar(s[i])
  }

  /** `\s` of a Python str pattern: the characters str.isspace() accepts. */
  predicate IsWhitespace(c: char)
  {
    var n := c as int;
    n == 0x20 || 0x09 <= n <= 0x0d || 0x1c <= n <= 0x1f || n == 0x85 || n == 0xa0 || n == 0x1680
    || 0x2000 <= n <= 0x200a || n == 0x2028 || n == 0x2029 || n == 0x202f || n == 0x205f || n == 0x3000
  }

  /** `[a-z0-9+\s-]`, the class of the resource field. */
  predicate IsResourceChar(c: char) { IsAlnum(c) || c == '+' || c == '-' || IsWhitespace(c) }

  /** `[a-z0-9.]+`, the extension after the first dot. */
  predicate IsExtension(s: string)
  {
    |s| > 0 && forall i :: 0 <= i < |s| ==> IsAlnum(s[i]) || s[i] == '.'
  }

  // ---------------------------------------------------------------------------------------------
  // _fixResourceStr

  /** The table of characters that may not appear in a resource, and their replacements. */
  const ForbiddenCharacters: map<char, char> := map[
    '"' := ' ', '_' := '-', '[' := '-', ']' := '-', '{' := '-', '}' := '-', '(' := '-', ')' := '-',
    '\'' := ' ', '`' := ' ', '.' := '-', '/' := '-', '\\' := '-', ',' := ' ']

  /** The replacement of one character: never a table key, and the character itself when it is not one. */
  function FixChar(c: char): (r: char)
    ensures r !in ForbiddenCharacters
    ensures c !in ForbiddenCharacters ==> r == c
    ensures c in ForbiddenCharacters ==> r == ForbiddenCharacters[c]
  {
    if c in ForbiddenCharacters then ForbiddenCharacters[c] else c
  }

  /** The sanitised resource: a 1:1 remap through the table, so the same length, characters outside
      the table kept, and no table key (in particular no `_`) left in the output. */
  function FixResource(s: string): (r: string)
    ensures |r| == |s|
    ensures forall i :: 0 <= i < |s| && s[i] !in ForbiddenCharacters ==> r[i] == s[i]
    ensures forall i :: 0 <= i < |s| && s[i] in ForbiddenCharacters ==> r[i] == ForbiddenCharacters[s[i]]
    ensures forall i :: 0 <= i < |r| ==> r[i] !in ForbiddenCharacters
  {
    if s == [] then [] else [FixChar(s[0])] + FixResource(s[1..])
  }

  /** `_fixResourceStr`: the loop that grows the sanitised string one character at a time. */
  method FixResourceStr(resourceStr: string) returns (fixedResourceStr: string)
    ensures fixedResourceStr == FixResource(resourceStr)
  {
    fixedResourceStr := "";
    for i := 0 to |resourceStr|
      invariant |fixedResourceStr| == i
      invariant forall k :: 0 <= k < i ==> fixedResourceStr[k] == FixChar(resourceStr[k])
    {
      var c := resourceStr[i];
      if c in ForbiddenCharacters {
        fixedResourceStr := fixedResourceStr + [ForbiddenCharacters[c]];
      } else {
        fixedResourceStr := fixedResourceStr + [c];
      }
    }
  }

  // ---------------------------------------------------------------------------------------------
  // _getVersionRegExStr

  /** `_getVersionRegExStr`: the alternation `p1|p2|...|pn` of the prefixes, in list order. The
      source indexes `prefixes[-1]`, so an empty list raises (None here). */
  method VersionRegExStr(prefixes: seq<string>) returns (r: Option<string>)
    ensures prefixes == [] ==> r == None
    ensures prefixes != [] ==> r == Some(Join(prefixes, '|'))
  {
    if |prefixes| == 0 {
      return None;
    }
    var regexStr := "";
    for i := 0 to |prefixes| - 1
      invariant regexStr + Join(prefixes[i..], '|') == Join(prefixes, '|')
    {
      assert prefixes[i..][1..] == prefixes[i + 1..];
      regexStr := regexStr + prefixes[i] + "|";
    }
    assert prefixes[|prefixes| - 1..] == [prefixes[|prefixes| - 1]];
    regexStr := regexStr + prefixes[|prefixes| - 1];
    return Some(regexStr);
  }

  // ---------------------------------------------------------------------------------------------
  // decomposeRamsesFileName

  /** The blocks of a decoded name. `ramType` is None where the source's dict holds None: a lower-case
      `a` or `s` matches the pattern case-insensitively but fails the case-sensitive type test. */
  datatype FileNameInfo = FileNameInfo(
    project: string,
    ramType: Option<string>,
    objectShortName: string,
    step: string,
    resource: string,
    state: string,
    version: int,
    extension: string)

  /** Python's `$` also matches before one final newline. */
  function DropFinalNewline(s: string): string
  {
    if |s| > 0 && s[|s| - 1] == '\n' then s[..|s| - 1] else s
  }

  /** `p` (ignoring case) followed by a digit: what the lookahead `(?:prefixes)?[0-9]+` sees. */
  predicate PrefixThenDigit(x: string, p: string)
  {
    |x| > |p| && SameIgnoringCase(x[..|p|], p) && IsDigit(x[|p|])
  }

  /** The negative lookahead at the resource position rejects a token starting like a version block. */
  predicate LooksLikeVersion(x: string, ps: seq<string>)
  {
    (|x| > 0 && IsDigit(x[0])) || exists i :: 0 <= i < |ps| && PrefixThenDigit(x, ps[i])
  }

  /** `(?!(?:prefixes)?[0-9]+)[a-z0-9+\s-]+` */
  predicate IsResourceToken(x: string, ps: seq<string>)
  {
    |x| > 0 && (forall i :: 0 <= i < |x| ==> IsResourceChar(x[i])) && !LooksLikeVersion(x, ps)
  }

  /** `p` (ignoring case) followed by one or more digits and nothing else. */
  predicate PrefixThenDigits(x: string, p: string)
  {
    |x| > |p| && SameIgnoringCase(x[..|p|], p) && AllDigits(x[|p|..])
  }

  /** The version group tried with each prefix in list order: the matched prefix text and the value. */
  function PrefixedVersion(x: string, ps: seq<string>): (r: Option<(string, nat)>)
    ensures r.Some? ==> exists i :: 0 <= i < |ps| && PrefixThenDigits(x, ps[i])
                                    && r.value == (x[..|ps[i]|], DigitsValue(x[|ps[i]|..]))
                                    && forall j :: 0 <= j < i ==> !PrefixThenDigits(x, ps[j])
    ensures r.None? ==> forall i :: 0 <= i < |ps| ==> !PrefixThenDigits(x, ps[i])
  {
    if ps == [] then None
    else if PrefixThenDigits(x, ps[0]) then Some((x[..|ps[0]|], DigitsValue(x[|ps[0]|..])))
    else
      var r := PrefixedVersion(x, ps[1..]);
      assert r.Some? ==> exists i :: 1 <= i < |ps| && PrefixThenDigits(x, ps[i])
                                    && r.value == (x[..|ps[i]|], DigitsValue(x[|ps[i]|..]))
                                    && forall j :: 0 <= j < i ==> !PrefixThenDigits(x, ps[j]) by {
        if r.Some? {
          var k :| 0 <= k < |ps| - 1 && PrefixThenDigits(x, ps[1..][k])
                   && r.value == (x[..|ps[1..][k]|], DigitsValue(x[|ps[1..][k]|..]))
                   && forall j :: 0 <= j < k ==> !PrefixThenDigits(x, ps[1..][j]);
          assert forall j :: 0 <= j < k + 1 ==> !PrefixThenDigits(x, ps[j]) by {
            forall j | 0 <= j < k + 1 ensures !PrefixThenDigits(x, ps[j]) {
              if j > 0 { assert ps[j] == ps[1..][j - 1]; }
            }
          }
          assert ps[k + 1] == ps[1..][k];
        }
      }
      r
  }

  /** `(prefixes)?([0-9]+)` on a whole token: the state text (empty when no prefix) and the version. */
  function VersionBlock(x: string, ps: seq<string>): (r: Option<(string, nat)>)
    ensures r.Some? ==> IsState(r.value.0, ps)
  {
    match PrefixedVersion(x, ps)
    case Some(b) => Some(b)
    case None => if |x| > 0 && AllDigits(x) then Some(("", DigitsValue(x))) else None
  }

  /** A state as the version group captures it: empty, or one of the prefixes up to case. */
  predicate IsState(state: string, ps: seq<string>)
  {
    state == "" || exists i :: 0 <= i < |ps| && SameIgnoringCase(state, ps[i])
  }

  /** Every field the grammar can produce, as the pattern's groups constrain them. */
  predicate WellFormed(c: FileNameInfo, ps: seq<string>)
  {
    && IsIdField(c.project)
    && IsIdField(c.step)
    && c.ramType in {Some("A"), Some("S"), Some("G"), Some("g"), None}
    && (if c.ramType == Some("A") || c.ramType == Some("S") then IsIdField(c.objectShortName) else c.objectShortName == "")
    && (c.resource == "" || IsResourceToken(c.resource, ps))
    && c.version >= -1
    && (c.version == -1 ==> c.state == "")
    && IsState(c.state, ps)
    && IsExtension(c.extension)
  }

  /** The `_`-separated tokens before the first dot, and the extension after it. None of the fields
      before the extension may hold a dot or an underscore, so the first dot ends them. */
  function SplitName(name: string): (r: Option<(seq<string>, string)>)
    ensures r.Some? ==> IsExtension(r.value.1) && NoneContains(r.value.0, '_') && NoneContains(r.value.0, '.')
  {
    var body := DropFinalNewline(name);
    match IndexOf(body, '.')
    case None => None
    case Some(d) =>
      var ext := body[d + 1..];
      if IsExtension(ext) then
        var tokens := Split(body[..d], '_');
        assert NoneContains(tokens, '.') by {
          JoinSplit(body[..d], '_');
          JoinedTokensAvoid(tokens, '_', '.');
        }
        Some((tokens, ext))
      else None
  }

  /** The optional resource and version blocks after the step. */
  function DecomposeTail(project: string, ramType: Option<string>, objectShortName: string, step: string,
                         rest: seq<string>, ext: string, ps: seq<string>): (r: Option<FileNameInfo>)
    ensures r.Some? ==> && r.value.project == project && r.value.ramType == ramType
                        && r.value.objectShortName == objectShortName && r.value.step == step
                        && r.value.extension == ext
    ensures r.Some? ==> (r.value.resource == "" || IsResourceToken(r.value.resource, ps))
    ensures r.Some? ==> r.value.version >= -1 && (r.value.version == -1 ==> r.value.state == "")
                        && IsState(r.value.state, ps)
  {
    if |rest| == 0 then
      Some(FileNameInfo(project, ramType, objectShortName, step, "", "", -1, ext))
    else if |rest| == 1 then
      if IsResourceToken(rest[0], ps) then
        Some(FileNameInfo(project, ramType, objectShortName, step, rest[0], "", -1, ext))
      else
        match VersionBlock(rest[0], ps)
        case Some((state, version)) => Some(FileNameInfo(project, ramType, objectShortName, step, "", state, version, ext))
        case None => None
    else if |rest| == 2 && IsResourceToken(rest[0], ps) then
      match VersionBlock(rest[1], ps)
      case Some((state, version)) => Some(FileNameInfo(project, ramType, objectShortName, step, rest[0], state, version, ext))
      case None => None
    else None
  }

  /** `project_(?:([AS])_object|(G))_step...` over the tokens. */
  function DecomposeTokens(t: seq<string>, ext: string, ps: seq<string>): (r: Option<FileNameInfo>)
    ensures r.Some? && IsExtension(ext) ==> WellFormed(r.value, ps)
  {
    if |t| < 3 || !IsIdField(t[0]) then None
    else if t[1] in {"A", "S", "a", "s"} then
      if |t| < 4 || !IsIdField(t[2]) || !IsIdField(t[3]) then None
      else if t[1] == "A" || t[1] == "S" then DecomposeTail(t[0], Some(t[1]), t[2], t[3], t[4..], ext, ps)
      else DecomposeTail(t[0], None, "", t[3], t[4..], ext, ps)
    else if t[1] in {"G", "g"} then
      if !IsIdField(t[2]) then None
      else DecomposeTail(t[0], Some(t[1]), "", t[2], t[3..], ext, ps)
    else None
  }

  /** `decomposeRamsesFileName`: the blocks of a name, or None when the name does not match. */
  function Decompose(name: string, ps: PrefixList): (r: Option<FileNameInfo>)
    ensures '.' !in DropFinalNewline(name) ==> r == None
    ensures r.Some? ==> WellFormed(r.value, ps)
  {
    match SplitName(name)
    case None => None
    case Some((tokens, ext)) => DecomposeTokens(tokens, ext, ps)
  }

  // ---------------------------------------------------------------------------------------------
  // buildRamsesFileName / composeRamsesFileName

  /** `buildRamsesFileName`: the accumulator of the source, one binding per reassignment. `intToStr`
      is the source's number formatter, which is not part of this model. */
  function RamsesFileName(project: string, step: string, ext: string, ramType: string,
                          objectShortName: string, resourceStr: string, version: int,
                          versionPrefix: string, intToStr: int -> string): (r: string)
    ensures |r| >= |project| + 1 + |ramType|
    ensures r[..|project| + 1 + |ramType|] == project + "_" + ramType
    ensures ext != "" && ext[0] == '.' ==> |r| >= |ext| && r[|r| - |ext|..] == ext
    ensures ext != "" && ext[0] != '.' ==> |r| > |ext| && r[|r| - |ext| - 1..] == "." + ext
  {
    var resource := FixResource(resourceStr);
    var name0 := project + "_" + ramType;
    var name1 := if ramType == "A" || ramType == "S" then name0 + "_" + objectShortName else name0;
    var name2 := name1 + "_" + step;
    var name3 := if resource != "" then name2 + "_" + resource else name2;
    var name4 := if version != -1 then name3 + "_" + versionPrefix + intToStr(version) else name3;
    if ext != "" then
      var dotted := if ext[0] == '.' then ext else "." + ext;
      name4 + dotted
    else name4
  }

  /** The version `composeRamsesFileName` encodes. */
  function ComposedVersion(version: int, increment: bool): int
  {
    if !increment then version else if version <= 0 then 1 else version + 1
  }

  /** `composeRamsesFileName`: a name from decoded blocks. A None type makes the source's string
      concatenation raise, so no name is produced. */
  function Compose(info: FileNameInfo, increment: bool, intToStr: int -> string): (r: Option<string>)
    ensures r.Some? <==> info.ramType.Some?
  {
    if info.ramType.None? then None
    else Some(RamsesFileName(info.project, info.step, info.extension, info.ramType.value, info.objectShortName,
                             info.resource, ComposedVersion(info.version, increment), info.state, intToStr))
  }

  // ---------------------------------------------------------------------------------------------
  // _isRamsesItemFoldername

  /** `^([a-z0-9+-]{1,10})_[ASG]_([a-z0-9+-]{1,10})$`, case-insensitive. */
  function IsRamsesItemFolderName(n: string): bool
  {
    var t := Split(DropFinalNewline(n), '_');
    |t| == 3 && IsIdField(t[0]) && t[1] in {"A", "S", "G", "a", "s", "g"} && IsIdField(t[2])
  }
}
