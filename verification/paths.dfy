/** The two POSIX path functions the core relies on: `os.path.basename` and `os.path.dirname`.
    Both cut a path at its last `/`. */
module Paths {
  import opened Wrappers

  /** The index of the last `/` in `p`. */
  function LastSlash(p: string): (r: Option<nat>)
    ensures r.None? <==> '/' !in p
    ensures r.Some? ==> r.value < |p| && p[r.value] == '/' && '/' !in p[r.value + 1..]
  {
    if p == [] then None
    else if p[|p| - 1] == '/' then Some(|p| - 1)
    else
      var r := LastSlash(p[..|p| - 1]);
      assert r.Some? ==> p[r.value + 1..] == p[..|p| - 1][r.value + 1..] + [p[|p| - 1]];
      assert '/' in p ==> '/' in p[..|p| - 1] by {
        if '/' in p {
          var k :| 0 <= k < |p| && p[k] == '/';
          assert p[..|p| - 1][k] == '/';
        }
      }
      r
  }

  /** `os.path.basename`: everything after the last `/`. */
  function Basename(p: string): (r: string)
    ensures '/' !in r
    ensures |r| <= |p| && p[|p| - |r|..] == r
    ensures |r| < |p| ==> p[|p| - |r| - 1] == '/'
  {
    match LastSlash(p)
    case None => p
    case Some(i) => p[i + 1..]
  }

  predicate AllSlashes(s: string)
  {
    forall i :: 0 <= i < |s| ==> s[i] == '/'
  }

  /** `s.rstrip('/')` */
  function StripTrailingSlashes(s: string): (r: string)
    ensures |r| <= |s| && s[..|r|] == r
    ensures r == "" || r[|r| - 1] != '/'
    ensures AllSlashes(s[|r|..])
  {
    if s != [] && s[|s| - 1] == '/' then
      var r := StripTrailingSlashes(s[..|s| - 1]);
      assert s[|r|..] == s[..|s| - 1][|r|..] + ['/'];
      r
    else s
  }

  /** `os.path.dirname`: everything up to the last `/`, with the trailing slashes removed unless the
      head is made only of slashes (the root). */
  function Dirname(p: string): (r: string)
    ensures |r| <= |p| && p[..|r|] == r
    ensures '/' !in p ==> r == ""
  {
    match LastSlash(p)
    case None => ""
    case Some(i) =>
      var head := p[..i + 1];
      if !AllSlashes(head) then StripTrailingSlashes(head) else head
  }

  /** A name appended to a folder after a `/` is the basename of the result. */
  lemma BasenameOfChild(folder: string, name: string)
    requires '/' !in name
    ensures Basename(folder + "/" + name) == name
  {
    var p := folder + "/" + name;
    assert p[|folder|] == '/';
    assert p[|folder| + 1..] == name;
    var b := Basename(p);
    assert p[|p| - |b|..] == b;
  }

  /** A folder that does not end with `/` is the dirname of any of its children. */
  lemma DirnameOfChild(folder: string, name: string)
    requires '/' !in name && folder != "" && folder[|folder| - 1] != '/'
    ensures Dirname(folder + "/" + name) == folder
  {
    var p := folder + "/" + name;
    assert p[|folder|] == '/';
    assert p[|folder| + 1..] == name;
    assert LastSlash(p) == Some(|folder|);
    var head := p[..|folder| + 1];
    assert head == folder + "/";
    assert !AllSlashes(head) by {
      assert head[|folder| - 1] == folder[|folder| - 1];
    }
    var r := StripTrailingSlashes(head);
  }

  /** A child of the root has the root as its dirname. */
  lemma DirnameOfRootChild(name: string)
    requires '/' !in name
    ensures Dirname("/" + name) == "/"
  {
    var p := "/" + name;
    assert p[1..] == name;
    var r := LastSlash(p);
    assert r == Some(0) by {
      assert r.Some?;
    }
    assert p[..1] == "/";
    assert AllSlashes("/");
  }
}
