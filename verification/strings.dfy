/** Character classes and string helpers shared by the naming codec and the path functions.
    Letters are ASCII; case-insensitive comparison folds A-Z onto a-z. */
module Strings {
  import opened Wrappers

  predicate IsDigit(c: char) { '0' <= c <= '9' }

  predicate IsAsciiLetter(c: char) { 'a' <= c <= 'z' || 'A' <= c <= 'Z' }

  predicate IsAlnum(c: char) { IsAsciiLetter(c) || IsDigit(c) }

  /** ASCII lower-casing, the folding a case-insensitive pattern applies to ASCII letters. */
  function Lower(c: char): char
  {
    if 'A' <= c <= 'Z' then (c as int + 32) as char else c
  }

  predicate SameIgnoringCase(a: string, b: string)
  {
    |a| == |b| && forall i :: 0 <= i < |a| ==> Lower(a[i]) == Lower(b[i])
  }

  predicate AllDigits(s: string)
  {
    forall i :: 0 <= i < |s| ==> IsDigit(s[i])
  }

  /** A token made only of ASCII letters and digits (possibly empty). */
  predicate IsPlainToken(s: string)
  {
    forall i :: 0 <= i < |s| ==> IsAlnum(s[i])
  }

  predicate EndsWithDigit(s: string)
  {
    |s| > 0 && IsDigit(s[|s| - 1])
  }

  /** The value of a decimal digit string, as Python's int() reads it (leading zeros allowed). */
  function DigitsValue(s: string): nat
    requires AllDigits(s)
  {
    if s == [] then 0 else DigitsValue(s[..|s| - 1]) * 10 + (s[|s| - 1] as int - '0' as int)
  }

  /** Lower-casing neither creates nor destroys digits, letters or other characters. */
  lemma LowerKeepsClass(c: char)
    ensures IsDigit(Lower(c)) <==> IsDigit(c)
    ensures IsAlnum(Lower(c)) <==> IsAlnum(c)
  {
  }

  /** A string equal, up to case, to a plain token is itself a plain token, and ends with a digit
      exactly when the token does. */
  lemma SameIgnoringCasePlain(s: string, p: string)
    requires SameIgnoringCase(s, p) && IsPlainToken(p)
    ensures IsPlainToken(s)
    ensures EndsWithDigit(s) <==> EndsWithDigit(p)
  {
    forall i | 0 <= i < |s| ensures IsAlnum(s[i]) {
      LowerKeepsClass(s[i]);
      LowerKeepsClass(p[i]);
    }
    if |s| > 0 {
      LowerKeepsClass(s[|s| - 1]);
      LowerKeepsClass(p[|p| - 1]);
    }
  }

  /** The first index of `c` in `s`. */
  function IndexOf(s: string, c: char): (r: Option<nat>)
    ensures r.None? <==> c !in s
    ensures r.Some? ==> r.value < |s| && s[r.value] == c && c !in s[..r.value]
  {
    if s == [] then None
    else if s[0] == c then Some(0)
    else
      match IndexOf(s[1..], c)
      case None => None
      case Some(k) =>
        assert s[..k + 1] == [s[0]] + s[1..][..k];
        Some(k + 1)
  }

  lemma IndexOfAfterPrefix(a: string, b: string, c: char)
    requires c !in a
    ensures IndexOf(a + [c] + b, c) == Some(|a|)
  {
    var s := a + [c] + b;
    assert s[|a|] == c;
    assert s[..|a|] == a;
  }

  /** Python's str.split(sep): the pieces between separators, empty pieces kept. */
  function Split(s: string, sep: char): (r: seq<string>)
    ensures |r| > 0
    ensures forall i :: 0 <= i < |r| ==> sep !in r[i]
    decreases |s|
  {
    if s == [] then [""]
    else
      var rest := Split(s[1..], sep);
      if s[0] == sep then [""] + rest
      else [[s[0]] + rest[0]] + rest[1..]
  }

  /** Python's sep.join(ts). */
  function Join(ts: seq<string>, sep: char): string
    requires |ts| > 0
  {
    if |ts| == 1 then ts[0] else ts[0] + [sep] + Join(ts[1..], sep)
  }

  predicate NoneContains(ts: seq<string>, c: char)
  {
    forall i :: 0 <= i < |ts| ==> c !in ts[i]
  }

  lemma JoinAppend(ts: seq<string>, t: string, sep: char)
    requires |ts| > 0
    ensures Join(ts + [t], sep) == Join(ts, sep) + [sep] + t
  {
    if |ts| > 1 {
      assert (ts + [t])[1..] == ts[1..] + [t];
      JoinAppend(ts[1..], t, sep);
    }
  }

  lemma JoinThree(a: string, b: string, c: string, sep: char)
    ensures Join([a, b, c], sep) == a + [sep] + b + [sep] + c
  {
    var ts := [a, b, c];
    assert ts[1..] == [b, c] && ts[1..][1..] == [c];
    assert Join([b, c], sep) == b + [sep] + c;
  }

  lemma {:induction false} JoinAvoids(ts: seq<string>, sep: char, c: char)
    requires |ts| > 0 && NoneContains(ts, c) && c != sep
    ensures c !in Join(ts, sep)
  {
    if |ts| > 1 {
      JoinAvoids(ts[1..], sep, c);
    }
  }

  /** No piece of a joined string holds a character the joined string lacks. */
  lemma {:induction false} JoinedTokensAvoid(ts: seq<string>, sep: char, c: char)
    requires |ts| > 0 && c !in Join(ts, sep)
    ensures NoneContains(ts, c)
  {
    if |ts| > 1 {
      assert Join(ts, sep) == ts[0] + ([sep] + Join(ts[1..], sep));
      JoinedTokensAvoid(ts[1..], sep, c);
      assert forall i :: 1 <= i < |ts| ==> ts[i] == ts[1..][i - 1];
    }
  }

  lemma {:induction false} SplitPrefix(a: string, t: string, sep: char)
    requires sep !in a
    ensures Split(a + t, sep) == [a + Split(t, sep)[0]] + Split(t, sep)[1..]
  {
    if a == [] {
      var r := Split(t, sep);
      assert a + t == t;
      assert a + r[0] == r[0];
      assert r == [r[0]] + r[1..];
    } else {
      assert (a + t)[1..] == a[1..] + t;
      SplitPrefix(a[1..], t, sep);
      assert [a[0]] + (a[1..] + Split(t, sep)[0]) == a + Split(t, sep)[0];
    }
  }

  /** Splitting undoes joining, when no piece holds the separator. */
  lemma {:induction false} SplitJoin(ts: seq<string>, sep: char)
    requires |ts| > 0 && NoneContains(ts, sep)
    ensures Split(Join(ts, sep), sep) == ts
  {
    if |ts| == 1 {
      SplitPrefix(ts[0], "", sep);
      assert ts[0] + "" == ts[0];
    } else {
      var j := Join(ts[1..], sep);
      SplitJoin(ts[1..], sep);
      assert ([sep] + j)[1..] == j;
      SplitPrefix(ts[0], [sep] + j, sep);
      assert ts[0] + [sep] + j == ts[0] + ([sep] + j);
      assert ts[0] + "" == ts[0];
    }
  }

  /** Joining undoes splitting. */
  lemma {:induction false} JoinSplit(s: string, sep: char)
    ensures Join(Split(s, sep), sep) == s
    decreases |s|
  {
    if s != [] {
      var rest := Split(s[1..], sep);
      JoinSplit(s[1..], sep);
      if s[0] == sep {
        assert ([""] + rest)[1..] == rest;
      } else {
        var r := [[s[0]] + rest[0]] + rest[1..];
        assert r[1..] == rest[1..];
        if |rest| > 1 {
          assert rest[0] + [sep] + Join(rest[1..], sep) == Join(rest, sep);
        }
        assert s == [s[0]] + s[1..];
      }
    }
  }
}
