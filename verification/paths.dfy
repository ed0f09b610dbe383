/**
 * The part of Python's `pathlib` that the audio routes rely on: the final
 * component of an uploaded filename, its suffix and its stem, and the
 * ASCII lower-casing applied to the suffix.
 *
 * Modelling assumption: paths are POSIX paths (the service runs on a POSIX
 * host), and `name`, `suffix` and `stem` follow the rules of CPython 3.12's
 * `PurePath`: empty and `.` components are dropped, the suffix starts at the
 * last `.` of the name when that dot is neither the first nor the last
 * character, and the stem is everything before it.
 */
module Paths {

  /** Index of the last occurrence of `c` in `s`, or -1 when there is none (`str.rfind`). */
  function RFind(s: string, c: char): (i: int)
    ensures -1 <= i < |s|
    ensures 0 <= i ==> s[i] == c
    ensures forall j :: i < j < |s| ==> s[j] != c
  {
    if |s| == 0 then -1
    else if s[|s| - 1] == c then |s| - 1
    else RFind(s[..|s| - 1], c)
  }

  /** The contract of `RFind` pins its result down: the last index holding `c`. */
  lemma RFindAt(s: string, c: char, k: int)
    requires -1 <= k < |s|
    requires 0 <= k ==> s[k] == c
    requires forall j :: k < j < |s| ==> s[j] != c
    ensures RFind(s, c) == k
  {
  }

  /** The final component of path `p` (`PurePosixPath(p).name`). */
  function Name(p: string): (n: string)
    ensures '/' !in n
    ensures n != "."
    ensures |n| <= |p|
    decreases |p|
  {
    var i := RFind(p, '/');
    var last := p[i + 1..];
    if last != "" && last != "." then last
    else if i < 0 then ""
    else Name(p[..i])
  }

  /** True when the dot at index `i` of a name starts a suffix. */
  predicate SplitsSuffix(n: string, i: int) {
    0 < i < |n| - 1
  }

  /** `PurePosixPath(p).suffix`: from the last dot of the name, or empty. */
  function Suffix(p: string): (s: string)
    ensures s == "" || IsExtension(s)
  {
    var n := Name(p);
    var i := RFind(n, '.');
    if SplitsSuffix(n, i) then n[i..] else ""
  }

  /** `PurePosixPath(p).stem`: the name without its suffix. */
  function Stem(p: string): (s: string)
    ensures s + Suffix(p) == Name(p)
    ensures Suffix(p) != "" ==> s != ""
    ensures '/' !in s
  {
    var n := Name(p);
    var i := RFind(n, '.');
    if SplitsSuffix(n, i) then
      assert Suffix(p) == n[i..];
      assert n[..i] + n[i..] == n;
      n[..i]
    else
      assert Suffix(p) == "";
      assert n + "" == n;
      n
  }

  /** ASCII lower-casing of one character; every other character is unchanged. */
  function LowerChar(c: char): char {
    if 'A' <= c <= 'Z' then (c as int + 32) as char else c
  }

  /** `str.lower` restricted to ASCII letters. */
  function Lower(s: string): (r: string)
    ensures |r| == |s|
    ensures forall i :: 0 <= i < |s| ==> r[i] == LowerChar(s[i])
  {
    seq(|s|, i requires 0 <= i < |s| => LowerChar(s[i]))
  }

  /** `Path(filename).suffix.lower()`, the extension every route validates. */
  function LowerSuffix(p: string): string {
    Lower(Suffix(p))
  }

  /** A well-formed extension: a dot, at least one more character, no second dot, no slash. */
  predicate IsExtension(ext: string) {
    2 <= |ext| && ext[0] == '.' && '.' !in ext[1..] && '/' !in ext
  }

  /** `n` is longer than `ext` and ends, ignoring ASCII case, in `ext`. */
  predicate EndsWithIgnoringCase(n: string, ext: string) {
    |n| > |ext| && Lower(n[|n| - |ext|..]) == ext
  }

  lemma LowerKeepsDots(s: string, t: string)
    requires Lower(s) == t
    ensures forall k :: 0 <= k < |s| ==> (s[k] == '.' <==> t[k] == '.')
  {
  }

  /**
   * The lower-cased suffix of `p` is `ext` exactly when the final component
   * is longer than `ext` and ends, ignoring ASCII case, in `ext`.
   */
  lemma LowerSuffixIs(p: string, ext: string)
    requires IsExtension(ext)
    ensures LowerSuffix(p) == ext <==> EndsWithIgnoringCase(Name(p), ext)
  {
    if LowerSuffix(p) == ext {
      LowerSuffixEnds(p, ext);
    }
    if EndsWithIgnoringCase(Name(p), ext) {
      EndsGivesLowerSuffix(p, ext);
    }
  }

  lemma {:induction false} LowerSuffixEnds(p: string, ext: string)
    requires IsExtension(ext)
    requires LowerSuffix(p) == ext
    ensures EndsWithIgnoringCase(Name(p), ext)
  {
    var n := Name(p);
    var i := RFind(n, '.');
    assert Suffix(p) != "";
    assert SplitsSuffix(n, i) && Suffix(p) == n[i..];
    assert |n| - |ext| == i;
  }

  lemma {:induction false} EndsGivesLowerSuffix(p: string, ext: string)
    requires IsExtension(ext)
    requires EndsWithIgnoringCase(Name(p), ext)
    ensures LowerSuffix(p) == ext
  {
    var n := Name(p);
    var k := |n| - |ext|;
    LowerKeepsDots(n[k..], ext);
    assert n[k] == '.' by { assert n[k..][0] == n[k]; }
    forall j | k < j < |n|
      ensures n[j] != '.'
    {
      assert n[k..][j - k] == n[j];
      assert ext[1..][j - k - 1] == ext[j - k];
    }
    RFindAt(n, '.', k);
    assert SplitsSuffix(n, k);
    assert Suffix(p) == n[k..];
  }

  /** A string without `/` other than `.` and `""` is its own final component. */
  lemma NameOfPlainName(n: string)
    requires '/' !in n && n != "" && n != "."
    ensures Name(n) == n
  {
    assert RFind(n, '/') == -1;
    assert n[0..] == n;
  }

  /** The final component of a path is what follows its last `/`, when that is a real name. */
  lemma {:induction false} NameOfJoin(dir: string, n: string)
    requires '/' !in n && n != "" && n != "."
    ensures Name(dir + "/" + n) == n
  {
    var p := dir + "/" + n;
    assert p[|dir|] == '/';
    assert forall j :: |dir| < j < |p| ==> p[j] == n[j - |dir| - 1];
    RFindAt(p, '/', |dir|);
    assert p[|dir| + 1..] == n;
  }

  /** A trailing `/` adds no component: `a/b/` names `b`. */
  lemma {:induction false} NameSkipsTrailingSlash(p: string)
    ensures Name(p + "/") == Name(p)
  {
    RFindAt(p + "/", '/', |p|);
    assert (p + "/")[..|p|] == p;
  }

  /** A trailing `/.` adds no component: `a/b/.` names `b`. */
  lemma {:induction false} NameSkipsTrailingDot(p: string)
    ensures Name(p + "/.") == Name(p)
  {
    var q := p + "/.";
    RFindAt(q, '/', |p|);
    assert q[|p| + 1..] == ".";
    assert q[..|p|] == p;
  }

  /** The path `.` names the current directory and has an empty final component. */
  lemma NameOfDot()
    ensures Name(".") == ""
  {
  }

  /** A slash-free name whose last dot sits strictly inside it has the suffix starting at that dot. */
  lemma SuffixOfPlainName(n: string, k: int)
    requires '/' !in n && n != "" && n != "."
    requires 0 < k < |n| - 1 && n[k] == '.'
    requires forall j :: k < j < |n| ==> n[j] != '.'
    ensures Suffix(n) == n[k..]
  {
    NameOfPlainName(n);
    RFindAt(n, '.', k);
  }

  /** A slash-free name whose only dot, if any, is its first character has no suffix. */
  lemma NoInnerDotNoSuffix(n: string)
    requires '/' !in n && n != "" && n != "."
    requires forall j :: 0 < j < |n| ==> n[j] != '.'
    ensures Suffix(n) == ""
    ensures LowerSuffix(n) == ""
  {
    NameOfPlainName(n);
    assert !SplitsSuffix(n, RFind(n, '.'));
  }

  /**
   * Joining a non-empty slash-free head with an extension gives a name that
   * `pathlib` splits back into exactly that head and that extension.
   */
  lemma {:induction false} SplitJoin(head: string, ext: string)
    requires head != "" && '/' !in head
    requires IsExtension(ext)
    ensures Suffix(head + ext) == ext
    ensures Stem(head + ext) == head
  {
    var n := head + ext;
    assert '/' !in n by {
      forall j | 0 <= j < |n|
        ensures n[j] != '/'
      {
        if j < |head| { assert n[j] == head[j]; } else { assert n[j] == ext[j - |head|]; }
      }
    }
    assert n != "." by { assert |n| >= 3; }
    NameOfPlainName(n);
    var k := |head|;
    assert n[k] == '.';
    forall j | k < j < |n|
      ensures n[j] != '.'
    {
      assert n[j] == ext[j - k] == ext[1..][j - k - 1];
    }
    assert RFind(n, '.') == k;
    assert n[k..] == ext;
    assert n[..k] == head;
  }
}
