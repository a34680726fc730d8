/** The parts of Python's `str` and `os.path` (POSIX flavour) that the file
    handling relies on: `lower`, `endswith`, `os.path.splitext` and
    `os.path.join`. */
module Paths {

  /** `str.lower` on one character (ASCII letters only; see the README). */
  function LowerChar(c: char): char
  {
    if 'A' <= c <= 'Z' then ((c as int) + 32) as char else c
  }

  function Lower(s: string): (r: string)
    ensures |r| == |s|
  {
    seq(|s|, i requires 0 <= i < |s| => LowerChar(s[i]))
  }

  /** Lower-casing commutes with taking a suffix. */
  lemma LowerSuffix(s: string, k: nat)
    requires k <= |s|
    ensures Lower(s)[k..] == Lower(s[k..])
  {
  }

  predicate EndsWith(s: string, suffix: string)
  {
    |suffix| <= |s| && s[|s| - |suffix|..] == suffix
  }

  predicate StartsWith(s: string, prefix: string)
  {
    |prefix| <= |s| && s[..|prefix|] == prefix
  }

  /** Index of the last occurrence of `c`, or -1 (`str.rfind`). */
  function LastIndexOf(s: string, c: char): (k: int)
    ensures -1 <= k < |s|
    ensures k >= 0 ==> s[k] == c
    ensures forall j :: k < j < |s| ==> s[j] != c
  {
    if s == [] then -1
    else if s[|s| - 1] == c then |s| - 1
    else LastIndexOf(s[..|s| - 1], c)
  }

  /** `os.path.splitext`: the extension starts at the last dot of the last
      path component, unless every character of the component before that
      dot is itself a dot (so ".png" and "..png" have no extension). */
  function Splitext(p: string): (r: (string, string))
    ensures r.0 + r.1 == p
    ensures r.1 == [] || r.1[0] == '.'
    ensures forall j :: 0 < j < |r.1| ==> r.1[j] != '.' && r.1[j] != '/'
  {
    var dot := LastIndexOf(p, '.');
    var sep := LastIndexOf(p, '/');
    if dot > sep && exists j :: sep + 1 <= j < dot && p[j] != '.' then
      (p[..dot], p[dot..])
    else
      (p, [])
  }

  /** The stem `splitext(p)[0]`. */
  function Stem(p: string): string { Splitext(p).0 }

  /** The extension `splitext(p)[1]`. */
  function Ext(p: string): string { Splitext(p).1 }

  /** `os.path.join(dir, name)` with the POSIX separator. */
  function Join(dir: string, name: string): string
  {
    if name != [] && name[0] == '/' then name
    else if dir == [] || dir[|dir| - 1] == '/' then dir + name
    else dir + "/" + name
  }

  /** The joined path ends with the name; unless the name is absolute it
      starts with the directory, and exactly one separator lies between
      them. */
  lemma JoinParts(dir: string, name: string)
    ensures EndsWith(Join(dir, name), name)
    ensures (name == [] || name[0] != '/') ==> StartsWith(Join(dir, name), dir)
    ensures (name == [] || name[0] != '/') && dir != [] ==> Join(dir, name)[|Join(dir, name)| - |name| - 1] == '/'
  {
  }

  lemma EndsWithTrans(a: string, b: string, c: string)
    requires EndsWith(a, b) && EndsWith(b, c)
    ensures EndsWith(a, c)
  {
    assert a[|a| - |c|..] == a[|a| - |b|..][|b| - |c|..];
  }

  lemma StartsWithTrans(a: string, b: string, c: string)
    requires StartsWith(a, b) && StartsWith(b, c)
    ensures StartsWith(a, c)
  {
    assert a[..|c|] == a[..|b|][..|c|];
  }
}
