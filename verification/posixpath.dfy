/** The two POSIX path helpers the core calls, `os.path.dirname` and `os.path.join`,
    written out as the CPython `posixpath` module defines them (separator '/'). */
module PosixPath {
  import opened Strings

  const Sep: char := '/'

  /** Python's `s.rfind(c)`: the index of the last `c` in `s`, or -1 when there is none. */
  function RFind(s: string, c: char): (i: int)
    ensures -1 <= i < |s|
    ensures i >= 0 ==> s[i] == c
    ensures forall j :: i < j < |s| ==> s[j] != c
    ensures i == -1 <==> c !in s
  {
    if |s| == 0 then -1
    else if s[|s| - 1] == c then |s| - 1
    else RFind(s[..|s| - 1], c)
  }

  /** Python's `s.rstrip(c)` for a single character: drops every trailing `c`. */
  function RStrip(s: string, c: char): (r: string)
    ensures |r| <= |s| && r == s[..|r|]
    ensures r == [] || r[|r| - 1] != c
    ensures forall j :: |r| <= j < |s| ==> s[j] == c
  {
    if |s| > 0 && s[|s| - 1] == c then RStrip(s[..|s| - 1], c) else s
  }

  /** True when every character of `s` is `c` (Python's `s == c * len(s)`). */
  predicate AllChar(s: string, c: char)
  {
    forall j :: 0 <= j < |s| ==> s[j] == c
  }

  /** `os.path.dirname(p)`: everything up to the last separator, with trailing
      separators removed unless the head consists of separators only. */
  function DirName(p: string): (d: string)
    ensures |d| <= |p| && d == p[..|d|]
    ensures d == [] <==> Sep !in p
  {
    var i := RFind(p, Sep) + 1;
    var head := p[..i];
    if head != [] && !AllChar(head, Sep) then RStrip(head, Sep) else head
  }

  /** `os.path.join(a, b)`: an absolute `b` replaces `a`; otherwise `b` is appended,
      with one separator in between unless `a` is empty or already ends with one. */
  function Join(a: string, b: string): (r: string)
    ensures EndsWith(r, b)
    ensures StartsWith(b, [Sep]) ==> r == b
    ensures !StartsWith(b, [Sep]) ==> StartsWith(r, a)
    ensures !StartsWith(b, [Sep]) && a != [] ==> |r| > |b| && r[|r| - |b| - 1] == Sep
    ensures !StartsWith(b, [Sep]) ==>
      |r| == |a| + |b| + (if a == [] || EndsWith(a, [Sep]) then 0 else 1)
  {
    if StartsWith(b, [Sep]) then b
    else if a == [] || EndsWith(a, [Sep]) then a + b
    else a + [Sep] + b
  }

  /** A path with no separator is relative. */
  lemma NoSepIsRelative(p: string)
    requires Sep !in p
    ensures !StartsWith(p, [Sep])
  {
    if |p| > 0 {
      assert p[..1][0] == p[0];
    }
  }
}
