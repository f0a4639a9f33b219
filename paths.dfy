/** The POSIX `os.path` functions the converter calls: `join` with two
    components, `basename`, `dirname` and the root half of `splitext`. */
module Paths {
  import opened Strings

  type Path = string

  /** `s.rfind(c)`: the last index holding `c`, or -1. */
  function RFind(s: string, c: char): (i: int)
    ensures -1 <= i < |s|
    ensures i >= 0 ==> s[i] == c
    ensures forall k :: i < k < |s| ==> s[k] != c
  {
    if |s| == 0 then -1
    else if s[|s| - 1] == c then |s| - 1
    else RFind(s[..|s| - 1], c)
  }

  predicate AllSlashes(s: string)
  {
    forall k :: 0 <= k < |s| ==> s[k] == '/'
  }

  /** `s.rstrip("/")`. */
  function StripTrailingSlashes(s: string): (r: string)
    ensures |r| <= |s| && r == s[..|r|]
    ensures r == [] || r[|r| - 1] != '/'
    ensures forall k :: |r| <= k < |s| ==> s[k] == '/'
  {
    if |s| == 0 || s[|s| - 1] != '/' then s else StripTrailingSlashes(s[..|s| - 1])
  }

  /** `os.path.join(a, b)`. */
  function Join(a: Path, b: string): Path
  {
    if StartsWith(b, "/") then b
    else if a == [] || EndsWith(a, "/") then a + b
    else a + "/" + b
  }

  /** `os.path.basename(p)`: everything after the last slash. */
  function Basename(p: Path): (r: string)
    ensures '/' !in r
  {
    p[RFind(p, '/') + 1..]
  }

  /** `os.path.dirname(p)`: everything up to the last slash, without its
      trailing slashes unless it consists of slashes only. */
  function Dirname(p: Path): Path
  {
    var head := p[..RFind(p, '/') + 1];
    if head != [] && !AllSlashes(head) then StripTrailingSlashes(head) else head
  }

  predicate HasNonDot(s: string, lo: int, hi: int)
    requires 0 <= lo && hi <= |s|
  {
    exists k :: lo <= k < hi && s[k] != '.'
  }

  /** `os.path.splitext(p)[0]`: `p` without its extension, where a final dot
      counts as an extension only when something other than dots precedes it
      in the last path component. */
  function SplitextRoot(p: Path): string
  {
    var sep := RFind(p, '/');
    var dot := RFind(p, '.');
    if dot > sep && HasNonDot(p, sep + 1, dot) then p[..dot] else p
  }

  /** The shapes `Dirname` can return. */
  predicate IsDirname(d: Path)
  {
    d == [] || AllSlashes(d) || d[|d| - 1] != '/'
  }

  lemma DirnameShape(p: Path)
    ensures IsDirname(Dirname(p))
  {
  }

  /** Joining a plain file name onto a directory keeps the directory and the
      name: `dirname` and `basename` take the join apart again. */
  lemma JoinFileName(d: Path, name: string)
    requires IsDirname(d)
    requires name != [] && '/' !in name
    ensures Dirname(Join(d, name)) == d
    ensures Basename(Join(d, name)) == name
  {
    var j := Join(d, name);
    assert name[0] in name;
    assert name[..1][0] == name[0];
    if d == [] {
      assert j == name;
      NoSlashRFind(name);
    } else if AllSlashes(d) {
      assert j == d + name;
      RFindAfter(d, name, '/');
      assert j[..|d|] == d;
    } else {
      assert j == (d + "/") + name;
      RFindAfter(d + "/", name, '/');
      assert j[..|d| + 1] == d + "/";
      var r := StripTrailingSlashes(d + "/");
      assert StripTrailingSlashes((d + "/")[..|d|]) == r;
      assert (d + "/")[..|d|] == d;
    }
  }

  lemma NoSlashRFind(s: string)
    requires '/' !in s
    ensures RFind(s, '/') == -1
  {
    forall k | 0 <= k < |s| ensures s[k] != '/' { assert s[k] in s; }
  }

  lemma RFindAfter(a: string, b: string, c: char)
    requires |a| > 0 && a[|a| - 1] == c && c !in b
    ensures RFind(a + b, c) == |a| - 1
  {
    var s := a + b;
    forall k | |a| <= k < |s| ensures s[k] != c {
      assert s[k] == b[k - |a|];
      assert b[k - |a|] in b;
    }
    assert s[|a| - 1] == c;
  }

  /** The root of `stem + ".txt"` is `stem` exactly when the stem holds a
      character other than a dot; otherwise the name keeps its ".txt". */
  lemma {:induction false} SplitextRootOfTxt(stem: string)
    requires '/' !in stem
    ensures HasNonDot(stem, 0, |stem|) ==> SplitextRoot(stem + ".txt") == stem
    ensures !HasNonDot(stem, 0, |stem|) ==> SplitextRoot(stem + ".txt") == stem + ".txt"
  {
    var p := stem + ".txt";
    assert '/' !in p by {
      forall k | 0 <= k < |p| ensures p[k] != '/' {
        if k < |stem| { assert p[k] == stem[k]; assert stem[k] in stem; }
      }
    }
    NoSlashRFind(p);
    RFindAfter(stem + ".", "txt", '.');
    assert stem + "." + "txt" == p;
    assert p[..|stem|] == stem;
    if HasNonDot(stem, 0, |stem|) {
      var k :| 0 <= k < |stem| && stem[k] != '.';
      assert p[k] == stem[k];
    } else {
      forall k | 0 <= k < |stem| ensures p[k] == '.' { assert p[k] == stem[k]; }
    }
  }
}
