/**
 * Path-name arithmetic on plain strings: Python 2's `os.path.basename`, `dirname`,
 * `join` and `splitext` (POSIX flavour) and `boost::filesystem::path::stem` (library
 * version 3). Nothing here touches a filesystem.
 */
module Paths {
  import opened Text

  /** The position of the last `c` in `s`, or -1 (`s.rfind(c)`). */
  function RFind(s: string, c: char): (r: int)
    ensures -1 <= r < |s|
    ensures r >= 0 ==> s[r] == c
    ensures forall k :: r < k < |s| ==> s[k] != c
  {
    if |s| == 0 then -1 else if s[|s| - 1] == c then |s| - 1 else RFind(s[..|s| - 1], c)
  }

  lemma {:induction false} RFindAfter(s: string, t: string, c: char)
    requires c in t
    ensures RFind(s + t, c) == |s| + RFind(t, c)
  {
    var r := RFind(s + t, c);
    var q := RFind(t, c);
    assert (s + t)[|s| + q] == c;
    assert r >= |s| ==> t[r - |s|] == (s + t)[r];
  }

  /** `posixpath.basename`: everything after the last '/'. */
  function Basename(p: string): (b: string)
    ensures '/' !in b && EndsWith(p, b)
    ensures |b| < |p| ==> p[|p| - |b| - 1] == '/'
  {
    p[RFind(p, '/') + 1..]
  }

  lemma {:induction false} BasenameNoSlash(p: string)
    requires '/' !in p
    ensures Basename(p) == p
  {
  }

  lemma {:induction false} BasenameIdempotent(p: string)
    ensures Basename(Basename(p)) == Basename(p)
  {
  }

  predicate AllSlashes(s: string) { forall i :: 0 <= i < |s| ==> s[i] == '/' }

  /** The string without its trailing '/' characters (`s.rstrip('/')`). */
  function RStripSlashes(s: string): (t: string)
    ensures |t| <= |s| && t == s[..|t|] && (t == [] || t[|t| - 1] != '/')
  {
    if |s| > 0 && s[|s| - 1] == '/' then RStripSlashes(s[..|s| - 1]) else s
  }

  lemma {:induction false} RStripSlashesOfSlashed(s: string)
    requires |s| > 0 && s[|s| - 1] == '/'
    ensures RStripSlashes(s) == RStripSlashes(s[..|s| - 1])
  {
  }

  /** `posixpath.dirname`: the head up to the last '/', without trailing slashes unless it is all slashes. */
  function Dirname(p: string): (d: string)
    ensures StartsWith(p, d)
  {
    var head := p[..RFind(p, '/') + 1];
    if head != [] && !AllSlashes(head) then RStripSlashes(head) else head
  }

  /** The directory part of `<d>/<name>` is `d`. */
  lemma {:induction false} DirnameOfJoined(d: string, name: string)
    requires '/' !in name && d != [] && d[|d| - 1] != '/'
    ensures Dirname(d + "/" + name) == d
  {
    var p := d + "/" + name;
    assert p == d + ("/" + name);
    RFindAfter(d, "/" + name, '/');
    assert RFind("/" + name, '/') == 0;
    var head := p[..|d| + 1];
    assert head == d + "/";
    assert head[|d| - 1] != '/';
    RStripSlashesOfSlashed(head);
    assert head[..|head| - 1] == d;
  }

  /** `posixpath.join(a, b)` for two components. */
  function PathJoin(a: string, b: string): (j: string)
    ensures StartsWith(b, "/") ==> j == b
    ensures !StartsWith(b, "/") ==> EndsWith(j, b) && StartsWith(j, a)
  {
    if StartsWith(b, "/") then b
    else if a == [] || EndsWith(a, "/") then a + b
    else a + "/" + b
  }

  /** Joining onto the empty directory changes nothing. */
  lemma {:induction false} PathJoinEmpty(name: string)
    ensures PathJoin("", name) == name
  {
    assert [] + name == name;
  }

  /** Joining a relative name onto a directory that does not end in '/' puts one '/' between them. */
  lemma {:induction false} PathJoinPlain(d: string, name: string)
    requires d != [] && d[|d| - 1] != '/' && (name == [] || name[0] != '/')
    ensures PathJoin(d, name) == d + "/" + name
  {
    assert d[|d| - 1..] != "/" by {
      assert d[|d| - 1..][0] == d[|d| - 1];
    }
    assert name == [] || name[..1] != "/" by {
      if name != [] {
        assert name[..1][0] == name[0];
      }
    }
  }

  /** Joining a slash-free name onto a directory and taking the basename gives the name back. */
  lemma {:induction false} BasenameOfPathJoin(dir: string, name: string)
    requires '/' !in name
    ensures Basename(PathJoin(dir, name)) == name
  {
    var j := PathJoin(dir, name);
    assert |name| > 0 ==> name[..1][0] == name[0];
    assert !StartsWith(name, "/");
    if dir != [] {
      var pre := if EndsWith(dir, "/") then dir else dir + "/";
      assert j == pre + name;
      assert pre[|pre| - 1] == '/';
      var r := RFind(j, '/');
      assert j[|pre| - 1] == '/';
      assert r == |pre| - 1;
      assert j[r + 1..] == name;
    }
  }

  // ---------------------------------------------------------------------------
  // splitext
  // ---------------------------------------------------------------------------

  /** Some character of `p[lo..hi]` is not a '.'. */
  predicate NonDotBetween(p: string, lo: int, hi: int) {
    exists k :: lo <= k < hi && 0 <= k < |p| && p[k] != '.'
  }

  /**
   * Where `posixpath.splitext` cuts `p`: at the last '.', provided it follows the last '/'
   * and the file name part before it is not all dots; otherwise at the end.
   */
  function ExtStart(p: string): (i: nat)
    ensures i <= |p|
    ensures i < |p| ==> p[i] == '.' && forall k :: i < k < |p| ==> p[k] != '/' && p[k] != '.'
  {
    var sep := RFind(p, '/');
    var dot := RFind(p, '.');
    if dot > sep && NonDotBetween(p, sep + 1, dot) then dot else |p|
  }

  /** `os.path.splitext(p)[0]`. */
  function Root(p: string): (r: string)
    ensures StartsWith(p, r)
  {
    p[..ExtStart(p)]
  }

  /** `os.path.splitext(p)[1]`: empty, or a '.' followed by neither '/' nor '.'. */
  function Ext(p: string): (e: string)
    ensures e == [] || (e[0] == '.' && forall k :: 0 < k < |e| ==> e[k] != '/' && e[k] != '.')
  {
    p[ExtStart(p)..]
  }

  lemma {:induction false} SplitextParts(p: string)
    ensures Root(p) + Ext(p) == p
  {
  }

  /** A slash-free name with a non-dot character, followed by `.x`, splits into the name and `.x`. */
  lemma {:induction false} SplitextOfDotted(s: string, x: string)
    requires '/' !in s && '/' !in x && '.' !in x
    requires exists k :: 0 <= k < |s| && s[k] != '.'
    ensures Root(s + "." + x) == s && Ext(s + "." + x) == "." + x
  {
    var p := s + "." + x;
    assert p == s + ("." + x);
    assert '/' !in p;
    assert RFind(p, '/') == -1;
    RFindAfter(s, "." + x, '.');
    assert RFind("." + x, '.') == 0;
    var k :| 0 <= k < |s| && s[k] != '.';
    assert p[k] != '.';
    assert NonDotBetween(p, 0, |s|);
  }

  lemma {:induction false} RootNoSlash(p: string)
    requires '/' !in p
    ensures '/' !in Root(p)
  {
  }

  // ---------------------------------------------------------------------------
  // boost::filesystem (version 3) filename and stem
  // ---------------------------------------------------------------------------

  /** `path(p).filename()`: "." for a path ending in '/', unless the path is only slashes. */
  function Filename(p: string): (f: string)
    ensures '/' !in p ==> f == p
  {
    if p == [] then []
    else if p[|p| - 1] == '/' then (if AllSlashes(p) then "/" else ".")
    else Basename(p)
  }

  /** `path(p).stem()`: the file name up to its last '.', kept whole when it is "." or "..". */
  function BoostStem(p: string): (s: string)
    ensures '/' !in p ==> StartsWith(p, s)
  {
    var name := Filename(p);
    if name == "." || name == ".." then name
    else
      var pos := RFind(name, '.');
      if pos == -1 then name else name[..pos]
  }

  /** A slash-free, dot-free name followed by `.x` has stem the name. */
  lemma {:induction false} BoostStemOfDotted(s: string, x: string)
    requires s != [] && '/' !in s && '.' !in s && '/' !in x && '.' !in x
    ensures BoostStem(s + "." + x) == s
  {
    var p := s + "." + x;
    assert p == s + ("." + x);
    assert '/' !in p;
    RFindAfter(s, "." + x, '.');
    assert RFind("." + x, '.') == 0;
    assert p[0] == s[0] && |p| >= 2;
    assert p[..|s|] == s;
  }
}
