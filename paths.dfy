/**
 * The three `os.path` operations the service relies on, with POSIX semantics:
 * `join` of two components, `basename`, and the extension part of `splitext`.
 */
module Paths {
  import opened Common

  /** `os.path.join(a, b)`: an absolute `b` replaces `a`; otherwise one separator is inserted when needed. */
  function Join(a: string, b: string): (r: string)
    ensures |b| > 0 && b[0] == '/' ==> r == b
    ensures (|b| == 0 || b[0] != '/') ==> r == a + b || r == a + "/" + b
  {
    if |b| > 0 && b[0] == '/' then b
    else if a == "" || a[|a| - 1] == '/' then a + b
    else a + "/" + b
  }

  /** `os.path.basename(p)`: everything after the last separator. */
  function Basename(p: string): (r: string)
    ensures forall i :: 0 <= i < |r| ==> r[i] != '/'
    ensures |r| <= |p| && r == p[|p| - |r|..]
  {
    match LastIndex(p, '/')
    case None => p
    case Some(k) => p[k + 1..]
  }

  /** A name joined onto a directory is recovered by `basename` whenever it holds no separator. */
  lemma BasenameOfJoin(dir: string, name: string)
    requires dir != "" && dir[|dir| - 1] != '/'
    requires forall i :: 0 <= i < |name| ==> name[i] != '/'
    ensures Basename(Join(dir, name)) == name
  {
    var p := Join(dir, name);
    if |name| == 0 {
      assert p == dir + "/";
      LastIndexAt(p, '/', |dir|);
    } else {
      assert p == dir + "/" + name;
      LastIndexAt(p, '/', |dir|);
      assert p[|dir| + 1..] == name;
    }
  }

  /** Joining onto a fixed directory that does not end in a separator is injective on relative names. */
  lemma JoinInjective(dir: string, a: string, b: string)
    requires dir != "" && dir[|dir| - 1] != '/'
    requires |a| > 0 && a[0] != '/' && |b| > 0 && b[0] != '/'
    requires Join(dir, a) == Join(dir, b)
    ensures a == b
  {
    assert Join(dir, a) == dir + "/" + a;
    assert Join(dir, b) == dir + "/" + b;
    assert a == Join(dir, a)[|dir| + 1..];
  }

  /**
   * The extension returned by `os.path.splitext(p)[1]`: from the last dot of the last
   * path component to the end, provided that dot is preceded by some character of the
   * component other than a dot (so `.mp4` and `..mp4` have no extension).
   */
  function SplitExt(p: string): (r: string)
    ensures r == "" || (r[0] == '.' && (exists k :: 0 < k < |p| && r == p[k..]))
    ensures forall i :: 0 < i < |r| ==> r[i] != '.' && r[i] != '/'
  {
    var sepIndex: int := match LastIndex(p, '/') case None => -1 case Some(s) => s;
    match LastIndex(p, '.')
    case None => ""
    case Some(d) =>
      if d > sepIndex && exists k :: sepIndex + 1 <= k < d && p[k] != '.' then p[d..] else ""
  }

  /** The extension of a name whose first character is not a dot is everything from its last dot. */
  lemma SplitExtOfPlainName(name: string, d: nat)
    requires 0 < d < |name| && name[d] == '.' && name[0] != '.'
    requires forall j :: d < j < |name| ==> name[j] != '.'
    requires forall j :: 0 <= j < |name| ==> name[j] != '/'
    ensures SplitExt(name) == name[d..]
  {
    LastIndexAt(name, '.', d);
    assert LastIndex(name, '/') == None;
    assert 0 <= 0 < d && name[0] != '.';
  }
}
