/** The two operations of Node's `path` module that the upload code uses, on POSIX paths. */
module NodePath {
  import opened Common
  import opened Strings

  /** The last path component: everything after the last '/'. */
  function BaseName(p: string): (b: string)
    ensures EndsWith(p, b)
    ensures forall j :: 0 <= j < |b| ==> b[j] != '/'
  {
    match LastIndexOf(p, '/')
    case None => p
    case Some(k) => p[k + 1..]
  }

  /** `path.extname(p)`: from the last '.' of the last component to its end; empty when that
      component has no '.', starts with its only '.', or is "..". */
  function ExtName(p: string): (r: string)
    ensures r == "" || (r[0] == '.' && EndsWith(p, r))
    ensures forall j :: 0 <= j < |r| ==> r[j] != '/'
    ensures forall j :: 0 < j < |r| ==> r[j] != '.'
  {
    var b := BaseName(p);
    match LastIndexOf(b, '.')
    case None => ""
    case Some(k) =>
      if k == 0 || b == ".." then ""
      else
        assert EndsWith(b, b[k..]);
        b[k..]
  }

  /** The extension is empty exactly when the last component has no '.' after its first
      character, or is "..". */
  lemma ExtNameEmptyIff(p: string)
    ensures ExtName(p) == "" <==>
      (forall j :: 0 < j < |BaseName(p)| ==> BaseName(p)[j] != '.') || BaseName(p) == ".."
  {
    var b := BaseName(p);
    match LastIndexOf(b, '.')
    case None =>
    case Some(k) =>
      assert b[k] == '.';
  }

  /** A name that ends in `ext` after at least one more character of its last component has
      `ext` as its extension. */
  lemma ExtNameOfSuffix(p: string, ext: string)
    requires |ext| >= 2 && ext[0] == '.'
    requires forall j :: 0 < j < |ext| ==> ext[j] != '.' && ext[j] != '/'
    requires |p| > |ext| && EndsWith(p, ext) && p[|p| - |ext| - 1] != '/'
    ensures ExtName(p) == ext
  {
    var e := |p| - |ext|;
    forall j | e - 1 <= j < |p| ensures p[j] != '/' {
      if j >= e { assert p[j] == p[e..][j - e] == ext[j - e]; }
    }
    BaseNameTail(p, e - 1);
    var b := BaseName(p);
    EndsWithTail(b, p[e - 1..]);
    assert p[e - 1..][1..] == ext;
    DotOfSuffix(b, ext);
    assert |b| != 2;
  }

  lemma EndsWithTail(s: string, t: string)
    requires EndsWith(s, t) && t != []
    ensures |s| > |t[1..]| && EndsWith(s, t[1..])
  {
    assert s[|s| - |t[1..]|..] == s[|s| - |t|..][1..];
  }

  /** The last '.' of a name that ends in an extension is the extension's own. */
  lemma DotOfSuffix(b: string, ext: string)
    requires |ext| >= 1 && ext[0] == '.'
    requires forall j :: 0 < j < |ext| ==> ext[j] != '.'
    requires |b| > |ext| && EndsWith(b, ext)
    ensures LastIndexOf(b, '.') == Some(|b| - |ext|) && b[|b| - |ext|..] == ext
  {
    var d := |b| - |ext|;
    forall j | d < j < |b| ensures b[j] != '.' {
      assert b[j] == b[d..][j - d];
    }
    assert b[d] == b[d..][0];
    LastIndexIs(b, '.', d);
  }

  /** The last component contains every trailing run of characters that has no '/'. */
  lemma BaseNameTail(p: string, m: nat)
    requires m <= |p|
    requires forall j :: m <= j < |p| ==> p[j] != '/'
    ensures EndsWith(BaseName(p), p[m..])
  {
    match LastIndexOf(p, '/') {
      case None =>
      case Some(k) =>
        assert k < m;
        assert p[k + 1..][|p[k + 1..]| - |p[m..]|..] == p[m..];
    }
  }

  lemma LastIndexIs(s: string, c: char, d: nat)
    requires d < |s| && s[d] == c
    requires forall j :: d < j < |s| ==> s[j] != c
    ensures LastIndexOf(s, c) == Some(d)
  {
  }

  /** `path.join(dir, name)` for an absolute directory and a plain name. */
  function Join(dir: string, name: string): (r: string)
    ensures StartsWith(r, dir) && EndsWith(r, name)
  {
    if EndsWith(dir, "/") then dir + name else dir + "/" + name
  }
}
