/**
 * Node's `path` helpers over normalised "/"-separated paths (no "..", no "." segments,
 * no doubled or trailing separators), which is the form every path in the core takes.
 */
module Paths {
  import opened Strings

  /** The last index of `c` in `s`. */
  function LastIndexOf(s: string, c: char): (r: Results.Option<nat>)
    ensures r.Some? ==> r.value < |s| && s[r.value] == c && forall k :: r.value < k < |s| ==> s[k] != c
    ensures r.None? ==> forall k :: 0 <= k < |s| ==> s[k] != c
  {
    if s == [] then Results.None
    else if s[|s| - 1] == c then Results.Some(|s| - 1)
    else LastIndexOf(s[..|s| - 1], c)
  }

  /** `path.dirname`. */
  function Dirname(p: string): (r: string)
    ensures r != ""
  {
    match LastIndexOf(p, '/')
    case None => "."
    case Some(i) => if i == 0 then "/" else p[..i]
  }

  /** `path.basename` without a suffix: the last component. */
  function Basename(p: string): (r: string)
    ensures |r| <= |p|
    ensures forall k :: 0 <= k < |r| ==> r[k] != '/'
  {
    match LastIndexOf(p, '/')
    case None => p
    case Some(i) => p[i + 1..]
  }

  /**
   * `path.extname`: from the last "." of the last component, unless that "." opens the
   * component (a dot-file) or the component is "..".
   */
  function Extname(p: string): (r: string)
    ensures r == "" || (r[0] == '.' && forall k :: 1 <= k < |r| ==> r[k] != '.' && r[k] != '/')
  {
    var b := Basename(p);
    match LastIndexOf(b, '.')
    case None => ""
    case Some(i) => if i == 0 || b == ".." then "" else b[i..]
  }

  /** `path.basename(p, path.extname(p))`: the last component without its extension. */
  function Stem(p: string): string
  {
    var b := Basename(p);
    var e := Extname(p);
    if |e| <= |b| then b[..|b| - |e|] else b
  }

  /** `path.join(a, b)` for two normalised operands: empty operands and a leading "." vanish. */
  function Join(a: string, b: string): string
  {
    if b == "" then (if a == "" then "." else a)
    else if a == "" || a == "." then b
    else a + "/" + b
  }

  /** `path.join(p)`: normalising a single path only turns "" into ".". */
  function Normalize(p: string): string
  {
    Join(p, "")
  }

  predicate IsPrefix(p: string, s: string)
  {
    |p| <= |s| && s[..|p|] == p
  }

  /** `q` is the directory `root` itself or lies somewhere below it. */
  predicate Under(q: string, root: string)
  {
    q == root || IsPrefix(root + "/", q)
  }

  /** The path that `q`, below `from`, takes once `from` is renamed to `to`. */
  function Rebase(q: string, from: string, to: string): string
    requires Under(q, from)
  {
    to + q[|from|..]
  }

  /** The directories `fs-extra.mkdirs(p)` may have to create: `p` and its ancestors, up to a root. */
  function Lineage(p: string): (r: set<string>)
    ensures p != "" && p != "." && p != "/" ==> p in r
    decreases |p|
  {
    if p == "" || p == "." || p == "/" then {}
    else
      match LastIndexOf(p, '/')
      case None => {p}
      case Some(i) => if i == 0 then {p} else {p} + Lineage(p[..i])
  }

  // ---------------------------------------------------------------------------------
  // Properties

  /** The stem followed by the extension is the last component. */
  lemma StemThenExtname(p: string)
    ensures Stem(p) + Extname(p) == Basename(p)
  {
    ExtnameIsSuffix(p);
    var b := Basename(p);
    var n := |b| - |Extname(p)|;
    assert b[..n] + b[n..] == b;
  }

  /** A path with a directory part is that directory, "/", and its last component. */
  lemma DirnameThenBasename(p: string)
    requires LastIndexOf(p, '/').Some? && LastIndexOf(p, '/').value > 0
    ensures Dirname(p) + "/" + Basename(p) == p
  {
    var i := LastIndexOf(p, '/').value;
    assert p[..i] + [p[i]] + p[i + 1..] == p;
  }

  /** Splitting a path into directory, stem and extension and joining them back gives it back. */
  lemma SplitJoinRoundTrip(p: string)
    requires LastIndexOf(p, '/').Some? && LastIndexOf(p, '/').value > 0
    requires Basename(p) != "" && Dirname(p) != "."
    ensures Stem(p) + Extname(p) == Basename(p)
    ensures Join(Dirname(p), Stem(p) + Extname(p)) == p
  {
    StemThenExtname(p);
    DirnameThenBasename(p);
  }

  /** The extension is a suffix of the last component. */
  lemma ExtnameIsSuffix(p: string)
    ensures |Extname(p)| <= |Basename(p)|
    ensures Basename(p)[|Basename(p)| - |Extname(p)|..] == Extname(p)
  {
    var b := Basename(p);
    match LastIndexOf(b, '.')
    case None =>
      assert Extname(p) == "";
    case Some(i) =>
      assert Extname(p) == if i == 0 || b == ".." then "" else b[i..];
  }

  /** A name without separators joined onto a directory lives directly in that directory. */
  lemma {:induction false} DirnameOfJoin(dir: string, name: string)
    requires dir != "" && name != ""
    requires forall k :: 0 <= k < |name| ==> name[k] != '/'
    requires dir == "/" || LastIndexOf(dir, '/').None? || dir[|dir| - 1] != '/'
    ensures Dirname(Join(dir, name)) == (if dir == "/" then "/" else dir)
    ensures Basename(Join(dir, name)) == name
  {
    if dir == "." {
      assert LastIndexOf(name, '/').None?;
      return;
    }
    var p := dir + "/" + name;
    assert Join(dir, name) == p;
    LastSlashOfJoin(dir, name);
    if dir == "/" {
      assert p[..|dir|] == "/";
    }
    assert p[..|dir|] == dir;
    assert p[|dir| + 1..] == name;
  }

  lemma {:induction false} LastSlashOfJoin(dir: string, name: string)
    requires forall k :: 0 <= k < |name| ==> name[k] != '/'
    ensures LastIndexOf(dir + "/" + name, '/') == Results.Some(|dir|)
  {
    var p := dir + "/" + name;
    assert forall k :: |dir| < k < |p| ==> p[k] == name[k - |dir| - 1];
    LastIndexOfUnique(p, '/', |dir|);
  }

  /** The contract of LastIndexOf determines it. */
  lemma LastIndexOfUnique(s: string, c: char, i: nat)
    requires i < |s| && s[i] == c && forall k :: i < k < |s| ==> s[k] != c
    ensures LastIndexOf(s, c) == Results.Some(i)
  {
  }

  /** Appending text without `c` leaves the last `c` where it was. */
  lemma {:induction false} LastIndexOfAppend(s: string, t: string, c: char)
    requires forall k :: 0 <= k < |t| ==> t[k] != c
    ensures LastIndexOf(s + t, c) == LastIndexOf(s, c)
    decreases |t|
  {
    if t == [] {
      assert s + t == s;
    } else {
      var u := s + t;
      assert u[|u| - 1] == t[|t| - 1];
      assert u[..|u| - 1] == s + t[..|t| - 1];
      LastIndexOfAppend(s, t[..|t| - 1], c);
    }
  }

  /** Appending text without a separator to a path keeps its directory. */
  lemma DirnameOfAppend(s: string, t: string)
    requires forall k :: 0 <= k < |t| ==> t[k] != '/'
    ensures Dirname(s + t) == Dirname(s)
  {
    LastIndexOfAppend(s, t, '/');
    match LastIndexOf(s, '/')
    case None =>
    case Some(i) => assert (s + t)[..i] == s[..i];
  }

  /** Two directories that both hold `q` are nested one in the other. */
  lemma UnderComparable(q: string, a: string, b: string)
    requires Under(q, a) && Under(q, b)
    ensures Under(a, b) || Under(b, a)
  {
    if |a| <= |b| {
      if q == b {
      } else if |a| == |b| {
        assert a == q[..|a|] == b;
      } else {
        assert q != a;
        assert b[..|a| + 1] == q[..|a| + 1] == a + "/";
      }
    } else {
      if q == a {
      } else {
        assert q != b;
        assert a[..|b| + 1] == q[..|b| + 1] == b + "/";
      }
    }
  }

  /** Below something below `d` is below `d`. */
  lemma UnderTransitive(p: string, q: string, d: string)
    requires Under(p, q) && Under(q, d)
    ensures Under(p, d)
  {
    if p != q && q != d {
      assert p[..|d| + 1] == q[..|d| + 1];
    }
  }

  /** Every directory `mkdirs(p)` may create holds `p`. */
  lemma {:induction false} LineageHolds(p: string, d: string)
    requires d in Lineage(p)
    ensures Under(p, d)
    decreases |p|
  {
    if d != p {
      var i := LastIndexOf(p, '/').value;
      LineageHolds(p[..i], d);
      assert Under(p, p[..i]) by {
        assert p[..i + 1] == p[..i] + "/";
      }
      UnderTransitive(p, p[..i], d);
    }
  }

  /** The directory of a path with a separator after its first character is among the directories `mkdirs` creates. */
  lemma DirnameInLineage(p: string)
    requires p != "" && p != "." && p != "/"
    requires Dirname(p) != "." && Dirname(p) != "/"
    ensures Dirname(p) in Lineage(p)
  {
  }
}
