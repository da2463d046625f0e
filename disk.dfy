/**
 * The filesystem the core reads and changes through Node's `fs` and `fs-extra`: a map
 * from normalised path to entry. Each call the core makes is a function from the old map
 * to a new map or an error, and a `Disk` object holds the current map and applies them.
 * Nothing here assumes the map is a well-formed tree; where a property needs a parent to
 * exist, it says so.
 */
module Disk {
  import opened Results
  import opened Paths

  datatype Entry = File(data: string) | Dir

  type Tree = map<string, Entry>

  predicate IsDirIn(m: Tree, p: string) { p in m && m[p].Dir? }

  predicate IsFileIn(m: Tree, p: string) { p in m && m[p].File? }

  /** The directory that would hold `p` exists. */
  predicate ParentIsDir(m: Tree, p: string) { IsDirIn(m, Dirname(p)) }

  /** `q` is an entry directly inside the directory `dir`. */
  predicate ChildOf(q: string, dir: string) { q != dir && Dirname(q) == dir }

  /** Nothing lies below `p`. */
  predicate Childless(m: Tree, p: string)
  {
    forall q :: q in m && Under(q, p) ==> q == p
  }

  /** Every entry directly inside `dir` has a name `isJunk` accepts (such as ".DS_Store"). */
  predicate NoVisibleChildren(m: Tree, dir: string, isJunk: string -> bool)
  {
    forall q :: q in m && ChildOf(q, dir) ==> isJunk(Basename(q))
  }

  /** The map without `root` and everything below it. */
  function Without(m: Tree, root: string): (r: Tree)
    ensures forall q :: q in r <==> q in m && !Under(q, root)
    ensures forall q :: q in r ==> r[q] == m[q]
  {
    map q | q in m && !Under(q, root) :: m[q]
  }

  // ---------------------------------------------------------------------------------
  // The calls

  /** `fs.readFileSync(p).toString()`: fails unless `p` is a file. */
  function ReadOf(m: Tree, p: string): Result<string>
  {
    if IsFileIn(m, p) then Ok(m[p].data) else Err(FsError(p))
  }

  /** `fs.promises.writeFile(p, data)`: creates or overwrites a file in an existing directory. */
  function Written(m: Tree, p: string, data: string): Result<Tree>
  {
    if ParentIsDir(m, p) && !IsDirIn(m, p) then Ok(m[p := File(data)]) else Err(FsError(p))
  }

  /** `fs.rmSync(p)`: removes a file; a directory or a missing path throws. */
  function FileRemoved(m: Tree, p: string): Result<Tree>
  {
    if IsFileIn(m, p) then Ok(m - {p}) else Err(FsError(p))
  }

  /** `fs.rmSync(p, { recursive: true })`: removes `p` and everything below it; a missing path throws. */
  function TreeRemoved(m: Tree, p: string): Result<Tree>
  {
    if p in m then Ok(Without(m, p)) else Err(FsError(p))
  }

  /**
   * `fse.mkdirs(p)` and `fs.mkdirSync(p, { recursive: true })`: creates `p` and every
   * missing ancestor; an existing file on the way throws.
   */
  function DirsMade(m: Tree, p: string): Result<Tree>
  {
    if exists d :: d in Lineage(p) && IsFileIn(m, d) then Err(FsError(p))
    else Ok(m + map d | d in Lineage(p) && d !in m :: Dir)
  }

  lemma RebaseInjective(from: string, to: string)
    ensures forall q1, q2 :: Under(q1, from) && Under(q2, from) && Rebase(q1, from, to) == Rebase(q2, from, to) ==> q1 == q2
  {
    forall q1, q2 | Under(q1, from) && Under(q2, from) && Rebase(q1, from, to) == Rebase(q2, from, to)
      ensures q1 == q2
    {
      assert q1[|from|..] == Rebase(q1, from, to)[|to|..];
      assert q2[|from|..] == Rebase(q2, from, to)[|to|..];
      assert q1 == q1[..|from|] + q1[|from|..];
      assert q2 == q2[..|from|] + q2[|from|..];
    }
  }

  /** The entries of `m` at or below `from`, each carried to the same place below `to`. */
  function Rebased(m: Tree, from: string, to: string): (r: Tree)
    ensures forall q :: q in m && Under(q, from) ==> Rebase(q, from, to) in r && r[Rebase(q, from, to)] == m[q]
    ensures forall p :: p in r ==> exists q :: q in m && Under(q, from) && p == Rebase(q, from, to)
  {
    RebaseInjective(from, to);
    map q | q in m && Under(q, from) :: Rebase(q, from, to) := m[q]
  }

  /** The map once the entry at `from`, with everything below it, has moved to `to`. */
  function Moved(m: Tree, from: string, to: string): Tree
  {
    Without(m - {to}, from) + Rebased(m, from, to)
  }

  /**
   * `fs.renameSync(from, to)` with the semantics of POSIX rename: renaming a path onto
   * itself does nothing; a directory may replace an empty directory but never moves into
   * itself; a file may replace a file but not a directory.
   */
  function Renamed(m: Tree, from: string, to: string): Result<Tree>
  {
    if from !in m then Err(FsError(from))
    else if from == to then Ok(m)
    else if !ParentIsDir(m, to) then Err(FsError(to))
    else if m[from].Dir? then
      if Under(to, from) then Err(FsError(to))
      else if to in m && (m[to].File? || !Childless(m, to)) then Err(FsError(to))
      else Ok(Moved(m, from, to))
    else if IsDirIn(m, to) then Err(FsError(to))
    else Ok(Moved(m, from, to))
  }

  // ---------------------------------------------------------------------------------
  // Properties of the calls

  /** A written file reads back as written, and no other path changes. */
  lemma ReadAfterWrite(m: Tree, p: string, data: string)
    requires Written(m, p, data).Ok?
    ensures ReadOf(Written(m, p, data).value, p) == Ok(data)
    ensures forall q :: q != p ==> ReadOf(Written(m, p, data).value, q) == ReadOf(m, q)
  {
  }

  /** Writing succeeds exactly when the directory exists and the path is not a directory. */
  lemma WriteSucceeds(m: Tree, p: string, data: string)
    ensures Written(m, p, data).Ok? <==> IsDirIn(m, Dirname(p)) && !IsDirIn(m, p)
  {
  }

  /** Removing a file leaves every other entry in place; it never removes a directory. */
  lemma RemoveFileIsLocal(m: Tree, p: string)
    ensures FileRemoved(m, p).Ok? <==> IsFileIn(m, p)
    ensures FileRemoved(m, p).Ok? ==> p !in FileRemoved(m, p).value
    ensures FileRemoved(m, p).Ok? ==> forall q :: q != p ==> (q in FileRemoved(m, p).value <==> q in m)
  {
  }

  /** A removed tree leaves nothing below its root and keeps everything else. */
  lemma RemoveTreeIsLocal(m: Tree, p: string)
    requires p in m
    ensures TreeRemoved(m, p).Ok?
    ensures forall q :: q in TreeRemoved(m, p).value <==> q in m && !Under(q, p)
  {
  }

  /** After `mkdirs` the directory exists, nothing that existed changes, and a second call changes nothing. */
  lemma MakeDirsSpec(m: Tree, p: string)
    requires DirsMade(m, p).Ok?
    requires p != "" && p != "." && p != "/"
    ensures IsDirIn(m, p) || p !in m
    ensures IsDirIn(DirsMade(m, p).value, p)
    ensures forall q :: q in m ==> q in DirsMade(m, p).value && DirsMade(m, p).value[q] == m[q]
    ensures DirsMade(DirsMade(m, p).value, p) == Ok(DirsMade(m, p).value)
  {
    var r := DirsMade(m, p).value;
    assert p in Lineage(p);
    assert !IsFileIn(m, p);
    forall d | d in Lineage(p) ensures !IsFileIn(r, d) {
      assert !IsFileIn(m, d);
    }
    assert forall d :: d in Lineage(p) ==> d in r;
    assert (map d | d in Lineage(p) && d !in r :: Dir) == map[];
    assert r + map[] == r;
  }

  lemma RebasedIsUnder(q: string, from: string, to: string)
    requires Under(q, from)
    ensures Under(Rebase(q, from, to), to)
  {
    var r := Rebase(q, from, to);
    if q != from {
      assert q[..|from| + 1] == from + "/";
      assert q[|from|] == '/';
      assert r[..|to| + 1] == to + "/";
    } else {
      assert q[|from|..] == "";
      assert r == to;
    }
  }

  /** A successful move puts the entry of `from`, and each entry below it, below `to`. */
  lemma MovedCarriesTree(m: Tree, from: string, to: string)
    requires from in m
    ensures to in Moved(m, from, to) && Moved(m, from, to)[to] == m[from]
    ensures forall q :: q in m && Under(q, from) ==>
      Rebase(q, from, to) in Moved(m, from, to) && Moved(m, from, to)[Rebase(q, from, to)] == m[q]
  {
    assert Under(from, from);
    assert from[|from|..] == "";
    assert Rebase(from, from, to) == to;
  }

  /** A move keeps every entry outside both trees as it was. */
  lemma MovedKeepsOthers(m: Tree, from: string, to: string)
    ensures forall q :: q in m && !Under(q, from) && !Under(q, to) ==>
      q in Moved(m, from, to) && Moved(m, from, to)[q] == m[q]
  {
    var r := Moved(m, from, to);
    forall q | q in m && !Under(q, from) && !Under(q, to)
      ensures q in r && r[q] == m[q]
    {
      assert q != to;
      assert q in Without(m - {to}, from);
      forall q' | q' in m && Under(q', from) ensures Rebase(q', from, to) != q {
        RebasedIsUnder(q', from, to);
      }
    }
  }

  /** A move creates nothing outside the tree of `to`, and `from` is gone unless it lies below `to`. */
  lemma MovedAddsOnlyBelowTarget(m: Tree, from: string, to: string)
    ensures forall q :: q in Moved(m, from, to) ==> Under(q, to) || (q in m && !Under(q, from))
    ensures !Under(from, to) ==> from !in Moved(m, from, to)
  {
    var r := Moved(m, from, to);
    forall q | q in r ensures Under(q, to) || (q in m && !Under(q, from)) {
      if q !in Without(m - {to}, from) {
        assert q in Rebased(m, from, to);
        var q' :| q' in m && Under(q', from) && q == Rebase(q', from, to);
        RebasedIsUnder(q', from, to);
      }
    }
    assert Under(from, from);
  }

  /** Renaming a path onto itself succeeds and changes nothing. */
  lemma RenameOntoItself(m: Tree, p: string)
    requires p in m
    ensures Renamed(m, p, p) == Ok(m)
  {
  }

  /** A directory never replaces a directory that still holds entries, nor moves into itself. */
  lemma RenameRefusals(m: Tree, from: string, to: string)
    requires IsDirIn(m, from) && from != to
    ensures Under(to, from) ==> Renamed(m, from, to).Err?
    ensures to in m && !Childless(m, to) ==> Renamed(m, from, to).Err?
    ensures IsFileIn(m, to) ==> Renamed(m, from, to).Err?
  {
  }

  // ---------------------------------------------------------------------------------
  // The object

  /** The filesystem as the running program sees it. */
  class Disk {
    var entries: Tree

    constructor (initial: Tree)
      ensures entries == initial
    {
      entries := initial;
    }

    /** `fs.existsSync(p)`. */
    predicate Exists(p: string)
      reads this
    {
      p in entries
    }

    method Read(p: string) returns (r: Result<string>)
      ensures r == ReadOf(entries, p)
    {
      if p in entries && entries[p].File? {
        r := Ok(entries[p].data);
      } else {
        r := Err(FsError(p));
      }
    }

    method Write(p: string, data: string) returns (ok: bool)
      modifies this
      ensures ok == Written(old(entries), p, data).Ok?
      ensures entries == if ok then Written(old(entries), p, data).value else old(entries)
    {
      var w := Written(entries, p, data);
      ok := w.Ok?;
      if ok {
        entries := w.value;
      }
    }

    method RemoveFile(p: string) returns (ok: bool)
      modifies this
      ensures ok == FileRemoved(old(entries), p).Ok?
      ensures entries == if ok then FileRemoved(old(entries), p).value else old(entries)
    {
      ok := IsFileIn(entries, p);
      if ok {
        entries := entries - {p};
      }
    }

    method RemoveTree(p: string) returns (ok: bool)
      modifies this
      ensures ok == TreeRemoved(old(entries), p).Ok?
      ensures entries == if ok then TreeRemoved(old(entries), p).value else old(entries)
    {
      ok := p in entries;
      if ok {
        entries := Without(entries, p);
      }
    }

    method MakeDirs(p: string) returns (ok: bool)
      modifies this
      ensures ok == DirsMade(old(entries), p).Ok?
      ensures entries == if ok then DirsMade(old(entries), p).value else old(entries)
    {
      var d := DirsMade(entries, p);
      ok := d.Ok?;
      if ok {
        entries := d.value;
      }
    }

    method Rename(from: string, to: string) returns (ok: bool)
      modifies this
      ensures ok == Renamed(old(entries), from, to).Ok?
      ensures entries == if ok then Renamed(old(entries), from, to).value else old(entries)
    {
      var d := Renamed(entries, from, to);
      ok := d.Ok?;
      if ok {
        entries := d.value;
      }
    }
  }
}
