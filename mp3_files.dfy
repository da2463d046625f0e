/**
 * The renamer: every discovered audio file is renamed, inside its own directory, after a
 * file-name pattern, and then the book directory is moved to the place a directory
 * pattern gives, leaving no empty title or author directory behind.
 *
 * `globby` is replaced by the list of files it found, `junk`'s `isNotJunk` by the
 * predicate `isJunk`, and the configuration manager by a map and a log of saves.
 */
module Mp3Files {
  import opened Results
  import opened Strings
  import opened Paths
  import opened Disk
  import opened MediaFiles
  import Template

  /** The default directory pattern, the text "${author}/${title}". */
  const DIRECTORY_PATTERN := Template.Placeholder("author") + "/" + Template.Placeholder("title")

  /** The default file pattern, the text "${title} - Part ${trackNumber}${fileExtension}". */
  const FILE_PATTERN := TITLE_PART + Template.Placeholder("fileExtension")

  // ---------------------------------------------------------------------------------
  // Configuration defaults

  /** `_createDefaultConfig`: each missing (or empty) pattern gets its default. */
  function FilesDefaults(config: map<string, string>): (r: map<string, string>)
    ensures Truthy(Get(r, "directoryPattern")) && Truthy(Get(r, "filePattern"))
    ensures Truthy(Get(config, "directoryPattern")) ==> r["directoryPattern"] == config["directoryPattern"]
    ensures Truthy(Get(config, "filePattern")) ==> r["filePattern"] == config["filePattern"]
    ensures forall k :: k in config && k != "directoryPattern" && k != "filePattern" ==> k in r && r[k] == config[k]
    ensures r.Keys == config.Keys + {"directoryPattern", "filePattern"}
  {
    var c1 := if Truthy(Get(config, "directoryPattern")) then config else config["directoryPattern" := DIRECTORY_PATTERN];
    if Truthy(Get(c1, "filePattern")) then c1 else c1["filePattern" := FILE_PATTERN]
  }

  /** The configuration is saved exactly when a default had to be filled. */
  predicate DefaultsMissing(config: map<string, string>)
  {
    !Truthy(Get(config, "directoryPattern")) || !Truthy(Get(config, "filePattern"))
  }

  /** Filling defaults changes the configuration exactly when one was missing, and a second fill changes nothing. */
  lemma FilesDefaultsSaveRule(config: map<string, string>)
    ensures DefaultsMissing(config) <==> FilesDefaults(config) != config
    ensures !DefaultsMissing(FilesDefaults(config))
    ensures FilesDefaults(FilesDefaults(config)) == FilesDefaults(config)
  {
    var r := FilesDefaults(config);
    if !Truthy(Get(config, "directoryPattern")) {
      if "directoryPattern" in config {
        assert config["directoryPattern"] == "" && r["directoryPattern"] != "";
      }
    } else if !Truthy(Get(config, "filePattern")) {
      if "filePattern" in config {
        assert config["filePattern"] == "" && r["filePattern"] != "";
      }
    }
  }

  /** The patterns are configured: what the constructor establishes for every later call. */
  predicate Configured(config: map<string, string>)
  {
    Truthy(Get(config, "filePattern")) && Truthy(Get(config, "directoryPattern"))
  }

  // ---------------------------------------------------------------------------------
  // Options

  datatype Options = Options(filePattern: Option<string>, directoryPattern: Option<string>, directoryPath: Option<string>)

  /** `options = {}`. */
  const NO_OPTIONS := Options(None, None, None)

  datatype Resolved = Resolved(filePattern: string, directoryPattern: string, directoryPath: string)

  /** The book directory the renamer expects when none is given. */
  function DefaultDirectoryPath(basePath: string, book: Book): string
  {
    Join(Join(basePath, book.author), book.title)
  }

  /**
   * `_getOptionsWithDefaults`: each option is the explicit one, else the configured one;
   * the directory defaults to basePath/author/title. A directory that does not exist is an
   * error when it already starts with the base path, and is otherwise looked for once more
   * below the base path.
   */
  function ResolveOptions(m: Tree, config: map<string, string>, options: Options, book: Book): (r: Result<Resolved>)
    requires Configured(config)
    ensures "basePath" !in config ==> r.Err?
    ensures r.Ok? ==> r.value.directoryPath in m
    ensures r.Ok? ==> r.value.filePattern == OrElse(options.filePattern, Get(config, "filePattern")).value
    ensures r.Ok? ==> r.value.directoryPattern == OrElse(options.directoryPattern, Get(config, "directoryPattern")).value
    ensures "basePath" in config && !Truthy(options.directoryPath) ==>
      var d := DefaultDirectoryPath(Normalize(config["basePath"]), book);
      d in m ==> r.Ok? && r.value.directoryPath == d
    ensures "basePath" in config ==>
      var base := Normalize(config["basePath"]);
      var d := if Truthy(options.directoryPath) then options.directoryPath.value else DefaultDirectoryPath(base, book);
      && (d in m ==> r.Ok? && r.value.directoryPath == d)
      && (d !in m && IsPrefix(base, d) ==> r == Err(PathNotFound(d)))
      && (d !in m && !IsPrefix(base, d) ==> (r.Ok? <==> Join(base, d) in m) && (r.Ok? ==> r.value.directoryPath == Join(base, d)))
  {
    match Get(config, "basePath")
    case None => Err(TypeError("basePath"))
    case Some(b) =>
      var basePath := Normalize(b);
      var filePattern := OrElse(options.filePattern, Get(config, "filePattern")).value;
      var directoryPattern := OrElse(options.directoryPattern, Get(config, "directoryPattern")).value;
      var directoryPath := if Truthy(options.directoryPath) then options.directoryPath.value else DefaultDirectoryPath(basePath, book);
      if directoryPath in m then Ok(Resolved(filePattern, directoryPattern, directoryPath))
      else if IsPrefix(basePath, directoryPath) then Err(PathNotFound(directoryPath))
      else
        var retried := Join(basePath, directoryPath);
        if retried in m then Ok(Resolved(filePattern, directoryPattern, retried)) else Err(PathNotFound(retried))
  }

  // ---------------------------------------------------------------------------------
  // Renaming the files

  /** `_renameFile`'s target: the rendered name in the file's own directory. */
  function RenameTarget(filePattern: string, filePath: string, book: Book): string
  {
    var meta := FileMetadataOf(filePath);
    Join(meta.directoryPath, RenderPart(filePattern, meta, book))
  }

  /** A name with no separator in it. */
  predicate PlainName(name: string)
  {
    name != "" && forall k :: 0 <= k < |name| ==> name[k] != '/'
  }

  /** A directory that `Dirname` gives back unchanged once a name is joined to it. */
  predicate KeepsDirname(dir: string)
  {
    dir == "/" || LastIndexOf(dir, '/').None? || dir[|dir| - 1] != '/'
  }

  /** A rendered name without separators keeps the file in its directory. */
  lemma RenameStaysInDirectory(filePattern: string, filePath: string, book: Book)
    requires PlainName(RenderPart(filePattern, FileMetadataOf(filePath), book))
    requires KeepsDirname(Dirname(filePath))
    ensures Dirname(RenameTarget(filePattern, filePath, book)) == Dirname(filePath)
    ensures Basename(RenameTarget(filePattern, filePath, book)) == RenderPart(filePattern, FileMetadataOf(filePath), book)
  {
    DirnameOfJoin(Dirname(filePath), RenderPart(filePattern, FileMetadataOf(filePath), book));
  }

  /** Each file with its target, in discovery order. */
  function Moves(filePattern: string, files: seq<string>, book: Book): (r: seq<(string, string)>)
    ensures |r| == |files|
    ensures forall k :: 0 <= k < |files| ==> r[k] == (files[k], RenameTarget(filePattern, files[k], book))
  {
    seq(|files|, k requires 0 <= k < |files| => (files[k], RenameTarget(filePattern, files[k], book)))
  }

  /**
   * Each pair moves its own file, and every file whose rendered name is a plain name stays in
   * its directory under that name.
   */
  lemma MovesStayInDirectories(filePattern: string, files: seq<string>, book: Book)
    ensures forall k :: 0 <= k < |files| ==> Moves(filePattern, files, book)[k].0 == files[k]
    ensures forall k | 0 <= k < |files| && PlainName(RenderPart(filePattern, FileMetadataOf(files[k]), book))
        && KeepsDirname(Dirname(files[k])) ::
      && Dirname(Moves(filePattern, files, book)[k].1) == Dirname(files[k])
      && Basename(Moves(filePattern, files, book)[k].1) == RenderPart(filePattern, FileMetadataOf(files[k]), book)
  {
    forall k | 0 <= k < |files| && PlainName(RenderPart(filePattern, FileMetadataOf(files[k]), book))
        && KeepsDirname(Dirname(files[k]))
      ensures Dirname(Moves(filePattern, files, book)[k].1) == Dirname(files[k])
      ensures Basename(Moves(filePattern, files, book)[k].1) == RenderPart(filePattern, FileMetadataOf(files[k]), book)
    {
      RenameStaysInDirectory(filePattern, files[k], book);
    }
  }

  /** The state after the renames, and the error of the first one that throws. */
  datatype Applied = Applied(entries: Tree, error: Option<Error>)

  /** `fs.renameSync` for each pair in turn, stopping at the first that throws. */
  function RenameAll(m: Tree, moves: seq<(string, string)>): Applied
    decreases |moves|
  {
    if moves == [] then Applied(m, None)
    else
      match Renamed(m, moves[0].0, moves[0].1)
      case Err(e) => Applied(m, Some(e))
      case Ok(m1) => RenameAll(m1, moves[1..])
  }

  /** Renames that leave every file where it is change nothing. */
  lemma {:induction false} RenameAllInPlace(m: Tree, moves: seq<(string, string)>)
    requires forall k :: 0 <= k < |moves| ==> moves[k].0 == moves[k].1 && moves[k].0 in m
    ensures RenameAll(m, moves) == Applied(m, None)
    decreases |moves|
  {
    if moves != [] {
      RenameAllInPlace(m, moves[1..]);
    }
  }

  /** The targets pushed into the result: those that differ from their file, in order. */
  function Changed(moves: seq<(string, string)>): (r: seq<string>)
    ensures |r| <= |moves|
    decreases |moves|
  {
    if moves == [] then []
    else
      var last := moves[|moves| - 1];
      Changed(moves[..|moves| - 1]) + (if last.1 != last.0 then [last.1] else [])
  }

  /** Exactly the targets that differ from their file are reported. */
  lemma {:induction false} ChangedSpec(moves: seq<(string, string)>)
    ensures forall x :: x in Changed(moves) <==>
      exists k :: 0 <= k < |moves| && x == moves[k].1 && moves[k].1 != moves[k].0
    decreases |moves|
  {
    if moves != [] {
      var init := moves[..|moves| - 1];
      var last := |moves| - 1;
      ChangedSpec(init);
      forall x ensures x in Changed(moves) <==> exists k :: 0 <= k < |moves| && x == moves[k].1 && moves[k].1 != moves[k].0 {
        if x in Changed(init) {
          var k :| 0 <= k < |init| && x == init[k].1 && init[k].1 != init[k].0;
          assert moves[k] == init[k];
        }
        if exists k :: 0 <= k < |moves| && x == moves[k].1 && moves[k].1 != moves[k].0 {
          var k :| 0 <= k < |moves| && x == moves[k].1 && moves[k].1 != moves[k].0;
          if k < last {
            assert init[k] == moves[k];
          }
        }
      }
    }
  }

  /**
   * The report keeps discovery order: the moves made first are reported first, so the
   * report for a split list of moves is the two reports one after the other.
   */
  lemma {:induction false} ChangedAppend(x: seq<(string, string)>, y: seq<(string, string)>)
    ensures Changed(x + y) == Changed(x) + Changed(y)
    decreases |y|
  {
    if y == [] {
      assert x + y == x;
    } else {
      var init := y[..|y| - 1];
      ChangedAppend(x, init);
      assert (x + y)[..|x + y| - 1] == x + init;
    }
  }

  datatype RenameFilesResult = RenameFilesResult(bookMetadata: Book, files: seq<string>)

  // ---------------------------------------------------------------------------------
  // Moving the directory

  /**
   * `_removeEmptyDirectory`: a missing path is left alone; a directory whose entries are
   * all junk is removed with everything in it; listing a file throws.
   */
  function EmptyDirRemoved(m: Tree, p: string, isJunk: string -> bool): (r: Result<Tree>)
    ensures p !in m ==> r == Ok(m)
    ensures r.Err? <==> IsFileIn(m, p)
    ensures r.Ok? && r.value != m ==> IsDirIn(m, p) && NoVisibleChildren(m, p, isJunk) && r.value == Without(m, p)
    ensures IsDirIn(m, p) && NoVisibleChildren(m, p, isJunk) ==> r == Ok(Without(m, p))
  {
    if p !in m then Ok(m)
    else if m[p].File? then Err(FsError(p))
    else if NoVisibleChildren(m, p, isJunk) then Ok(Without(m, p))
    else Ok(m)
  }

  /** The record the directory pattern is rendered against: the book, the directory and the base path. */
  function DirectoryValues(book: Book, directoryPath: string, basePath: string): Template.Values
  {
    BookValues(book)["directoryPath" := directoryPath]["basePath" := basePath]
  }

  function NewDirectoryPath(directoryPattern: string, directoryPath: string, basePath: string, book: Book): string
  {
    Join(basePath, Template.Fill(directoryPattern, DirectoryValues(book, directoryPath, basePath)))
  }

  /** The default directory pattern renders as author/title. */
  lemma DefaultDirectoryName(book: Book, directoryPath: string, basePath: string)
    ensures Template.Fill(DIRECTORY_PATTERN, DirectoryValues(book, directoryPath, basePath)) == book.author + "/" + book.title
  {
    var values := DirectoryValues(book, directoryPath, basePath);
    assert values["author"] == book.author && values["title"] == book.title;
    Template.FillTwoKeys("author", "/", "title", values);
  }

  /**
   * With the default pattern, a book already at basePath/author/title stays where it is:
   * the new path is the old one.
   */
  lemma DefaultLayoutIsFixedPoint(book: Book, basePath: string)
    requires basePath != "" && basePath != "." && book.author != "" && book.title != ""
    ensures NewDirectoryPath(DIRECTORY_PATTERN, DefaultDirectoryPath(basePath, book), basePath, book)
         == DefaultDirectoryPath(basePath, book)
  {
    DefaultDirectoryName(book, DefaultDirectoryPath(basePath, book), basePath);
  }

  datatype Relocation = Relocation(result: Result<string>, entries: Tree)

  /** The cleanup after a move: the old title directory, then the author directory, each removed if left empty. */
  function Cleanup(m: Tree, directoryPath: string, isJunk: string -> bool, newPath: string): (r: Relocation)
    ensures r.result.Ok? ==> r.result.value == newPath
    ensures r.result.Err? <==> (IsFileIn(m, directoryPath)
      || IsFileIn(EmptyDirRemoved(m, directoryPath, isJunk).value, Dirname(directoryPath)))
    ensures forall q :: q in r.entries ==> q in m && r.entries[q] == m[q]
    ensures forall q :: q in m && !Under(q, directoryPath) && !Under(q, Dirname(directoryPath)) ==> q in r.entries
    ensures IsFileIn(m, directoryPath) ==> r.entries == m
    ensures IsDirIn(m, directoryPath) && NoVisibleChildren(m, directoryPath, isJunk) ==>
      forall q :: q in r.entries ==> !Under(q, directoryPath)
    ensures var first := EmptyDirRemoved(m, directoryPath, isJunk);
      first.Ok? && IsDirIn(first.value, Dirname(directoryPath)) && NoVisibleChildren(first.value, Dirname(directoryPath), isJunk) ==>
      forall q :: q in r.entries ==> !Under(q, Dirname(directoryPath))
    ensures (!(IsDirIn(m, directoryPath) && NoVisibleChildren(m, directoryPath, isJunk))
      && !(IsDirIn(m, Dirname(directoryPath)) && NoVisibleChildren(m, Dirname(directoryPath), isJunk)))
      ==> r.entries == m
  {
    match EmptyDirRemoved(m, directoryPath, isJunk)
    case Err(e) => Relocation(Err(e), m)
    case Ok(m3) =>
      match EmptyDirRemoved(m3, Dirname(directoryPath), isJunk)
      case Err(e) => Relocation(Err(e), m3)
      case Ok(m4) => Relocation(Ok(newPath), m4)
  }

  /**
   * `_renamePath`: nothing happens when the new path is the old one; an existing target is
   * refused; otherwise the new path is created, the directory renamed onto it, and the old
   * title directory and then its author directory are removed if left empty.
   */
  function RenamePathSpec(m: Tree, directoryPattern: string, directoryPath: string, basePath: Option<string>,
                          book: Book, isJunk: string -> bool): (r: Relocation)
    ensures basePath.None? ==> r == Relocation(Err(TypeError("basePath")), m)
    ensures basePath.Some? ==>
      var newPath := NewDirectoryPath(directoryPattern, directoryPath, basePath.value, book);
      && (Normalize(directoryPath) == newPath ==> r == Relocation(Ok(newPath), m))
      && (Normalize(directoryPath) != newPath && newPath in m ==> r == Relocation(Err(DirectoryExists(newPath)), m))
      && (r.result.Ok? ==> r.result.value == newPath)
  {
    match basePath
    case None => Relocation(Err(TypeError("basePath")), m)
    case Some(base) =>
      var oldPath := Normalize(directoryPath);
      var newPath := NewDirectoryPath(directoryPattern, directoryPath, base, book);
      if oldPath == newPath then Relocation(Ok(oldPath), m)
      else if newPath in m then Relocation(Err(DirectoryExists(newPath)), m)
      else
        match DirsMade(m, newPath)
        case Err(e) => Relocation(Err(e), m)
        case Ok(m1) =>
          match Renamed(m1, oldPath, newPath)
          case Err(e) => Relocation(Err(e), m1)
          case Ok(m2) => Cleanup(m2, directoryPath, isJunk, newPath)
  }

  /** Nothing in `m` lies at or below `p`. */
  predicate NothingBelow(m: Tree, p: string)
  {
    forall q :: q in m ==> !Under(q, p)
  }

  lemma UnderAntisymmetric(a: string, b: string)
    requires Under(a, b) && Under(b, a)
    ensures a == b
  {
  }

  /** `mkdirs` of a fresh path creates it as an empty directory inside an existing one, and keeps every entry. */
  lemma MakeDirsForMove(m: Tree, newPath: string)
    requires IsDirIn(m, ".") && IsDirIn(m, "/")
    requires NothingBelow(m, newPath)
    requires DirsMade(m, newPath).Ok?
    ensures var m1 := DirsMade(m, newPath).value;
      && (forall q :: q in m ==> q in m1 && m1[q] == m[q])
      && (forall q :: q in m1 ==> q in m || Under(newPath, q))
      && (forall q :: q in m1 && q !in m ==> m1[q] == Dir)
      && IsDirIn(m1, newPath)
      && Childless(m1, newPath)
      && ParentIsDir(m1, newPath)
  {
    var m1 := DirsMade(m, newPath).value;
    assert newPath != "." && newPath != "/" by {
      assert Under(".", ".") && Under("/", "/");
    }
    assert newPath != "" by {
      assert Under("/", "");
    }
    MakeDirsSpec(m, newPath);
    forall q | q in m1 ensures q in m || Under(newPath, q) {
      if q !in m {
        LineageHolds(newPath, q);
      }
    }
    forall q | q in m1 && Under(q, newPath) ensures q == newPath {
      if q !in m {
        LineageHolds(newPath, q);
        UnderAntisymmetric(q, newPath);
      }
    }
    var parent := Dirname(newPath);
    if parent != "." && parent != "/" {
      DirnameInLineage(newPath);
      assert !IsFileIn(m, parent);
      assert parent in m1;
    }
  }

  /** A path other than a root does not lie below its own directory. */
  lemma DirnameNotUnder(p: string)
    requires p != "." && p != "/"
    ensures !Under(Dirname(p), p)
  {
    match LastIndexOf(p, '/')
    case None =>
      assert !IsPrefix(p + "/", ".") by {
        if |p| + 1 <= 1 {
          assert (p + "/")[0] == '/';
        }
      }
    case Some(i) =>
      if i == 0 {
        assert |p + "/"| > 1;
      }
  }

  /**
   * A directory moved to a fresh path arrives there whole: each entry below the old path is
   * found, unchanged, at the same place below the new path, and the old path is gone. The
   * cleanup of the author directory cannot undo this when the new path lies outside it, or
   * lies directly in it under a name that is not junk.
   */
  lemma RenamePathMoves(m: Tree, directoryPattern: string, directoryPath: string, base: string, book: Book,
                        isJunk: string -> bool, newPath: string)
    requires newPath == NewDirectoryPath(directoryPattern, directoryPath, base, book)
    requires directoryPath != "" && directoryPath != "." && directoryPath != "/" && IsDirIn(m, directoryPath)
    requires IsDirIn(m, ".") && IsDirIn(m, "/")
    requires NothingBelow(m, newPath) && !Under(newPath, directoryPath)
    requires DirsMade(m, newPath).Ok?
    requires !IsFileIn(m, Dirname(directoryPath))
    requires (!Under(newPath, Dirname(directoryPath)) && !Under(Dirname(directoryPath), newPath))
          || (Dirname(newPath) == Dirname(directoryPath) && !isJunk(Basename(newPath)))
    ensures var s := RenamePathSpec(m, directoryPattern, directoryPath, Some(base), book, isJunk);
      && s.result == Ok(newPath)
      && directoryPath !in s.entries
      && forall q :: q in m && Under(q, directoryPath) ==>
           Rebase(q, directoryPath, newPath) in s.entries && s.entries[Rebase(q, directoryPath, newPath)] == m[q]
  {
    var oldPath := directoryPath;
    var author := Dirname(oldPath);
    assert Normalize(directoryPath) == oldPath;
    assert Under(oldPath, oldPath);
    assert Under(newPath, newPath);
    assert newPath != "." && newPath != "/" by {
      assert Under(".", ".") && Under("/", "/");
    }
    MakeDirsForMove(m, newPath);
    var m1 := DirsMade(m, newPath).value;
    assert m1[oldPath] == m[oldPath];
    assert Renamed(m1, oldPath, newPath) == Ok(Moved(m1, oldPath, newPath));
    var m2 := Moved(m1, oldPath, newPath);
    MovedCarriesTree(m1, oldPath, newPath);
    MovedAddsOnlyBelowTarget(m1, oldPath, newPath);
    MovedKeepsOthers(m1, oldPath, newPath);
    DirnameNotUnder(newPath);
    DirnameNotUnder(oldPath);
    assert EmptyDirRemoved(m2, oldPath, isJunk) == Ok(m2);
    assert !IsFileIn(m2, author);
    CleanupKeepsMovedTree(m2, author, newPath, isJunk);
    var m4 := EmptyDirRemoved(m2, author, isJunk).value;
    assert Cleanup(m2, directoryPath, isJunk, newPath) == Relocation(Ok(newPath), m4);
    assert RenamePathSpec(m, directoryPattern, directoryPath, Some(base), book, isJunk) == Relocation(Ok(newPath), m4);
    forall q | q in m && Under(q, oldPath)
      ensures Rebase(q, oldPath, newPath) in m2 && m2[Rebase(q, oldPath, newPath)] == m[q]
      ensures Under(Rebase(q, oldPath, newPath), newPath)
    {
      RebasedIsUnder(q, oldPath, newPath);
    }
  }

  /** Removing the author directory if left empty keeps the tree of a new path outside it, or visible inside it. */
  lemma CleanupKeepsMovedTree(m: Tree, author: string, newPath: string, isJunk: string -> bool)
    requires !IsFileIn(m, author) && newPath in m
    requires (!Under(newPath, author) && !Under(author, newPath))
          || (ChildOf(newPath, author) && !isJunk(Basename(newPath)))
    ensures EmptyDirRemoved(m, author, isJunk).Ok?
    ensures forall t :: t in m && Under(t, newPath) ==>
      t in EmptyDirRemoved(m, author, isJunk).value && EmptyDirRemoved(m, author, isJunk).value[t] == m[t]
  {
    var r := EmptyDirRemoved(m, author, isJunk);
    forall t | t in m && Under(t, newPath) ensures t in r.value && r.value[t] == m[t] {
      if Under(t, author) {
        UnderComparable(t, newPath, author);
      }
    }
  }

  // ---------------------------------------------------------------------------------
  // The stateful operations

  /** `_removeEmptyDirectory`. */
  method RemoveEmptyDirectory(disk: Disk, p: string, isJunk: string -> bool) returns (r: Result<bool>)
    modifies disk
    ensures var e := EmptyDirRemoved(old(disk.entries), p, isJunk);
      && (r.Ok? <==> e.Ok?) && (r.Err? ==> r.error == e.error)
      && disk.entries == (if e.Ok? then e.value else old(disk.entries))
  {
    if !disk.Exists(p) {
      return Ok(false);
    }
    if disk.entries[p].File? {
      return Err(FsError(p));
    }
    if NoVisibleChildren(disk.entries, p, isJunk) {
      var removed := disk.RemoveTree(p);
      return Ok(true);
    }
    r := Ok(false);
  }

  /** `_renamePath`. */
  method RenamePath(disk: Disk, directoryPattern: string, directoryPath: string, basePath: Option<string>,
                    book: Book, isJunk: string -> bool)
    returns (r: Result<string>)
    modifies disk
    ensures var s := RenamePathSpec(old(disk.entries), directoryPattern, directoryPath, basePath, book, isJunk);
      r == s.result && disk.entries == s.entries
  {
    if basePath.None? {
      return Err(TypeError("basePath"));
    }
    var oldPath := Normalize(directoryPath);
    var newPath := NewDirectoryPath(directoryPattern, directoryPath, basePath.value, book);
    if oldPath == newPath {
      return Ok(oldPath);
    }
    if disk.Exists(newPath) {
      return Err(DirectoryExists(newPath));
    }
    var m0 := disk.entries;
    var made := disk.MakeDirs(newPath);
    if !made {
      return Err(DirsMade(m0, newPath).error);
    }
    var m1 := disk.entries;
    var moved := disk.Rename(oldPath, newPath);
    if !moved {
      return Err(Renamed(m1, oldPath, newPath).error);
    }
    r := CleanupAfterMove(disk, directoryPath, isJunk, newPath);
  }

  /** The two `_removeEmptyDirectory` calls that end `_renamePath`. */
  method CleanupAfterMove(disk: Disk, directoryPath: string, isJunk: string -> bool, newPath: string) returns (r: Result<string>)
    modifies disk
    ensures var s := Cleanup(old(disk.entries), directoryPath, isJunk, newPath);
      r == s.result && disk.entries == s.entries
  {
    var title := RemoveEmptyDirectory(disk, directoryPath, isJunk);
    if title.Err? {
      return Err(title.error);
    }
    var author := RemoveEmptyDirectory(disk, Dirname(directoryPath), isJunk);
    if author.Err? {
      return Err(author.error);
    }
    r := Ok(newPath);
  }

  /** One step of `RenameAll`, from position `i`. */
  lemma RenameAllStep(m: Tree, moves: seq<(string, string)>, i: nat)
    requires i < |moves|
    ensures var step := Renamed(m, moves[i].0, moves[i].1);
      RenameAll(m, moves[i..]) == if step.Err? then Applied(m, Some(step.error)) else RenameAll(step.value, moves[i + 1..])
  {
    assert moves[i..][0] == moves[i];
    assert moves[i..][1..] == moves[i + 1..];
  }

  /** The loop of `renameFiles`: each file renamed in turn, the changed targets collected. */
  method ApplyRenames(disk: Disk, moves: seq<(string, string)>) returns (r: Result<seq<string>>)
    modifies disk
    ensures var a := RenameAll(old(disk.entries), moves);
      && disk.entries == a.entries
      && (r.Ok? <==> a.error.None?)
      && (r.Ok? ==> r.value == Changed(moves))
  {
    var changed := [];
    var i := 0;
    while i < |moves|
      invariant 0 <= i <= |moves|
      invariant RenameAll(disk.entries, moves[i..]) == RenameAll(old(disk.entries), moves)
      invariant changed == Changed(moves[..i])
    {
      RenameAllStep(disk.entries, moves, i);
      var ok := disk.Rename(moves[i].0, moves[i].1);
      if !ok {
        return Err(FsError(moves[i].0));
      }
      assert moves[..i + 1][..i] == moves[..i];
      if moves[i].0 != moves[i].1 {
        changed := changed + [moves[i].1];
      }
      i := i + 1;
    }
    assert moves[..i] == moves;
    r := Ok(changed);
  }

  datatype RenameResult = RenameResult(directory: string, files: seq<string>, bookMetadata: Book)

  class Mp3Files {
    var config: map<string, string>
    /** Every configuration written out by the configuration manager, oldest first. */
    var saved: seq<map<string, string>>

    predicate Valid()
      reads this
    {
      Configured(config)
    }

    /** Loads the stored configuration and fills the default patterns, saving only if one was missing. */
    constructor (stored: map<string, string>)
      ensures config == FilesDefaults(stored)
      ensures saved == if DefaultsMissing(stored) then [config] else []
      ensures Valid()
    {
      config := FilesDefaults(stored);
      saved := if DefaultsMissing(stored) then [FilesDefaults(stored)] else [];
    }

    /**
     * `renameFiles`: `files` is what the glob below the resolved directory found. The book's
     * part count becomes the number of files; each file is renamed in turn.
     */
    method RenameFiles(disk: Disk, files: seq<string>, book: Book, options: Options) returns (r: Result<RenameFilesResult>)
      requires Valid()
      modifies disk
      ensures var res := ResolveOptions(old(disk.entries), config, options, book);
        && (res.Err? ==> r == Err(res.error) && disk.entries == old(disk.entries))
        && (res.Ok? ==>
              var b := book.(partCount := |files|);
              var a := RenameAll(old(disk.entries), Moves(res.value.filePattern, files, b));
              && disk.entries == a.entries
              && (r.Ok? <==> a.error.None?)
              && (r.Ok? ==> r.value == RenameFilesResult(b, Changed(Moves(res.value.filePattern, files, b)))))
    {
      var res := ResolveOptions(disk.entries, config, options, book);
      if res.Err? {
        return Err(res.error);
      }
      var pattern := res.value.filePattern;
      var b := book.(partCount := |files|);
      var moves := Moves(pattern, files, b);
      var changed :- ApplyRenames(disk, moves);
      r := Ok(RenameFilesResult(b, changed));
    }

    /** `renameDirectory`. */
    method RenameDirectory(disk: Disk, book: Book, options: Options, isJunk: string -> bool) returns (r: Result<string>)
      requires Valid()
      modifies disk
      ensures var res := ResolveOptions(old(disk.entries), config, options, book);
        && (res.Err? ==> r == Err(res.error) && disk.entries == old(disk.entries))
        && (res.Ok? ==>
              var s := RenamePathSpec(old(disk.entries), res.value.directoryPattern, res.value.directoryPath,
                                      Get(config, "basePath"), book, isJunk);
              r == s.result && disk.entries == s.entries)
    {
      var res := ResolveOptions(disk.entries, config, options, book);
      if res.Err? {
        return Err(res.error);
      }
      r := RenamePath(disk, res.value.directoryPattern, res.value.directoryPath, Get(config, "basePath"), book, isJunk);
    }

    /** `rename`: the files first, then the directory, with the updated book record. */
    method Rename(disk: Disk, files: seq<string>, book: Book, options: Options, isJunk: string -> bool)
      returns (r: Result<RenameResult>)
      requires Valid()
      modifies disk
      ensures r.Ok? ==> r.value.bookMetadata == book.(partCount := |files|)
      ensures var res := ResolveOptions(old(disk.entries), config, options, book);
        r.Ok? ==> res.Ok? && r.value.files == Changed(Moves(res.value.filePattern, files, book.(partCount := |files|)))
    {
      var renamed :- RenameFiles(disk, files, book, options);
      var directory :- RenameDirectory(disk, renamed.bookMetadata, options, isJunk);
      r := Ok(RenameResult(directory, renamed.files, renamed.bookMetadata));
    }
  }
}
