/**
 * The tagger: every discovered audio file gets ID3 tags built from the book record and
 * its own file name, with a title rendered from the title pattern.
 *
 * `globby` is replaced by the list of files it found. `NodeID3.write` is the `TagStore`
 * below: a store of the tags written so far, and a fixed oracle saying which files
 * accept a write.
 */
module Mp3Tags {
  import opened Results
  import opened MediaFiles
  import Template

  /** The default title pattern, the text "${title} - Part ${trackNumber}". */
  const TITLE_PATTERN := TITLE_PART

  const GENRE := "Audiobooks"
  const LANGUAGE := "eng"

  datatype Comment = Comment(language: string, text: string)

  datatype Tags = Tags(
    artist: string,
    album: string,
    subtitle: string,
    tsoa: string,
    comment: Comment,
    genre: string,
    title: string,
    trackNumber: string)

  /** `mapMetadataToID3Tags`: book fields, the fixed genre and language, and the rendered part title. */
  function MapMetadataToTags(titlePattern: string, m: FileMetadata, book: Book): Tags
  {
    Tags(book.author, book.title, book.subTitle, book.series, Comment(LANGUAGE, book.description),
         GENRE, RenderPart(titlePattern, m, book), m.trackNumber)
  }

  /** The tags a file gets. */
  function TagsFor(titlePattern: string, filePath: string, book: Book): Tags
  {
    MapMetadataToTags(titlePattern, FileMetadataOf(filePath), book)
  }

  /**
   * Every tag of a file: the book's author, title, subtitle and series, its description as an
   * English comment, the fixed genre, the title pattern rendered against the merged record, and
   * the file's own unpadded track number. With the default pattern the title tag is the book
   * title followed by " - Part " and the padded track number.
   */
  lemma TagsFromMetadata(titlePattern: string, m: FileMetadata, book: Book)
    ensures var t := MapMetadataToTags(titlePattern, m, book);
      && t.artist == book.author && t.album == book.title
      && t.subtitle == book.subTitle && t.tsoa == book.series
      && t.comment == Comment("eng", book.description) && t.genre == "Audiobooks"
      && t.title == Template.Fill(titlePattern, PartValues(book, m))
      && t.trackNumber == m.trackNumber
    ensures titlePattern == TITLE_PATTERN ==>
      MapMetadataToTags(titlePattern, m, book).title
        == book.title + " - Part " + PaddedTrackNumber(m.trackNumber, book.partCount)
  {
    if titlePattern == TITLE_PATTERN {
      RenderPartTitle(m, book);
    }
  }

  /**
   * The default title pattern is the default file pattern without its extension: a file
   * renamed with the defaults is named after its title tag.
   */
  lemma TitleTagNamesFile(m: FileMetadata, book: Book)
    ensures MapMetadataToTags(TITLE_PATTERN, m, book).title + m.fileExtension
         == RenderPart(TITLE_PART + Template.Placeholder("fileExtension"), m, book)
  {
    RenderPartTitle(m, book);
    RenderPartFileName(m, book);
  }

  // ---------------------------------------------------------------------------------
  // Options

  datatype TagOptions = TagOptions(titlePattern: Option<string>)

  /**
   * The title pattern as `normalizeTags` reads it: `options.titlePattern` with no
   * options object at all throws a TypeError.
   */
  function TitlePatternAsWritten(options: Option<TagOptions>, configured: Option<string>): (r: Result<Option<string>>)
    ensures options.None? ==> r == Err(TypeError("options"))
    ensures options.Some? ==> r.Ok?
  {
    match options
    case None => Err(TypeError("options"))
    case Some(o) => Ok(OrElse(o.titlePattern, configured))
  }

  /** The title pattern with missing options treated as empty ones. */
  function TitlePatternOf(options: Option<TagOptions>, configured: Option<string>): (r: Option<string>)
    ensures Truthy(configured) ==> Truthy(r)
    ensures options.Some? && Truthy(options.value.titlePattern) ==> r == options.value.titlePattern
    ensures !(options.Some? && Truthy(options.value.titlePattern)) ==> r == configured
  {
    match options
    case None => configured
    case Some(o) => OrElse(o.titlePattern, configured)
  }

  /** Calling without options, as the repository's own test scripts do, throws before any file is touched. */
  lemma NormalizeTagsWithoutOptionsThrows(configured: Option<string>)
    ensures TitlePatternAsWritten(None, configured).Err?
    ensures TitlePatternOf(None, configured) == configured
  {
  }

  /** The corrected reading agrees with the code whenever an options object is passed. */
  lemma TitlePatternAgrees(o: TagOptions, configured: Option<string>)
    ensures TitlePatternAsWritten(Some(o), configured) == Ok(TitlePatternOf(Some(o), configured))
  {
  }

  // ---------------------------------------------------------------------------------
  // Writing

  /** The files whose write succeeded, in discovery order. */
  function Tagged(files: seq<string>, accepts: string -> bool): (r: seq<string>)
    ensures |r| <= |files|
    decreases |files|
  {
    if files == [] then []
    else
      var last := files[|files| - 1];
      Tagged(files[..|files| - 1], accepts) + (if accepts(last) then [last] else [])
  }

  /** The reported files are exactly the accepted ones. */
  lemma {:induction false} TaggedSpec(files: seq<string>, accepts: string -> bool)
    ensures forall f :: f in Tagged(files, accepts) <==> f in files && accepts(f)
    ensures (forall f :: f in files ==> accepts(f)) ==> Tagged(files, accepts) == files
    decreases |files|
  {
    if files != [] {
      var init := files[..|files| - 1];
      TaggedSpec(init, accepts);
      assert files == init + [files[|files| - 1]];
    }
  }

  /**
   * The report keeps discovery order: the files found first are reported first, so the
   * report for a split listing is the two reports one after the other.
   */
  lemma {:induction false} TaggedAppend(x: seq<string>, y: seq<string>, accepts: string -> bool)
    ensures Tagged(x + y, accepts) == Tagged(x, accepts) + Tagged(y, accepts)
    decreases |y|
  {
    if y == [] {
      assert x + y == x;
    } else {
      var init := y[..|y| - 1];
      TaggedAppend(x, init, accepts);
      assert (x + y)[..|x + y| - 1] == x + init;
    }
  }

  /** A store after writing `value(f)` for each accepted file `f` in turn. */
  function WrittenEach<V>(store: map<string, V>, files: seq<string>, accepts: string -> bool, value: string -> V): map<string, V>
    decreases |files|
  {
    if files == [] then store
    else
      var last := files[|files| - 1];
      var prior := WrittenEach(store, files[..|files| - 1], accepts, value);
      if accepts(last) then prior[last := value(last)] else prior
  }

  /** Every accepted file holds its value afterwards; every other entry is as before. */
  lemma {:induction false} WrittenEachSpec<V>(store: map<string, V>, files: seq<string>, accepts: string -> bool, value: string -> V)
    ensures var r := WrittenEach(store, files, accepts, value);
      && (forall f :: f in r <==> f in store || (f in files && accepts(f)))
      && (forall f :: f in files && accepts(f) ==> r[f] == value(f))
      && (forall f :: f in store && !(f in files && accepts(f)) ==> r[f] == store[f])
    decreases |files|
  {
    if files != [] {
      var init := files[..|files| - 1];
      WrittenEachSpec(store, init, accepts, value);
      assert files == init + [files[|files| - 1]];
    }
  }

  /** The tag store after writing each accepted file in turn. */
  function TagsWritten(tags: map<string, Tags>, titlePattern: string, files: seq<string>, book: Book,
                       accepts: string -> bool): map<string, Tags>
  {
    WrittenEach(tags, files, accepts, f => TagsFor(titlePattern, f, book))
  }

  /** Writing one more file extends the reported list and the tag store by that file alone. */
  lemma WriteStep(tags: map<string, Tags>, titlePattern: string, files: seq<string>, i: nat, book: Book,
                  accepts: string -> bool)
    requires i < |files|
    ensures Tagged(files[..i + 1], accepts) == Tagged(files[..i], accepts) + (if accepts(files[i]) then [files[i]] else [])
    ensures var prior := TagsWritten(tags, titlePattern, files[..i], book, accepts);
      TagsWritten(tags, titlePattern, files[..i + 1], book, accepts)
        == if accepts(files[i]) then prior[files[i] := TagsFor(titlePattern, files[i], book)] else prior
  {
    assert files[..i + 1][..i] == files[..i];
  }

  /** Every accepted file carries its tags afterwards; every other entry is as before. */
  lemma TagsWrittenSpec(tags: map<string, Tags>, titlePattern: string, files: seq<string>, book: Book,
                        accepts: string -> bool)
    ensures var r := TagsWritten(tags, titlePattern, files, book, accepts);
      && (forall f :: f in r <==> f in tags || (f in files && accepts(f)))
      && (forall f :: f in files && accepts(f) ==> r[f] == TagsFor(titlePattern, f, book))
      && (forall f :: f in tags && !(f in files && accepts(f)) ==> r[f] == tags[f])
  {
    WrittenEachSpec(tags, files, accepts, f => TagsFor(titlePattern, f, book));
  }

  /** `NodeID3.write`: whether a file accepts tags is fixed; a successful write replaces its tags. */
  class TagStore {
    var tags: map<string, Tags>
    const accepts: string -> bool

    constructor (initial: map<string, Tags>, accepts: string -> bool)
      ensures tags == initial && this.accepts == accepts
    {
      tags := initial;
      this.accepts := accepts;
    }

    method Write(t: Tags, filePath: string) returns (success: bool)
      modifies this
      ensures success == accepts(filePath)
      ensures tags == if success then old(tags)[filePath := t] else old(tags)
    {
      success := accepts(filePath);
      if success {
        tags := tags[filePath := t];
      }
    }
  }

  datatype NormalizeTagsResult = NormalizeTagsResult(bookMetadata: Book, files: seq<string>)

  /** `_createDefaultConfig`: a missing title pattern gets the default. */
  function TagsDefaults(config: map<string, string>): (r: map<string, string>)
    ensures Truthy(Get(r, "titlePattern"))
    ensures Truthy(Get(config, "titlePattern")) ==> r == config
    ensures !Truthy(Get(config, "titlePattern")) ==> r == config["titlePattern" := TITLE_PATTERN]
  {
    if Truthy(Get(config, "titlePattern")) then config else config["titlePattern" := TITLE_PATTERN]
  }

  class Mp3Tags {
    var config: map<string, string>
    /** Every configuration written out by the configuration manager, oldest first. */
    var saved: seq<map<string, string>>

    predicate Valid()
      reads this
    {
      Truthy(Get(config, "titlePattern"))
    }

    /** Loads the stored configuration and fills the default title pattern, saving only if it was missing. */
    constructor (stored: map<string, string>)
      ensures config == TagsDefaults(stored)
      ensures saved == if Truthy(Get(stored, "titlePattern")) then [] else [config]
      ensures Valid()
    {
      config := TagsDefaults(stored);
      saved := if Truthy(Get(stored, "titlePattern")) then [] else [TagsDefaults(stored)];
    }

    /**
     * `normalizeTags`: the part count becomes the number of files, the title pattern in the
     * configuration is replaced for this and later calls (without being saved), and each
     * file gets its tags; only the files whose write succeeded are reported.
     */
    method NormalizeTags(store: TagStore, files: seq<string>, book: Book, options: Option<TagOptions>)
      returns (r: NormalizeTagsResult)
      requires Valid()
      modifies this, store
      ensures Valid() && saved == old(saved)
      ensures config == old(config)["titlePattern" := TitlePatternOf(options, old(Get(config, "titlePattern"))).value]
      ensures r.bookMetadata == book.(partCount := |files|)
      ensures r.files == Tagged(files, store.accepts)
      ensures store.tags == TagsWritten(old(store.tags), config["titlePattern"], files, r.bookMetadata, store.accepts)
    {
      var pattern := TitlePatternOf(options, Get(config, "titlePattern")).value;
      config := config["titlePattern" := pattern];
      var b := book.(partCount := |files|);
      var written := [];
      var i := 0;
      while i < |files|
        invariant 0 <= i <= |files|
        invariant config == old(config)["titlePattern" := pattern] && saved == old(saved)
        invariant written == Tagged(files[..i], store.accepts)
        invariant store.tags == TagsWritten(old(store.tags), pattern, files[..i], b, store.accepts)
      {
        WriteStep(old(store.tags), pattern, files, i, b, store.accepts);
        var success := store.Write(TagsFor(pattern, files[i], b), files[i]);
        if success {
          written := written + [files[i]];
        }
        i := i + 1;
      }
      assert files[..i] == files;
      r := NormalizeTagsResult(b, written);
    }
  }
}
