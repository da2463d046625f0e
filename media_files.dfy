/**
 * What both the renamer and the tag normaliser derive from a discovered media file: its
 * directory, extension, bare name and track number (`_getFileMetadata`, written out twice
 * in the source, once per component), the zero-padding of the track number, and the flat
 * record the naming patterns are rendered against.
 */
module MediaFiles {
  import opened Results
  import opened Strings
  import opened Paths
  import Template

  /** The descriptive fields of a book; partCount is overwritten with the discovered file count. */
  datatype Book = Book(
    author: string,
    title: string,
    subTitle: string,
    series: string,
    description: string,
    coverImageUrl: string,
    partCount: nat)

  datatype FileMetadata = FileMetadata(
    directoryPath: string,
    fileExtension: string,
    fileName: string,
    filePath: string,
    trackNumber: string)

  /** Where the run of non-digits that ends `name[..j]` begins. */
  function NonDigitStart(name: string, j: nat): (i: nat)
    requires j <= |name|
    ensures i <= j
    ensures forall k :: i <= k < j ==> !IsDigit(name[k])
    ensures 0 < i ==> IsDigit(name[i - 1])
  {
    if 0 < j && !IsDigit(name[j - 1]) then NonDigitStart(name, j - 1) else j
  }

  /** Where the run of digits that ends `name[..j]` begins. */
  function DigitStart(name: string, j: nat): (i: nat)
    requires j <= |name|
    ensures i <= j
    ensures forall k :: i <= k < j ==> IsDigit(name[k])
    ensures 0 < i ==> !IsDigit(name[i - 1])
  {
    if 0 < j && IsDigit(name[j - 1]) then DigitStart(name, j - 1) else j
  }

  /** Somewhere in `name` a non-digit is immediately followed by a digit. */
  predicate HasBoundary(name: string)
  {
    exists k :: 0 <= k < |name| - 1 && !IsDigit(name[k]) && IsDigit(name[k + 1])
  }

  /**
   * `name == name[..i] + name[i..j] + name[j..]` where the first part ends in a non-digit,
   * the middle is a non-empty digit run and the last part holds no digit.
   */
  predicate IsTrackSplit(name: string, i: nat, j: nat)
  {
    && 0 < i < j <= |name|
    && !IsDigit(name[i - 1])
    && (forall k :: i <= k < j ==> IsDigit(name[k]))
    && (forall k :: j <= k < |name| ==> !IsDigit(name[k]))
  }

  /**
   * `name.replace(/.*\D(\d+)\D*\/, "$1")`. The greedy `.*` places the `\D` at the last
   * non-digit that precedes a digit, `(\d+)` takes the whole run after it and `\D*` the
   * rest of the name, so the match covers the name and is replaced by the digit run; when
   * no non-digit precedes a digit nothing matches and the name is kept.
   */
  function TrackNumber(name: string): string
  {
    var t := NonDigitStart(name, |name|);
    var i := DigitStart(name, t);
    if 0 < i < t then name[i..t] else name
  }

  /** `_getFileMetadata`. */
  function FileMetadataOf(filePath: string): FileMetadata
  {
    var stem := Stem(filePath);
    FileMetadata(Dirname(filePath), Extname(filePath), stem, filePath, TrackNumber(stem))
  }

  /** The width of `partCount.toString()`. */
  function Width(partCount: nat): nat
  {
    |NatToString(partCount)|
  }

  /** `trackNumber.padStart(partCount.toString().length, "0")`. */
  function PaddedTrackNumber(trackNumber: string, partCount: nat): (r: string)
    ensures |r| == Max(|trackNumber|, Width(partCount))
    ensures r[|r| - |trackNumber|..] == trackNumber
    ensures forall k :: 0 <= k < |r| - |trackNumber| ==> r[k] == '0'
  {
    PadStart(trackNumber, Width(partCount), '0')
  }

  /** The book as a template record. */
  function BookValues(book: Book): Template.Values
  {
    map[
      "author" := book.author,
      "title" := book.title,
      "subTitle" := book.subTitle,
      "series" := book.series,
      "description" := book.description,
      "coverImageUrl" := book.coverImageUrl,
      "partCount" := NatToString(book.partCount)]
  }

  /** A file's metadata as a template record. */
  function FileValues(m: FileMetadata): (r: Template.Values)
    ensures r.Keys == {"directoryPath", "fileExtension", "fileName", "filePath", "trackNumber"}
  {
    map[
      "directoryPath" := m.directoryPath,
      "fileExtension" := m.fileExtension,
      "fileName" := m.fileName,
      "filePath" := m.filePath,
      "trackNumber" := m.trackNumber]
  }

  /**
   * `{ ...bookMetadata, ...fileMetadata }` with `trackNumber` then replaced by its padded
   * form: the record both the file-name and the part-title patterns are rendered against.
   */
  function PartValues(book: Book, m: FileMetadata): (r: Template.Values)
    ensures r.Keys == BookValues(book).Keys + FileValues(m).Keys
    ensures r["trackNumber"] == PaddedTrackNumber(m.trackNumber, book.partCount)
    ensures forall k :: k in FileValues(m) && k != "trackNumber" ==> r[k] == FileValues(m)[k]
    ensures forall k :: k in BookValues(book) && k !in FileValues(m) ==> r[k] == BookValues(book)[k]
  {
    (BookValues(book) + FileValues(m))["trackNumber" := PaddedTrackNumber(m.trackNumber, book.partCount)]
  }

  /**
   * `_getFileName` and `_getPartTitle`: a naming pattern rendered against the merged record,
   * so a file field wins over a book field and the track number appears padded.
   */
  function RenderPart(pattern: string, m: FileMetadata, book: Book): string
  {
    Template.Fill(pattern, PartValues(book, m))
  }

  /** The default part naming, the text "${title} - Part ${trackNumber}". */
  const TITLE_PART := Template.Placeholder("title") + " - Part " + Template.Placeholder("trackNumber")

  /** The default part naming followed by more pattern, rendered against any record holding its two keys. */
  lemma FillTitlePart(rest: string, values: Template.Values)
    requires "title" in values && "trackNumber" in values
    ensures Template.Fill(TITLE_PART + rest, values)
         == values["title"] + " - Part " + values["trackNumber"] + Template.Fill(rest, values)
  {
    Template.FillKeyLiteralKey("title", " - Part ", "trackNumber", rest, values);
  }

  /** The merged record holds the book's title and the padded track number. */
  lemma PartValuesTitle(m: FileMetadata, book: Book)
    ensures "title" in PartValues(book, m) && PartValues(book, m)["title"] == book.title
    ensures "fileExtension" in PartValues(book, m) && PartValues(book, m)["fileExtension"] == m.fileExtension
  {
    assert "title" in BookValues(book) && "title" !in FileValues(m);
    assert "fileExtension" in FileValues(m);
  }

  /** The default part naming followed by more pattern renders as the title, the padded track number and the rest. */
  lemma RenderTitlePart(rest: string, m: FileMetadata, book: Book)
    ensures RenderPart(TITLE_PART + rest, m, book)
         == book.title + " - Part " + PaddedTrackNumber(m.trackNumber, book.partCount) + Template.Fill(rest, PartValues(book, m))
  {
    PartValuesTitle(m, book);
    FillTitlePart(rest, PartValues(book, m));
  }

  /** The default part title: "${title} - Part ${trackNumber}". */
  lemma RenderPartTitle(m: FileMetadata, book: Book)
    ensures RenderPart(TITLE_PART, m, book) == book.title + " - Part " + PaddedTrackNumber(m.trackNumber, book.partCount)
  {
    RenderTitlePart("", m, book);
    assert TITLE_PART + "" == TITLE_PART;
  }

  /** The default part naming followed by one more placeholder of the record. */
  lemma RenderTitlePartField(key: string, m: FileMetadata, book: Book)
    requires Template.NoBrace(key) && key in PartValues(book, m)
    ensures RenderPart(TITLE_PART + Template.Placeholder(key), m, book)
         == book.title + " - Part " + PaddedTrackNumber(m.trackNumber, book.partCount) + PartValues(book, m)[key]
  {
    RenderTitlePart(Template.Placeholder(key), m, book);
    Template.FillPlaceholder(key, [], PartValues(book, m));
    assert Template.Placeholder(key) + [] == Template.Placeholder(key);
  }

  /** The default file name: "${title} - Part ${trackNumber}${fileExtension}". */
  lemma RenderPartFileName(m: FileMetadata, book: Book)
    ensures RenderPart(TITLE_PART + Template.Placeholder("fileExtension"), m, book)
         == book.title + " - Part " + PaddedTrackNumber(m.trackNumber, book.partCount) + m.fileExtension
  {
    PartValuesTitle(m, book);
    RenderTitlePartField("fileExtension", m, book);
  }

  // ---------------------------------------------------------------------------------
  // Track numbers

  /** The track number is the whole name when no non-digit precedes a digit, and otherwise
      the digit run of a track split. */
  lemma TrackNumberSpec(name: string)
    ensures !HasBoundary(name) ==> TrackNumber(name) == name
    ensures HasBoundary(name) ==> exists i: nat, j: nat :: IsTrackSplit(name, i, j) && TrackNumber(name) == name[i..j]
  {
    var t := NonDigitStart(name, |name|);
    var i := DigitStart(name, t);
    if 0 < i < t {
      assert !IsDigit(name[i - 1]) && IsDigit(name[i]);
      assert IsTrackSplit(name, i, t);
    }
    if HasBoundary(name) {
      var k :| 0 <= k < |name| - 1 && !IsDigit(name[k]) && IsDigit(name[k + 1]);
      assert k < i < t;
    }
  }

  /** A track split is unique: whichever split a name has, its digit run is the track number. */
  lemma TrackSplitUnique(name: string, i: nat, j: nat)
    requires IsTrackSplit(name, i, j)
    ensures TrackNumber(name) == name[i..j]
  {
    var t := NonDigitStart(name, |name|);
    assert IsDigit(name[j - 1]);
    assert t == j;
    assert DigitStart(name, t) == i;
  }

  /** A name ending in a non-empty digit run after a non-digit has that run as its track number. */
  lemma TrackNumberOfNumberedName(prefix: string, digits: string)
    requires prefix != [] && !IsDigit(prefix[|prefix| - 1])
    requires digits != [] && AllDigits(digits)
    ensures TrackNumber(prefix + digits) == digits
  {
    var name := prefix + digits;
    assert IsTrackSplit(name, |prefix|, |name|);
    TrackSplitUnique(name, |prefix|, |name|);
    assert name[|prefix|..|name|] == digits;
  }

  /** A worked example of the extraction rule: the digits after the last non-digit. */
  lemma TrackNumberExampleNumbered()
    ensures TrackNumber("Part 03") == "03"
  {
    assert "Part 03" == "Part " + "03";
    TrackNumberOfNumberedName("Part ", "03");
  }

  /** A worked example of the extraction rule: of two runs, the last one wins. */
  lemma TrackNumberExampleLastRun()
    ensures TrackNumber("Disc 2 - 11 end") == "11"
  {
    var name := "Disc 2 - 11 end";
    assert name[8] == ' ' && name[9] == '1' && name[10] == '1';
    assert forall k :: 11 <= k < |name| ==> !IsDigit(name[k]);
    TrackSplitUnique(name, 9, 11);
  }

  /** Worked examples of the extraction rule: without a non-digit before a digit the name is kept. */
  lemma TrackNumberExampleUnnumbered()
    ensures TrackNumber("Intro") == "Intro"
    ensures TrackNumber("12abc") == "12abc"
  {
    TrackNumberSpec("Intro");
    assert !HasBoundary("12abc") by {
      forall k | 0 <= k < 4 ensures IsDigit("12abc"[k]) || !IsDigit("12abc"[k + 1]) {
      }
    }
    TrackNumberSpec("12abc");
  }

  // ---------------------------------------------------------------------------------
  // Padding

  /** The padding width is the number of decimal digits of the part count. */
  lemma WidthIsDigitCount(partCount: nat)
    ensures partCount < Pow10(Width(partCount))
    ensures partCount >= 10 ==> Pow10(Width(partCount) - 1) <= partCount
  {
    NatToStringWidth(partCount);
  }

  /** Eight parts give width one, twelve give two, a hundred give three. */
  lemma WidthExamples()
    ensures Width(8) == 1 && Width(12) == 2 && Width(100) == 3
  {
    assert NatToString(8) == [DigitChar(8)];
    assert NatToString(1) == [DigitChar(1)];
    assert NatToString(12) == NatToString(1) + [DigitChar(2)];
    assert NatToString(10) == NatToString(1) + [DigitChar(0)];
    assert NatToString(100) == NatToString(10) + [DigitChar(0)];
  }

  /** A track number padded by `k` zeros is those zeros followed by it. */
  lemma PaddedByZeros(trackNumber: string, partCount: nat, zeros: string)
    requires Width(partCount) == |trackNumber| + |zeros|
    requires forall k :: 0 <= k < |zeros| ==> zeros[k] == '0'
    ensures PaddedTrackNumber(trackNumber, partCount) == zeros + trackNumber
  {
    var r := PaddedTrackNumber(trackNumber, partCount);
    assert r[..|zeros|] == zeros;
    assert r == r[..|zeros|] + r[|zeros|..];
  }

  /** With eight parts "3" stays "3": the width is the digit count of 8, which is one. */
  lemma PaddingExampleEight()
    ensures PaddedTrackNumber("3", 8) == "3"
  {
    WidthExamples();
  }

  /** With twelve parts "3" becomes "03", while "12" and "0123" are kept whole. */
  lemma PaddingExampleTwelve()
    ensures PaddedTrackNumber("3", 12) == "03"
    ensures PaddedTrackNumber("12", 12) == "12"
    ensures PaddedTrackNumber("0123", 12) == "0123"
  {
    WidthExamples();
    PaddedByZeros("3", 12, "0");
  }

  /** With a hundred parts "7" becomes "007". */
  lemma PaddingExampleHundred()
    ensures PaddedTrackNumber("7", 100) == "007"
  {
    WidthExamples();
    PaddedByZeros("7", 100, "00");
  }

  /** Padding an all-digit track number keeps it all digits, so it is still a track number. */
  lemma PaddedDigitsAreDigits(trackNumber: string, partCount: nat)
    requires AllDigits(trackNumber)
    ensures AllDigits(PaddedTrackNumber(trackNumber, partCount))
  {
    var r := PaddedTrackNumber(trackNumber, partCount);
    forall k | 0 <= k < |r| ensures IsDigit(r[k]) {
      if k >= |r| - |trackNumber| {
        assert r[k] == r[|r| - |trackNumber|..][k - (|r| - |trackNumber|)];
      }
    }
  }

  /** Padding twice to the same width pads once. */
  lemma PaddingIdempotent(trackNumber: string, partCount: nat)
    ensures PaddedTrackNumber(PaddedTrackNumber(trackNumber, partCount), partCount)
         == PaddedTrackNumber(trackNumber, partCount)
  {
  }
}
