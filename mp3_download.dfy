/**
 * The audiobook downloader: from a downloaded `.odm` manifest it acquires (or reuses) the
 * licence, creates the book directory, fetches the cover and then every part, one after
 * the other, each into a file that is left alone when it already exists.
 *
 * The XML of the manifest is taken as already parsed (`Manifest`); SHA-1 with base64 is a
 * function parameter `hash`; the filesystem and the server are a `Disk` and a `Network`,
 * whose joint state is a `World` value for the specification functions.
 */
module Mp3Download {
  import opened Results
  import opened Strings
  import opened Paths
  import opened Disk
  import opened Network
  import MediaFiles

  const OMC_VERSION := "1.2.0"
  const OS_VERSION := "10.11.6"
  const USER_AGENT := "OverDrive Media Console"
  /** "OVERDRIVE*MEDIA*CONSOLE" written backwards, as the licence server expects. */
  const HASH_SUFFIX := "ELOSNOC*AIDEM*EVIRDREVO"

  // ---------------------------------------------------------------------------------
  // Licence path

  /** `getLicensePath` as written: `odmPath.replace(".odm", ".license")`, first occurrence only. */
  function LicensePath(odmPath: string): string
  {
    ReplaceFirst(odmPath, ".odm", ".license")
  }

  /** The licence path beside a manifest: the ".odm" extension becomes ".license", and any other name gains ".license". */
  function ManifestLicensePath(odmPath: string): (r: string)
    ensures r != odmPath
    ensures |r| > |odmPath|
  {
    if |odmPath| >= 4 && odmPath[|odmPath| - 4..] == ".odm" then odmPath[..|odmPath| - 4] + ".license"
    else odmPath + ".license"
  }

  /** ".odm" starts at the end of a text that does not contain it, and nowhere earlier. */
  lemma FirstOdmAtEnd(stem: string)
    requires !Contains(stem, ".odm")
    ensures IndexOf(stem + ".odm", ".odm") == Some(|stem|)
  {
    var p := stem + ".odm";
    assert OccursAt(p, ".odm", |stem|) by {
      assert p[|stem|..|stem| + 4] == ".odm";
    }
    forall j: nat | j < |stem| ensures !OccursAt(p, ".odm", j) {
      if j + 4 <= |stem| {
        assert p[j..j + 4] == stem[j..j + 4];
        assert !OccursAt(stem, ".odm", j);
      } else {
        var d := |stem| - j;
        assert p[|stem|] == '.' && ".odm"[d] != '.';
        assert p[j..j + 4][d] == p[|stem|];
      }
    }
  }

  /** A manifest named `<stem>.odm` gets the licence `<stem>.license`, as written and as corrected. */
  lemma LicensePathOfManifest(stem: string)
    requires !Contains(stem, ".odm")
    ensures LicensePath(stem + ".odm") == stem + ".license"
    ensures ManifestLicensePath(stem + ".odm") == stem + ".license"
  {
    var p := stem + ".odm";
    FirstOdmAtEnd(stem);
    assert p[..|stem|] == stem;
    assert p[|stem| + 4..] == "";
    assert p[|p| - 4..] == ".odm";
    assert p[..|p| - 4] == stem;
  }

  /** As written, a path without ".odm" is its own licence path. */
  lemma LicensePathWithoutOdm(odmPath: string)
    requires !Contains(odmPath, ".odm")
    ensures LicensePath(odmPath) == odmPath
  {
  }

  /**
   * An upper-case extension shows it: the licence path of "book.ODM" is the manifest
   * itself, so `getLicense` finds it present and returns the manifest as the licence.
   */
  lemma LicensePathCollision()
    ensures LicensePath("book.ODM") == "book.ODM"
    ensures ManifestLicensePath("book.ODM") == "book.ODM.license"
  {
    var p := "book.ODM";
    forall i: nat | i <= |p| ensures !OccursAt(p, ".odm", i) {
      if i + 4 <= |p| {
        assert p[i..i + 4][0] == p[i] && p[i..i + 4][1] == p[i + 1];
      }
    }
    LicensePathWithoutOdm(p);
    assert p[|p| - 4..] == ".ODM";
  }

  /** The corrected licence path stays in the manifest's directory. */
  lemma ManifestLicenseBeside(odmPath: string)
    ensures Dirname(ManifestLicensePath(odmPath)) == Dirname(odmPath)
  {
    var n := |odmPath|;
    assert forall k :: 0 <= k < |".license"| ==> ".license"[k] != '/';
    if n >= 4 && odmPath[n - 4..] == ".odm" {
      var stem := odmPath[..n - 4];
      DirnameOfAppend(stem, ".license");
      assert forall k :: 0 <= k < |".odm"| ==> ".odm"[k] != '/';
      DirnameOfAppend(stem, ".odm");
      assert stem + ".odm" == odmPath;
    } else {
      DirnameOfAppend(odmPath, ".license");
    }
  }

  // ---------------------------------------------------------------------------------
  // Licence request

  const PREIMAGE_TAIL := "|1.2.0|10.11.6|ELOSNOC*AIDEM*EVIRDREVO"

  /** The text whose SHA-1 authenticates the client to the licence server. */
  function HashPreimage(clientId: string): string
  {
    clientId + "|" + OMC_VERSION + "|" + OS_VERSION + "|" + HASH_SUFFIX
  }

  /** The client id a preimage was made from, when it has the preimage's shape. */
  function ClientIdOf(preimage: string): Option<string>
  {
    var n := |preimage| - |PREIMAGE_TAIL|;
    if n >= 0 && preimage[n..] == PREIMAGE_TAIL then Some(preimage[..n]) else None
  }

  const PRODUCT_NAME := "OVERDRIVE*MEDIA*CONSOLE"

  /** The suffix is the product name reversed, character by character. */
  lemma HashSuffixIsReversedName()
    ensures |HASH_SUFFIX| == |PRODUCT_NAME|
    ensures forall k :: 0 <= k < |PRODUCT_NAME| ==> HASH_SUFFIX[k] == PRODUCT_NAME[|PRODUCT_NAME| - 1 - k]
  {
  }

  /** The preimage is the client id followed by a fixed tail, so the id can be read back from it. */
  lemma {:induction false} HashPreimageRoundTrip(clientId: string)
    ensures HashPreimage(clientId) == clientId + PREIMAGE_TAIL
    ensures ClientIdOf(HashPreimage(clientId)) == Some(clientId)
  {
    var p := HashPreimage(clientId);
    assert p == clientId + PREIMAGE_TAIL;
    assert p[|clientId|..] == PREIMAGE_TAIL;
    assert p[..|clientId|] == clientId;
  }

  /** Different clients hash different preimages. */
  lemma HashPreimageInjective(a: string, b: string)
    requires HashPreimage(a) == HashPreimage(b)
    ensures a == b
  {
    HashPreimageRoundTrip(a);
    HashPreimageRoundTrip(b);
  }

  /** `key=value`, without escaping. */
  function Param(key: string, value: string): string
  {
    key + "=" + value
  }

  /** `k1=v1&k2=v2&…`, without escaping. */
  function Query(params: seq<(string, string)>): string
  {
    if params == [] then ""
    else if |params| == 1 then Param(params[0].0, params[0].1)
    else Param(params[0].0, params[0].1) + "&" + Query(params[1..])
  }

  /** The licence acquisition URL: the five parameters, unescaped, in the order the server reads them. */
  function LicenseUrl(acquisitionUrl: string, mediaId: string, clientId: string, hash: string): string
  {
    acquisitionUrl + "?" + Param("MediaID", mediaId) + "&" + Param("ClientID", clientId)
      + "&" + Param("OMC", OMC_VERSION) + "&" + Param("OS", OS_VERSION) + "&" + Param("Hash", hash)
  }

  lemma QueryCons(key: string, value: string, rest: seq<(string, string)>)
    requires rest != []
    ensures Query([(key, value)] + rest) == Param(key, value) + "&" + Query(rest)
  {
    assert ([(key, value)] + rest)[1..] == rest;
  }

  /** Regrouping five "&"-joined pieces after "?". */
  lemma JoinFive(a: string, p1: string, p2: string, p3: string, p4: string, p5: string)
    ensures a + "?" + p1 + "&" + p2 + "&" + p3 + "&" + p4 + "&" + p5
         == a + "?" + (p1 + "&" + (p2 + "&" + (p3 + "&" + (p4 + "&" + p5))))
  {
    var amp := "&";
    calc {
      a + "?" + p1 + amp + p2 + amp + p3 + amp + p4 + amp + p5;
      a + "?" + p1 + amp + p2 + amp + p3 + (amp + p4 + amp + p5);
      a + "?" + p1 + amp + (p2 + amp + (p3 + (amp + p4 + amp + p5)));
      a + "?" + (p1 + amp + (p2 + amp + (p3 + amp + (p4 + amp + p5))));
    }
  }

  /** The licence URL is the acquisition URL with the query of the five parameters in order. */
  lemma LicenseUrlIsQuery(acquisitionUrl: string, mediaId: string, clientId: string, hash: string)
    ensures LicenseUrl(acquisitionUrl, mediaId, clientId, hash)
         == acquisitionUrl + "?" + Query([("MediaID", mediaId), ("ClientID", clientId), ("OMC", OMC_VERSION), ("OS", OS_VERSION), ("Hash", hash)])
  {
    var q4 := [("Hash", hash)];
    var q3 := [("OS", OS_VERSION)] + q4;
    var q2 := [("OMC", OMC_VERSION)] + q3;
    var q1 := [("ClientID", clientId)] + q2;
    var q0 := [("MediaID", mediaId)] + q1;
    QueryCons("OS", OS_VERSION, q4);
    QueryCons("OMC", OMC_VERSION, q3);
    QueryCons("ClientID", clientId, q2);
    QueryCons("MediaID", mediaId, q1);
    JoinFive(acquisitionUrl, Param("MediaID", mediaId), Param("ClientID", clientId), Param("OMC", OMC_VERSION),
      Param("OS", OS_VERSION), Param("Hash", hash));
    assert q0 == [("MediaID", mediaId), ("ClientID", clientId), ("OMC", OMC_VERSION), ("OS", OS_VERSION), ("Hash", hash)];
  }

  // ---------------------------------------------------------------------------------
  // Manifest and parts

  datatype Part = Part(name: string, filename: string)

  /** The parsed `.odm`: what the XPath queries of the source read from it. */
  datatype Manifest = Manifest(
    mediaId: string,
    acquisitionUrl: string,
    baseUrl: string,
    parts: seq<Part>,
    metadata: MediaFiles.Book)

  /** `metadata(odmPath)`: the book record, with partCount the number of parts. */
  function BookOf(manifest: Manifest): (b: MediaFiles.Book)
    ensures b.partCount == |manifest.parts|
  {
    manifest.metadata.(partCount := |manifest.parts|)
  }

  /** The URL of the licence request for `manifest` by `clientId`. */
  function LicenseRequestUrl(manifest: Manifest, clientId: string, hash: string -> string): string
  {
    LicenseUrl(manifest.acquisitionUrl, manifest.mediaId, clientId, hash(HashPreimage(clientId)))
  }

  function PartUrl(baseUrl: string, part: Part): string
  {
    baseUrl + "/" + part.filename
  }

  /** The saved name is the part's name with the extension of its remote file name. */
  function PartFileName(part: Part): string
  {
    part.name + Extname(part.filename)
  }

  function PartPath(bookPath: string, part: Part): string
  {
    Join(bookPath, PartFileName(part))
  }

  function PartHeaders(license: string, clientId: string): map<string, string>
  {
    map["License" := license, "ClientID" := clientId, "User-Agent" := USER_AGENT]
  }

  /** The headers of the licence and cover requests: the User-Agent alone. */
  function UserAgentHeaders(): map<string, string>
  {
    map["User-Agent" := USER_AGENT]
  }

  /** A part whose name has no separator is saved directly in the book directory, under that name and the remote extension. */
  lemma PartPathInBook(bookPath: string, part: Part)
    requires bookPath != "" && (bookPath == "/" || bookPath[|bookPath| - 1] != '/')
    requires part.name != "" && forall k :: 0 <= k < |part.name| ==> part.name[k] != '/'
    ensures Dirname(PartPath(bookPath, part)) == bookPath
    ensures Basename(PartPath(bookPath, part)) == part.name + Extname(part.filename)
  {
    var f := PartFileName(part);
    var e := Extname(part.filename);
    forall k | 0 <= k < |f| ensures f[k] != '/' {
      if k >= |part.name| {
        assert f[k] == e[k - |part.name|];
      }
    }
    DirnameOfJoin(bookPath, f);
  }

  /** The cover is saved as "cover" with the extension of its URL. */
  function CoverPath(bookPath: string, coverImageUrl: string): string
  {
    Join(bookPath, "cover" + Extname(coverImageUrl))
  }

  /** `path.join(basePath, author, title)`. */
  function BookPath(basePath: string, book: MediaFiles.Book): string
  {
    Join(Join(basePath, book.author), book.title)
  }

  // ---------------------------------------------------------------------------------
  // Downloading one file

  /** The filesystem and the server together. */
  datatype World = World(entries: Tree, replies: seq<Reply>, log: seq<Request>)

  datatype DownloadResult = DownloadResult(success: bool, filePath: string, url: string, downloadSkipped: bool)

  datatype Transfer = Transfer(result: DownloadResult, world: World)

  /** The world after a GET of `url`. */
  function Fetched(w: World, url: string, headers: map<string, string>): World
  {
    w.(replies := Later(w.replies), log := w.log + [Request(url, headers)])
  }

  /**
   * `downloadToFile`: an existing file is reported as a skipped success without any
   * request; otherwise one GET is made and its body written verbatim, and a failed GET or
   * write is reported as a failure, never raised.
   */
  function DownloadToFileSpec(w: World, filePath: string, url: string, headers: map<string, string>): (t: Transfer)
    ensures t.result.filePath == filePath && t.result.url == url
    ensures t.result.downloadSkipped <==> filePath in w.entries
    ensures t.result.downloadSkipped ==> t.result.success && t.world == w
    ensures !t.result.downloadSkipped ==> t.world.log == w.log + [Request(url, headers)] && t.world.replies == Later(w.replies)
    ensures !t.result.downloadSkipped ==>
      (t.result.success <==> Next(w.replies).Body? && ParentIsDir(w.entries, filePath))
    ensures t.result.success && !t.result.downloadSkipped ==>
      Next(w.replies).Body? && t.world.entries == w.entries[filePath := File(Next(w.replies).data)]
    ensures !t.result.success ==> t.world.entries == w.entries
    ensures t.result.success ==> filePath in t.world.entries
    ensures w.entries.Keys <= t.world.entries.Keys
  {
    if filePath in w.entries then Transfer(DownloadResult(true, filePath, url, true), w)
    else
      var w1 := Fetched(w, url, headers);
      match Next(w.replies)
      case Failure => Transfer(DownloadResult(false, filePath, url, false), w1)
      case Body(data) =>
        match Written(w.entries, filePath, data)
        case Ok(m) => Transfer(DownloadResult(true, filePath, url, false), w1.(entries := m))
        case Err(_) => Transfer(DownloadResult(false, filePath, url, false), w1)
  }

  /** Once a download has succeeded, downloading to the same path again makes no request and changes nothing. */
  lemma DownloadTwiceFetchesOnce(w: World, filePath: string, url: string, headers: map<string, string>,
                                 url2: string, headers2: map<string, string>)
    requires DownloadToFileSpec(w, filePath, url, headers).result.success
    ensures var w1 := DownloadToFileSpec(w, filePath, url, headers).world;
      DownloadToFileSpec(w1, filePath, url2, headers2).world == w1
      && DownloadToFileSpec(w1, filePath, url2, headers2).result.downloadSkipped
      && |w1.log| <= |w.log| + 1
  {
  }

  // ---------------------------------------------------------------------------------
  // Licence

  datatype Licensed = Licensed(result: Result<string>, world: World)

  /** Acquire the licence from the server into `licensePath` and read it back. */
  function AcquireSpec(w: World, odmPath: string, licensePath: string, url: string): Licensed
  {
    var t := DownloadToFileSpec(w, licensePath, url, UserAgentHeaders());
    if t.result.success then Licensed(ReadOf(t.world.entries, licensePath), t.world)
    else Licensed(Err(LicenseUnavailable(odmPath)), t.world)
  }

  /**
   * `getLicense`: a non-empty licence file is returned as it is; an empty one is removed
   * and the licence acquired again, as when there is none; a failed acquisition raises.
   */
  function LicenseSpec(w: World, odmPath: string, licensePath: string, url: string): Licensed
  {
    if licensePath !in w.entries then AcquireSpec(w, odmPath, licensePath, url)
    else
      match ReadOf(w.entries, licensePath)
      case Err(e) => Licensed(Err(e), w)
      case Ok(data) =>
        if data != "" then Licensed(Ok(data), w)
        else AcquireSpec(w.(entries := w.entries - {licensePath}), odmPath, licensePath, url)
  }

  /** An existing non-empty licence is reused with no request. */
  lemma LicenseReused(w: World, odmPath: string, licensePath: string, url: string)
    requires IsFileIn(w.entries, licensePath) && w.entries[licensePath].data != ""
    ensures LicenseSpec(w, odmPath, licensePath, url) == Licensed(Ok(w.entries[licensePath].data), w)
  {
  }

  /**
   * An empty licence file is removed and the licence requested once: the result is the
   * body received, or a failure when the request fails.
   */
  lemma EmptyLicenseReacquired(w: World, odmPath: string, licensePath: string, url: string)
    requires IsFileIn(w.entries, licensePath) && w.entries[licensePath].data == ""
    requires ParentIsDir(w.entries, licensePath)
    ensures LicenseSpec(w, odmPath, licensePath, url).world.log == w.log + [Request(url, UserAgentHeaders())]
    ensures Next(w.replies).Failure? ==> LicenseSpec(w, odmPath, licensePath, url).result == Err(LicenseUnavailable(odmPath))
    ensures Next(w.replies).Body? ==> LicenseSpec(w, odmPath, licensePath, url).result == Ok(Next(w.replies).data)
    ensures Next(w.replies).Failure? ==> LicenseSpec(w, odmPath, licensePath, url).world.entries == w.entries - {licensePath}
    ensures Next(w.replies).Body? ==>
      LicenseSpec(w, odmPath, licensePath, url).world.entries == w.entries[licensePath := File(Next(w.replies).data)]
    ensures LicenseSpec(w, odmPath, licensePath, url).world.replies == Later(w.replies)
  {
    var w0 := w.(entries := w.entries - {licensePath});
    assert licensePath !in w0.entries;
    assert Dirname(licensePath) != licensePath by {
      assert IsDirIn(w.entries, Dirname(licensePath));
    }
    assert ParentIsDir(w0.entries, licensePath);
  }

  /** Without a licence file, a failed request raises and a received body is the licence. */
  lemma MissingLicenseAcquired(w: World, odmPath: string, licensePath: string, url: string)
    requires licensePath !in w.entries && ParentIsDir(w.entries, licensePath)
    ensures LicenseSpec(w, odmPath, licensePath, url).world.log == w.log + [Request(url, UserAgentHeaders())]
    ensures Next(w.replies).Failure? <==> LicenseSpec(w, odmPath, licensePath, url).result.Err?
    ensures Next(w.replies).Body? ==> LicenseSpec(w, odmPath, licensePath, url).result == Ok(Next(w.replies).data)
  {
  }

  // ---------------------------------------------------------------------------------
  // Parts

  datatype Batch = Batch(results: seq<DownloadResult>, world: World)

  /** The requests the given downloads made: one per download not skipped, in order. */
  function Requests(results: seq<DownloadResult>, headers: map<string, string>): (r: seq<Request>)
    ensures |r| <= |results|
  {
    if results == [] then []
    else
      var last := results[|results| - 1];
      Requests(results[..|results| - 1], headers) + (if last.downloadSkipped then [] else [Request(last.url, headers)])
  }

  /**
   * `downloadParts`: every part in manifest order, each fetched from the base URL and
   * saved in the book directory, one after the other.
   */
  function PartsSpec(w: World, parts: seq<Part>, license: string, clientId: string, bookPath: string, baseUrl: string): (b: Batch)
    ensures |b.results| == |parts|
    decreases |parts|
  {
    if parts == [] then Batch([], w)
    else
      var prior := PartsSpec(w, parts[..|parts| - 1], license, clientId, bookPath, baseUrl);
      var last := parts[|parts| - 1];
      var t := DownloadToFileSpec(prior.world, PartPath(bookPath, last), PartUrl(baseUrl, last), PartHeaders(license, clientId));
      Batch(prior.results + [t.result], t.world)
  }

  /** One more part adds one result, for that part, after the earlier ones. */
  lemma PartsLastTarget(w: World, parts: seq<Part>, license: string, clientId: string, bookPath: string, baseUrl: string)
    requires parts != []
    ensures var b := PartsSpec(w, parts, license, clientId, bookPath, baseUrl);
      var prior := PartsSpec(w, parts[..|parts| - 1], license, clientId, bookPath, baseUrl);
      && b.results[..|parts| - 1] == prior.results
      && b.results[|parts| - 1].filePath == PartPath(bookPath, parts[|parts| - 1])
      && b.results[|parts| - 1].url == PartUrl(baseUrl, parts[|parts| - 1])
  {
  }

  /** Each result is for its part: saved at bookPath/(name + extension), fetched from baseUrl + "/" + filename. */
  lemma {:induction false} PartsTargets(w: World, parts: seq<Part>, license: string, clientId: string, bookPath: string, baseUrl: string)
    ensures var b := PartsSpec(w, parts, license, clientId, bookPath, baseUrl);
      forall k :: 0 <= k < |parts| ==>
        b.results[k].filePath == PartPath(bookPath, parts[k]) && b.results[k].url == PartUrl(baseUrl, parts[k])
    decreases |parts|
  {
    if parts != [] {
      var init := parts[..|parts| - 1];
      PartsTargets(w, init, license, clientId, bookPath, baseUrl);
      var prior := PartsSpec(w, init, license, clientId, bookPath, baseUrl);
      var b := PartsSpec(w, parts, license, clientId, bookPath, baseUrl);
      PartsLastTarget(w, parts, license, clientId, bookPath, baseUrl);
      forall k | 0 <= k < |parts|
        ensures b.results[k].filePath == PartPath(bookPath, parts[k]) && b.results[k].url == PartUrl(baseUrl, parts[k])
      {
        if k < |parts| - 1 {
          assert b.results[k] == prior.results[k];
          assert init[k] == parts[k];
        }
      }
    }
  }

  /** The parts are requested in manifest order, one request per part not already on disk, and nothing else is requested. */
  lemma {:induction false} PartsRequests(w: World, parts: seq<Part>, license: string, clientId: string, bookPath: string, baseUrl: string)
    ensures var b := PartsSpec(w, parts, license, clientId, bookPath, baseUrl);
      b.world.log == w.log + Requests(b.results, PartHeaders(license, clientId))
    decreases |parts|
  {
    if parts != [] {
      var init := parts[..|parts| - 1];
      PartsRequests(w, init, license, clientId, bookPath, baseUrl);
      var prior := PartsSpec(w, init, license, clientId, bookPath, baseUrl);
      var b := PartsSpec(w, parts, license, clientId, bookPath, baseUrl);
      assert b.results[..|parts| - 1] == prior.results;
    }
  }

  /** Every part reported as a success is on disk once all parts are done, and nothing on disk disappears. */
  lemma {:induction false} PartsSaved(w: World, parts: seq<Part>, license: string, clientId: string, bookPath: string, baseUrl: string)
    ensures var b := PartsSpec(w, parts, license, clientId, bookPath, baseUrl);
      && w.entries.Keys <= b.world.entries.Keys
      && forall k :: 0 <= k < |parts| && b.results[k].success ==> b.results[k].filePath in b.world.entries
    decreases |parts|
  {
    if parts != [] {
      var init := parts[..|parts| - 1];
      PartsSaved(w, init, license, clientId, bookPath, baseUrl);
      var prior := PartsSpec(w, init, license, clientId, bookPath, baseUrl);
      var b := PartsSpec(w, parts, license, clientId, bookPath, baseUrl);
      forall k | 0 <= k < |parts| && b.results[k].success ensures b.results[k].filePath in b.world.entries {
        if k < |parts| - 1 {
          assert b.results[k] == prior.results[k];
        }
      }
    }
  }

  /** A part whose file already exists is skipped without a request. */
  lemma ExistingPartSkipped(w: World, parts: seq<Part>, license: string, clientId: string, bookPath: string, baseUrl: string, k: nat)
    requires k < |parts| && PartPath(bookPath, parts[k]) in w.entries
    ensures PartsSpec(w, parts, license, clientId, bookPath, baseUrl).results[k].downloadSkipped
    ensures PartsSpec(w, parts, license, clientId, bookPath, baseUrl).results[k].success
  {
    PartsPrefix(w, parts, license, clientId, bookPath, baseUrl, k + 1);
    PartsSaved(w, parts[..k], license, clientId, bookPath, baseUrl);
    assert parts[..k + 1][..k] == parts[..k];
  }

  /** Downloading a prefix of the parts gives the prefix of the results. */
  lemma {:induction false} PartsPrefix(w: World, parts: seq<Part>, license: string, clientId: string, bookPath: string, baseUrl: string, n: nat)
    requires n <= |parts|
    ensures PartsSpec(w, parts[..n], license, clientId, bookPath, baseUrl).results
         == PartsSpec(w, parts, license, clientId, bookPath, baseUrl).results[..n]
    decreases |parts|
  {
    if n < |parts| {
      var init := parts[..|parts| - 1];
      PartsPrefix(w, init, license, clientId, bookPath, baseUrl, n);
      assert init[..n] == parts[..n];
    } else {
      assert parts[..n] == parts;
    }
  }

  // ---------------------------------------------------------------------------------
  // Cover

  datatype Covered = Covered(result: Result<DownloadResult>, world: World)

  /** `downloadCover`: an existing cover file is removed first, so the cover is always requested. */
  function CoverSpec(w: World, coverImageUrl: string, bookPath: string): Covered
  {
    var coverPath := CoverPath(bookPath, coverImageUrl);
    if coverPath in w.entries then
      match FileRemoved(w.entries, coverPath)
      case Err(e) => Covered(Err(e), w)
      case Ok(m) =>
        var t := DownloadToFileSpec(w.(entries := m), coverPath, coverImageUrl, UserAgentHeaders());
        Covered(Ok(t.result), t.world)
    else
      var t := DownloadToFileSpec(w, coverPath, coverImageUrl, UserAgentHeaders());
      Covered(Ok(t.result), t.world)
  }

  /** The cover download never takes the skip branch: it always makes one request for the cover URL. */
  lemma CoverNeverSkipped(w: World, coverImageUrl: string, bookPath: string)
    requires CoverSpec(w, coverImageUrl, bookPath).result.Ok?
    ensures !CoverSpec(w, coverImageUrl, bookPath).result.value.downloadSkipped
    ensures CoverSpec(w, coverImageUrl, bookPath).world.log == w.log + [Request(coverImageUrl, UserAgentHeaders())]
  {
  }

  /** Only an existing directory in the cover's place makes the cover step raise. */
  lemma CoverFailsOnlyOnDirectory(w: World, coverImageUrl: string, bookPath: string)
    ensures CoverSpec(w, coverImageUrl, bookPath).result.Err? <==> IsDirIn(w.entries, CoverPath(bookPath, coverImageUrl))
  {
  }

  // ---------------------------------------------------------------------------------
  // The stateful operations

  function Now(disk: Disk, net: Network): World
    reads disk, net
  {
    World(disk.entries, net.replies, net.log)
  }

  method DownloadToFile(disk: Disk, net: Network, filePath: string, url: string, headers: map<string, string>)
    returns (r: DownloadResult)
    modifies disk, net
    ensures var t := DownloadToFileSpec(old(Now(disk, net)), filePath, url, headers);
      r == t.result && Now(disk, net) == t.world
  {
    if disk.Exists(filePath) {
      return DownloadResult(true, filePath, url, true);
    }
    var reply := net.Get(url, headers);
    if reply.Failure? {
      return DownloadResult(false, filePath, url, false);
    }
    var ok := disk.Write(filePath, reply.data);
    r := DownloadResult(ok, filePath, url, false);
  }

  method GetLicense(disk: Disk, net: Network, manifest: Manifest, odmPath: string, licensePath: string,
                    clientId: string, hash: string -> string)
    returns (r: Result<string>)
    modifies disk, net
    ensures var l := LicenseSpec(old(Now(disk, net)), odmPath, licensePath, LicenseRequestUrl(manifest, clientId, hash));
      r == l.result && Now(disk, net) == l.world
  {
    var url := LicenseRequestUrl(manifest, clientId, hash);
    if disk.Exists(licensePath) {
      var data := disk.Read(licensePath);
      if data.Err? {
        return data;
      }
      if data.value != "" {
        return data;
      }
      var removed := disk.RemoveFile(licensePath);
    }
    var response := DownloadToFile(disk, net, licensePath, url, UserAgentHeaders());
    if response.success {
      r := disk.Read(licensePath);
    } else {
      r := Err(LicenseUnavailable(odmPath));
    }
  }

  method DownloadPart(disk: Disk, net: Network, license: string, clientId: string, bookPath: string,
                      baseUrl: string, part: Part)
    returns (r: DownloadResult)
    modifies disk, net
    ensures var t := DownloadToFileSpec(old(Now(disk, net)), PartPath(bookPath, part), PartUrl(baseUrl, part), PartHeaders(license, clientId));
      r == t.result && Now(disk, net) == t.world
  {
    r := DownloadToFile(disk, net, PartPath(bookPath, part), PartUrl(baseUrl, part), PartHeaders(license, clientId));
  }

  method DownloadParts(disk: Disk, net: Network, manifest: Manifest, license: string, clientId: string, bookPath: string)
    returns (results: seq<DownloadResult>)
    modifies disk, net
    ensures var b := PartsSpec(old(Now(disk, net)), manifest.parts, license, clientId, bookPath, manifest.baseUrl);
      results == b.results && Now(disk, net) == b.world
  {
    var parts := manifest.parts;
    results := [];
    var i := 0;
    while i < |parts|
      invariant 0 <= i <= |parts|
      invariant Batch(results, Now(disk, net)) == PartsSpec(old(Now(disk, net)), parts[..i], license, clientId, bookPath, manifest.baseUrl)
    {
      var r := DownloadPart(disk, net, license, clientId, bookPath, manifest.baseUrl, parts[i]);
      assert parts[..i + 1][..i] == parts[..i];
      results := results + [r];
      i := i + 1;
    }
    assert parts[..i] == parts;
  }

  method DownloadCover(disk: Disk, net: Network, coverImageUrl: string, bookPath: string)
    returns (r: Result<DownloadResult>)
    modifies disk, net
    ensures var c := CoverSpec(old(Now(disk, net)), coverImageUrl, bookPath);
      r == c.result && Now(disk, net) == c.world
  {
    var coverPath := CoverPath(bookPath, coverImageUrl);
    if disk.Exists(coverPath) {
      var removed := disk.RemoveFile(coverPath);
      if !removed {
        return Err(FsError(coverPath));
      }
    }
    var t := DownloadToFile(disk, net, coverPath, coverImageUrl, UserAgentHeaders());
    r := Ok(t);
  }

  /** `_createPath`: the base path must exist; the book directory is created with its ancestors. */
  method CreatePath(disk: Disk, basePath: string, book: MediaFiles.Book) returns (r: Result<string>)
    modifies disk
    ensures basePath !in old(disk.entries) ==> r == Err(PathNotFound(basePath)) && disk.entries == old(disk.entries)
    ensures basePath in old(disk.entries) ==>
      var d := DirsMade(old(disk.entries), BookPath(basePath, book));
      (r.Ok? <==> d.Ok?)
      && (r.Ok? ==> r.value == BookPath(basePath, book) && disk.entries == d.value)
      && (r.Err? ==> disk.entries == old(disk.entries))
  {
    if !disk.Exists(basePath) {
      return Err(PathNotFound(basePath));
    }
    var newPath := BookPath(basePath, book);
    var ok := disk.MakeDirs(newPath);
    if !ok {
      return Err(FsError(newPath));
    }
    r := Ok(newPath);
  }

  // ---------------------------------------------------------------------------------
  // The downloader object

  /** `_createDefaultConfig`: a missing client id is generated, a missing base path is "./". */
  function DownloadDefaults(config: map<string, string>, freshId: string): (r: map<string, string>)
    requires freshId != ""
    ensures Truthy(Get(r, "clientId")) && Truthy(Get(r, "basePath"))
    ensures Truthy(Get(config, "clientId")) ==> r["clientId"] == config["clientId"]
    ensures Truthy(Get(config, "basePath")) ==> r["basePath"] == config["basePath"]
    ensures forall k :: k in config && k != "clientId" && k != "basePath" ==> k in r && r[k] == config[k]
    ensures r.Keys == config.Keys + {"clientId", "basePath"}
  {
    var c1 := if Truthy(Get(config, "clientId")) then config else config["clientId" := freshId];
    if Truthy(Get(c1, "basePath")) then c1 else c1["basePath" := "./"]
  }

  /** Defaults applied twice are the defaults applied once, whatever id the second run would generate. */
  lemma DownloadDefaultsIdempotent(config: map<string, string>, id1: string, id2: string)
    requires id1 != "" && id2 != ""
    ensures DownloadDefaults(DownloadDefaults(config, id1), id2) == DownloadDefaults(config, id1)
  {
  }

  datatype DownloadSummary = DownloadSummary(
    bookPath: string,
    licensePath: string,
    odmPath: string,
    partCount: nat,
    bookMetadata: MediaFiles.Book,
    downloadResults: seq<DownloadResult>)

  class Mp3Download {
    var config: map<string, string>
    /** Every configuration written out by the configuration manager, oldest first. */
    var saved: seq<map<string, string>>

    /** Loads the stored configuration, fills its defaults and saves it, whether or not anything changed. */
    constructor (stored: map<string, string>, freshId: string)
      requires freshId != ""
      ensures config == DownloadDefaults(stored, freshId)
      ensures saved == [config]
    {
      config := DownloadDefaults(stored, freshId);
      saved := [DownloadDefaults(stored, freshId)];
    }

    /**
     * `download(odmPath)`: the manifest must exist; the base path becomes its directory;
     * a licence is needed; then the book directory, the cover and every part.
     */
    method Download(disk: Disk, net: Network, odmPath: string, manifest: Manifest, hash: string -> string)
      returns (r: Result<DownloadSummary>)
      modifies this, disk, net
      ensures saved == old(saved)
      ensures odmPath !in old(disk.entries) ==>
        r == Err(PathNotFound(odmPath)) && config == old(config) && Now(disk, net) == old(Now(disk, net))
      ensures odmPath in old(disk.entries) ==> config == old(config)["basePath" := Dirname(odmPath)]
      ensures r.Ok? ==>
        && r.value.odmPath == odmPath
        && r.value.licensePath == ManifestLicensePath(odmPath)
        && r.value.bookPath == BookPath(Dirname(odmPath), BookOf(manifest))
        && r.value.bookMetadata == BookOf(manifest)
        && r.value.partCount == |manifest.parts| == |r.value.downloadResults|
        && forall k :: 0 <= k < |manifest.parts| ==>
             r.value.downloadResults[k].filePath == PartPath(r.value.bookPath, manifest.parts[k])
             && r.value.downloadResults[k].url == PartUrl(manifest.baseUrl, manifest.parts[k])
    {
      if !disk.Exists(odmPath) {
        return Err(PathNotFound(odmPath));
      }
      var basePath := Dirname(odmPath);
      config := config["basePath" := basePath];
      var licensePath := ManifestLicensePath(odmPath);
      var clientId := Interpolated(Get(config, "clientId"));
      var license :- GetLicense(disk, net, manifest, odmPath, licensePath, clientId, hash);
      if license == "" {
        return Err(LicenseUnavailable(odmPath));
      }
      var book := BookOf(manifest);
      var bookPath :- CreatePath(disk, basePath, book);
      var cover :- DownloadCover(disk, net, book.coverImageUrl, bookPath);
      ghost var before := Now(disk, net);
      var results := DownloadParts(disk, net, manifest, license, clientId, bookPath);
      PartsTargets(before, manifest.parts, license, clientId, bookPath, manifest.baseUrl);
      r := Ok(DownloadSummary(bookPath, licensePath, odmPath, |results|, book, results));
    }
  }
}
