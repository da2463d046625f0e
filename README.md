# overdrive-download, modelled in Dafny

This project models the deterministic core of `overdrive-download`, a tool that borrows an
audiobook from an OverDrive library portal, fetches its licence and MP3 parts, and then
renames and retags the files. The browser, HTTP, filesystem, XML, ID3 and template libraries
around that core are replaced by values and small oracles. The rules between them are
modelled and proved:

- **File naming and renaming** (`mp3_files.dfy`, `media_files.dfy`). The track number is
  cut from a file name. It is zero-padded to the digit width of the part count. Book and
  file fields are merged into one template record. Options resolve from explicit, then
  configured, then computed values. The book directory is moved with a collision guard,
  and empty title and author directories are cleaned up.
- **Tag mapping** (`mp3_tags.dfy`). The ID3 record is built from the book and the file.
  The write loop reports only the files whose write succeeded.
- **Download and licence** (`mp3_download.dfy`). This covers the licence path, the
  skip-if-exists downloader, licence reuse and regeneration, and the exact hash preimage
  and request URL. It also covers the per-part URL, file name and headers, and the
  sequential part loop and cover download.
- **Portal helpers** (`odm_download.dfy`). `trimAny` is a two-pointer loop; `sameUrl` and
  `textBetween` are also here. So are the portal addresses and the outcome of `download`,
  with the browser as an oracle.
- **Configuration modifiers** (`configuration_modifiers.dfy`): `clientIdDefault` and
  `urlDefault` over a map.
- **Log-level gating** (`logging.dfy`): the level table, the `level` setter and the
  emit decision.

Shared modules: `results.dfy` (Option, Result, the error kinds, JavaScript truthiness),
`strings.dfy` (`indexOf`, `replace`, `split`, `padStart`, `toString`, ASCII `toLowerCase`),
`paths.dfy` (Node `path` over normalised "/" paths), `template.dfy` (`${key}` substitution),
`disk.dfy` (the filesystem as a map from path to entry, with each `fs` call as a function
and a `Disk` class that applies them), and `network.dfy` (`axios.get` as scripted replies
plus a request log).

Modelling choices:

- Stateful source objects are classes: `Mp3Files`, `Mp3Tags`, `Mp3Download`, `Logger`,
  `Settings`, `Disk`, `Network`, `TagStore` and `Browser`. Their methods carry `modifies`
  clauses. Each method's `ensures` ties the new state to a specification function,
  such as `RenamePathSpec`, `DownloadToFileSpec`, `LicenseSpec` or `PartsSpec`. The
  lemmas state their properties about those functions.
- `bookMetadata.partCount` is mutated in place by the source. Here the updated book is
  returned in the result record, which the source also does.
- The template engine replaces `${key}` when `key` is in the record. It keeps any other
  placeholder literally. Nothing is claimed about unknown placeholders.
- Foreign pieces become parameters: SHA-1 with base64 is `hash`, the UUID is `freshId`,
  `junk.isNotJunk` is `isJunk`, and `NodeID3.write` is the `accepts` oracle. What `globby`
  finds is the input `files`. The parsed `.odm` is the `Manifest` datatype.

## Model

| member | source | states |
|---|---|---|
| MediaFiles.TrackNumberSpec | mp3-files.mjs:161 | with no non-digit followed by a digit, the track number is the whole bare name; otherwise it is the digit run of a split whose left part ends in a non-digit and whose right part holds no digit |
| MediaFiles.TrackSplitUnique | mp3-tags.mjs:95 | whichever such split a name has, its digit run is the track number, so the tagger's extraction is the same last-digit-run rule |
| MediaFiles.TrackNumberOfNumberedName | mp3-files.mjs:161 | a name ending in a digit run after a non-digit yields exactly that run |
| MediaFiles.TrackNumberExampleNumbered | mp3-files.mjs:161 | "Part 03" gives "03", the digits after the last non-digit |
| MediaFiles.TrackNumberExampleLastRun | mp3-files.mjs:161 | "Disc 2 - 11 end" gives "11": of two digit runs the last one wins |
| MediaFiles.TrackNumberExampleUnnumbered | mp3-files.mjs:161 | "Intro" and "12abc" have no boundary and are kept whole |
| MediaFiles.PaddedTrackNumber | mp3-files.mjs:168 | the padded number has length max(its length, digit width of partCount), is '0's followed by the original, and never truncates |
| MediaFiles.WidthIsDigitCount | mp3-files.mjs:168 | the padding width w satisfies 10^(w-1) <= partCount < 10^w, i.e. it is the decimal digit count |
| MediaFiles.WidthExamples | mp3-tags.mjs:85 | the padding width for 8, 12 and 100 parts is 1, 2 and 3 |
| MediaFiles.PaddingExampleEight | mp3-tags.mjs:85 | with 8 parts "3" stays "3" |
| MediaFiles.PaddingExampleTwelve | mp3-tags.mjs:85 | with 12 parts "3" becomes "03", "12" stays "12", and the longer "0123" is not cut |
| MediaFiles.PaddingExampleHundred | mp3-tags.mjs:85 | with 100 parts "7" becomes "007" |
| MediaFiles.PaddedDigitsAreDigits | mp3-files.mjs:168 | padding an all-digit track number leaves it all digits |
| MediaFiles.PaddingIdempotent | mp3-tags.mjs:85 | padding twice to one width equals padding once |
| MediaFiles.PartValues | mp3-files.mjs:167-168 | the merged record has the book and file keys; file fields win over book fields; only trackNumber is replaced, by its padded form |
| MediaFiles.RenderPartFileName | mp3-files.mjs:12 | the default file pattern renders as title + " - Part " + padded track number + extension |
| MediaFiles.RenderPartTitle | mp3-tags.mjs:81-89 | the default title pattern renders as title + " - Part " + padded track number |
| Mp3Files.FilesDefaults | mp3-files.mjs:90-101 | a missing or empty directory or file pattern gets its default; set patterns and every other key are kept |
| Mp3Files.FilesDefaultsSaveRule | mp3-files.mjs:102-104 | the configuration changes (and is saved) exactly when a pattern was missing; a second fill changes nothing |
| Mp3Files.ResolveOptions | mp3-files.mjs:66-88 | explicit option else configured pattern; the directory defaults to basePath/author/title; a missing directory under basePath fails; any other missing one is retried once below basePath and fails if still missing |
| Mp3Files.RenameStaysInDirectory | mp3-files.mjs:108-113 | a rendered name without "/" keeps the file in its own directory under that name |
| Mp3Files.MovesStayInDirectories | mp3-files.mjs:45-47 | the k-th pair moves the k-th discovered file; when the rendered name holds no "/", its target lies in that file's own directory and carries the rendered name |
| Mp3Files.ChangedSpec | mp3-files.mjs:48-50 | the reported paths are exactly the new paths that differ from their old paths |
| Mp3Files.ChangedAppend | mp3-files.mjs:45-51 | the report keeps the order of the moves: the report of a list split in two is the first part's report followed by the second's |
| Mp3Files.RenameAllInPlace | mp3-files.mjs:111 | renaming every file onto itself changes nothing and raises nothing |
| Mp3Files.ApplyRenames | mp3-files.mjs:45-51 | the rename loop applies the renames in order, stops at the first that throws, and returns the changed paths in order |
| Mp3Files.Mp3Files.constructor | mp3-files.mjs:15-19 | the configuration gets its default patterns and is saved only when one was missing |
| Mp3Files.Mp3Files.RenameFiles | mp3-files.mjs:31-54 | partCount becomes the number of discovered files whatever it was; the files are renamed in order; the result lists the changed paths |
| Mp3Files.EmptyDirRemoved | mp3-files.mjs:145-155 | a missing path is left alone; a directory is removed, with its junk, exactly when every entry is junk; listing a file throws |
| Mp3Files.RemoveEmptyDirectory | mp3-files.mjs:145-155 | the method changes the disk exactly as EmptyDirRemoved says |
| Mp3Files.Cleanup | mp3-files.mjs:136-142 | raises exactly when the title path, or its parent after the first removal, is a file; a title directory holding only junk is removed with everything below it, and so is the author directory if it holds only junk after that; nothing outside those two directories is removed, nothing is added or changed, and when neither directory holds only junk the tree is unchanged |
| Mp3Files.CleanupAfterMove | mp3-files.mjs:137-140 | the two removal calls act on the disk as Cleanup says |
| Mp3Files.DefaultDirectoryName | mp3-files.mjs:11 | the default directory pattern renders as author + "/" + title |
| Mp3Files.DefaultLayoutIsFixedPoint | mp3-files.mjs:123-126 | a book already at basePath/author/title is not moved under the default pattern |
| Mp3Files.RenamePathSpec | mp3-files.mjs:115-143 | an unchanged path is returned with nothing changed; an existing target raises with nothing changed; a success returns the new path |
| Mp3Files.RenamePathMoves | mp3-files.mjs:132-142 | on a fresh target, every entry below the old directory ends up unchanged at the same place below the new one, and the old directory is gone |
| Mp3Files.RenamePath | mp3-files.mjs:115-143 | the method's result and disk are those of RenamePathSpec |
| Mp3Files.Mp3Files.RenameDirectory | mp3-files.mjs:56-64 | options are resolved first; then the directory is renamed with the configured base path |
| Mp3Files.Mp3Files.Rename | mp3-files.mjs:21-29 | files first, then the directory; the result carries the book with partCount set to the file count and the changed file paths |
| Mp3Tags.TagsFromMetadata | mp3-tags.mjs:48-65 | artist=author, album=title, subtitle=subTitle, TSOA=series, comment=("eng", description), genre="Audiobooks"; the title is the title pattern rendered against the merged book and file record, and with the default pattern it is the book title, " - Part " and the padded number; the trackNumber tag is the raw number |
| Mp3Tags.TitleTagNamesFile | mp3-tags.mjs:10 | the default title tag plus the extension is the default file name, so renamer and tagger agree |
| Mp3Tags.TitlePatternAsWritten | mp3-tags.mjs:26 | reading `options.titlePattern` with no options object raises a TypeError |
| Mp3Tags.TitlePatternOf | mp3-tags.mjs:26 | a truthy explicit title pattern wins, otherwise the configured one is kept |
| Mp3Tags.NormalizeTagsWithoutOptionsThrows | tests/mp3-tags.tests.mjs:14 | the call the test scripts make, without options, raises as written |
| Mp3Tags.TitlePatternAgrees | mp3-tags.mjs:26 | with an options object the corrected and as-written readings agree |
| Mp3Tags.TaggedSpec | mp3-tags.mjs:36-43 | the reported files are exactly the discovered files whose write succeeded; if all succeed, all are reported in order |
| Mp3Tags.TaggedAppend | mp3-tags.mjs:36-43 | the report keeps discovery order: the report of a listing split in two is the first part's report followed by the second's |
| Mp3Tags.TagsWrittenSpec | mp3-tags.mjs:39 | each accepted file carries its computed tags afterwards; every other file's tags are unchanged |
| Mp3Tags.TagStore.Write | mp3-tags.mjs:39 | a write reports the oracle's verdict and replaces the tags only on success |
| Mp3Tags.TagsDefaults | mp3-tags.mjs:67-74 | a missing title pattern gets the default; a set one leaves the configuration unchanged |
| Mp3Tags.Mp3Tags.constructor | mp3-tags.mjs:19-23 | the default title pattern is filled and saved only when it was missing |
| Mp3Tags.Mp3Tags.NormalizeTags | mp3-tags.mjs:25-46 | the title pattern is overwritten in the configuration; partCount becomes the file count before any title is rendered; the result lists the accepted files in order; the tag store holds their tags |
| Mp3Download.LicensePathOfManifest | mp3-download.mjs:151-154 | for `<stem>.odm` with no other ".odm", both the as-written and the corrected licence path are `<stem>.license` |
| Mp3Download.LicensePathWithoutOdm | mp3-download.mjs:152 | as written, a path without ".odm" is returned unchanged |
| Mp3Download.LicensePathCollision | mp3-download.mjs:152 | as written, "book.ODM" is its own licence path; corrected, it is "book.ODM.license" |
| Mp3Download.ManifestLicensePath | mp3-download.mjs:151-154 | the corrected licence path is never the manifest path itself |
| Mp3Download.ManifestLicenseBeside | mp3-download.mjs:151-154 | the corrected licence path lies in the manifest's directory |
| Mp3Download.HashSuffixIsReversedName | mp3-download.mjs:132 | the hash suffix is "OVERDRIVE*MEDIA*CONSOLE" reversed character by character |
| Mp3Download.HashPreimageRoundTrip | mp3-download.mjs:133 | the preimage is the client id followed by the fixed tail of separator, OMC version, OS version and reversed product name, and the client id reads back from it |
| Mp3Download.HashPreimageInjective | mp3-download.mjs:133-134 | different client ids give different preimages |
| Mp3Download.LicenseUrlIsQuery | mp3-download.mjs:135 | the licence URL is the acquisition URL, "?", then MediaID, ClientID, OMC, OS, Hash in that order, unescaped |
| Mp3Download.BookOf | mp3-download.mjs:74 | the extracted partCount is the number of manifest parts |
| Mp3Download.PartPathInBook | mp3-download.mjs:175-177 | a part is saved directly in the book directory as name + extension of its remote file name |
| Mp3Download.DownloadToFileSpec | mp3-download.mjs:204-220 | an existing target is a skipped success with no request and no change; otherwise one request is made, and the download succeeds exactly when a body arrives and the target's directory exists; on success the body is written verbatim; a failure carries path and URL and changes no file |
| Mp3Download.DownloadTwiceFetchesOnce | mp3-download.mjs:206-208 | after a successful download, a second one to the same path makes no request and changes nothing |
| Mp3Download.DownloadToFile | mp3-download.mjs:204-220 | the method's result, disk and network are those of DownloadToFileSpec |
| Mp3Download.LicenseReused | mp3-download.mjs:109-117 | an existing non-empty licence is returned with no request and no change |
| Mp3Download.EmptyLicenseReacquired | mp3-download.mjs:111-113 | an empty licence file is deleted and one request made; a failed request raises and leaves the file deleted; a body becomes the licence and is written in its place; one reply is consumed |
| Mp3Download.MissingLicenseAcquired | mp3-download.mjs:137-143 | without a licence file one request is made; it raises exactly when the request fails |
| Mp3Download.GetLicense | mp3-download.mjs:107-144 | the method's result, disk and network are those of LicenseSpec, for the request URL built from the manifest and client id |
| Mp3Download.PartsSpec | mp3-download.mjs:161-167 | the loop pushes exactly one result per manifest part |
| Mp3Download.PartsTargets | mp3-download.mjs:162-176 | the k-th result is for the k-th manifest part, fetched from baseUrl + "/" + filename and saved at bookPath/(name + extension) |
| Mp3Download.PartsRequests | mp3-download.mjs:163-166 | the requests made are one per part not already on disk, in manifest order, each with the License, ClientID and User-Agent headers |
| Mp3Download.PartsSaved | mp3-download.mjs:163-166 | every part reported as a success is on disk afterwards, and nothing on disk disappears |
| Mp3Download.PartsPrefix | mp3-download.mjs:163-166 | downloading a prefix of the parts gives the prefix of the results (sequential, order-preserving) |
| Mp3Download.ExistingPartSkipped | mp3-download.mjs:183 | a part whose file exists is a skipped success |
| Mp3Download.DownloadPart | mp3-download.mjs:171-185 | one part is downloaded to its path from its URL with its headers |
| Mp3Download.DownloadParts | mp3-download.mjs:156-169 | the loop's results and final state are those of PartsSpec |
| Mp3Download.CoverNeverSkipped | mp3-download.mjs:194-200 | the cover is always requested, once, because an existing cover is removed first |
| Mp3Download.CoverFailsOnlyOnDirectory | mp3-download.mjs:195-197 | the cover step raises exactly when a directory sits at the cover path |
| Mp3Download.DownloadCover | mp3-download.mjs:187-202 | the method's result and state are those of CoverSpec |
| Mp3Download.CreatePath | mp3-download.mjs:94-103 | a missing base path raises with nothing changed; otherwise basePath/author/title is created with its ancestors and returned |
| Mp3Download.DownloadDefaults | mp3-download.mjs:78-86 | a missing client id gets the fresh id and a missing base path gets "./"; set values and other keys are kept |
| Mp3Download.DownloadDefaultsIdempotent | mp3-download.mjs:79-85 | a second fill keeps the first client id, whatever id it would generate |
| Mp3Download.Mp3Download.constructor | mp3-download.mjs:17-21 | defaults are filled and the configuration is saved unconditionally |
| Mp3Download.Mp3Download.Download | mp3-download.mjs:23-58 | a missing manifest raises with nothing changed; basePath becomes its directory; a success reports the book path, licence path, metadata, and one result per part in order, with partCount that count |
| OdmDownload.TrimAny | odm-download.mjs:146-157 | the two-pointer loop returns exactly the trimmed string |
| OdmDownload.TrimmedSpec | odm-download.mjs:150-156 | the result is a slice between runs of chars; it neither starts nor ends with one of chars; an all-chars string trims to ""; a string with nothing to trim is returned unchanged |
| OdmDownload.TrimmedUnique | odm-download.mjs:150-154 | any slice cut between runs of chars that does not start or end with one is the trimmed string |
| OdmDownload.TrimmedIdempotent | odm-download.mjs:146-157 | trimming twice trims nothing more |
| OdmDownload.SameUrl | odm-download.mjs:139-144 | the method decides UrlsMatch: equal after trimming "/" and ASCII lower-casing |
| OdmDownload.UrlsMatchEquivalence | odm-download.mjs:139-144 | the match is reflexive, symmetric and transitive |
| OdmDownload.UrlsMatchIgnoresCase | odm-download.mjs:140-141 | a URL matches its lower-case form |
| OdmDownload.UrlsMatchIgnoresTrailingSlash | odm-download.mjs:140-141 | a trailing "/" does not matter |
| OdmDownload.UrlsMatchIgnoresLeadingSlash | odm-download.mjs:140-141 | a leading "/" does not matter |
| OdmDownload.TextBetweenSpec | odm-download.mjs:159-162 | fails exactly when the text is undefined or lacks startAfter; otherwise the result starts right after the first startAfter, holds neither delimiter, and ends at the end of the text, at a stopBefore, or at a second startAfter |
| OdmDownload.PortalUrlRoundTrip | odm-download.mjs:19-20 | the portal URL is "https://" + library name + ".overdrive.com", and the name reads back from it |
| OdmDownload.SignInPageIsNotHome | odm-download.mjs:77-88 | staying on the sign-in page never counts as signed in |
| OdmDownload.FindTitle | odm-download.mjs:97-98 | the first loan card whose title is exactly the one asked for, or none |
| OdmDownload.ExactTitleOnly | odm-download.mjs:97-102 | when no card has exactly the title, download returns "" |
| OdmDownload.DownloadOutcome | odm-download.mjs:23-50 | a login that does not land on the base URL raises; after a good login, a missing title, a missing download button or no confirm dialog gives the empty file name; with all three, it raises exactly when the location is missing or lacks ".com/"; a non-empty file name needs the exact title, a download button, the confirm dialog and a location containing ".com/" |
| OdmDownload.OdmDownload.constructor | odm-download.mjs:14-21 | the settings are read from the environment and the URL is built from the library name |
| OdmDownload.OdmDownload.Login | odm-download.mjs:75-89 | visits the sign-in URL; signed in exactly when the landing URL matches the base URL |
| OdmDownload.OdmDownload.GetTitleOnLoan | odm-download.mjs:91-115 | visits the loans URL; found exactly when the first exact-title card has a download button |
| OdmDownload.OdmDownload.DownloadOdm | odm-download.mjs:117-136 | "" without a confirm dialog; with one, raises exactly when the location header is missing or lacks ".com/"; otherwise the name is the text right after the first ".com/", holds no "?", and ends at the end of the location, at a "?" or at a further ".com/" |
| OdmDownload.OdmDownload.Download | odm-download.mjs:23-50 | the outcome is DownloadOutcome; the loans page is visited only after a successful login |
| ConfigurationModifiers.ClientIdDefaultSpec | utils/configuration.modifiers.mjs:3-12 | an existing client id is untouched with no change reported; otherwise it is set and a change reported; only clientId is written; a second run reports no change |
| ConfigurationModifiers.UrlDefaultSpec | utils/configuration.modifiers.mjs:14-25 | an existing url is untouched; otherwise url = "https://" + libraryName + "." + urlBase and a change is reported; only url is written; a second run reports no change |
| ConfigurationModifiers.ModifiersIndependent | utils/configuration.modifiers.mjs:27-30 | clientIdDefault then urlDefault gives the same values as the other order; both values are set after; a second run changes nothing |
| ConfigurationModifiers.Settings.ClientIdDefault | utils/configuration.modifiers.mjs:3-12 | the method updates the settings as ClientIdDefaulted says |
| ConfigurationModifiers.Settings.UrlDefault | utils/configuration.modifiers.mjs:14-25 | the method updates the settings as UrlDefaulted says |
| ConfigurationModifiers.Settings.RunModifiers | utils/configuration.mjs:85-88 | both modifiers run in the exported order, and a change is reported if either changed something |
| Logging.LevelTable | utils/logger.mjs:1-7 | error=0, warn=1, info=2, verbose=4, debug=5; no other name; no level 3 |
| Logging.SeverityLevel | utils/logger.mjs:29-57 | each emit method asks for its own level from the table |
| Logging.GateMonotone | utils/logger.mjs:75-77 | if a message emits at one level, every more severe message emits too |
| Logging.UndefinedLevelSilences | utils/logger.mjs:75-77 | with the level undefined, as after an unknown name, nothing emits |
| Logging.ValidateLevelAsWritten | utils/logger.mjs:59-61 | as written, a validated name is in the table |
| Logging.ValidateLevel | utils/logger.mjs:59-61 | corrected, a name validates exactly when it is one of the five |
| Logging.ValidateLevelDiscrepancy | utils/logger.mjs:59-61 | the two differ only on "error", which is rejected as written |
| Logging.IntToLevel | utils/logger.mjs:71-73 | always fails with "Not implemented" |
| Logging.Logger.constructor | utils/logger.mjs:25-27 | the default "error" overrides the field initialiser info |
| Logging.Logger.SetLevel | utils/logger.mjs:17-23 | a name stores its table value (undefined when unknown); a number is stored as it is |
| Logging.Logger.Emit | utils/logger.mjs:29-57 | a message is emitted exactly when the current level is at least the method's level |
| Logging.DefaultLoggerWritesErrorsOnly | utils/logger.mjs:25-27 | a default logger emits errors and nothing else |

## Left out

- The browser steps of `odm-download.mjs`: `_startBrowser`, `_stopBrowser` and its fixed 5-second delay, typing, clicking, waiting and device emulation. These are driven by Puppeteer. Each is an oracle value of `Portal`, and page visits are logged.
- OdmDownload.FindTitle: a title holding `"` or `\` would change the CSS selector `h3[title="…"]`. The model takes the match as exact string equality.
- `Mp3Download.metadata` and every XPath query: XML parsing is foreign. The `Manifest` datatype holds what the queries return. The structural failures of a malformed `.odm`, such as a missing text node, are not modelled.
- SHA-1 with UTF-16LE and base64 is the parameter `hash`. `uuidv4` is the parameter `freshId`.
- `axios` is scripted replies: one body or failure per request, with the response status folded into failure. Bodies and file contents are strings, not byte buffers.
- `fs-extra.mkdirs`, `fs.mkdirSync`, `fs.renameSync`, `fs.rmSync` and `fs.promises.writeFile` are functions on a path map. Permissions, symbolic links, `..` and concurrent writers are not modelled.
- Node `path` is simplified to normalised "/" paths. `path.join` does not resolve ".." or collapse repeated separators.
- `globby` discovery and the `**{.mp3,.aac}` pattern: the discovered files are an input sequence. The model does not check that they match the pattern or lie below the directory.
- `junk.isNotJunk` is the parameter predicate `isJunk`. `NodeID3.write` is the `accepts` oracle, fixed per file.
- The template library `es6-dynamic-template` is not part of this model. Its `${key}` substitution is restated in `Template.Fill`. Unknown placeholders are kept literal, and nothing is claimed about them.
- `toLowerCase` is ASCII-only.
- Logger console output is not modelled; only the decision to emit is.
- Logging.LevelToInt: values other than a string, a number or `undefined` are not modelled. Neither are names inherited from `Object.prototype`, such as "toString". In JavaScript these look up a function.
- Logging.ValidateLevel: names inherited from `Object.prototype` are not in the table here, so "toString" is invalid in the model, while `validateLevel("toString")` is true in JavaScript (utils/logger.mjs:60).
- `utils/configuration.mjs` (convict loading, validation, saving) and `utils/config.mjs` are not part of this model. Only the modifier order that `runValueModifiers` applies is modelled. The `Config` save calls appear as the `saved` log of each class.
- `cli.mjs`, `web/server.mjs` and `index.mjs` are front ends and wiring. They are not part of this model.
- Mp3Files.Mp3Files.Rename: the contract does not restate the directory result. It comes from `RenameDirectory` on the disk as `RenameFiles` left it.
- MediaFiles.TrackNumberSpec: names are taken to hold no line terminator. In JavaScript, `.` in `/.*\D(\d+)\D*/` (mp3-files.mjs:161, and its copy at mp3-tags.mjs:95) does not match "\n", "\r", U+2028 or U+2029. On such a name the source can keep text after the match, as "a1\nb2" gives "12", and this is not what the model computes.
- MediaFiles.TrackNumber: the same restriction. The last-digit-run rule is the source's only on names free of line terminators.
- Mp3Download.Mp3Download.Download: runs the corrected `ManifestLicensePath`, not `getLicensePath` as written (mp3-download.mjs:152). For a manifest named "book.ODM", or a directory name holding ".odm", the source reads another licence path, as `LicensePathCollision` shows. The method does not do this.
- Mp3Tags.Mp3Tags.NormalizeTags: runs the corrected `TitlePatternOf`. When `options` is undefined, the source raises a TypeError before it touches any file (`TitlePatternAsWritten`, `NormalizeTagsWithoutOptionsThrows`). The method tags every file instead.
- Mp3Files.RenamePathMoves: the move is proved only when the target lies outside the old author directory, or directly in it under a non-junk name. In other layouts, the cleanup of the author directory may remove the moved tree; this is not characterised.

## Findings

| source | as written | input that shows it | evidently intended | confidence | as-written member | corrected member |
|---|---|---|---|---|---|---|
| mp3-download.mjs:152 | `odmPath.replace(".odm", ".license")` replaces the first ".odm" anywhere in the path, case-sensitively | "book.ODM" keeps its own name, so the manifest is read back as its own licence | swap the ".odm" extension for ".license", and never return the manifest path | medium, not executed | Mp3Download.LicensePathCollision | Mp3Download.ManifestLicensePath |
| mp3-tags.mjs:26 | `options.titlePattern` is read with no default for `options` | `normalizeTags(bookPath, bookMetadata)`, as both test scripts call it, raises a TypeError | a missing options object reads as empty options | high, not executed | Mp3Tags.NormalizeTagsWithoutOptionsThrows | Mp3Tags.TitlePatternOf |
| utils/logger.mjs:60 | `!!this.levels[levelString]` tests the level value for truth | "error" has value 0, so `validateLevel("error")` is false | a name is valid when it is in the table | high, not executed | Logging.ValidateLevelDiscrepancy | Logging.ValidateLevel |
