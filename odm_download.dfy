/**
 * The portal side: the URL helpers (`trimAny`, `sameUrl`, `textBetween`), the portal
 * addresses built from the environment, and the outcome of a download attempt.
 *
 * The browser is an oracle: the page reached after signing in, the loan cards on the
 * loans page, whether the confirm dialog appears and the `location` header of the
 * response it triggers are fixed in a `Portal` value, and every page visited is logged.
 */
module OdmDownload {
  import opened Results
  import opened Strings

  // ---------------------------------------------------------------------------------
  // trimAny

  /** The first index from `i` on whose character is not in `chars` (or the length). */
  function SkipFront(s: string, chars: string, i: nat): (n: nat)
    requires i <= |s|
    ensures i <= n <= |s|
    ensures forall k :: i <= k < n ==> s[k] in chars
    ensures n < |s| ==> s[n] !in chars
    decreases |s| - i
  {
    if i == |s| || s[i] !in chars then i else SkipFront(s, chars, i + 1)
  }

  /** Where `s[lo..j]` ends once the characters of `chars` at its back are dropped. */
  function SkipBack(s: string, chars: string, lo: nat, j: nat): (n: nat)
    requires lo <= j <= |s|
    ensures lo <= n <= j
    ensures forall k :: n <= k < j ==> s[k] in chars
    ensures lo < n ==> s[n - 1] !in chars
    decreases j
  {
    if j == lo || s[j - 1] !in chars then j else SkipBack(s, chars, lo, j - 1)
  }

  /** `s` without its leading and then its trailing characters from `chars`. */
  function Trimmed(s: string, chars: string): (r: string)
  {
    var a := SkipFront(s, chars, 0);
    s[a..SkipBack(s, chars, a, |s|)]
  }

  /** The front run is determined by where it stops. */
  lemma SkipFrontUnique(s: string, chars: string, i: nat, n: nat)
    requires i <= n <= |s| && forall k :: i <= k < n ==> s[k] in chars
    requires n < |s| ==> s[n] !in chars
    ensures SkipFront(s, chars, i) == n
  {
  }

  /** The back run is determined by where it starts. */
  lemma SkipBackUnique(s: string, chars: string, lo: nat, j: nat, n: nat)
    requires lo <= n <= j <= |s| && forall k :: n <= k < j ==> s[k] in chars
    requires lo < n ==> s[n - 1] !in chars
    ensures SkipBack(s, chars, lo, j) == n
  {
  }

  /** The trimmed string is the slice between a run of `chars` at the front and one at the back, and neither starts nor ends with one of `chars`. */
  lemma TrimmedSlice(s: string, chars: string)
    ensures var r := Trimmed(s, chars); var a := SkipFront(s, chars, 0);
      && a + |r| <= |s| && r == s[a..a + |r|]
      && (forall k :: 0 <= k < a ==> s[k] in chars)
      && (forall k :: a + |r| <= k < |s| ==> s[k] in chars)
      && (r != "" ==> r[0] !in chars && r[|r| - 1] !in chars)
  {
    var a := SkipFront(s, chars, 0);
    var b := SkipBack(s, chars, a, |s|);
    var r := s[a..b];
    assert Trimmed(s, chars) == r && |r| == b - a;
    if a < b {
      assert r[0] == s[a] && r[|r| - 1] == s[b - 1];
    }
  }

  /**
   * The trimmed string is the slice between a run of `chars` at the front and one at the
   * back, and neither starts nor ends with a character of `chars`; a string made only of
   * `chars` trims to the empty string, and a string with nothing to trim is returned as it is.
   */
  lemma TrimmedSpec(s: string, chars: string)
    ensures var r := Trimmed(s, chars); var a := SkipFront(s, chars, 0);
      && a + |r| <= |s| && r == s[a..a + |r|]
      && (forall k :: 0 <= k < a ==> s[k] in chars)
      && (forall k :: a + |r| <= k < |s| ==> s[k] in chars)
      && (r != "" ==> r[0] !in chars && r[|r| - 1] !in chars)
    ensures (forall k :: 0 <= k < |s| ==> s[k] in chars) ==> Trimmed(s, chars) == ""
    ensures (s == "" || (s[0] !in chars && s[|s| - 1] !in chars)) ==> Trimmed(s, chars) == s
  {
    TrimmedSlice(s, chars);
    if forall k :: 0 <= k < |s| ==> s[k] in chars {
      TrimmedUnique(s, chars, |s|, |s|);
    }
    if s != "" && s[0] !in chars && s[|s| - 1] !in chars {
      TrimmedUnique(s, chars, 0, |s|);
    }
  }

  /** Any slice cut between runs of `chars`, and not starting or ending with one, is the trimmed string. */
  lemma TrimmedUnique(s: string, chars: string, i: nat, j: nat)
    requires i <= j <= |s|
    requires forall k :: 0 <= k < i ==> s[k] in chars
    requires forall k :: j <= k < |s| ==> s[k] in chars
    requires i < j ==> s[i] !in chars && s[j - 1] !in chars
    ensures Trimmed(s, chars) == s[i..j]
  {
    if i < j {
      SkipFrontUnique(s, chars, 0, i);
      SkipBackUnique(s, chars, i, |s|, j);
    } else {
      SkipFrontUnique(s, chars, 0, |s|);
    }
  }

  /** Trimming twice trims nothing more. */
  lemma TrimmedIdempotent(s: string, chars: string)
    ensures Trimmed(Trimmed(s, chars), chars) == Trimmed(s, chars)
  {
    var r := Trimmed(s, chars);
    TrimmedSpec(s, chars);
    TrimmedSpec(r, chars);
  }

  /** `trimAny`: two pointers close in from both ends while they sit on characters of `chars`. */
  method TrimAny(str: string, chars: string) returns (r: string)
    ensures r == Trimmed(str, chars)
  {
    var start := 0;
    var end := |str|;
    while start < end && str[start] in chars
      invariant 0 <= start <= end == |str|
      invariant forall k :: 0 <= k < start ==> str[k] in chars
    {
      start := start + 1;
    }
    while end > start && str[end - 1] in chars
      invariant start <= end <= |str|
      invariant forall k :: end <= k < |str| ==> str[k] in chars
      invariant start < end ==> str[start] !in chars
    {
      end := end - 1;
    }
    TrimmedUnique(str, chars, start, end);
    r := if start > 0 || end < |str| then str[start..end] else str;
  }

  // ---------------------------------------------------------------------------------
  // sameUrl

  /** Two URLs are the same once leading and trailing "/" are trimmed and letters lowered. */
  predicate UrlsMatch(url1: string, url2: string)
  {
    Lower(Trimmed(url1, "/")) == Lower(Trimmed(url2, "/"))
  }

  /** `sameUrl`. */
  method SameUrl(url1: string, url2: string) returns (same: bool)
    ensures same == UrlsMatch(url1, url2)
  {
    var t1 := TrimAny(url1, "/");
    var t2 := TrimAny(url2, "/");
    same := Lower(t1) == Lower(t2);
  }

  /** The match is an equivalence. */
  lemma UrlsMatchEquivalence(a: string, b: string, c: string)
    ensures UrlsMatch(a, a)
    ensures UrlsMatch(a, b) ==> UrlsMatch(b, a)
    ensures UrlsMatch(a, b) && UrlsMatch(b, c) ==> UrlsMatch(a, c)
  {
  }

  lemma LowerSlice(s: string, i: nat, j: nat)
    requires i <= j <= |s|
    ensures Lower(s)[i..j] == Lower(s[i..j])
  {
  }

  lemma LowerIdempotent(s: string)
    ensures Lower(Lower(s)) == Lower(s)
  {
  }

  /** Two strings of one length whose characters agree on membership in `chars` are trimmed at the same places. */
  lemma TrimmedAlike(s: string, x: string, chars: string)
    requires |x| == |s|
    requires forall k :: 0 <= k < |s| ==> (s[k] in chars <==> x[k] in chars)
    ensures var a := SkipFront(s, chars, 0); var n := |Trimmed(s, chars)|;
      a + n <= |x| && Trimmed(x, chars) == x[a..a + n] && Trimmed(s, chars) == s[a..a + n]
  {
    var a := SkipFront(s, chars, 0);
    var b := SkipBack(s, chars, a, |s|);
    SkipFrontUnique(x, chars, 0, a);
    SkipBackUnique(x, chars, a, |x|, b);
  }

  /** Lowering keeps what trimming looks at, so trimming and lowering commute. */
  lemma TrimmedLower(s: string, chars: string)
    requires forall k :: 0 <= k < |s| ==> (s[k] in chars <==> Lower(s)[k] in chars)
    ensures Trimmed(Lower(s), chars) == Lower(Trimmed(s, chars))
  {
    var low := Lower(s);
    var n := |Trimmed(s, chars)|;
    var a := SkipFront(s, chars, 0);
    TrimmedAlike(s, low, chars);
    LowerSlice(s, a, a + n);
  }

  /** Case does not matter: a URL matches its lower-case form. */
  lemma UrlsMatchIgnoresCase(url: string)
    ensures UrlsMatch(url, Lower(url))
  {
    forall k | 0 <= k < |url| ensures url[k] in "/" <==> Lower(url)[k] in "/" {
      assert url[k] in "/" <==> url[k] == '/';
      assert Lower(url)[k] in "/" <==> Lower(url)[k] == '/';
    }
    TrimmedLower(url, "/");
    LowerIdempotent(Trimmed(url, "/"));
  }

  /** One more trimmed character at the back changes nothing. */
  lemma TrimmedAppend(s: string, chars: string, c: char)
    requires c in chars
    ensures Trimmed(s + [c], chars) == Trimmed(s, chars)
  {
    var x := s + [c];
    var a := SkipFront(s, chars, 0);
    var b := SkipBack(s, chars, a, |s|);
    if a == |s| {
      SkipFrontUnique(x, chars, 0, |x|);
    } else {
      assert x[a] == s[a];
      SkipFrontUnique(x, chars, 0, a);
      SkipBackUnique(x, chars, a, |x|, b);
      assert x[a..b] == s[a..b];
    }
  }

  /** One more trimmed character at the front changes nothing. */
  lemma TrimmedPrepend(s: string, chars: string, c: char)
    requires c in chars
    ensures Trimmed([c] + s, chars) == Trimmed(s, chars)
  {
    var x := [c] + s;
    var a := SkipFront(s, chars, 0);
    var b := SkipBack(s, chars, a, |s|);
    SkipFrontUnique(x, chars, 0, a + 1);
    if a < |s| {
      SkipBackUnique(x, chars, a + 1, |x|, b + 1);
      assert x[a + 1..b + 1] == s[a..b];
    } else {
      SkipBackUnique(x, chars, a + 1, |x|, a + 1);
    }
  }

  /** Trailing "/" does not matter. */
  lemma UrlsMatchIgnoresTrailingSlash(url: string)
    ensures UrlsMatch(url, url + "/")
  {
    TrimmedAppend(url, "/", '/');
  }

  /** Leading "/" does not matter. */
  lemma UrlsMatchIgnoresLeadingSlash(url: string)
    ensures UrlsMatch(url, "/" + url)
  {
    TrimmedPrepend(url, "/", '/');
  }

  // ---------------------------------------------------------------------------------
  // textBetween

  /** The first piece of a split is a prefix holding no separator; a second piece exists exactly when the separator occurs. */
  lemma FirstPiece(s: string, sep: string)
    requires sep != ""
    ensures var p := SplitOn(s, sep)[0]; |p| <= |s| && p == s[..|p|] && !Contains(p, sep)
    ensures Contains(s, sep) <==> |SplitOn(s, sep)| >= 2
    ensures Contains(s, sep) ==>
      SplitOn(s, sep)[1] == SplitOn(s[IndexOf(s, sep).value + |sep|..], sep)[0]
  {
    var p := SplitOn(s, sep)[0];
    match IndexOf(s, sep)
    case None =>
    case Some(i) =>
      assert p == s[..i];
      forall j: nat | j <= |p| ensures !OccursAt(p, sep, j) {
        if j + |sep| <= |p| {
          assert j < i;
          assert !OccursAt(s, sep, j);
          assert p[j..j + |sep|] == s[j..j + |sep|];
        }
      }
  }

  /** An occurrence in a suffix is an occurrence in the whole string, shifted. */
  lemma OccursInSuffix(s: string, a: nat, sub: string, j: nat)
    requires a <= |s| && OccursAt(s[a..], sub, j)
    ensures OccursAt(s, sub, a + j)
  {
    assert s[a..][j..j + |sub|] == s[a + j..a + j + |sub|];
  }

  /** An occurrence in a prefix is an occurrence in the whole string. */
  lemma OccursInPrefix(p: string, s: string, sub: string, j: nat)
    requires |p| <= |s| && p == s[..|p|] && OccursAt(p, sub, j)
    ensures OccursAt(s, sub, j)
  {
    assert s[j..j + |sub|] == p[j..j + |sub|];
  }

  /** The first piece of a split ends where the string ends or where the separator begins. */
  lemma FirstPieceEnd(s: string, sep: string)
    requires sep != ""
    ensures var p := SplitOn(s, sep)[0]; |p| <= |s| && p == s[..|p|] && (|p| == |s| || OccursAt(s, sep, |p|))
  {
    match IndexOf(s, sep)
    case None =>
    case Some(i) =>
      assert SplitOn(s, sep)[0] == s[..i];
  }

  /** A prefix of a string that holds no separator holds none either. */
  lemma PrefixLacks(p: string, s: string, sep: string)
    requires |p| <= |s| && p == s[..|p|] && !Contains(s, sep)
    ensures !Contains(p, sep)
  {
    forall j: nat | j <= |p| ensures !OccursAt(p, sep, j) {
      if j + |sep| <= |p| {
        assert p[j..j + |sep|] == s[j..j + |sep|];
        assert !OccursAt(s, sep, j);
      }
    }
  }

  /**
   * `textBetween`: the piece after the first `startAfter` (up to the next one), cut at its
   * first `stopBefore`. An undefined text, or one without `startAfter`, throws a TypeError.
   */
  function TextBetween(text: Option<string>, startAfter: string, stopBefore: string): (r: Result<string>)
    requires startAfter != "" && stopBefore != ""
  {
    match text
    case None => Err(TypeError("text"))
    case Some(t) =>
      var pieces := SplitOn(t, startAfter);
      if |pieces| < 2 then Err(TypeError("text")) else Ok(SplitOn(pieces[1], stopBefore)[0])
  }

  /** The second piece of a split is the first piece of what follows the first separator. */
  lemma SecondPiece(s: string, sep: string)
    requires sep != "" && Contains(s, sep)
    ensures IndexOf(s, sep).value + |sep| <= |s|
    ensures |SplitOn(s, sep)| >= 2
    ensures SplitOn(s, sep)[1] == SplitOn(s[IndexOf(s, sep).value + |sep|..], sep)[0]
  {
  }

  /** A prefix `r` of a prefix `piece` of `t[a..]` is the slice of `t` from `a`, and keeps what `piece` lacks. */
  lemma CutInside(t: string, a: nat, piece: string, r: string, sep: string)
    requires a <= |t| && |piece| <= |t| - a && piece == t[a..][..|piece|]
    requires |r| <= |piece| && r == piece[..|r|] && !Contains(piece, sep)
    ensures a + |r| <= |t| && t[a..a + |r|] == r && !Contains(r, sep)
  {
    PrefixLacks(r, piece, sep);
  }

  /** Where the cut ends: at the end of the text, at `stopBefore` in the piece, or at the `startAfter` that ended the piece. */
  lemma CutEnd(t: string, a: nat, piece: string, r: string, startAfter: string, stopBefore: string)
    requires a <= |t|
    requires |piece| <= |t| - a && piece == t[a..][..|piece|]
    requires |piece| == |t| - a || OccursAt(t[a..], startAfter, |piece|)
    requires |r| <= |piece| && r == piece[..|r|]
    requires |r| == |piece| || OccursAt(piece, stopBefore, |r|)
    ensures a + |r| == |t| || OccursAt(t, stopBefore, a + |r|) || OccursAt(t, startAfter, a + |r|)
  {
    if OccursAt(piece, stopBefore, |r|) {
      OccursInPrefix(piece, t[a..], stopBefore, |r|);
      OccursInSuffix(t, a, stopBefore, |r|);
    } else if OccursAt(t[a..], startAfter, |r|) {
      OccursInSuffix(t, a, startAfter, |r|);
    }
  }

  /**
   * It fails exactly when the text is undefined or lacks `startAfter`; otherwise the result
   * starts right after the first `startAfter`, holds neither delimiter, and ends where the
   * text ends or where a delimiter begins.
   */
  lemma TextBetweenSpec(text: Option<string>, startAfter: string, stopBefore: string)
    requires startAfter != "" && stopBefore != ""
    ensures var r := TextBetween(text, startAfter, stopBefore);
      && (r.Err? <==> text.None? || !Contains(text.value, startAfter))
      && (r.Ok? ==>
            var t := text.value;
            var i := IndexOf(t, startAfter).value;
            && i + |startAfter| + |r.value| <= |t|
            && t[i + |startAfter|..i + |startAfter| + |r.value|] == r.value
            && !Contains(r.value, startAfter) && !Contains(r.value, stopBefore)
            && var e := i + |startAfter| + |r.value|;
              e == |t| || OccursAt(t, stopBefore, e) || OccursAt(t, startAfter, e))
  {
    if text.Some? {
      var t := text.value;
      FirstPiece(t, startAfter);
      if Contains(t, startAfter) {
        SecondPiece(t, startAfter);
        var a := IndexOf(t, startAfter).value + |startAfter|;
        var piece := SplitOn(t[a..], startAfter)[0];
        var r := SplitOn(piece, stopBefore)[0];
        FirstPiece(t[a..], startAfter);
        FirstPieceEnd(t[a..], startAfter);
        FirstPiece(piece, stopBefore);
        FirstPieceEnd(piece, stopBefore);
        CutInside(t, a, piece, r, startAfter);
        CutEnd(t, a, piece, r, startAfter, stopBefore);
      }
    }
  }

  // ---------------------------------------------------------------------------------
  // The portal

  const URL_BASE := "overdrive.com"

  /** The constructor's settings, read from the environment. */
  datatype PortalSettings = PortalSettings(
    downloadPath: Option<string>,
    libraryName: Option<string>,
    username: Option<string>,
    password: Option<string>,
    urlBase: string,
    url: string)

  function SettingsFrom(env: map<string, string>): PortalSettings
  {
    var libraryName := Get(env, "OVERDRIVE_LIBRARY_NAME");
    PortalSettings(Get(env, "OVERDRIVE_DOWNLOAD_PATH"), libraryName, Get(env, "OVERDRIVE_USERNAME"),
                   Get(env, "OVERDRIVE_PASSWORD"), URL_BASE, "https://" + Interpolated(libraryName) + "." + URL_BASE)
  }

  function LoginUrl(settings: PortalSettings): string
  {
    settings.url + "/account/ozone/sign-in"
  }

  function LoansUrl(settings: PortalSettings): string
  {
    settings.url + "/account/loans"
  }

  /** The library name read back from a portal address. */
  function LibraryNameOf(url: string): string
  {
    if |url| < 22 then "" else url[8..|url| - 14]
  }

  /** The portal address holds the library name between "https://" and ".overdrive.com" (an unset name reads "undefined"). */
  lemma PortalUrlRoundTrip(env: map<string, string>)
    ensures LibraryNameOf(SettingsFrom(env).url) == Interpolated(Get(env, "OVERDRIVE_LIBRARY_NAME"))
  {
    var name := Interpolated(Get(env, "OVERDRIVE_LIBRARY_NAME"));
    var head := "https://";
    var tail := "." + URL_BASE;
    assert |head| == 8 && |tail| == 14;
    var u := head + name + tail;
    assert SettingsFrom(env).url == u;
    assert u[|head|..|u| - |tail|] == name;
  }

  /** Still being on the sign-in page is never taken for a successful login. */
  lemma SignInPageIsNotHome(env: map<string, string>)
    ensures !UrlsMatch(LoginUrl(SettingsFrom(env)), SettingsFrom(env).url)
  {
    var u := SettingsFrom(env).url;
    var login := LoginUrl(SettingsFrom(env));
    assert u[0] == 'h' && login[0] == 'h';
    assert login[|login| - 1] == 'n';
    TrimmedSpec(u, "/");
    TrimmedSpec(login, "/");
    SkipFrontUnique(u, "/", 0, 0);
    assert Trimmed(login, "/") == login;
  }

  /** A loan card on the loans page: its exact title and whether it shows a download button. */
  datatype LoanCard = LoanCard(title: string, hasDownloadButton: bool)

  /** What the browser meets: where sign-in lands, the loans, the confirm dialog and the `location` header it leads to. */
  datatype Portal = Portal(landingUrl: string, loans: seq<LoanCard>, confirmShown: bool, location: Option<string>)

  /** `page.$('h3[title="…"]')`: the first card whose title is exactly the one asked for. */
  function FindTitle(loans: seq<LoanCard>, title: string): (r: Option<nat>)
    ensures r.Some? ==> r.value < |loans| && loans[r.value].title == title
    ensures r.Some? ==> forall k :: 0 <= k < r.value ==> loans[k].title != title
    ensures r.None? ==> forall k :: 0 <= k < |loans| ==> loans[k].title != title
    decreases |loans|
  {
    if loans == [] then None
    else if loans[0].title == title then Some(0)
    else
      match FindTitle(loans[1..], title)
      case None => None
      case Some(i) => Some(i + 1)
  }

  /**
   * The outcome of `download`: a failed sign-in throws; a missing title, download button or
   * confirm dialog gives ""; otherwise the file name is cut from the `location` header.
   */
  function DownloadOutcome(settings: PortalSettings, portal: Portal, title: string): (r: Result<string>)
    ensures !UrlsMatch(portal.landingUrl, settings.url) ==> r == Err(LoginFailed)
    ensures r.Ok? && r.value != "" ==>
      && UrlsMatch(portal.landingUrl, settings.url)
      && FindTitle(portal.loans, title).Some?
      && portal.loans[FindTitle(portal.loans, title).value].hasDownloadButton
      && portal.confirmShown && portal.location.Some? && Contains(portal.location.value, ".com/")
    ensures UrlsMatch(portal.landingUrl, settings.url)
      && (FindTitle(portal.loans, title).None? || !portal.loans[FindTitle(portal.loans, title).value].hasDownloadButton
          || !portal.confirmShown)
      ==> r == Ok("")
    ensures UrlsMatch(portal.landingUrl, settings.url)
      && FindTitle(portal.loans, title).Some? && portal.loans[FindTitle(portal.loans, title).value].hasDownloadButton
      && portal.confirmShown
      ==> (r.Err? <==> portal.location.None? || !Contains(portal.location.value, ".com/"))
  {
    if !UrlsMatch(portal.landingUrl, settings.url) then Err(LoginFailed)
    else
      match FindTitle(portal.loans, title)
      case None => Ok("")
      case Some(i) =>
        if !portal.loans[i].hasDownloadButton || !portal.confirmShown then Ok("")
        else
          TextBetweenSpec(portal.location, ".com/", "?");
          TextBetween(portal.location, ".com/", "?")
  }

  /** A title on loan under a slightly different name is not found, whatever else the page shows. */
  lemma ExactTitleOnly(settings: PortalSettings, portal: Portal, title: string)
    requires UrlsMatch(portal.landingUrl, settings.url)
    requires forall k :: 0 <= k < |portal.loans| ==> portal.loans[k].title != title
    ensures DownloadOutcome(settings, portal, title) == Ok("")
  {
    assert FindTitle(portal.loans, title).None?;
  }

  /** The browser: the pages visited, in order, against a fixed portal. */
  class Browser {
    var visited: seq<string>
    const portal: Portal

    constructor (portal: Portal)
      ensures visited == [] && this.portal == portal
    {
      visited := [];
      this.portal := portal;
    }

    method Goto(url: string)
      modifies this
      ensures visited == old(visited) + [url]
    {
      visited := visited + [url];
    }
  }

  class OdmDownload {
    const settings: PortalSettings

    constructor (env: map<string, string>)
      ensures settings == SettingsFrom(env)
    {
      settings := SettingsFrom(env);
    }

    /** `_login`: signed in when the page reached afterwards is the portal's home. */
    method Login(browser: Browser) returns (isLoggedIn: bool)
      modifies browser
      ensures browser.visited == old(browser.visited) + [LoginUrl(settings)]
      ensures isLoggedIn == UrlsMatch(browser.portal.landingUrl, settings.url)
    {
      browser.Goto(LoginUrl(settings));
      isLoggedIn := SameUrl(browser.portal.landingUrl, settings.url);
    }

    /** `_getTitleOnLoan`: a download button is found only on the first card with exactly this title. */
    method GetTitleOnLoan(browser: Browser, title: string) returns (found: bool)
      modifies browser
      ensures browser.visited == old(browser.visited) + [LoansUrl(settings)]
      ensures found <==> (FindTitle(browser.portal.loans, title).Some?
        && browser.portal.loans[FindTitle(browser.portal.loans, title).value].hasDownloadButton)
    {
      browser.Goto(LoansUrl(settings));
      var loans := browser.portal.loans;
      var i := 0;
      while i < |loans| && loans[i].title != title
        invariant 0 <= i <= |loans|
        invariant forall k :: 0 <= k < i ==> loans[k].title != title
      {
        i := i + 1;
      }
      found := i < |loans| && loans[i].hasDownloadButton;
    }

    /** `_downloadOdm`: "" without a confirm dialog, else the name cut from the `location` header. */
    method DownloadOdm(browser: Browser) returns (r: Result<string>)
      ensures r == if browser.portal.confirmShown then TextBetween(browser.portal.location, ".com/", "?") else Ok("")
      ensures !browser.portal.confirmShown ==> r == Ok("")
      ensures r.Err? <==> (browser.portal.confirmShown
        && (browser.portal.location.None? || !Contains(browser.portal.location.value, ".com/")))
      ensures browser.portal.confirmShown && r.Ok? ==>
        var t := browser.portal.location.value;
        var i := IndexOf(t, ".com/").value + 5;
        && i + |r.value| <= |t| && t[i..i + |r.value|] == r.value && !Contains(r.value, "?")
        && (i + |r.value| == |t| || OccursAt(t, "?", i + |r.value|) || OccursAt(t, ".com/", i + |r.value|))
    {
      if !browser.portal.confirmShown {
        return Ok("");
      }
      TextBetweenSpec(browser.portal.location, ".com/", "?");
      r := TextBetween(browser.portal.location, ".com/", "?");
    }

    /** `download`: sign in, look the title up on the loans page, and download it if it has a button. */
    method Download(browser: Browser, title: string) returns (r: Result<string>)
      modifies browser
      ensures r == DownloadOutcome(settings, browser.portal, title)
      ensures browser.visited == old(browser.visited) + [LoginUrl(settings)]
        + (if UrlsMatch(browser.portal.landingUrl, settings.url) then [LoansUrl(settings)] else [])
    {
      var isLoggedIn := Login(browser);
      if !isLoggedIn {
        return Err(LoginFailed);
      }
      var found := GetTitleOnLoan(browser, title);
      if !found {
        return Ok("");
      }
      r := DownloadOdm(browser);
    }
  }
}
