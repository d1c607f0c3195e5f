/**
 Resolution of a DICOM JSON `BulkDataURI` (DICOM PS3.18 Annex F) into a fetchable
 URL, as the DICOMweb data source does before it retrieves bulk data.

 The source rewrites the field in place; here the rewrite returns the new value,
 and the exception thrown by `new URL` on an unparseable string is a `Failure`.
 URL parsing is reduced to `scheme "://" authority path [?query] [#fragment]`,
 which is all the resolver reads (`origin` and `pathname`).
 */
module BulkDataUri {
  import opened Common

  // ---------------------------------------------------------------------------
  // A minimal URL parser
  // ---------------------------------------------------------------------------

  datatype Url = Url(scheme: string, authority: string, path: string)

  predicate IsAlpha(c: char) {
    'a' <= c <= 'z' || 'A' <= c <= 'Z'
  }

  predicate IsSchemeChar(c: char) {
    IsAlpha(c) || '0' <= c <= '9' || c == '+' || c == '-' || c == '.'
  }

  predicate ValidScheme(s: string) {
    |s| >= 1 && IsAlpha(s[0]) && forall i :: 0 <= i < |s| ==> IsSchemeChar(s[i])
  }

  /** Schemes whose origin is the tuple scheme/host/port and whose empty path reads as "/". */
  predicate IsSpecial(scheme: string) {
    scheme == "http" || scheme == "https" || scheme == "ws" || scheme == "wss" || scheme == "ftp"
  }

  predicate EndsAuthority(c: char) {
    c == '/' || c == '?' || c == '#'
  }

  predicate EndsPath(c: char) {
    c == '?' || c == '#'
  }

  /** The first position at or after `from` whose character satisfies `stop`, or `|s|`. */
  function FirstStop(s: string, from: nat, stop: char -> bool): (r: nat)
    requires from <= |s|
    ensures from <= r <= |s|
    ensures forall i :: from <= i < r ==> !stop(s[i])
    ensures r < |s| ==> stop(s[r])
    decreases |s| - from
  {
    if from == |s| then from
    else if stop(s[from]) then from
    else FirstStop(s, from + 1, stop)
  }

  /** An authority runs up to the first '/', '?' or '#'. */
  predicate NoAuthorityEnd(a: string) {
    forall i :: 0 <= i < |a| ==> !EndsAuthority(a[i])
  }

  /** What a parsed URL looks like: the shape every successful parse has. */
  predicate WellFormed(u: Url) {
    && ValidScheme(u.scheme)
    && u.authority != ""
    && NoAuthorityEnd(u.authority)
    && (forall i :: 0 <= i < |u.path| ==> !EndsPath(u.path[i]))
    && (u.path == "" || u.path[0] == '/')
    && (IsSpecial(u.scheme) ==> u.path != "")
  }

  /** The path that a URL string ending in `rest` reports: up to the query or fragment. */
  function PathOf(scheme: string, rest: string): (p: string)
    requires rest == "" || EndsAuthority(rest[0])
    ensures forall i :: 0 <= i < |p| ==> !EndsPath(p[i])
    ensures p == "" || p[0] == '/'
    ensures IsSpecial(scheme) ==> p != ""
  {
    var e := FirstStop(rest, 0, EndsPath);
    if e == 0 && IsSpecial(scheme) then "/" else rest[..e]
  }

  /**
   `new URL(s)`: `None` where the constructor throws. Only the
   `scheme://authority` form is accepted.
   */
  function ParseUrl(s: string): (r: Option<Url>)
    ensures r.Some? ==> WellFormed(r.value)
    ensures r.Some? ==> StartsWith(s, r.value.scheme + "://" + r.value.authority)
  {
    var i := IndexOfFrom(s, ':', 0);
    if i <= 0 || !ValidScheme(s[..i]) || !StartsWith(s[i + 1..], "//") then None
    else
      var a := i + 3;
      assert a <= |s| by {
        assert |s[i + 1..]| >= 2;
      }
      var e := FirstStop(s, a, EndsAuthority);
      if e == a then None
      else
        assert s[..e] == s[..i] + "://" + s[a..e] by {
          assert s[i + 1..][..2] == "//";
        }
        Some(Url(s[..i], s[a..e], PathOf(s[..i], s[e..])))
  }

  /** `url.origin`: "null" for a scheme without a tuple origin. */
  function Origin(u: Url): string {
    if IsSpecial(u.scheme) then u.scheme + "://" + u.authority else "null"
  }

  /** `url.pathname`. */
  function Pathname(u: Url): string {
    u.path
  }

  // ---------------------------------------------------------------------------
  // Re-parsing what the resolver builds
  // ---------------------------------------------------------------------------

  /** A position with the defining property of `FirstStop` is its result. */
  lemma FirstStopUnique(s: string, from: nat, stop: char -> bool, r: nat)
    requires from <= r <= |s|
    requires forall i :: from <= i < r ==> !stop(s[i])
    requires r < |s| ==> stop(s[r])
    ensures FirstStop(s, from, stop) == r
  {
  }

  lemma ValidSchemeHasNoColon(s: string)
    requires ValidScheme(s)
    ensures ':' !in s
  {
    forall k | 0 <= k < |s|
      ensures s[k] != ':'
    {
      assert IsSchemeChar(s[k]);
    }
  }

  /** Where the three parts of a concatenation lie in it. */
  lemma ThreeParts(a: string, b: string, c: string)
    ensures var s := a + b + c;
      && s[..|a|] == a
      && s[|a|..|a| + |b|] == b
      && s[|a| + |b|..] == c
      && s[..|a| + |b|] == a + b
  {
  }

  /**
   The converse of `ParsedAt`: a string with a valid scheme before its first
   colon, "//" after it and a non-empty authority up to position `e` parses
   into exactly those parts.
   */
  lemma ParseAt(s: string, i: nat, e: nat)
    requires 0 < i && i + 3 < e <= |s|
    requires s[i] == ':' && ValidScheme(s[..i])
    requires s[i + 1] == '/' && s[i + 2] == '/'
    requires NoAuthorityEnd(s[i + 3..e])
    requires e < |s| ==> EndsAuthority(s[e])
    ensures ParseUrl(s) == Some(Url(s[..i], s[i + 3..e], PathOf(s[..i], s[e..])))
  {
    ValidSchemeHasNoColon(s[..i]);
    assert forall k :: 0 <= k < i ==> s[k] == s[..i][k];
    IndexOfFromUnique(s, ':', 0, i);
    assert s[i + 1..][..2] == "//";
    forall k | i + 3 <= k < e
      ensures !EndsAuthority(s[k])
    {
      assert s[k] == s[i + 3..e][k - i - 3];
    }
    FirstStopUnique(s, i + 3, EndsAuthority, e);
  }

  /**
   Gluing a path (empty or starting with "/") onto the origin of a parsed URL
   with a special scheme gives a string that parses back to the same scheme and
   authority, with the glued-on part as its path.
   */
  lemma ReparseOrigin(u: Url, p: string)
    requires WellFormed(u) && IsSpecial(u.scheme)
    requires p == "" || p[0] == '/'
    ensures ParseUrl(Origin(u) + p) == Some(Url(u.scheme, u.authority, PathOf(u.scheme, p)))
  {
    var n := |u.scheme|;
    var m := n + 3 + |u.authority|;
    var s := Origin(u) + p;
    ThreeParts(u.scheme + "://", u.authority, p);
    ThreeParts(u.scheme, "://", u.authority);
    assert s[..m] == u.scheme + "://" + u.authority;
    assert s[..n] == u.scheme;
    assert s[n] == ':' && s[n + 1] == '/' && s[n + 2] == '/';
    assert s[n + 3..m] == u.authority;
    ParseAt(s, n, m);
  }

  /** The positions a successful parse splits its input at: the colon and the end of the authority. */
  lemma ParsedAt(s: string) returns (i: nat, e: nat)
    requires ParseUrl(s).Some?
    ensures 0 < i && i + 3 < e <= |s|
    ensures s[i] == ':' && ValidScheme(s[..i]) && s[i + 1] == '/' && s[i + 2] == '/'
    ensures forall k :: i + 3 <= k < e ==> !EndsAuthority(s[k])
    ensures e < |s| ==> EndsAuthority(s[e])
    ensures ParseUrl(s).value.scheme == s[..i] && ParseUrl(s).value.authority == s[i + 3..e]
  {
    i := IndexOfFrom(s, ':', 0);
    e := FirstStop(s, i + 3, EndsAuthority);
    assert s[i + 1..][..2] == "//";
    assert s[i + 1] == s[i + 1..][0];
    assert s[i + 2] == s[i + 1..][1];
  }

  /**
   Appending a suffix that starts with "/" to a URL string keeps its scheme and
   authority: the suffix can only lengthen the path, query or fragment.
   */
  lemma AppendKeepsOrigin(s: string, suffix: string)
    requires ParseUrl(s).Some?
    requires |suffix| > 0 && suffix[0] == '/'
    ensures ParseUrl(s + suffix).Some?
    ensures ParseUrl(s + suffix).value.scheme == ParseUrl(s).value.scheme
    ensures ParseUrl(s + suffix).value.authority == ParseUrl(s).value.authority
  {
    var t := s + suffix;
    var i, e := ParsedAt(s);
    assert t[..e] == s[..e];
    assert t[..i] == s[..i];
    assert t[i + 3..e] == s[i + 3..e];
    assert e < |t| ==> EndsAuthority(t[e]) by {
      if e < |s| {
        assert t[e] == s[e];
      } else {
        assert t[e] == suffix[0];
      }
    }
    ParseAt(t, i, e);
  }

  // ---------------------------------------------------------------------------
  // The resolver
  // ---------------------------------------------------------------------------

  /** The instance whose bulk data is referenced. */
  datatype Instance = Instance(studyInstanceUID: string, seriesInstanceUID: string)

  /**
   The DICOMweb data-source configuration: `wadoRoot` and the optional
   `bulkDataURI.relativeResolution` hint (`None` when it is not set).
   */
  datatype DicomWebConfig = DicomWebConfig(wadoRoot: string, relativeResolution: Option<string>)

  /** A bulk-data attribute value: the URI and the value representation beside it. */
  datatype BulkDataValue = BulkDataValue(bulkDataURI: string, vr: Option<string>)

  /** The retrieval path the absolute-URI rule inserts after the configured origin. */
  const RetrievePrefix := "/dcm4chee-arc/aets/DCM4CHEE/rs/"

  /** A relative hint that resolves against the series: "series", unset or empty. */
  predicate ResolvesAgainstSeries(config: DicomWebConfig) {
    config.relativeResolution == Some("series") || !Truthy(config.relativeResolution)
  }

  /** A hint the resolver does not recognise: relative URIs are then left alone. */
  predicate UnknownResolution(config: DicomWebConfig) {
    config.relativeResolution != Some("studies") && !ResolvesAgainstSeries(config)
  }

  /** The path a study-relative URI is placed under. */
  function StudiesSuffix(instance: Instance, uri: string): (suffix: string)
    ensures |suffix| > 0 && suffix[0] == '/'
  {
    "/studies/" + instance.studyInstanceUID + "/" + uri
  }

  /** The path a series-relative URI is placed under. */
  function SeriesSuffix(instance: Instance, uri: string): (suffix: string)
    ensures |suffix| > 0 && suffix[0] == '/'
  {
    "/studies/" + instance.studyInstanceUID + "/series/" + instance.seriesInstanceUID + "/" + uri
  }

  /**
   `fixBulkDataURI`: rewrite the BulkDataURI of `value` by the first rule that
   applies — an absolute "http" URI is moved onto the configured origin under
   the fixed retrieval path; a relative URI is prefixed with the study or series
   path; a server-root-relative URI gets the configured origin when the root is
   absolute. Only the URI changes; an unparseable URL is a failure.
   */
  function FixBulkDataUri(value: BulkDataValue, instance: Instance, config: DicomWebConfig): (r: Result<BulkDataValue>)
    // when the call throws
    ensures r.Failure? <==>
      if StartsWith(value.bulkDataURI, "http") then
        ParseUrl(config.wadoRoot).None? || ParseUrl(value.bulkDataURI).None?
      else
        StartsWith(value.bulkDataURI, "/") && StartsWith(config.wadoRoot, "http") && ParseUrl(config.wadoRoot).None?
    // nothing but the URI changes
    ensures r.Success? ==> r.value.vr == value.vr
    // rule 1: absolute URI
    ensures r.Success? && StartsWith(value.bulkDataURI, "http") ==>
      r.value.bulkDataURI ==
        Origin(ParseUrl(config.wadoRoot).value) + RetrievePrefix + Pathname(ParseUrl(value.bulkDataURI).value)
    // rule 2: relative URI
    ensures !StartsWith(value.bulkDataURI, "http") && !StartsWith(value.bulkDataURI, "/") ==>
      r.Success? &&
      r.value.bulkDataURI ==
        if config.relativeResolution == Some("studies") then
          config.wadoRoot + StudiesSuffix(instance, value.bulkDataURI)
        else if ResolvesAgainstSeries(config) then
          config.wadoRoot + SeriesSuffix(instance, value.bulkDataURI)
        else
          value.bulkDataURI
    // rule 3: server-root-relative URI
    ensures r.Success? && !StartsWith(value.bulkDataURI, "http") && StartsWith(value.bulkDataURI, "/") ==>
      r.value.bulkDataURI ==
        if StartsWith(config.wadoRoot, "http") then Origin(ParseUrl(config.wadoRoot).value) + value.bulkDataURI
        else value.bulkDataURI
  {
    var uri := value.bulkDataURI;
    if StartsWith(uri, "http") then
      match (ParseUrl(config.wadoRoot), ParseUrl(uri))
      case (Some(wadoUrl), Some(currentUrl)) =>
        Success(value.(bulkDataURI := Origin(wadoUrl) + RetrievePrefix + Pathname(currentUrl)))
      case _ => Failure("Invalid URL")
    else if !StartsWith(uri, "/") then
      if config.relativeResolution == Some("studies") then
        Success(value.(bulkDataURI := config.wadoRoot + StudiesSuffix(instance, uri)))
      else if ResolvesAgainstSeries(config) then
        Success(value.(bulkDataURI := config.wadoRoot + SeriesSuffix(instance, uri)))
      else
        Success(value)
    else if StartsWith(config.wadoRoot, "http") then
      match ParseUrl(config.wadoRoot)
      case Some(url) => Success(value.(bulkDataURI := Origin(url) + uri))
      case None => Failure("Invalid URL")
    else
      Success(value)
  }

  // ---------------------------------------------------------------------------
  // Properties of the resolver
  // ---------------------------------------------------------------------------

  /** A query- and fragment-free absolute path glued onto an origin is parsed back as the path. */
  lemma ReparseOriginPath(u: Url, q: string)
    requires WellFormed(u) && IsSpecial(u.scheme)
    requires |q| > 0 && q[0] == '/'
    requires forall k :: 0 <= k < |q| ==> !EndsPath(q[k])
    ensures ParseUrl(Origin(u) + q) == Some(Url(u.scheme, u.authority, q))
  {
    ReparseOrigin(u, q);
    FirstStopUnique(q, 0, EndsPath, |q|);
    assert q[..|q|] == q;
  }

  /** The retrieval prefix holds no query or fragment delimiter, so neither does prefix + pathname. */
  lemma RetrievePathHasNoQuery(p: string)
    requires forall k :: 0 <= k < |p| ==> !EndsPath(p[k])
    ensures forall k :: 0 <= k < |RetrievePrefix + p| ==> !EndsPath((RetrievePrefix + p)[k])
  {
    var q := RetrievePrefix + p;
    forall k | 0 <= k < |q|
      ensures !EndsPath(q[k])
    {
      if k >= |RetrievePrefix| {
        assert q[k] == p[k - |RetrievePrefix|];
      }
    }
  }

  /** A root the resolver treats as absolute: it parses with scheme "http" or "https". */
  predicate HttpRoot(config: DicomWebConfig) {
    ParseUrl(config.wadoRoot).Some? && ParseUrl(config.wadoRoot).value.scheme in {"http", "https"}
  }

  lemma HttpRootStartsWithHttp(config: DicomWebConfig)
    requires HttpRoot(config)
    ensures StartsWith(config.wadoRoot, "http")
    ensures IsSpecial(ParseUrl(config.wadoRoot).value.scheme)
  {
    var root := ParseUrl(config.wadoRoot).value;
    assert StartsWith(config.wadoRoot, root.scheme);
    assert config.wadoRoot[..4] == root.scheme[..4];
  }

  /** Anything glued onto the origin of an "http" or "https" URL starts with "http". */
  lemma HttpOrigin(u: Url, q: string)
    requires u.scheme in {"http", "https"}
    ensures StartsWith(Origin(u) + q, "http")
  {
    assert (Origin(u) + q)[..4] == u.scheme[..4];
  }

  /** The relative rules keep the configured root's scheme and authority. */
  lemma RelativeRuleOrigin(value: BulkDataValue, instance: Instance, config: DicomWebConfig)
    requires ParseUrl(config.wadoRoot).Some?
    requires !UnknownResolution(config)
    requires !StartsWith(value.bulkDataURI, "http") && !StartsWith(value.bulkDataURI, "/")
    ensures var resolved := FixBulkDataUri(value, instance, config).value.bulkDataURI;
      && ParseUrl(resolved).Some?
      && ParseUrl(resolved).value.scheme == ParseUrl(config.wadoRoot).value.scheme
      && ParseUrl(resolved).value.authority == ParseUrl(config.wadoRoot).value.authority
  {
    var r := FixBulkDataUri(value, instance, config);
    if config.relativeResolution == Some("studies") {
      AppendKeepsOrigin(config.wadoRoot, StudiesSuffix(instance, value.bulkDataURI));
    } else {
      AppendKeepsOrigin(config.wadoRoot, SeriesSuffix(instance, value.bulkDataURI));
    }
  }

  /** The retrieval path glued onto a special origin parses back with the origin's scheme and authority. */
  lemma AbsoluteTargetParses(root: Url, p: string)
    requires WellFormed(root) && IsSpecial(root.scheme)
    requires p == "" || p[0] == '/'
    requires forall k :: 0 <= k < |p| ==> !EndsPath(p[k])
    ensures ParseUrl(Origin(root) + RetrievePrefix + p) == Some(Url(root.scheme, root.authority, RetrievePrefix + p))
  {
    RetrievePathHasNoQuery(p);
    ReparseOriginPath(root, RetrievePrefix + p);
    ConcatAssoc(Origin(root), RetrievePrefix, p);
  }

  /** The absolute rule lands on the configured root's scheme and authority, with the retrieval path. */
  lemma AbsoluteRuleOrigin(value: BulkDataValue, instance: Instance, config: DicomWebConfig)
    requires HttpRoot(config)
    requires StartsWith(value.bulkDataURI, "http") && ParseUrl(value.bulkDataURI).Some?
    ensures var root := ParseUrl(config.wadoRoot).value;
      var resolved := FixBulkDataUri(value, instance, config);
      && resolved.Success?
      && ParseUrl(resolved.value.bulkDataURI)
         == Some(Url(root.scheme, root.authority, RetrievePrefix + Pathname(ParseUrl(value.bulkDataURI).value)))
  {
    HttpRootStartsWithHttp(config);
    AbsoluteRuleResult(value, instance, config);
    AbsoluteTargetParses(ParseUrl(config.wadoRoot).value, Pathname(ParseUrl(value.bulkDataURI).value));
  }

  /** What the server-root-relative rule returns when the root is an absolute URL. */
  lemma RootRelativeRuleResult(value: BulkDataValue, instance: Instance, config: DicomWebConfig)
    requires !StartsWith(value.bulkDataURI, "http") && StartsWith(value.bulkDataURI, "/")
    requires StartsWith(config.wadoRoot, "http") && ParseUrl(config.wadoRoot).Some?
    ensures FixBulkDataUri(value, instance, config) ==
      Success(value.(bulkDataURI := Origin(ParseUrl(config.wadoRoot).value) + value.bulkDataURI))
  {
  }

  /** The root-relative rule keeps the configured root's scheme and authority. */
  lemma RootRelativeRuleOrigin(value: BulkDataValue, instance: Instance, config: DicomWebConfig)
    requires HttpRoot(config)
    requires !StartsWith(value.bulkDataURI, "http") && |value.bulkDataURI| > 0 && value.bulkDataURI[0] == '/'
    ensures var root := ParseUrl(config.wadoRoot).value;
      var resolved := FixBulkDataUri(value, instance, config);
      && resolved.Success?
      && ParseUrl(resolved.value.bulkDataURI) == Some(Url(root.scheme, root.authority, PathOf(root.scheme, value.bulkDataURI)))
  {
    assert StartsWith(value.bulkDataURI, "/") by {
      assert value.bulkDataURI[..1] == "/";
    }
    HttpRootStartsWithHttp(config);
    RootRelativeRuleResult(value, instance, config);
    ReparseOrigin(ParseUrl(config.wadoRoot).value, value.bulkDataURI);
  }

  /**
   Whenever the configured root is an absolute "http" or "https" URL and the
   relative hint is one the resolver knows, every resolved URI is an absolute
   URL on the configured server: its scheme and authority are the root's. This
   is the host correction the absolute rule exists for; the relative rules
   inherit it from the root they prepend.
   */
  lemma ResolvedUriPointsAtConfiguredServer(value: BulkDataValue, instance: Instance, config: DicomWebConfig)
    requires HttpRoot(config)
    requires !UnknownResolution(config)
    requires FixBulkDataUri(value, instance, config).Success?
    ensures var resolved := FixBulkDataUri(value, instance, config).value.bulkDataURI;
      && ParseUrl(resolved).Some?
      && ParseUrl(resolved).value.scheme == ParseUrl(config.wadoRoot).value.scheme
      && ParseUrl(resolved).value.authority == ParseUrl(config.wadoRoot).value.authority
  {
    if StartsWith(value.bulkDataURI, "http") {
      AbsoluteRuleOrigin(value, instance, config);
    } else if !StartsWith(value.bulkDataURI, "/") {
      RelativeRuleOrigin(value, instance, config);
    } else {
      assert value.bulkDataURI[0] == value.bulkDataURI[..1][0];
      RootRelativeRuleOrigin(value, instance, config);
    }
  }

  /**
   With a server-relative root (a same-origin deployment such as
   "/pacs/dicom-web"), an absolute BulkDataURI cannot be resolved: `new URL`
   throws on the root.
   */
  lemma RelativeRootRejectsAbsoluteUri(value: BulkDataValue, instance: Instance, config: DicomWebConfig)
    requires StartsWith(config.wadoRoot, "/")
    requires StartsWith(value.bulkDataURI, "http")
    ensures FixBulkDataUri(value, instance, config).Failure?
  {
    var i := IndexOfFrom(config.wadoRoot, ':', 0);
    if i > 0 {
      assert !IsSchemeChar(config.wadoRoot[..i][0]);
    }
  }

  /**
   With a server-relative root and a recognised hint, every URI the resolver
   accepts stays server-relative: it starts with "/".
   */
  lemma RelativeRootKeepsUrisRelative(value: BulkDataValue, instance: Instance, config: DicomWebConfig)
    requires StartsWith(config.wadoRoot, "/")
    requires !UnknownResolution(config)
    requires FixBulkDataUri(value, instance, config).Success?
    ensures StartsWith(FixBulkDataUri(value, instance, config).value.bulkDataURI, "/")
  {
    var uri := value.bulkDataURI;
    var root := config.wadoRoot;
    assert !StartsWith(root, "http") by {
      assert root[0] == '/';
    }
    if !StartsWith(uri, "http") && !StartsWith(uri, "/") {
      var suffix := if config.relativeResolution == Some("studies") then StudiesSuffix(instance, uri) else SeriesSuffix(instance, uri);
      var resolved := FixBulkDataUri(value, instance, config).value.bulkDataURI;
      assert resolved == root + suffix;
      assert resolved[..1] == root[..1];
    }
  }

  /** What the absolute rule returns when both URLs parse. */
  lemma AbsoluteRuleResult(value: BulkDataValue, instance: Instance, config: DicomWebConfig)
    requires StartsWith(value.bulkDataURI, "http")
    requires ParseUrl(config.wadoRoot).Some? && ParseUrl(value.bulkDataURI).Some?
    ensures FixBulkDataUri(value, instance, config) ==
      Success(value.(bulkDataURI := Origin(ParseUrl(config.wadoRoot).value) + RetrievePrefix + Pathname(ParseUrl(value.bulkDataURI).value)))
  {
  }

  lemma ConcatAssoc(a: string, b: string, c: string)
    ensures a + b + c == a + (b + c)
  {
  }

  /** A path that starts with "/" puts a "/" right after whatever it is glued onto. */
  lemma SlashLedPath(x: string, p: string)
    requires |p| > 0 && p[0] == '/'
    ensures StartsWith(x + p, x + "/")
  {
    assert (x + p)[..|x| + 1] == x + "/";
  }

  /**
   The absolute rule always produces a doubled slash after the retrieval prefix,
   because the pathname it appends starts with "/".
   */
  lemma AbsoluteRuleDoublesSlash(value: BulkDataValue, instance: Instance, config: DicomWebConfig)
    requires StartsWith(value.bulkDataURI, "http")
    requires FixBulkDataUri(value, instance, config).Success?
    requires IsSpecial(ParseUrl(value.bulkDataURI).value.scheme)
    ensures StartsWith(FixBulkDataUri(value, instance, config).value.bulkDataURI,
                       Origin(ParseUrl(config.wadoRoot).value) + "/dcm4chee-arc/aets/DCM4CHEE/rs//")
  {
    var p := Pathname(ParseUrl(value.bulkDataURI).value);
    var o := Origin(ParseUrl(config.wadoRoot).value);
    AbsoluteRuleResult(value, instance, config);
    SlashLedPath(o + RetrievePrefix, p);
    assert o + RetrievePrefix + "/" == o + "/dcm4chee-arc/aets/DCM4CHEE/rs//";
  }

  /**
   The absolute rule is not idempotent: resolving its own output again inserts
   the retrieval prefix a second time.
   */
  lemma AbsoluteRuleNotIdempotent(value: BulkDataValue, instance: Instance, config: DicomWebConfig)
    requires HttpRoot(config)
    requires StartsWith(value.bulkDataURI, "http") && ParseUrl(value.bulkDataURI).Some?
    ensures var once := FixBulkDataUri(value, instance, config);
      && once.Success?
      && var twice := FixBulkDataUri(once.value, instance, config);
      && twice.Success?
      && twice.value.bulkDataURI ==
           Origin(ParseUrl(config.wadoRoot).value) + RetrievePrefix + RetrievePrefix
             + Pathname(ParseUrl(value.bulkDataURI).value)
      && twice.value != once.value
  {
    var root := ParseUrl(config.wadoRoot).value;
    var p := Pathname(ParseUrl(value.bulkDataURI).value);
    HttpRootStartsWithHttp(config);
    AbsoluteRuleResult(value, instance, config);
    var once := value.(bulkDataURI := Origin(root) + RetrievePrefix + p);
    AbsoluteTargetParses(root, p);
    HttpOrigin(root, RetrievePrefix + p);
    ConcatAssoc(Origin(root), RetrievePrefix, p);
    AbsoluteRuleResult(once, instance, config);
    ConcatAssoc(Origin(root) + RetrievePrefix, RetrievePrefix, p);
    assert |once.bulkDataURI| < |Origin(root) + RetrievePrefix + RetrievePrefix + p|;
  }
}
