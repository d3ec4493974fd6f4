/** The B2 object-storage client: credential normalisation on construction,
    the authorised download URL, and the projection of a bucket listing onto its
    file versions. The b2sdk calls (account authorisation, bucket lookup, the
    download-authorisation request and the account's download base URL) are
    supplied by the caller as a `B2Sdk` value. */
module B2 {
  import opened Wrappers
  import opened UrlQuote

  // ---------------------------------------------------------------------------
  // str.strip()
  // ---------------------------------------------------------------------------

  /** The characters Python's `str.isspace` accepts. */
  predicate IsWhitespace(c: char) {
    || '\U{0009}' <= c <= '\U{000D}'
    || '\U{001C}' <= c <= '\U{0020}'
    || c == '\U{0085}' || c == '\U{00A0}' || c == '\U{1680}'
    || '\U{2000}' <= c <= '\U{200A}'
    || c == '\U{2028}' || c == '\U{2029}' || c == '\U{202F}' || c == '\U{205F}' || c == '\U{3000}'
  }

  /** Below 128, the whitespace characters are exactly the tab, line feed,
      vertical tab, form feed, carriage return, the four information
      separators and the space. */
  lemma AsciiWhitespace(c: char)
    requires c as int < 128
    ensures IsWhitespace(c) <==> c in "\t\n\U{000B}\U{000C}\r\U{001C}\U{001D}\U{001E}\U{001F} "
  {
  }

  predicate AllWhitespace(s: string) {
    forall i :: 0 <= i < |s| ==> IsWhitespace(s[i])
  }

  /** Number of whitespace characters at the start of `s`. */
  function LeadingSpace(s: string): (n: nat)
    ensures n <= |s| && AllWhitespace(s[..n])
    ensures n < |s| ==> !IsWhitespace(s[n])
  {
    if s == [] || !IsWhitespace(s[0]) then 0
    else
      var m := LeadingSpace(s[1..]);
      assert s[1..][..m] == s[1..m + 1];
      1 + m
  }

  /** Number of whitespace characters at the end of `s`. */
  function TrailingSpace(s: string): (n: nat)
    ensures n <= |s| && AllWhitespace(s[|s| - n..])
    ensures n < |s| ==> !IsWhitespace(s[|s| - n - 1])
  {
    if s == [] || !IsWhitespace(s[|s| - 1]) then 0
    else
      var m := TrailingSpace(s[..|s| - 1]);
      assert s[..|s| - 1][|s| - 1 - m..] == s[|s| - 1 - m..|s| - 1];
      1 + m
  }

  /** `s.strip()`: the longest middle part of `s` that neither starts nor ends
      with whitespace, with only whitespace cut off on either side. */
  function Strip(s: string): (r: string)
    ensures r == [] || (!IsWhitespace(r[0]) && !IsWhitespace(r[|r| - 1]))
    ensures exists i :: 0 <= i && i + |r| <= |s| && s[i..i + |r|] == r
                        && AllWhitespace(s[..i]) && AllWhitespace(s[i + |r|..])
  {
    var lead := LeadingSpace(s);
    if lead == |s| then
      assert s[0..0] == [] && s[..0] == [];
      []
    else
      var trail := TrailingSpace(s);
      assert trail < |s| - lead by {
        assert !IsWhitespace(s[lead]);
      }
      var r := s[lead..|s| - trail];
      assert s[lead..lead + |r|] == r;
      r
  }

  /** Stripping twice is stripping once. */
  lemma StripIdempotent(s: string)
    ensures Strip(Strip(s)) == Strip(s)
  {
    var r := Strip(s);
    assert LeadingSpace(r) == 0;
    if r != [] {
      assert TrailingSpace(r) == 0;
      assert r[0..|r|] == r;
    }
  }

  // ---------------------------------------------------------------------------
  // The client
  // ---------------------------------------------------------------------------

  /** What `B2Client.__init__` keeps: the stripped credentials. */
  datatype B2Client = B2Client(keyId: string, applicationKey: string)

  /** `B2Client(key_id, application_key)`: a missing or empty credential becomes
      "", any other is stripped; the client exists only when b2sdk's
      `authorize_account` accepts the stripped pair (otherwise the constructor
      re-raises, modelled as `None`). */
  function NewB2Client(keyId: Option<string>, applicationKey: Option<string>,
                       authorize: (string, string) -> bool): (c: Option<B2Client>)
    ensures c.Some? <==> authorize(Strip(keyId.GetOr("")), Strip(applicationKey.GetOr("")))
    ensures c.Some? ==> c.value.keyId == Strip(keyId.GetOr(""))
                        && c.value.applicationKey == Strip(applicationKey.GetOr(""))
  {
    var key := if keyId.None? || keyId.value == "" then "" else Strip(keyId.value);
    var app := if applicationKey.None? || applicationKey.value == "" then "" else Strip(applicationKey.value);
    if authorize(key, app) then Some(B2Client(key, app)) else None
  }

  /** Validity of a download authorisation when the caller names none. */
  const DEFAULT_VALID_DURATION_SECONDS := 3600

  /** The arguments of `bucket.get_download_authorization`. */
  datatype DownloadAuthorization =
    DownloadAuthorization(bucketName: string, fileNamePrefix: string, validDurationInSeconds: int)

  /** The b2sdk side of a download: the account's download base URL and the
      token the bucket issues for an authorisation request (`None` when the
      bucket lookup or the request raises). */
  datatype B2Sdk = B2Sdk(downloadBaseUrl: string, issue: DownloadAuthorization -> Option<string>)

  /** `{base_url}/file/{bucket_name}/`: where the files of a bucket are served. */
  function FilePath(baseUrl: string, bucketName: string): string {
    baseUrl + "/file/" + bucketName + "/"
  }

  /** `{base_url}/file/{bucket_name}/{quote(file_name, safe='/')}?Authorization={token}`:
      the URL starts with the bucket's file path, the segment between it and
      the query percent-decodes back to the file name, and the query is the
      token. */
  function DownloadUrl(baseUrl: string, bucketName: string, fileName: string, token: string): (url: string)
    ensures var start := |FilePath(baseUrl, bucketName)|;
            var k := start + |Quote(fileName)|;
            && k <= |url|
            && url[..start] == baseUrl + "/file/" + bucketName + "/"
            && Unquote(url[start..k]) == Some(fileName)
            && url[k..] == "?Authorization=" + token
  {
    var path, q := FilePath(baseUrl, bucketName), Quote(fileName);
    var url := path + q + "?Authorization=" + token;
    assert url[..|path|] == path;
    assert url[|path|..|path| + |q|] == q;
    assert url[|path| + |q|..] == "?Authorization=" + token;
    QuoteRoundTrip(fileName);
    url
  }

  /** `get_download_url`: asks for a token scoped to exactly this file name with
      the given validity, then assembles the URL around it. */
  function GetDownloadUrl(client: B2Client, sdk: B2Sdk, bucketName: string, fileName: string,
                          validDurationSeconds: int): (url: Option<string>)
    ensures var request := DownloadAuthorization(bucketName, fileName, validDurationSeconds);
            && (url.Some? <==> sdk.issue(request).Some?)
            && (url.Some? ==> url.value == DownloadUrl(sdk.downloadBaseUrl, bucketName, fileName,
                                                       sdk.issue(request).value))
  {
    match sdk.issue(DownloadAuthorization(bucketName, fileName, validDurationSeconds))
    case None => None
    case Some(token) => Some(DownloadUrl(sdk.downloadBaseUrl, bucketName, fileName, token))
  }

  predicate NoQuestionMark(s: string) {
    forall i :: 0 <= i < |s| ==> s[i] != '?'
  }

  /** When neither the base URL nor the bucket name holds a `?`, the first `?`
      of the download URL is the one right after the quoted file name, and
      everything after it is `Authorization=` and the token. */
  lemma DownloadUrlQuery(baseUrl: string, bucketName: string, fileName: string, token: string)
    requires NoQuestionMark(baseUrl) && NoQuestionMark(bucketName)
    ensures var url := DownloadUrl(baseUrl, bucketName, fileName, token);
            var k := |FilePath(baseUrl, bucketName)| + |Quote(fileName)|;
            && k < |url| && url[k] == '?'
            && NoQuestionMark(url[..k])
            && url[k + 1..] == "Authorization=" + token
  {
    var path, q := FilePath(baseUrl, bucketName), Quote(fileName);
    assert NoQuestionMark(path);
    assert NoQuestionMark(q) by { QuoteIsUrlSafe(fileName); }
    UrlParts(path, q, token);
  }

  /** A path without `?`, followed by `?Authorization=` and a token, splits
      back into the path and the token at its first `?`. */
  lemma UrlParts(path: string, q: string, token: string)
    requires NoQuestionMark(path) && NoQuestionMark(q)
    ensures var url := path + q + "?Authorization=" + token;
            var k := |path| + |q|;
            && k < |url| && url[k] == '?'
            && NoQuestionMark(url[..k])
            && url[k + 1..] == "Authorization=" + token
            && url[..|path|] == path
            && url[|path|..k] == q
  {
    var url := path + q + "?Authorization=" + token;
    var k := |path| + |q|;
    assert url[..k] == path + q;
    assert url[k + 1..] == "Authorization=" + token;
  }

  /** `list_files`: the file versions of `bucket.ls()`, in listing order, with
      the folder names dropped. */
  method ListFiles<V>(listing: seq<(V, Option<string>)>) returns (versions: seq<V>)
    ensures |versions| == |listing|
    ensures forall i :: 0 <= i < |listing| ==> versions[i] == listing[i].0
  {
    versions := [];
    for i := 0 to |listing|
      invariant |versions| == i
      invariant forall j :: 0 <= j < i ==> versions[j] == listing[j].0
    {
      versions := versions + [listing[i].0];
    }
  }
}
