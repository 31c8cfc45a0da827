/** The `Request` record of the monitor (numenor_monitor/models.py): the flat
    set of fields captured for one request/response cycle, the shapes the
    table declares for them, and the record's URL rendering (`__str__`). */
module Records {
  import opened Wrappers
  import Text

  /** Primary key of an `auth.User` row. */
  type UserId = nat

  /** One logged request. Timestamps are integer microseconds of the clock the
      middleware reads; `created_at` is assigned at insertion and is not part of
      the captured record. */
  datatype Request = Request(
    scheme: string,
    host: string,
    path: string,
    query: string,
    httpMethod: Option<string>,
    ipAddress: Option<string>,
    userAgent: string,
    user: Option<UserId>,
    username: string,
    startAt: int,
    endAt: Option<int>,
    statusCode: int,
    error: string,
    requestSize: int,
    responseSize: int)

  const SCHEME_MAX_LENGTH := 10
  const HOST_MAX_LENGTH := 255
  const PATH_MAX_LENGTH := 2048
  const METHOD_MAX_LENGTH := 10
  const USERNAME_MAX_LENGTH := 150

  /** The shapes of the column declarations: bounded character fields, a
      non-null address, nullable `method`, `user` and `end_at`, non-negative
      sizes. An empty address is stored as NULL by the address field, so it
      does not fit the non-null column either. Whether the address is an IP
      address, and its width after IPv6 normalisation, are not stated. */
  predicate Fits(r: Request) {
    && |r.scheme| <= SCHEME_MAX_LENGTH
    && |r.host| <= HOST_MAX_LENGTH
    && |r.path| <= PATH_MAX_LENGTH
    && (r.httpMethod.Some? ==> |r.httpMethod.value| <= METHOD_MAX_LENGTH)
    && r.ipAddress.Some? && r.ipAddress.value != ""
    && |r.username| <= USERNAME_MAX_LENGTH
    && r.requestSize >= 0
    && r.responseSize >= 0
  }

  /** A record given only the columns without a default: the text columns are
      empty, the nullable ones null and both sizes 0. */
  function Blank(scheme: string, host: string, path: string, ipAddress: string,
                 startAt: int, statusCode: int): (r: Request)
    ensures r.requestSize == 0 && r.responseSize == 0
    ensures r.httpMethod == None && r.user == None && r.endAt == None
    ensures r.query == "" && r.userAgent == "" && r.username == "" && r.error == ""
    ensures Fits(r) <==> |scheme| <= SCHEME_MAX_LENGTH && |host| <= HOST_MAX_LENGTH
                         && |path| <= PATH_MAX_LENGTH && ipAddress != ""
  {
    Request(scheme, host, path, "", None, Some(ipAddress), "", None, "",
            startAt, None, statusCode, "", 0, 0)
  }

  /** `scheme://host` followed by the path. */
  function Location(r: Request): string {
    r.scheme + "://" + r.host + r.path
  }

  /** `str(record)`: the location, then `?` and the query when the query is not
      empty. */
  function Url(r: Request): (s: string)
    ensures Location(r) <= s
    ensures s == Location(r) <==> r.query == ""
    ensures r.query != "" ==> s[|Location(r)|..] == "?" + r.query
  {
    var queryPart := if r.query != "" then "?" + r.query else "";
    Location(r) + queryPart
  }

  /** With no `?` in the path, the rendered URL gives back its path and query:
      everything after the host splits at the first `?`. */
  lemma UrlSplit(r: Request)
    requires '?' !in r.path
    ensures var rest := Url(r)[|r.scheme| + 3 + |r.host|..];
            Text.Before(rest, '?') == r.path && Text.After(rest, '?') == r.query
  {
    var rest := Url(r)[|r.scheme| + 3 + |r.host|..];
    if r.query == "" {
      assert rest == r.path;
    } else {
      assert rest == r.path + ['?'] + r.query;
      Text.SplitJoin(r.path, r.query, '?');
    }
  }

  /** The rendering asserted at numenor_monitor/tests.py:73. */
  lemma UrlWithoutQuery()
    ensures Url(Blank("http", "test.com", "/path", "127.0.0.1", 0, 200)) == "http://test.com/path"
  {
  }

  /** The rendering asserted at numenor_monitor/tests.py:91. */
  lemma UrlWithQuery()
    ensures Url(Blank("https", "example.com", "/search", "127.0.0.1", 0, 200).(query := "q=test"))
            == "https://example.com/search?q=test"
  {
    var r := Blank("https", "example.com", "/search", "127.0.0.1", 0, 200).(query := "q=test");
    assert "https" + "://" == "https://";
    assert "https://" + "example.com" == "https://example.com";
    assert "https://example.com" + "/search" == "https://example.com/search";
    assert "?" + "q=test" == "?q=test";
    assert "https://example.com/search" + "?q=test" == "https://example.com/search?q=test";
  }
}
