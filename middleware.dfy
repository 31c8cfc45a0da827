/** `RequestLoggingMiddleware` (numenor_monitor/middlewares.py): it passes
    each request to the next handler, returns the handler's response
    unchanged, and derives from the request and the response one record,
    which it hands to the logger's queue. A failure while deriving or
    enqueueing the record is logged as an error and never reaches the
    client. */
module Middleware {
  import opened Wrappers
  import opened Text
  import opened Records
  import opened Logger

  // ---------------------------------------------------------------------------
  // The request and response values the middleware reads

  /** `request.user`: an `auth.User` row or an anonymous user. */
  datatype User = User(id: UserId, username: string, isAuthenticated: bool)

  /** `request.get_host()`: the validated host, or the message of the
      `DisallowedHost` exception it raises when the host is not allowed. */
  datatype HostLookup = Valid(name: string) | Disallowed(message: string)

  /** The parts of a Django `HttpRequest` the middleware reads. `query` is the
      URL-encoded form of `request.GET`; `user` is `None` when the request has
      no user attribute or it is `None`. */
  datatype HttpRequest = HttpRequest(
    scheme: string,
    host: HostLookup,
    path: string,
    query: string,
    httpMethod: Option<string>,
    meta: map<string, string>,
    body: seq<byte>,
    user: Option<User>)

  /** `response.content`: the body bytes, or the message of the
      `AttributeError` raised by a response without a `content` attribute. */
  datatype Content = Body(bytes: seq<byte>) | NoContentAttribute(message: string)

  datatype HttpResponse = HttpResponse(statusCode: int, content: Content)

  /** What the next handler did: returned a response, or raised. */
  datatype HandlerOutcome = Returned(response: HttpResponse) | Raised(exception: string)

  /** The exceptions that can interrupt the capture of one record, in the
      order the middleware can meet them. */
  datatype Failure =
    | BadContentLength(raw: string)   // `int(CONTENT_LENGTH)` raised `ValueError`
    | NoContent(message: string)      // a status >= 400 response has no `content`
    | HostNotAllowed(message: string) // `get_host()` raised `DisallowedHost`
    | EnqueueRaised(message: string)  // `log_request` itself raised

  datatype Result<T> = Ok(value: T) | Err(failure: Failure)

  const FORWARDED_FOR := "HTTP_X_FORWARDED_FOR"
  const REMOTE_ADDR := "REMOTE_ADDR"
  const CONTENT_LENGTH := "CONTENT_LENGTH"
  const USER_AGENT := "HTTP_USER_AGENT"

  // ---------------------------------------------------------------------------
  // Field derivation

  /** `get_client_ip`: a non-empty forwarded-for header wins, and the address
      is its text up to the first comma, as it stands (nothing is trimmed);
      otherwise the peer address, which may be absent. */
  function ClientIp(meta: map<string, string>): (ip: Option<string>)
    ensures var xff := GetOr(meta, FORWARDED_FOR, "");
            && (xff != "" ==> ip.Some? && ip.value <= xff && ',' !in ip.value
                              && (|ip.value| < |xff| ==> xff[|ip.value|] == ','))
            && (xff == "" ==> ip == Get(meta, REMOTE_ADDR))
  {
    var xff := Get(meta, FORWARDED_FOR);
    if xff.Some? && xff.value != "" then Some(Before(xff.value, ','))
    else Get(meta, REMOTE_ADDR)
  }

  /** The first entry of a forwarded-for list is the client address, whatever
      follows the first comma and whatever the peer address is. */
  lemma ClientIpFirstHop(meta: map<string, string>, first: string, rest: string)
    requires ',' !in first
    ensures ClientIp(meta[FORWARDED_FOR := first + [','] + rest]) == Some(first)
  {
    SplitJoin(first, rest, ',');
  }

  /** Without a forwarded-for header (or with an empty one) the address is
      the peer address, and there is none when the peer address is absent. */
  lemma ClientIpFallback(meta: map<string, string>)
    requires GetOr(meta, FORWARDED_FOR, "") == ""
    ensures ClientIp(meta).Some? <==> REMOTE_ADDR in meta
    ensures REMOTE_ADDR in meta ==> ClientIp(meta) == Some(meta[REMOTE_ADDR])
  {
  }

  /** numenor_monitor/tests.py:307-312: the peer address alone. */
  lemma ClientIpPeerExample()
    ensures ClientIp(map[REMOTE_ADDR := "192.168.1.1"]) == Some("192.168.1.1")
  {
  }

  /** numenor_monitor/tests.py:314-319: the first entry of the forwarded-for
      list wins over the test client's peer address. */
  lemma ClientIpForwardedExample()
    ensures ClientIp(map[REMOTE_ADDR := "127.0.0.1", FORWARDED_FOR := "10.0.0.1, 192.168.1.1"])
            == Some("10.0.0.1")
  {
    var first, rest := "10.0.0.1", " 192.168.1.1";
    assert first + [','] + rest == "10.0.0.1, 192.168.1.1";
    SplitJoin(first, rest, ',');
  }

  /** A forwarded-for header that starts with a comma gives the empty
      address: the first entry is taken as it stands. */
  lemma ClientIpEmptyFirstEntry(meta: map<string, string>, rest: string)
    ensures ClientIp(meta[FORWARDED_FOR := [','] + rest]) == Some("")
  {
    assert [','] + rest == "" + [','] + rest;
    SplitJoin("", rest, ',');
  }

  /** numenor_monitor/tests.py:321-328: no address at all. */
  lemma ClientIpNoHeadersExample()
    ensures ClientIp(map[]) == None
  {
  }

  /** The request half of `_calculate_sizes`: a non-empty Content-Length
      header is parsed as `int()` does (and the capture fails when it is not
      an integer); without one the size is the length of the body. */
  function RequestSize(meta: map<string, string>, body: seq<byte>): (r: Result<int>)
    ensures var header := GetOr(meta, CONTENT_LENGTH, "");
            && (header == "" ==> r == Ok(|body|))
            && (header != "" && ParseInt(header).Some? ==> r == Ok(ParseInt(header).value))
            && (header != "" && ParseInt(header).None? ==> r == Err(BadContentLength(header)))
  {
    var header := Get(meta, CONTENT_LENGTH);
    if header.Some? && header.value != "" then
      match ParseInt(header.value)
      case Some(n) => Ok(n)
      case None => Err(BadContentLength(header.value))
    else Ok(|body|)
  }

  /** A header holding the decimal form of a number, padded with white space,
      gives back that number, whatever the body is. */
  lemma RequestSizeOfHeader(meta: map<string, string>, body: seq<byte>, n: int,
                            pre: string, post: string)
    requires forall i :: 0 <= i < |pre| ==> IsSpace(pre[i])
    requires forall i :: 0 <= i < |post| ==> IsSpace(post[i])
    ensures RequestSize(meta[CONTENT_LENGTH := pre + ShowInt(n) + post], body) == Ok(n)
  {
    ParseShowRoundTrip(n, pre, post);
    ShowIntShape(n);
  }

  /** `int()` does not skip the ASCII separators U+001C to U+001F: a header
      that starts with one fails the capture. */
  lemma RequestSizeRejectsSeparator(meta: map<string, string>, body: seq<byte>, sep: char, digits: string)
    requires 0x1C <= sep as int <= 0x1F
    ensures var header := [sep] + digits;
            RequestSize(meta[CONTENT_LENGTH := header], body) == Err(BadContentLength(header))
  {
    var header := [sep] + digits;
    assert !IsSpace(header[0]);
    assert TrimStart(header) == header;
    var t := Strip(header);
    assert t <= header && t != [] && t[0] == sep;
  }

  /** The response half of `_calculate_sizes`: the length of the content, or
      0 for a response without content. */
  function ResponseSize(response: HttpResponse): (n: nat)
    ensures response.content.Body? ==> n == |response.content.bytes|
    ensures response.content.NoContentAttribute? ==> n == 0
  {
    match response.content
    case Body(bytes) => |bytes|
    case NoContentAttribute(_) => 0
  }

  /** `_get_error_content`: for a status below 400 the empty text; otherwise
      the content decoded as UTF-8, or, when it is not UTF-8, the `b'...'`
      rendering of the bytes. A status >= 400 response without content makes
      the fallback raise too, and the capture fails. */
  function ErrorContent(response: HttpResponse): (r: Result<string>)
    ensures response.statusCode < 400 ==> r == Ok("")
    ensures response.statusCode >= 400 && response.content.NoContentAttribute? ==>
              r == Err(NoContent(response.content.message))
    ensures response.statusCode >= 400 && response.content.Body? ==>
              var b := response.content.bytes;
              && r.Ok?
              && (Decode(b).Some? ==> Encode(r.value) == b)
              && (Decode(b).None? ==> r.value == BytesRepr(b))
  {
    if response.statusCode >= 400 then
      match response.content
      case NoContentAttribute(message) => Err(NoContent(message))
      case Body(bytes) =>
        match Decode(bytes)
        case Some(text) => Ok(text)
        case None => Ok(BytesRepr(bytes))
    else Ok("")
  }

  /** An error body that is UTF-8 text is recorded as that text. */
  lemma ErrorContentOfText(status: int, text: string)
    requires status >= 400
    ensures ErrorContent(HttpResponse(status, Body(Encode(text)))) == Ok(text)
  {
    DecodeEncode(text);
  }

  /** Whatever the bytes of an error body, the recorded text determines them:
      either it encodes back to them, or it is their `b'...'` form, whose
      escapes read back to them. */
  lemma ErrorContentLossless(status: int, bytes: seq<byte>)
    requires status >= 400
    ensures var e := ErrorContent(HttpResponse(status, Body(bytes))).value;
            || Encode(e) == bytes
            || (|e| >= 3 && Unescape(e[2..|e| - 1]) == Some(bytes))
  {
    BytesReprRoundTrip(bytes);
  }

  /** The cases of numenor_monitor/tests.py:255-287: a 200 response records no
      error, a 404 response with body `Error` records `Error`. */
  lemma ErrorContentExamples()
    ensures ErrorContent(HttpResponse(200, Body([]))) == Ok("")
    ensures ErrorContent(HttpResponse(404, Body([0x45, 0x72, 0x72, 0x6F, 0x72]))) == Ok("Error")
  {
    ErrorContentOfText(404, "Error");
    assert Encode("Error") == [0x45, 0x72, 0x72, 0x6F, 0x72];
  }

  /** `_get_user_info`: the user and the username when there is an
      authenticated user; `(None, "")` otherwise (no user, or an anonymous
      one). */
  function UserInfo(user: Option<User>): (r: (Option<UserId>, string))
    ensures r.0.Some? <==> user.Some? && user.value.isAuthenticated
    ensures r.0.Some? ==> r.0.value == user.value.id && r.1 == user.value.username
    ensures r.0.None? ==> r.1 == ""
  {
    if user.Some? && user.value.isAuthenticated then (Some(user.value.id), user.value.username)
    else (None, "")
  }

  /** The record `__call__` hands to `log_request` for a request and the
      response the handler returned, with the clock read at `startAt` before
      the handler and at `endAt` after it. The steps that can fail run in the
      source's order: the request size, the error content, then `get_host()`;
      the first failure is the outcome. */
  function Capture(request: HttpRequest, response: HttpResponse, startAt: int, endAt: int): (r: Result<Request>)
    ensures RequestSize(request.meta, request.body).Err? ==> r == Err(RequestSize(request.meta, request.body).failure)
    ensures RequestSize(request.meta, request.body).Ok? && ErrorContent(response).Err? ==>
              r == Err(ErrorContent(response).failure)
    ensures RequestSize(request.meta, request.body).Ok? && ErrorContent(response).Ok? && request.host.Disallowed? ==>
              r == Err(HostNotAllowed(request.host.message))
    ensures r.Ok? <==> RequestSize(request.meta, request.body).Ok? && ErrorContent(response).Ok? && request.host.Valid?
    ensures r.Ok? ==> Captures(request, response, startAt, endAt, r.value)
  {
    match RequestSize(request.meta, request.body)
    case Err(f) => Err(f)
    case Ok(requestSize) =>
      match ErrorContent(response)
      case Err(f) => Err(f)
      case Ok(error) =>
        var (user, username) := UserInfo(request.user);
        match request.host
        case Disallowed(message) => Err(HostNotAllowed(message))
        case Valid(host) =>
          Ok(Request(request.scheme, host, request.path, request.query, request.httpMethod,
                     ClientIp(request.meta), GetOr(request.meta, USER_AGENT, ""), user, username,
                     startAt, Some(endAt), response.statusCode, error, requestSize,
                     ResponseSize(response)))
  }

  /** `record` is what the middleware derives from `request` and `response`:
      each column comes from the request, the response, the helpers above or
      the two clock readings. */
  ghost predicate Captures(request: HttpRequest, response: HttpResponse, startAt: int, endAt: int,
                           record: Request)
  {
    && request.host == Valid(record.host)
    && record.scheme == request.scheme && record.path == request.path
    && record.query == request.query && record.httpMethod == request.httpMethod
    && record.ipAddress == ClientIp(request.meta)
    && record.userAgent == GetOr(request.meta, USER_AGENT, "")
    && (record.user, record.username) == UserInfo(request.user)
    && record.startAt == startAt && record.endAt == Some(endAt)
    && record.statusCode == response.statusCode
    && ErrorContent(response) == Ok(record.error)
    && RequestSize(request.meta, request.body) == Ok(record.requestSize)
    && record.responseSize == ResponseSize(response)
  }

  /** The rendering of a captured record is the request's own URL. */
  lemma CaptureUrl(request: HttpRequest, response: HttpResponse, startAt: int, endAt: int)
    requires Capture(request, response, startAt, endAt).Ok?
    ensures Url(Capture(request, response, startAt, endAt).value)
         == request.scheme + "://" + request.host.name + request.path
            + (if request.query == "" then "" else "?" + request.query)
  {
  }

  /** A captured record carries an error text only for a status >= 400, and
      it carries a user only when that user is authenticated. */
  lemma CaptureErrorAndUser(request: HttpRequest, response: HttpResponse, startAt: int, endAt: int)
    requires Capture(request, response, startAt, endAt).Ok?
    ensures var record := Capture(request, response, startAt, endAt).value;
            && (record.error != "" ==> record.statusCode >= 400)
            && (record.user.Some? <==> request.user.Some? && request.user.value.isAuthenticated)
            && (record.user.None? ==> record.username == "")
  {
  }

  /** Which captured records have the shapes `Fits` states: the text columns
      within their lengths, a non-empty address, and a request size that is
      not negative. In particular a request without `X-Forwarded-For` and
      `REMOTE_ADDR`, one whose forwarded-for header starts with a comma, or
      one with a negative Content-Length, yields a record that does not fit. */
  lemma CaptureFits(request: HttpRequest, response: HttpResponse, startAt: int, endAt: int)
    requires Capture(request, response, startAt, endAt).Ok?
    ensures var record := Capture(request, response, startAt, endAt).value;
            Fits(record) <==>
              && |request.scheme| <= SCHEME_MAX_LENGTH
              && |request.host.name| <= HOST_MAX_LENGTH
              && |request.path| <= PATH_MAX_LENGTH
              && (request.httpMethod.Some? ==> |request.httpMethod.value| <= METHOD_MAX_LENGTH)
              && ClientIp(request.meta).Some? && ClientIp(request.meta).value != ""
              && |record.username| <= USERNAME_MAX_LENGTH
              && record.requestSize >= 0
  {
  }

  /** The request of numenor_monitor/tests.py:258-264 (a GET of `/test/` from
      the test client's address, no user, a 200 response without body) is
      captured with the empty error text, no user and sizes 0. */
  lemma CaptureExample(startAt: int, endAt: int)
    ensures var request := HttpRequest("http", Valid("testserver"), "/test/", "", Some("GET"),
                                       map[REMOTE_ADDR := "127.0.0.1"], [], None);
            Capture(request, HttpResponse(200, Body([])), startAt, endAt)
            == Ok(Request("http", "testserver", "/test/", "", Some("GET"), Some("127.0.0.1"), "",
                          None, "", startAt, Some(endAt), 200, "", 0, 0))
  {
    var meta := map[REMOTE_ADDR := "127.0.0.1"];
    assert FORWARDED_FOR !in meta && CONTENT_LENGTH !in meta && USER_AGENT !in meta;
  }

  /** Python renders the offending literal in an `int()` error with
      `%.200R`: its repr, cut after 200 characters. */
  const REPR_LIMIT := 200

  /** The repr of a header as the `int()` error shows it: quoted, and cut
      after `REPR_LIMIT` characters (the closing quote goes first). */
  function QuotedLiteral(raw: string): (q: string)
    ensures |q| == if |raw| + 2 <= REPR_LIMIT then |raw| + 2 else REPR_LIMIT
    ensures q <= "'" + raw + "'"
  {
    var full := "'" + raw + "'";
    if |full| <= REPR_LIMIT then full else full[..REPR_LIMIT]
  }

  /** What `__call__` writes to the error log for a failure. */
  function Describe(f: Failure): string {
    match f
    case BadContentLength(raw) => "invalid literal for int() with base 10: " + QuotedLiteral(raw)
    case NoContent(message) => message
    case HostNotAllowed(message) => message
    case EnqueueRaised(message) => message
  }

  /** A short header appears whole and quoted in the error; a long one is cut
      so that the literal takes exactly `REPR_LIMIT` characters. */
  lemma DescribeBadContentLength(raw: string)
    ensures var prefix := "invalid literal for int() with base 10: ";
            var d := Describe(BadContentLength(raw));
            && prefix <= d
            && (|raw| + 2 <= REPR_LIMIT ==> d == prefix + "'" + raw + "'")
            && (|raw| + 2 > REPR_LIMIT ==> |d| == |prefix| + REPR_LIMIT && d[|prefix|..] <= "'" + raw + "'")
  {
  }

  const LOG_PREFIX := "Error in RequestLoggingMiddleware: "

  /** The error line for a failure starts with the middleware's prefix and
      ends with the exception's text. */
  function LogLine(f: Failure): (line: string)
    ensures LOG_PREFIX <= line && line[|LOG_PREFIX|..] == Describe(f)
  {
    LOG_PREFIX + Describe(f)
  }

  /** The message asserted at numenor_monitor/tests.py:303-305. */
  lemma LogLineExample()
    ensures LogLine(EnqueueRaised("Logging error")) == "Error in RequestLoggingMiddleware: Logging error"
  {
  }

  class RequestLoggingMiddleware {
    /** The process-wide `request_logger`. */
    const logger: RequestLogger
    /** The next middleware or the view. */
    const getResponse: HttpRequest -> HandlerOutcome

    constructor (logger: RequestLogger, getResponse: HttpRequest -> HandlerOutcome)
      ensures this.logger == logger && this.getResponse == getResponse
    {
      this.logger := logger;
      this.getResponse := getResponse;
    }

    /** `__call__`. `startAt` and `endAt` are the clock readings before and
        after the handler; `enqueueFault` is the message of an exception
        `log_request` raises, if it raises. The handler's outcome is passed
        through untouched: a raised exception propagates and nothing is
        captured; a response is returned as it is, after at most one record
        joined the logger's queue or one error line was logged. */
    method Call(request: HttpRequest, startAt: int, endAt: int, enqueueFault: Option<string>)
      returns (outcome: HandlerOutcome, logged: Option<string>)
      modifies logger`queue
      ensures outcome == getResponse(request)
      ensures outcome.Raised? ==> logger.queue == old(logger.queue) && logged == None
      ensures outcome.Returned? ==>
                match Capture(request, outcome.response, startAt, endAt)
                case Err(f) => logger.queue == old(logger.queue) && logged == Some(LogLine(f))
                case Ok(record) =>
                  if enqueueFault.Some? then
                    logger.queue == old(logger.queue) && logged == Some(LogLine(EnqueueRaised(enqueueFault.value)))
                  else
                    logger.queue == old(logger.queue) + [record] && logged == None
    {
      outcome := getResponse(request);
      logged := None;
      if outcome.Returned? {
        var response := outcome.response;
        match Capture(request, response, startAt, endAt)
        case Err(f) =>
          logged := Some(LogLine(f));
        case Ok(r) =>
          if enqueueFault.Some? {
            logged := Some(LogLine(EnqueueRaised(enqueueFault.value)));
          } else {
            logger.LogRequest(r.scheme, r.host, r.path, r.query, r.httpMethod, r.ipAddress,
                              r.userAgent, r.user, r.username, r.startAt, r.endAt,
                              r.statusCode, r.error, r.requestSize, r.responseSize);
          }
      }
    }
  }
}
