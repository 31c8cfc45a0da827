# numenor-monitor: request logging, modelled in Dafny

numenor-monitor is a Django application that records one row per HTTP request:
its URL parts, the client address and user agent, the user, the two timestamps,
the status code, the error body of a failed response, and the request and
response sizes. Two parts of `numenor_monitor/middlewares.py` do the work:

- `RequestLoggingMiddleware` wraps every request. It calls the next handler
  and derives the record from the request and the response. It then hands the
  record to the process-wide `RequestLogger`, and returns the handler's
  response unchanged. Any exception raised while deriving or enqueueing the
  record becomes one error log line.
- `RequestLogger` keeps a FIFO queue of records and turns them into bulk
  inserts. `process_batch` drains the whole queue synchronously, one insert per
  `batch_size` records. The background worker pulls one record per iteration
  and flushes its batch on size or on time.

The model has these modules:

| file | module | what it holds |
|---|---|---|
| `records.dfy` | `Records` | The `Request` row (`numenor_monitor/models.py`). `Fits` states the column shapes it covers (lengths, nullability, a non-empty address, sizes). `Url` renders the record the way `__str__` does. |
| `storage.dfy` | `Storage` | The bulk-insert sink (`Request.objects.bulk_create`) as a class that logs every call and its outcome. `Attempted` is what was handed over; `Persisted` is what reached the table. |
| `batching.dfy` | `Batching` | The specification on values. `Chunks` says how a drain cuts the queue. `Step` is one worker iteration. The lemmas state conservation, order, chunk sizes, call counts and the batch bound. |
| `logger.dfy` | `Logger` | The `RequestLogger` class: `LogRequest`, `ProcessBatch` (with its drain loop), `FlushBatch` and `WorkerStep`. Each is proved against `Batching`. |
| `middleware.dfy` | `Middleware` | The request and response values the middleware reads. The field helpers are pure functions. `Capture` builds the record. `RequestLoggingMiddleware.Call` is `__call__`. |
| `text.dfy` | `Text` | The Python built-ins the helpers rely on: `str.split(",")[0]`, `int(str)`, `bytes.decode("utf-8")` and `str(bytes)`. Each has its round-trip lemma. |
| `wrappers.dfy`, `arith.dfy` | `Wrappers`, `Arith` | `Option`, dictionary lookup, and division facts. |

How the model treats the parts of the source that are not pure logic:

- **Clock.** It is a parameter: integer microseconds for `timezone.now()`,
  and integer seconds for `flush_interval`. The time trigger compares
  `now - last_flush > flush_interval * 1000000`.
- **Insert outcome.** Whether a bulk insert succeeds is not determined, so every
  proof holds for both outcomes. An insert is all or nothing.
- **Error log.** The log line is returned as a value.
- **Failing `log_request`.** The middleware method takes the exception it may
  raise as a parameter.

`get_client_ip` does not trim the first forwarded-for entry: `"10.0.0.1 , x"`
gives `"10.0.0.1 "`, and `",10.0.0.1"` gives the empty address. The model
follows the code.

Three consequences of the code are proved:

- A `batch_size` of 0 or less behaves like 1 (`ChunkSize`).
- `process_batch` does not catch a failing insert. The records of that chunk
  are lost, and the rest stay queued (`DrainFailed`).
- A captured record has the shapes `Fits` states only when a non-empty client
  address was found and the Content-Length is not negative (`CaptureFits`).

## Model

| member | source | states |
|---|---|---|
| Records.Fits | numenor_monitor/models.py:29-90 | the column shapes it covers: scheme at most 10, host at most 255, path at most 2048, method null or at most 10, a non-null, non-empty address (the address field stores `""` as NULL), username at most 150, sizes not negative |
| Records.Blank | numenor_monitor/models.py:41-90 | a row given only its required columns has empty text columns, null `method`, `user` and `end_at`, and sizes 0; it has the shapes `Fits` states exactly when scheme, host and path are within their lengths and the address is not empty |
| Records.Url | numenor_monitor/models.py:106-112 | `str(record)` starts with `scheme://host path`; it equals that exactly when the query is empty, and otherwise continues with `?` and the query |
| Records.UrlSplit | numenor_monitor/models.py:111-112 | with no `?` in the path, splitting the rendering after the host at the first `?` gives back the path and the query |
| Records.UrlWithoutQuery | numenor_monitor/tests.py:73 | the record `http`, `test.com`, `/path` with no query renders as `http://test.com/path` |
| Records.UrlWithQuery | numenor_monitor/tests.py:91 | the record `https`, `example.com`, `/search`, `q=test` renders as `https://example.com/search?q=test` |
| Text.Before | numenor_monitor/middlewares.py:241 | `s.split(sep)[0]` is a prefix of `s` without `sep`, and it is followed by `sep` whenever it is shorter than `s` |
| Text.After | numenor_monitor/middlewares.py:241 | what follows the first `sep`; the text before it, then `sep`, then the rest rebuild `s` |
| Text.SplitJoin | numenor_monitor/middlewares.py:241 | joining `a`, `sep` and `b` (with no `sep` in `a`) and splitting at the first `sep` gives back `a` and `b` |
| Text.TrimStart | numenor_monitor/middlewares.py:258 | the white space `int()` skips in front (ASCII `\t \n \v \f \r` and space, and non-ASCII white space, but not U+001C to U+001F): a suffix of the input, with only such characters removed and a non-space first character |
| Text.TrimEnd | numenor_monitor/middlewares.py:258 | the same white space skipped at the back: a prefix of the input, with only such characters removed and a non-space last character |
| Text.ParseInt | numenor_monitor/middlewares.py:258 | `int(s)` in base 10: the trimming of `TrimStart` and `TrimEnd`, an optional sign, then digit groups with single underscores between them; `None` where Python raises `ValueError` (its properties are stated by `ParseShowRoundTrip` and `RequestSizeRejectsSeparator`) |
| Text.ShowNatValue | numenor_monitor/middlewares.py:258 | the decimal rendering of a number is a digit string that `int()` accepts and reads back as that number |
| Text.ParseShowRoundTrip | numenor_monitor/middlewares.py:258 | `int()` of the decimal form of any integer, padded on either side with white space that `int()` skips (which excludes U+001C to U+001F), is that integer |
| Text.DecodeChar | numenor_monitor/middlewares.py:276 | a decoded character is encoded exactly by the bytes it consumed |
| Text.Decode | numenor_monitor/middlewares.py:276 | a successful UTF-8 decode yields text whose encoding is the input |
| Text.DecodeEncode | numenor_monitor/middlewares.py:276 | decoding the UTF-8 encoding of any text gives that text back |
| Text.BytesRepr | numenor_monitor/middlewares.py:278 | `str(bytes)` is `b`, a quote, the escaped bytes and the same quote, all in printable ASCII |
| Text.EscapeAllPrintable | numenor_monitor/middlewares.py:278 | every escaped byte renders as printable ASCII |
| Text.UnescapeEscapeAll | numenor_monitor/middlewares.py:278 | reading the escapes back gives the original bytes, whichever quote was chosen |
| Text.BytesReprRoundTrip | numenor_monitor/middlewares.py:278 | the body of `str(bytes)` between the quotes reads back to the bytes, so the rendering loses nothing |
| Storage.Sink.BulkCreate | numenor_monitor/middlewares.py:112 | one call to `bulk_create` with the given records is logged with its outcome; nothing else changes |
| Storage.PersistedAllSucceeded | numenor_monitor/middlewares.py:112-115 | when every insert succeeded, the table holds exactly the attempted records, in call order |
| Batching.ChunkSize | numenor_monitor/middlewares.py:111 | the batch length at which `len(batch) >= batch_size` fires is at least 1, and it is `batch_size` whenever that is at least 1 |
| Batching.Chunks | numenor_monitor/middlewares.py:107-115 | the reference cut of a drain: consecutive chunks of B records, the last holding the rest; there are none exactly when the queue is empty |
| Batching.ChunksFlatten | numenor_monitor/middlewares.py:107-115 | the chunks a drain inserts, put together in call order, are the queue |
| Batching.ChunkSizes | numenor_monitor/middlewares.py:110-115 | every chunk is non-empty and at most B long, and all but the last are exactly B long |
| Batching.ChunkCount | numenor_monitor/middlewares.py:110-115 | N records in chunks of B take ceil(N / B) calls, and 0 calls for an empty queue |
| Batching.LastChunkSize | numenor_monitor/middlewares.py:114-115 | the last chunk holds N mod B records, or B when B divides N |
| Batching.DrainAttempted | numenor_monitor/middlewares.py:107-115 | the records a drain hands to the sink are a prefix of the queue |
| Batching.DrainComplete | numenor_monitor/middlewares.py:107-115 | a drain that completes persists exactly the queue, in FIFO order, in ceil(N / B) calls of B records, except a last call with the rest; an empty queue makes no call |
| Batching.DrainFailed | numenor_monitor/middlewares.py:107-115 | a drain stopped by a failing insert lost exactly that call's chunk: the table holds what was attempted before it, and the chunk is non-empty and at most B long |
| Batching.PersistedFailedLast | numenor_monitor/middlewares.py:112 | when only the last insert failed, the table holds every attempted record except that call's records |
| Batching.Step | numenor_monitor/middlewares.py:127-141 | the reference definition of one worker iteration: take the oldest record, if any, into the batch and flush on size, then flush on time (its properties are the `Step…` lemmas below) |
| Batching.StepDequeuesFront | numenor_monitor/middlewares.py:129 | an iteration removes the oldest queued record, if there is one, and no other |
| Batching.FlushConserves | numenor_monitor/middlewares.py:143-152 | a flush moves the batch, as it is, to the sink's log and empties the batch |
| Batching.ReceiveConserves | numenor_monitor/middlewares.py:129-132 | taking a record and the size-triggered flush lose, duplicate and reorder no record |
| Batching.StepConserves | numenor_monitor/middlewares.py:127-141 | over one iteration, the records handed to the sink, then the batch, then the queue, form the same sequence as before; earlier calls are kept |
| Batching.StepFlushesWhen | numenor_monitor/middlewares.py:129-141 | an iteration inserts exactly when the size trigger fires on a fresh append, or the batch is non-empty and strictly more than `flush_interval` seconds passed; the insert gets that batch, and `last_flush` moves only on success |
| Batching.StepKeepsBatchSmall | numenor_monitor/middlewares.py:129-141 | a batch below the threshold stays below it after an iteration |
| Batching.StepInsertSize | numenor_monitor/middlewares.py:129-141 | every insert an iteration makes is non-empty and at most the threshold long |
| Batching.FailedFlushKeepsTimerArmed | numenor_monitor/middlewares.py:136-152 | after a failed flush on time, `last_flush` is unchanged and the batch is empty, so any later non-empty batch is due at once |
| Batching.RunConserves | numenor_monitor/middlewares.py:127-141 | over any number of iterations no record is lost or reordered, and the batch stays below the threshold |
| Batching.RunDrains | numenor_monitor/middlewares.py:127-134 | N iterations empty a queue of N records when nothing new arrives |
| Logger.RequestLogger.constructor | numenor_monitor/middlewares.py:24-36 | a new logger has an empty queue, the given thresholds (defaults 10 and 60) and `last_flush` at the clock reading |
| Logger.RequestLogger.LogRequest | numenor_monitor/middlewares.py:45-100 | the queue grows by exactly one record at its back, with every field as passed; earlier entries are unchanged |
| Logger.RequestLogger.ProcessBatch | numenor_monitor/middlewares.py:102-115 | the calls made are the queue's chunks, in order, until one fails; the records handed over, then what is still queued, are the old queue; on completion the queue is empty |
| Logger.RequestLogger.FlushBatch | numenor_monitor/middlewares.py:143-152 | one insert of the whole batch; the batch is emptied in place whatever the outcome; `last_flush` becomes `now` only on success |
| Logger.RequestLogger.WorkerStep | numenor_monitor/middlewares.py:127-141 | the new queue, batch, `last_flush` and sink log are `Step` of the old ones, and a batch below the threshold stays below it |
| Middleware.ClientIp | numenor_monitor/middlewares.py:239-244 | a non-empty forwarded-for header gives its untrimmed text up to the first comma; otherwise the `REMOTE_ADDR` value, or none |
| Middleware.ClientIpFirstHop | numenor_monitor/middlewares.py:239-241 | the first entry of a forwarded-for list is the address, whatever follows and whatever the peer address is |
| Middleware.ClientIpFallback | numenor_monitor/middlewares.py:242-243 | without a non-empty forwarded-for header, there is an address exactly when `REMOTE_ADDR` is present, and it is that value |
| Middleware.ClientIpPeerExample | numenor_monitor/tests.py:307-312 | `REMOTE_ADDR` `192.168.1.1` alone gives `192.168.1.1` |
| Middleware.ClientIpForwardedExample | numenor_monitor/tests.py:314-319 | forwarded-for `10.0.0.1, 192.168.1.1` gives `10.0.0.1` |
| Middleware.ClientIpEmptyFirstEntry | numenor_monitor/middlewares.py:239-241 | a forwarded-for header that starts with a comma gives the empty address |
| Middleware.ClientIpNoHeadersExample | numenor_monitor/tests.py:321-328 | with neither header there is no address |
| Middleware.RequestSize | numenor_monitor/middlewares.py:256-259 | a non-empty Content-Length is read by `int()`, and the capture fails when it is not an integer; without one, the body length |
| Middleware.RequestSizeOfHeader | numenor_monitor/middlewares.py:256-259 | a Content-Length holding the decimal form of a number, padded or not with white space that `int()` skips, gives that number whatever the body is |
| Middleware.RequestSizeRejectsSeparator | numenor_monitor/middlewares.py:256-259 | a Content-Length that starts with one of U+001C to U+001F fails the capture, since `int()` does not skip those characters |
| Middleware.ResponseSize | numenor_monitor/middlewares.py:260-262 | the content length, or 0 for a response without content |
| Middleware.ErrorContent | numenor_monitor/middlewares.py:265-279 | below 400 the empty text; otherwise the UTF-8 text of the body, its `b'...'` form when it is not UTF-8, or a failure when the response has no content |
| Middleware.ErrorContentOfText | numenor_monitor/middlewares.py:274-276 | an error body that is UTF-8 text is recorded as that text |
| Middleware.ErrorContentLossless | numenor_monitor/middlewares.py:274-278 | the recorded error text determines the body bytes: it encodes back to them, or its escapes read back to them |
| Middleware.ErrorContentExamples | numenor_monitor/tests.py:255-287 | a 200 response records no error; a 404 response with body `Error` records `Error` |
| Middleware.UserInfo | numenor_monitor/middlewares.py:281-296 | the user and username exactly when an authenticated user is present; otherwise no user and the empty name |
| Middleware.Capture | numenor_monitor/middlewares.py:196-221 | the first failure in source order (request size, error content, host) decides the error; otherwise the record takes each column from the request, the response, the helpers and the two clock readings |
| Middleware.CaptureUrl | numenor_monitor/middlewares.py:205-209 | a captured record renders as the request's own scheme, host, path and `?query` |
| Middleware.CaptureErrorAndUser | numenor_monitor/middlewares.py:202-203 | a captured error text implies a status of at least 400; a user is recorded exactly when authenticated, and otherwise the username is empty |
| Middleware.CaptureFits | numenor_monitor/middlewares.py:205-221 | a captured record has the shapes `Fits` states exactly when the text columns are within their lengths, a non-empty address was found and the request size is not negative |
| Middleware.CaptureExample | numenor_monitor/tests.py:255-264 | the test client's `GET /test/` with no user and an empty 200 response is captured with no error, no user and sizes 0 |
| Middleware.Describe | numenor_monitor/middlewares.py:222-224 | the text `str(e)` gives for each failure: the `int()` message with the quoted header, or the exception's own message (stated by `DescribeBadContentLength` and `LogLine`) |
| Middleware.QuotedLiteral | numenor_monitor/middlewares.py:258 | the quoted header in the `int()` error is a prefix of `'raw'`, whole when it fits in 200 characters and cut to exactly 200 otherwise |
| Middleware.DescribeBadContentLength | numenor_monitor/middlewares.py:222-224 | the logged text for a bad Content-Length is the `int()` message followed by the quoted header, whole when short and cut to 200 characters when long |
| Middleware.LogLine | numenor_monitor/middlewares.py:222-224 | the error line is the middleware's prefix followed by the exception's text |
| Middleware.LogLineExample | numenor_monitor/tests.py:289-305 | a `log_request` raising `Logging error` logs `Error in RequestLoggingMiddleware: Logging error` |
| Middleware.RequestLoggingMiddleware.constructor | numenor_monitor/middlewares.py:174-180 | the middleware keeps the handler it wraps and the logger it feeds |
| Middleware.RequestLoggingMiddleware.Call | numenor_monitor/middlewares.py:182-225 | returns the handler's outcome unchanged. A raising handler captures nothing. Otherwise exactly one of three things happens: the captured record joins the back of the logger's queue; the capture failure is logged; or the enqueue failure is logged with the queue unchanged |

## Left out

- The background thread, its daemon flag and the endless `while True` loop are left out because they are concurrency. `WorkerStep` is one loop iteration, and `Batching.Run` composes iterations on values.
- The thread safety of `queue.Queue` is left out. The queue is a sequence, and an empty queue in `WorkerStep` stands for `queue.get(timeout=1)` raising `queue.Empty`.
- `timezone.now()` and `datetime` arithmetic are not modelled. Times are integer microseconds, and `total_seconds()` becomes exact integer arithmetic, so the model has no floating-point rounding.
- Logger.RequestLogger.WorkerStep: one reading `now` stands for both clock reads of an iteration. These are the one compared at line 138 and the one stored by `_flush_batch` at line 148.
- `created_at`, `Meta.ordering` and the database ids are assigned by the database and are not modelled.
- `connection.ensure_connection()` is a database call and is not modelled.
- `Request(**item)` is not modelled: the queued dictionary and the constructed row are the same value.
- The log output of `_flush_batch` (line 151) is not modelled; only the outcome flag records the failure.
- The module-level `request_logger = RequestLogger(batch_size=50, flush_interval=5)` (line 155) is not modelled. The logger is a field of the middleware object and is set when it is constructed.
- Text.ParseInt: only ASCII digits are treated as digits. Python's `int()` also accepts other Unicode decimal digits, which are not modelled.
- Text.ParseInt: any number of digits is accepted. Python from 3.11 (and the 2022 security releases of 3.7 to 3.10) refuses a decimal string of more than 4300 digits with `ValueError`, which the capture would log. `Middleware.RequestSize`, `Text.ParseShowRoundTrip` and `Middleware.RequestSizeOfHeader` therefore claim a result for such headers where Python raises.
- Records.Fits: it states the lengths, nullability and sizes of the columns, and a non-empty address. The `ip_address` column is a `GenericIPAddressField`, and two of its constraints are not stated: that the value is an IP address, and Django's implicit width of 39 characters, which applies after IPv6 normalisation. So a 40-character entry, or `unknown`, has the shapes `Fits` states. Whether the database enforces them is not modelled; SQLite, for one, does not enforce `max_length`. Nothing connects `Fits` to the outcome of a bulk insert: `Storage.Sink.BulkCreate` succeeds or fails without looking at the records.
- Middleware.CaptureFits: it characterises the shapes `Fits` states, so it inherits what `Fits` leaves out: the address column's IP form and its width of 39 after IPv6 normalisation.
- Middleware.Describe: the text for a bad Content-Length quotes the raw header with single quotes, cut after 200 characters as `%.200R` does. Python's `repr` would switch quotes or escape characters for some headers, and that is not modelled, so the cut can fall at a different place for such headers.
- Middleware.Describe: the texts of `AttributeError` and `DisallowedHost` are carried as messages in the request and response values; they are not generated.
- `request.body` raising (for example, a body read twice, or one over the upload limit) is not modelled. The body is a byte sequence.
- `request.GET.urlencode()` is not modelled. The query is the already encoded string.
- A handler that returns something other than a response (such as `None`) cannot be expressed. In the source, reading `status_code` from it raises inside the `try`, and the error is logged.
- An exception raised by `get_response` propagates unchanged. The model keeps its message but does not model where it comes from.
- `numenor_monitor/admin.py` is out of scope: it is admin display configuration.
- `project/test_views.py` and `project/urls.py` are out of scope: they are demo views and URL routing.
