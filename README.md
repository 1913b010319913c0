# Azure Functions HTTP redirector, modelled in Dafny

The redirector is one Python module, `function/function_app.py`. It is a small
Azure Functions app with three HTTP routes:

- `get` is relayed as a `GET` to a fixed teamserver URL.
- `post` is relayed as a `POST`, with the request body, to a fixed teamserver URL.
- `web` and `web/{*path}` are relayed to a general web server. They keep the
  HTTP method, the body (except for `GET`), the query string and the extra path.

For every relayed request the handler does the following:

- It finds the real client address. The first non-empty one of
  `X-Forwarded-For`, `X-Client-IP` and `X-Real-IP` is used, and otherwise
  `REMOTE_ADDR`. The address is validated against an IPv4/IPv6-shaped pattern,
  after any port is cut off.
- It removes hop-by-hop headers, `Content-Length` and `Host`, and sets
  `X-Forwarded-For` to the validated address.
- It sends the request with a route-specific timeout.
- It relays the answer with its hop-by-hop headers removed. An upstream HTTP
  error is relayed as it came. An unreachable upstream gives 502, and anything
  else gives 500.

The project models this core as follows:

| file | module | contents |
|---|---|---|
| `wrappers.dfy` | `Wrappers` | `Option` |
| `text.dfy` | `Text` | the `str` operations the code uses (`lower`, `upper`, `capitalize`, `strip`, `lstrip`, `rstrip`, `split`), on ASCII |
| `headers.dfy` | `Headers` | header dicts (`dict` assignment, case-insensitive `get`, the two ways `dict(...)` is built from upstream headers) and the two sanitisers |
| `client_ip.dfy` | `ClientAddress` | `sanitize_ip`, with its regular expression modelled exactly, and `get_real_client_ip` |
| `urlencode.dfy` | `UrlEncoding` | `urllib.parse.urlencode` with `quote_plus`, down to UTF-8 percent-escapes, and its inverse |
| `settings.dfy` | `Settings` | the environment-driven configuration and `build_ssl_context` |
| `forwarding.dfy` | `Forwarding` | outbound request construction, the `try`/`except` classification of upstream outcomes, and the four route handlers with `_forward_web` |

These choices shape the model:

- **Dicts.** A Python `dict` of header names is a sequence of pairs with
  distinct names, in insertion order (`Headers.IsDict`). `d[k] = v`
  (`Headers.Set`) overwrites in place or appends. Names are case-sensitive in
  the dict itself. Only the policies compare names in lower case.
- **Two ways of building a dict.** The code builds response header dicts in two
  different ways, and the model keeps both.
  - `dict(response.getheaders())` keeps the *last* value of a repeated name
    (`Headers.DictFromItems`).
  - `dict(e.headers)` for an `HTTPError` goes through `email.message.Message`.
    That lists every name for `keys()` but answers `msg[name]` with the *first*
    header of that name in any case (`Headers.MessageDict`).
- **Request headers.** `req.headers.get(...)` is a case-insensitive lookup of the
  first matching entry (`Headers.GetIgnoringCase`).
- **Upstream call.** Sending (`urlopen` plus reading the response) is a function
  parameter `upstream: OutboundRequest -> Upstream`. For each request it says
  whether a response came back or which exception was raised. The handlers are
  methods that build the request step by step, as the code does, and then relay
  `upstream(sent)`.
- **Exceptions.** The order of the `except` clauses matters, because `HTTPError`
  is a subclass of `URLError`. This is modelled as a first-match search over the
  clause classes (`Forwarding.FirstMatchingClause`).
- **Environment.** The process environment is a `map<string, string>` argument
  of `Settings.FromEnvironment`.

Some behaviours of the code are easy to miss:

- The `get` and `post` routes are declared without a method restriction, so
  they answer any inbound method. `get_teamserver` always sends `GET`, and
  `post_teamserver` always sends `POST` with the body.
- A timeout while connecting or while sending the request is wrapped by
  urllib in a `URLError` and reaches that clause (502). A timeout while
  reading the response is a `TimeoutError`, which is not a `URLError`, so it
  gives 500. In the model this is the `OtherError` outcome.
- The IPv4 alternative does no range check on the octets. The address pattern
  also accepts a value ending in a newline, because `$` matches before a final
  newline (`ClientAddress.TrailingNewlineIsKept`).
- When no valid client address is found, `X-Forwarded-For` is not set. Any
  `X-Forwarded-For` the client sent is then forwarded unchanged
  (`Forwarding.OutboundForwardedFor`).

## Model

| member | source | states |
|---|---|---|
| Settings.FromEnvironment | function/function_app.py:26-36 | each of the three URLs and three route names is the environment value when its variable is set and its own default (the placeholder URLs, `get`, `post`, `web`) when it is not; insecure TLS is on exactly when `ALLOW_INSECURE_SSL` is set to one of the flag words |
| Settings.DefaultConfiguration | function/function_app.py:26-36 | with an empty environment every setting takes its default (the three URLs, routes `get`/`post`/`web`) and insecure TLS is off |
| Settings.IsInsecureFlag | function/function_app.py:33 | the flag is on exactly when the value equals `1`, `true` or `yes` ignoring case, character by character |
| Settings.EnvOr | function/function_app.py:26-36 | `os.environ.get(name, default)`: the value when the name is set, the default otherwise |
| Settings.BuildSslContext | function/function_app.py:102-108 | a context exists exactly when insecure TLS is allowed, and it then checks neither the host name nor the certificate |
| Headers.Lookup | function/function_app.py:94 | present exactly when the name occurs, and then its value is that of an entry with that name |
| Headers.Set | function/function_app.py:94 | `d[k] = v`: `k` now maps to `v`, every other name keeps its value, the dict stays a dict, a new name is appended and an existing one keeps its place |
| Headers.GetIgnoringCase | function/function_app.py:68-70 | a value exactly when some name matches in lower case, and then the value of the first such entry |
| Headers.DictFromItems | function/function_app.py:126 | `dict(response.getheaders())` is a dict answering every name with the value of its last pair |
| Headers.MessageDict | function/function_app.py:131 | `dict(e.headers)` is a dict answering each listed name with the value of the first header matching it in any case, and nothing else |
| Headers.MessageDictUpToLookup | function/function_app.py:131 | after the first `n` names, a name is answered exactly when it is among them, with its first case-insensitive match |
| Headers.Filter | function/function_app.py:85-95 | the entry-by-entry filter: never longer than its input, and no surviving name is dropped once lower-cased |
| Headers.RequestDropped | function/function_app.py:38-47 | the names the request policy drops: every hop-by-hop name and `content-length`, and `host` exactly when `drop_host` is set |
| Headers.FilterContents | function/function_app.py:85-95 | filtering keeps exactly the entries whose lower-cased name is not dropped |
| Headers.FilterSubsequence | function/function_app.py:85-95 | filtering keeps the surviving entries in their original order |
| Headers.FilterDict | function/function_app.py:84-95 | filtering a dict gives a dict |
| Headers.FilterLookup | function/function_app.py:85-95 | filtering a dict answers every undropped name as before and every dropped name with nothing |
| Headers.FilterIdempotent | function/function_app.py:85-99 | filtering twice is filtering once |
| Headers.SanitizeRequestHeaders | function/function_app.py:79-95 | the loop's result is the filter with hop-by-hop names, `content-length` and (with `drop_host`) `host` dropped; it is a dict and a subsequence of the input; every kept entry came from the input; every input entry with an undropped name is kept |
| Headers.SanitizeResponseHeaders | function/function_app.py:98-99 | exactly the entries without a hop-by-hop name survive, in order, and a dict stays a dict |
| Headers.SanitizeResponseLookup | function/function_app.py:98-99 | the sanitised dict answers every name as before except hop-by-hop names |
| Headers.SanitizeResponseHeadersIdempotent | function/function_app.py:98-99 | sanitising a response twice is sanitising it once |
| Headers.ResponseKeepsHostAndContentLength | function/function_app.py:98-99 | `Host` and `Content-Length` are never removed from a response |
| Headers.RequestDropHostOnly | function/function_app.py:89-90 | `drop_host` changes the outcome only for `host` |
| Text.StripSpace | function/function_app.py:73 | `strip()` is the infix that neither starts nor ends with white space and is surrounded only by white space |
| Text.StripSpaceUnchanged | function/function_app.py:73 | a value that neither starts nor ends with white space is unchanged by `strip()` |
| Text.Split | function/function_app.py:57 | `split(c)` has at least one part, the first part is the text before the first `c`, and no part contains `c` |
| Text.JoinSplit | function/function_app.py:57 | joining the parts of `split(c)` with `c` gives the text back, so no character is lost or added |
| Text.SplitJoin | function/function_app.py:57 | splitting a join of parts without the separator gives the parts back |
| Text.Before | function/function_app.py:57 | the prefix up to the first `c`, which holds no `c` and is followed by `c` when shorter than the input |
| Text.LStrip | function/function_app.py:190 | `lstrip(c)` removes exactly the leading `c`s: the result is a suffix that does not start with `c` |
| Text.RStrip | function/function_app.py:188 | `rstrip(c)` removes exactly the trailing `c`s: the result is a prefix that does not end with `c` |
| Text.Lower | function/function_app.py:86 | `lower()` keeps the length and lower-cases each ASCII letter in place |
| Text.Upper | function/function_app.py:199 | `upper()` keeps the length and upper-cases each ASCII letter in place |
| Text.Capitalize | function/function_app.py:121 | `capitalize()`, as `Request` applies it to header names: same length, the first character upper case and the rest lower case |
| Text.CapitalizeIgnoresCase | function/function_app.py:121 | names that differ only in case capitalise to the same name |
| ClientAddress.SanitizeIp | function/function_app.py:50-61 | accepted exactly when the text before the first `:` matches the address pattern, and then the result is that text: non-empty, without `:` or `,` |
| ClientAddress.IpPatternMatches | function/function_app.py:54 | the whole pattern: either alternative matches all of the text, or all of it but a final newline |
| ClientAddress.IsDottedQuad | function/function_app.py:54 | the first alternative: four groups of one to three digits separated by dots |
| ClientAddress.IsHexRun | function/function_app.py:54 | the second alternative: one or more characters of `[a-fA-F0-9:]` |
| ClientAddress.SanitizeIpAccepts | function/function_app.py:54-60 | on input without a newline the accepted values are exactly dotted quads of 1-3 digit groups and non-empty hex runs |
| ClientAddress.DigitGroupsAsFields | function/function_app.py:54 | the dotted-quad alternative holds exactly when splitting on `.` gives the required number of fields of 1-3 digits |
| ClientAddress.DottedQuadAsFields | function/function_app.py:54 | an address is a dotted quad exactly when it splits on `.` into four fields of 1-3 digits |
| ClientAddress.PatternExcludesComma | function/function_app.py:54 | a value the pattern accepts is non-empty and holds no comma |
| ClientAddress.DottedQuadIsKept | function/function_app.py:56-60 | a dotted quad is returned unchanged |
| ClientAddress.DottedQuadWithPort | function/function_app.py:56-60 | a dotted quad followed by `:` and any port yields the quad |
| ClientAddress.Ipv6KeepsFirstGroup | function/function_app.py:56-60 | an IPv6 address keeps only its first group, because everything from the first colon is cut |
| ClientAddress.LeadingColonIsRejected | function/function_app.py:56-60 | an address starting with `:` (such as `::1`) is rejected |
| ClientAddress.FirstCharIsRejected | function/function_app.py:54-61 | an address starting with a character outside `[a-fA-F0-9:]` is rejected |
| ClientAddress.AnyDigitGroupsAreKept | function/function_app.py:54 | any four groups of 1-3 digits are accepted, with no range check |
| ClientAddress.TrailingNewlineIsKept | function/function_app.py:54-60 | a dotted quad followed by a newline is accepted and returned with the newline |
| ClientAddress.PortIsCutOff | function/function_app.py:56-60 | `10.0.0.5:9999` yields `10.0.0.5` |
| ClientAddress.Ipv6IsTruncated | function/function_app.py:56-60 | `2001:db8::1` yields `2001` |
| ClientAddress.LoopbackIpv6IsRejected | function/function_app.py:56-61 | `::1` is rejected |
| ClientAddress.WordIsRejected | function/function_app.py:59-61 | `not-an-ip` is rejected |
| ClientAddress.NinesAreKept | function/function_app.py:54 | `999.999.999.999` is accepted |
| ClientAddress.Truthy | function/function_app.py:67-72 | Python truthiness of an optional string: `None` and `""` are false |
| ClientAddress.Or | function/function_app.py:67-71 | `a or b`: truthy exactly when either is, `a` when `a` is truthy, and always one of the two |
| ClientAddress.FirstField | function/function_app.py:73 | the candidate from one header value: no comma, no white space at either end, never longer than the value |
| ClientAddress.GetRealClientIp | function/function_app.py:63-76 | any address found matches the pattern, is non-empty and holds no `:` |
| ClientAddress.ClientIpPrecedence | function/function_app.py:67-76 | the first non-empty one of `X-Forwarded-For`, `X-Client-IP`, `X-Real-IP` decides through its stripped first field; `REMOTE_ADDR` (default empty) only when none is non-empty |
| ClientAddress.NoFallthroughAfterInvalid | function/function_app.py:67-74 | an invalid non-empty `X-Forwarded-For` yields no address, whatever the other headers hold |
| ClientAddress.FirstFieldOfClean | function/function_app.py:73 | a value without commas or surrounding white space is its own first field |
| ClientAddress.ForwardedListTakesFirst | function/function_app.py:67-74 | with `X-Forwarded-For: a,rest` and `a` a dotted quad, the address is `a` |
| ClientAddress.RealIpWithPort | function/function_app.py:67-74 | with only `X-Real-IP` set to a dotted quad and a port, the address is the quad |
| UrlEncoding.HexDigit | function/function_app.py:193 | the digit of a `%XX` escape: a hex digit with the given value, never a lower-case letter |
| UrlEncoding.QuoteChar | function/function_app.py:193 | one character of `quote_plus`: 1 to 12 characters, and the character itself exactly when it is unreserved |
| UrlEncoding.QuotePlus | function/function_app.py:193 | `quote_plus(s)`: at least one and at most twelve characters for each character of `s` |
| UrlEncoding.UnquotePlus | function/function_app.py:193 | urllib's `unquote_plus` on bytes, the inverse `UrlEncoding.UnquoteQuotePlus` proves |
| UrlEncoding.DecodeQuery | function/function_app.py:193 | the decoding this module defines (split on `&`, then on `=`, `unquote_plus` each side), which `UrlEncoding.UrlEncodeRoundTrip` proves inverts `urlencode`; on encoded text it agrees with `parse_qsl(..., keep_blank_values=True)` |
| UrlEncoding.Utf8 | function/function_app.py:193 | a character becomes one byte below U+0080, otherwise a lead byte followed by continuation bytes, 1 to 4 bytes in all |
| UrlEncoding.Utf8Decodes | function/function_app.py:193 | the scalar value is read back from its bytes |
| UrlEncoding.Utf8Injective | function/function_app.py:193 | different characters have different bytes |
| UrlEncoding.PercentByte | function/function_app.py:193 | `%XX` with two hex digits whose value is the byte |
| UrlEncoding.QuotePlusAlphabet | function/function_app.py:193 | encoded text holds only unreserved characters, `+` and `%` |
| UrlEncoding.QuotedHasNoSeparators | function/function_app.py:193 | encoded text holds no `&` and no `=` |
| UrlEncoding.QuotePlusUnreserved | function/function_app.py:193 | text of unreserved characters is left unchanged |
| UrlEncoding.QuoteSpaceAndSeparators | function/function_app.py:193 | a space becomes `+`, `&` becomes `%26` and `=` becomes `%3D` |
| UrlEncoding.QuoteNonAscii | function/function_app.py:193 | U+00E9 becomes `%C3%A9` |
| UrlEncoding.UnquoteQuotePlus | function/function_app.py:193 | decoding an encoded string gives back its UTF-8 bytes |
| UrlEncoding.EncodePair | function/function_app.py:193 | an encoded parameter always holds `=` |
| UrlEncoding.EncodePairs | function/function_app.py:193 | one encoded pair per parameter, in order |
| UrlEncoding.UrlEncode | function/function_app.py:193-195 | the query is empty exactly when there are no parameters |
| UrlEncoding.DecodePair | function/function_app.py:193 | an encoded pair splits on `=` into exactly the encoded key and value |
| UrlEncoding.UrlEncodeRoundTrip | function/function_app.py:193 | decoding the query gives back every parameter, in order, as the UTF-8 bytes of its key and value |
| Forwarding.IsInstance | function/function_app.py:129-137 | `isinstance` for the three classes: an `HTTPError` is a `URLError`, and every error is an `Exception` |
| Forwarding.Handle | function/function_app.py:129-137 | the body of each `except` clause: the upstream error relayed, 502 or 500 |
| Forwarding.BadGateway | function/function_app.py:132-134 | status 502 with the text `Bad Gateway` and no headers |
| Forwarding.InternalServerError | function/function_app.py:135-137 | status 500 with the text `Internal Server Error` and no headers |
| Forwarding.FirstMatchingClause | function/function_app.py:129-137 | the index of the first clause whose class the exception is an instance of, with no earlier one matching |
| Forwarding.EveryErrorIsCaught | function/function_app.py:129-137 | every exception is caught; an `HTTPError` by the first clause, another `URLError` by the second |
| Forwarding.ClauseOrderMatters | function/function_app.py:129-134 | an `HTTPError` is a `URLError`; with the clauses swapped it would become a 502, as written it keeps its code |
| Forwarding.Relay | function/function_app.py:123-137 | the returned headers are a dict that never holds a hop-by-hop name |
| Forwarding.RelayReturned | function/function_app.py:124-128 | a response is relayed with its status and body, each header name answered with its last value unless hop-by-hop |
| Forwarding.RelayHttpError | function/function_app.py:129-131 | an upstream HTTP error is relayed with its code and body, each name answered with its first case-insensitive value unless hop-by-hop |
| Forwarding.RelayUrlError | function/function_app.py:132-134 | an unreachable upstream gives 502 `Bad Gateway` with no headers |
| Forwarding.RelayOtherError | function/function_app.py:135-137 | any other exception gives 500 `Internal Server Error` with no headers |
| Forwarding.OutboundHeaders | function/function_app.py:115-119 | the outbound headers form a dict |
| Forwarding.OutboundForwardedFor | function/function_app.py:115-119 | `X-Forwarded-For` is the validated address when there is one, and otherwise whatever the client sent under that exact name |
| Forwarding.OutboundOtherName | function/function_app.py:117 | every other name is dropped by the request policy or forwarded unchanged |
| Forwarding.OutboundHeadersExclusions | function/function_app.py:115-119 | no outbound header has a hop-by-hop name, `content-length` or `host` |
| Forwarding.WithClientIp | function/function_app.py:118-119 | `X-Forwarded-For` becomes the address when one was found and is otherwise as before; every other name is unchanged and a dict stays a dict |
| Forwarding.ForwardedForIsKept | function/function_app.py:117-119 | the request policy never drops `X-Forwarded-For` |
| Forwarding.LowerCaseForwardedForIsKept | function/function_app.py:117-119 | a client's lower-case `x-forwarded-for` is a different key and is forwarded unchanged |
| Forwarding.ClientIpTruthy | function/function_app.py:118 | `if client_ip:` holds exactly when an address was found |
| Forwarding.CapitalizeNames | function/function_app.py:121 | the names as `urllib.request.Request` stores them, capitalised, in order |
| Forwarding.WireHeaders | function/function_app.py:121 | the headers the `Request` holds are a dict answering each capitalised name with its last value |
| Forwarding.SpellingsMerge | function/function_app.py:121 | two spellings of one name become one capitalised entry holding the later value |
| Forwarding.ForwardedForOnTheWire | function/function_app.py:115-121 | with lower-case inbound names, the `Request` holds the validated address under the capitalised `X-forwarded-for` |
| Forwarding.CapitalNameIsNew | function/function_app.py:117-119 | among lower-case names, one starting with a capital letter is never present |
| Forwarding.PrepareHeaders | function/function_app.py:115-119 | the step-by-step header preparation computes the outbound headers |
| Forwarding.WebBase | function/function_app.py:188-190 | without a path, a prefix of the server URL whose cut-off rest is all slashes and which does not end in a slash; with a path, such a prefix, one slash, and a suffix of the path whose cut-off start is all slashes and which does not start with a slash |
| Forwarding.WebBaseSingleSlash | function/function_app.py:188-190 | exactly one slash separates the server URL from the path |
| Forwarding.TargetUrl | function/function_app.py:188-195 | without parameters the URL is the base alone; with parameters it is the base, `?` and a query that decodes back to the parameters |
| Forwarding.TargetUrlExample | function/function_app.py:188-195 | `http://example.com/` with path `/foo` and `a=1` gives `http://example.com/foo?a=1` |
| Forwarding.WebData | function/function_app.py:199 | no body exactly when the method is `GET` in any case, and otherwise the request body |
| Forwarding.UpperIsCaseInsensitive | function/function_app.py:199 | `upper() == "GET"` holds exactly when the method equals `GET` ignoring case |
| Forwarding.RoutePath | function/function_app.py:233 | the `path` route parameter, or empty when it or the route parameters are missing |
| Forwarding.GetTeamserver | function/function_app.py:110-137 | a `GET` without body to the GET URL, with the outbound headers, a 10 s timeout and no TLS context, whose outcome is relayed |
| Forwarding.PostTeamserver | function/function_app.py:140-171 | a `POST` of the request body to the POST URL, with the outbound headers, a 15 s timeout and no TLS context, whose outcome is relayed |
| Forwarding.ForwardWeb | function/function_app.py:174-223 | the request's method to the target URL, the body unless `GET`, the outbound headers, a 20 s timeout and the configured TLS context, whose outcome is relayed |
| Forwarding.WebServer | function/function_app.py:226-228 | forwards to the web server with no extra path |
| Forwarding.WebServerWildcard | function/function_app.py:231-234 | forwards to the web server with the captured path appended |

## Left out

- The Azure Functions runtime: app creation, the `@app.route` decorators, the
  `api/` route prefix and routing itself. The handlers are plain methods, and
  which route reaches which handler is not modelled.
- Reading the environment. The configuration is a function of a map; when it
  is read (once, at import) is not modelled.
- The network. Sending, TLS handshakes, timeouts and reading the response are
  the `upstream` parameter. Only the timeout value and the TLS context passed
  are modelled.
- `ssl.create_default_context()`: only the two settings the code changes are
  modelled (host-name checking and certificate verification).
- What `urlopen` adds on the way out. `Forwarding.WireHeaders` is what the
  `Request` holds; urllib's `do_open` then adds `Host` and `User-Agent` (and,
  for a request with a body, `Content-Type` and `Content-Length` or
  `Transfer-Encoding: chunked`), forces `Connection: close` and title-cases
  every name. None of that is modelled.
- An exception raised by `e.read()` inside the `HTTPError` clause escapes the
  handler. The model's `HttpError` carries a body that was read in full.
- Logging.
- How `func.HttpResponse` is serialised. A text body is kept as text
  (`Forwarding.Body.Str`) and is not encoded. The default mimetype and the host's
  normalisation of response header names are not modelled.
- The host's lower-casing of inbound header names is not assumed, except
  where `Forwarding.ForwardedForOnTheWire` states it as a precondition.
- Exceptions raised outside the `try` blocks are not modelled. Examples are
  `urllib.request.Request` rejecting a URL without a scheme, or a string that
  cannot be encoded. The host turns them into an error response of its own.
- Unicode case mapping and white space: `lower`, `upper`, `capitalize` and
  `strip` are modelled on ASCII only. Dafny strings hold Unicode scalar values,
  so lone surrogates cannot occur.
- The full regular-expression engine. Only the one pattern in the code is
  modelled, alternative by alternative.
- Text.Lower: non-ASCII letters are left as they are, which is weaker than
  Python's Unicode `str.lower`.
- UrlEncoding.UnquotePlus: the inverse is stated down to bytes. Turning those
  bytes back into text (UTF-8 decoding with replacement) is not modelled.
