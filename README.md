# tor-socks-proxy routing core, modelled in Dafny

The system is an HTTP proxy that sends each request through a Tor process chosen by the
requested exit country. A request names its region in one of three ways:

- a `tor_exit` query parameter, which is removed before forwarding;
- the user name of its Basic `Proxy-Authorization` credentials;
- for CONNECT only, an `x-tor-exit-country` header.

Requests without a valid region go to the default Tor instance. The first request for a
country starts a dedicated Tor process on a freshly allocated SOCKS port. Concurrent requests
for the same country share that one creation. A process counts as ready once its output
shows `Bootstrapped 100%`.

The model has five modules:

- `Wrappers` (wrappers.dfy): the `Option` type.
- `JsText` (js_text.dfy): the JavaScript string built-ins the core relies on. These are
  `trim` with the ECMAScript white-space set, `toLowerCase`, `indexOf`, `slice` with
  negative indices, `includes`, and `parseInt(s, 10)`, with `NaN` as `None`.
- `TorManager` (tor_manager.dfy) models:
  - `normalizeCountryCode`;
  - the registry class `TorManager` with `ensureDefault`, `_allocatePort`, the two
    synchronous segments of `getSocksPortForRequest`, and `shutdown`;
  - a three-request scenario.
- `TorBootstrap` (tor_bootstrap.dfy): the readiness check of `waitForTorBootstrap`, as a
  function of the sequence of process events.
- `Proxy` (proxy.dfy) models:
  - `getBasicAuthUsername` and `getCountryFromConnectHeaders`;
  - `stripExitParam` over the query as a list of name-value pairs;
  - the hint priority of both modes and the CONNECT target parse;
  - header filtering and the health probe, as the plain-forward handler's plan.

`getSocksPortForRequest` is an async function. Its first `await` splits it into two atomic
segments:

- `ResolvePort` is everything up to registering the creation. This includes the synchronous
  port allocation at the start of `_createCountryInstance`.
- `FinishCreation` is the creator's continuation: it stores the instance and removes the
  pending entry.

A caller that joined a creation in flight receives the creation's result, success or failure.
`SameRegionConverges` and `SameRegionFailureShared` show both outcomes. Any interleaving
of requests is a sequence of calls to these two methods, and `TorManager.Valid` holds across
each of them.

Parameters stand for the parts the core delegates to the platform:

- `spawn: Pid` is the spawned process;
- `bootstrapped: Option<Pid>` is the outcome of a creation;
- `decode` is base64 decoding followed by UTF-8 decoding;
- `parseQuery` is `new URL` followed by `searchParams`. `None` means the constructor threw.

## Model

| member | source | states |
|---|---|---|
| JsText.TrimShape | src/torManager.js:9 | The result of `trim` has no white space at either end. |
| JsText.TrimSplit | src/torManager.js:9 | The input is the result of `trim` with white space before and after it. |
| JsText.TrimParts | src/torManager.js:9 | Everything `trim` removes is white space, and what it keeps is an unchanged infix of the input. |
| JsText.TrimPadded | src/torManager.js:9 | Trimming `p + s + q` gives back `s` when `p` and `q` are white space and `s` has none at its ends. |
| JsText.TrimIgnoresPadding | src/torManager.js:9 | Added white space at either end never changes the trimmed text. |
| JsText.ToLower | src/torManager.js:9 | The same length, and each character is lowered on its own: A-Z to a-z, and KELVIN SIGN to 'k'. |
| JsText.IndexOf | src/proxy.js:28 | -1 exactly when the character is absent; otherwise the position of its first occurrence. |
| JsText.ParseIntDecimal | src/proxy.js:115 | `parseInt` reads back any decimal numeral, whatever non-digit text follows it. |
| JsText.ParseIntNotNumeric | src/proxy.js:115 | Text whose first non-white-space character is neither a digit nor a sign parses to NaN. |
| TorManager.NormalizeCountryCode | src/torManager.js:7-14 | A code is returned exactly when the trimmed, lower-cased hint is two letters a-z, and then the code is that text. |
| TorManager.NormalizeNullCases | src/torManager.js:8-12 | Null, blank, "default" or "any" in any case, and any trimmed length other than 2 all give null. |
| TorManager.NormalizeNonLetter | src/torManager.js:12 | A hint with any non-white-space character that does not lower to a-z gives null. |
| TorManager.NormalizeNoSpace | src/torManager.js:9-13 | A hint with no white space normalizes to its lower-case form exactly when that form is two letters. |
| TorManager.NormalizeExampleUS | src/torManager.js:7-14 | "US" normalizes to "us". |
| TorManager.NormalizeExampleANY | src/torManager.js:11 | "ANY" gives null. |
| TorManager.NormalizeExampleDefault | src/torManager.js:11 | "default" gives null. |
| TorManager.NormalizeExampleThreeLetters | src/torManager.js:12 | "abc" gives null. |
| TorManager.NormalizeExampleDigit | src/torManager.js:12 | "1a" gives null. |
| TorManager.NormalizeKelvinSign | src/torManager.js:9-12 | A KELVIN SIGN lowers to 'k', so "KR" is accepted as "kr". |
| TorManager.LowerCodeUnchanged | src/torManager.js:9 | Lower-casing leaves a two-letter lower-case code unchanged. |
| TorManager.NormalizeIdempotent | src/torManager.js:7-14 | Normalizing an already normalized code gives the same code. |
| TorManager.NormalizeIgnoresPadding | src/torManager.js:9 | White space around a hint never changes its normalization. |
| TorManager.TorManager.constructor | src/torManager.js:47-60 | An empty registry: no default process, no instances, no creations, and the cursor at the first dynamic port. |
| TorManager.TorManager.EnsureDefault | src/torManager.js:62-74 | Spawns exactly when no default process exists, so the default instance is never spawned twice. The registry invariant is kept. |
| TorManager.TorManager.AllocatePort | src/torManager.js:133-137 | Returns the cursor and advances it by one. The port is fresh and greater than every earlier port, and the registry invariant is kept. |
| TorManager.TorManager.ResolvePort | src/torManager.js:76-89 | See the note under the table. |
| TorManager.TorManager.FinishCreation | src/torManager.js:91-97 | The pending entry is always removed. On success the instance is stored with the pending port, and that port is the result. On failure no instance is stored. Other entries are untouched and the invariant holds. |
| TorManager.TorManager.Shutdown | src/torManager.js:139-151 | Signals exactly the processes of the live instances, plus the default process when one exists. |
| TorManager.SameRegionConverges | src/torManager.js:76-97 | Two concurrent requests for "US" share one creation and one port. After it succeeds, a third request finds the live instance on that port. |
| TorManager.SameRegionFailureShared | src/torManager.js:76-97 | A failed creation fails the request that started it and the request that joined it. A later request starts a new creation on a fresh port. |
| TorBootstrap.WaitForTorBootstrapReady | src/torManager.js:16-44 | Bootstrap succeeds exactly when a chunk holding the whole marker arrives before any exit or deadline. |
| TorBootstrap.WaitForTorBootstrap | src/torManager.js:16-44 | The check as written, on a sequence of events. `WaitForTorBootstrapReady` and `WaitForTorBootstrapFails` characterize when it succeeds and when it fails. |
| TorBootstrap.WaitForTorBootstrapFails | src/torManager.js:16-44 | Bootstrap fails exactly when an exit or the deadline comes before any chunk that holds the whole marker. |
| TorBootstrap.MarkerSplitAcrossChunksIsMissed | src/torManager.js:27-33 | The as-written check misses a marker that the stream holds but that is split across two chunks. |
| TorBootstrap.WaitForTorBootstrapCarrying | src/torManager.js:27-33 | The corrected check, which searches each chunk together with the last 16 characters before it. `CarryingMatchesStream` and `CarryingFromStart` tie it to the whole-stream scan. |
| TorBootstrap.CarryingMatchesStream | src/torManager.js:27-33 | The corrected check, which carries the last 16 characters, decides exactly as a scan of the whole output stream. |
| TorBootstrap.CarryingFromStart | src/torManager.js:27-33 | From the start of the stream, the corrected check equals the stream scan and finds every marker the as-written check finds. |
| TorBootstrap.PerChunkImpliesStream | src/torManager.js:27-33 | The as-written check never reports a marker that the stream does not hold. |
| TorBootstrap.SplitMarkerFoundByCarrying | src/torManager.js:27-33 | The split-marker stream of the finding bootstraps under the corrected check. |
| Proxy.UserIdOf | src/proxy.js:28-30 | The user name is non-empty, trimmed, and has no colon. |
| Proxy.UserIdOfPadded | src/proxy.js:28-30 | The user name is the text before the first colon, or the whole text when there is none. It is trimmed, and null when that leaves it empty. |
| Proxy.UserIdOfPaddedExample | src/proxy.js:28-30 | " us :pw" gives "us". |
| Proxy.UserIdOfNoColonExample | src/proxy.js:28-30 | "us" gives "us". |
| Proxy.UserIdOfBlankExample | src/proxy.js:28-30 | ":pw" gives null. |
| Proxy.UserIdOfCredentials | src/proxy.js:28-30 | For `user:password` the user name is `user`, even when the password contains colons. |
| Proxy.GetBasicAuthUsername | src/proxy.js:11-31 | A username requires the header to be present, and is non-empty, trimmed and colon-free. |
| Proxy.SplitSchemeToken | src/proxy.js:17 | `split(/\s+/, 2)`: the scheme and the next token. `SplitParts` gives the pieces of `scheme`, then white space, then `token`, and `BasicAuthOtherScheme` and `BasicAuthMissingToken` give the other shapes. |
| Proxy.BasicAuthDecoded | src/proxy.js:11-31 | For Basic in any case, then a token, the username is the user name of the decoded token, whatever follows the token. |
| Proxy.BasicAuthDecodeFails | src/proxy.js:21-26 | A token that fails to decode gives null. |
| Proxy.BasicAuthCredentials | src/proxy.js:11-31 | Basic in any case, then a token that decodes to a padded user name followed by nothing or `:password`, gives the trimmed user name, or null when it is empty. |
| Proxy.BasicAuthOtherScheme | src/proxy.js:17-18 | Any scheme other than "basic" gives null. |
| Proxy.BasicAuthMissingToken | src/proxy.js:17-19 | A scheme without a token gives null. |
| Proxy.BasicAuthNoHeader | src/proxy.js:12-15 | An absent header, an empty header, or an empty array gives null. |
| Proxy.BasicAuthFirstElement | src/proxy.js:14 | An array header behaves exactly like its first element. |
| Proxy.GetCountryFromConnectHeaders | src/proxy.js:40-45 | Null exactly for an absent header, an empty header, or an empty array; otherwise the header or its first element. |
| Proxy.ConnectHeaderFirstElement | src/proxy.js:40-45 | An array gives its first element, even ""; a string gives itself unless it is empty. |
| Proxy.QueryGet | src/proxy.js:34 | None exactly when no pair has the name; otherwise the value of a pair with that name. |
| Proxy.QueryGetFirst | src/proxy.js:34 | The value returned is the first pair's, whatever later pairs hold. |
| Proxy.QueryDelete | src/proxy.js:35 | No pair with the name remains; the other pairs are kept in order, and all of them are kept. |
| Proxy.QueryDeleteUnique | src/proxy.js:35 | Those three properties determine the result uniquely. |
| Proxy.QueryDeleteKeepsOthers | src/proxy.js:35 | Deleting changes `get` for no other name. |
| Proxy.QueryDeleteRemoves | src/proxy.js:35 | After the delete, `get` of the deleted name gives none. |
| Proxy.StripExitParam | src/proxy.js:33-38 | Returns the first `tor_exit` value and leaves the query without any `tor_exit` pair, the rest unchanged. |
| Proxy.ForwardCountryHint | src/proxy.js:58-60 | The plain-forward hint: the query value or the username. `ForwardHintPriority` and `InvalidQueryHintShadowsUsername` state its priority. |
| Proxy.TunnelCountryHint | src/proxy.js:118 | The tunnel hint: the username or the CONNECT header. `TunnelHintPriority` states its priority. |
| Proxy.ForwardHintPriority | src/proxy.js:58-60 | A non-empty `tor_exit` value wins over the credentials; otherwise the username decides. |
| Proxy.TunnelHintPriority | src/proxy.js:118 | The username wins over the header. With neither, the request takes the default route. |
| Proxy.InvalidQueryHintShadowsUsername | src/proxy.js:60-62 | An invalid non-empty `tor_exit` value shadows a valid username, and the request goes to the default route. |
| Proxy.SplitConnectTarget | src/proxy.js:102-113 | The host text and port text of a CONNECT target, for the bracketed and the plain form. The lemmas below cover `host`, `host:`, `host:port`, `host:port:more`, `[v6]`, `[v6]:port`, `[v6]` followed by any character and a port, and an unclosed bracket. |
| Proxy.ParseConnectTarget | src/proxy.js:102-115 | The host and the parsed port, defaulting to 443. `ConnectHostPort`, `ConnectBracketedHostPort`, `ConnectNoPort`, `ConnectEmptyPort`, `ConnectBracketedNoPort`, `ConnectBracketSkipsSeparator`, `ConnectExtraColonDropped` and `ConnectUnclosedBracket` cover the shapes listed for `SplitConnectTarget`. |
| Proxy.ConnectHostPort | src/proxy.js:111-115 | `host:port` gives that host and port. |
| Proxy.ConnectBracketedHostPort | src/proxy.js:107-115 | `[v6]:port` gives the address inside the brackets and the port. |
| Proxy.ConnectNoPort | src/proxy.js:111-115 | `host` without a colon gets port 443. |
| Proxy.ConnectEmptyPort | src/proxy.js:111-115 | `host:` with an empty port gets port 443. |
| Proxy.ConnectBracketedNoPort | src/proxy.js:107-115 | `[v6]` without a port gets port 443. |
| Proxy.ConnectBracketSkipsSeparator | src/proxy.js:107-110 | The character after `]` is skipped unchecked: `[v6]`, any character, then a port gives the address and the port. |
| Proxy.ConnectExtraColonDropped | src/proxy.js:111-115 | Everything after a second colon is dropped: `host:port:more` gives that host and port. |
| Proxy.DefaultPortParses | src/proxy.js:115 | The default port text parses to 443. |
| Proxy.ConnectUnclosedBracket | src/proxy.js:108-110 | Without `]`, "[::1" gives host "::" and a NaN port. |
| Proxy.ConnectExampleHostPort | src/proxy.js:111-115 | "example.com:8443" gives example.com and 8443. |
| Proxy.ConnectExampleBracketed | src/proxy.js:107-115 | "[::1]:9000" gives ::1 and 9000. |
| Proxy.ConnectExampleDefaultPort | src/proxy.js:111-115 | "example.com" gives example.com and 443. |
| Proxy.PlanPlainRequest | src/proxy.js:48-71 | See the note under the table. |
| Proxy.IsHealthProbe | src/proxy.js:50 | Exactly `GET /__health`. `PlanPlainRequest` answers it before anything else. |
| Proxy.PlanConnect | src/proxy.js:101-119 | The target is the parsed CONNECT target. The username is the hint when there is one, otherwise the CONNECT header. |

`TorManager.TorManager.ResolvePort`: a null hint gives the default port. Otherwise:

- a live instance gives its port;
- a creation in flight is joined, with its port;
- only a normalized code with neither starts a creation on a fresh port.

Live instances are never touched, and the invariant holds: codes are normalized, live and
pending sets are disjoint, and all ports are distinct.

`Proxy.PlanPlainRequest`:

- `GET /__health` is answered with 200 "ok";
- an unparsable URL is a bad request;
- otherwise the request is forwarded with the chosen hint and the stripped query. The
  headers lose exactly `proxy-connection` and `proxy-authorization`, so the forwarded
  request carries neither `tor_exit` nor credentials.

## Left out

- Configuration from the environment is not modelled: `TOR_EXIT_PARAM`, `TOR_CONNECT_EXIT_HEADER`,
  `DYNAMIC_TOR_SOCKS_PORT_START` and `TOR_INSTANCES_DIR`. The defaults are constants or
  constructor parameters.
- Process spawning, the Tor argument list, data directories, log piping, timers and the kill
  of a timed-out process are I/O. They appear only as the `spawn` and `bootstrapped`
  parameters and the event sequence of `TorBootstrap`.
- `TorManager.TorManager.EnsureDefault` does not model the wait for the default process to
  bootstrap. The process stays recorded even when that wait fails, as in the source.
- `TorManager.TorManager.FinishCreation` does not distinguish why a creation failed (exit,
  timeout or spawn error). A failure rejects the creator and every joined caller alike. In
  plain-forward mode that rejection lands in the handler's catch and yields 400, not 502.
- `TorManager.TorManager.Shutdown` returns the set of signalled processes. It does not model
  the order of `Map` iteration, the delivery of signals, or creations in flight (which are
  not signalled).
- `TorBootstrap.WaitForTorBootstrap` treats stdout and stderr as one stream of chunks in
  arrival order.
- `JsText.ToLower` lowers A-Z and KELVIN SIGN only. Every other character whose JavaScript
  lower-case form is a-z is among these. Characters that lower to other characters, or
  that expand (U+0130), are left unchanged, which only affects hints that are rejected
  either way.
- `JsText.ParseInt` uses unbounded integers and leaves out the precision loss of JavaScript
  numbers beyond 2^53.
- Base64 and UTF-8 decoding are the `decode` parameter.
- URL parsing is the `parseQuery` parameter. URL serialization (`strippedUrl`) is not
  modelled, and `Proxy.StripExitParam` returns only the country code.
- Proxy.PlanPlainRequest stops before the upstream request. It does not model the SOCKS
  agent, the choice between http and https, piping bodies, or the 502 on upstream errors.
- Proxy.PlanConnect stops before the SOCKS connection. It does not model the `200 Connection
  Established` reply, the forwarding of `head`, or piping. The source does not validate the
  port, so a NaN port is kept as `None`.
- Strings are sequences of Unicode code points, but JavaScript strings are UTF-16 code units.
  `indexOf` and `slice` count code units in the source. The two differ when a character outside
  the Basic Multilingual Plane sits at a computed offset, as in the bracketed CONNECT branch.
  There the source cuts through a surrogate pair and gets a lone surrogate in the host, or a NaN
  port. The model does not capture this.
- Server start-up, signal handling and the entry point (`src/index.js`) are not part of this
  model.

## Findings

| source | as written | input that shows it | evidently intended | confidence | as-written member | corrected member |
|---|---|---|---|---|---|---|
| src/torManager.js:27-33 | Each output chunk is searched for "Bootstrapped 100%" on its own. | The output arrives as the chunks "Bootstrapped 10" and "0% (done)", then the deadline passes: the creation fails although the process bootstrapped. | Ready once the output stream so far contains the marker, wherever the chunk boundaries fall. | low (not executed; depends on pipe chunking) | TorBootstrap.MarkerSplitAcrossChunksIsMissed | TorBootstrap.CarryingMatchesStream |
