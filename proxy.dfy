/**
 * The request-routing helpers of `src/proxy.js`: where a request's exit-country hint comes
 * from (the `tor_exit` query parameter, the Basic proxy credentials, or the
 * `x-tor-exit-country` header on CONNECT), what is stripped before forwarding, how a CONNECT
 * target is split into host and port, and the health probe.
 */
module Proxy {
  import opened Wrappers
  import opened JsText
  import TorManager

  const EXIT_PARAM: string := "tor_exit"
  const CONNECT_EXIT_HEADER: string := "x-tor-exit-country"
  const PROXY_AUTHORIZATION: string := "proxy-authorization"
  const PROXY_CONNECTION: string := "proxy-connection"
  const HEALTH_PATH: string := "/__health"
  const DEFAULT_CONNECT_PORT: string := "443"

  /** A header value as Node.js gives it: a string, or an array of strings. */
  datatype HeaderValue = Text(text: string) | List(items: seq<string>)

  /** `req.headers`: lower-cased header names to values. */
  type Headers = map<string, HeaderValue>

  /** JavaScript truthiness of a string-or-null. */
  predicate Truthy(v: Option<string>) {
    v.Some? && v.value != ""
  }

  /** A header value is falsy when it is absent or the empty string; an array, even empty, is truthy. */
  predicate HeaderPresent(headers: Headers, name: string) {
    name in headers && headers[name] != Text("")
  }

  /** `Array.isArray(v) ? v[0] : v`, where `v[0]` of an empty array is `undefined`. */
  function FirstElement(v: HeaderValue): (r: Option<string>)
    ensures v.Text? ==> r == Some(v.text)
    ensures v.List? ==> (r.Some? <==> v.items != []) && (r.Some? ==> r.value == v.items[0])
  {
    match v
    case Text(t) => Some(t)
    case List(items) => if items == [] then None else Some(items[0])
  }

  // ---------------------------------------------------------------------------------------
  // getBasicAuthUsername

  /** The index of the first white-space character of `s`, or `|s|`. */
  function FirstSpace(s: string): (k: nat)
    ensures k <= |s| && NoSpace(s[..k])
    ensures k < |s| ==> IsSpace(s[k])
  {
    if s == [] || IsSpace(s[0]) then 0
    else
      var k := FirstSpace(s[1..]) + 1;
      assert s[..k] == [s[0]] + s[1..][..k - 1];
      k
  }

  /**
   * `String(value).split(/\s+/, 2)` as a pair: the text before the first white-space run,
   * and the text after that run up to the next white space (`None` when there is no white
   * space at all, so the second element is `undefined`).
   */
  function SplitSchemeToken(value: string): (string, Option<string>) {
    var i := FirstSpace(value);
    if i == |value| then (value, None)
    else
      var rest := TrimStart(value[i..]);
      (value[..i], Some(rest[..FirstSpace(rest)]))
  }

  /**
   * The user-id of Basic credentials (section 2 of RFC 7617): the decoded text up to the
   * first colon, or all of it without a colon, trimmed; `None` when that is empty.
   */
  function UserIdOf(decoded: string): (r: Option<string>)
    ensures r.Some? ==> r.value != "" && Trimmed(r.value) && ':' !in r.value
  {
    var idx := IndexOf(decoded, ':');
    var name := if idx >= 0 then decoded[..idx] else decoded;
    var user := Trim(name);
    TrimmedHasNo(name, ':');
    TrimShape(name);
    if user == "" then None else Some(user)
  }

  lemma TrimmedHasNo(s: string, c: char)
    requires c !in s
    ensures c !in Trim(s)
  {
    TrimParts(s);
    var k, r := |s| - |TrimStart(s)|, Trim(s);
    forall i | 0 <= i < |r| ensures r[i] != c {
      assert r[i] == s[k + i];
    }
  }

  /**
   * `getBasicAuthUsername`: the user-id of `Proxy-Authorization: Basic <token>`, using the
   * first element of an array-valued header; `None` when the header is absent or empty, the
   * scheme is not "basic" in some case, the token is missing, decoding fails (`decode`
   * returns `None`, the `catch` branch), or the user-id is empty. `decode` is
   * `Buffer.from(token, "base64").toString("utf8")`.
   */
  function GetBasicAuthUsername(headers: Headers, decode: string -> Option<string>): (r: Option<string>)
    ensures r.Some? ==> HeaderPresent(headers, PROXY_AUTHORIZATION)
    ensures r.Some? ==> r.value != "" && Trimmed(r.value) && ':' !in r.value
  {
    if !HeaderPresent(headers, PROXY_AUTHORIZATION) then None
    else
      var value := FirstElement(headers[PROXY_AUTHORIZATION]);
      if !Truthy(value) then None
      else
        var (scheme, encoded) := SplitSchemeToken(value.value);
        if scheme == "" || ToLower(scheme) != "basic" then None
        else if !Truthy(encoded) then None
        else match decode(encoded.value)
          case None => None
          case Some(decoded) => UserIdOf(decoded)
  }

  /** A string with no white space, then white space or nothing. */
  predicate EndsToken(rest: string) {
    rest == [] || IsSpace(rest[0])
  }

  lemma {:induction false} SplitParts(scheme: string, sep: string, token: string, rest: string)
    requires scheme != [] && NoSpace(scheme) && sep != [] && AllSpace(sep)
    requires token != [] && NoSpace(token) && EndsToken(rest)
    ensures SplitSchemeToken(scheme + sep + token + rest) == (scheme, Some(token))
  {
    var tail := sep + (token + rest);
    var v := scheme + tail;
    assert v == scheme + sep + token + rest;
    assert tail[0] == sep[0];
    FirstSpaceOfToken(scheme, tail);
    assert v[|scheme|..] == tail;
    TrimStartPadded(sep, token + rest);
    FirstSpaceOfToken(token, rest);
  }

  lemma FirstSpaceOfToken(token: string, rest: string)
    requires NoSpace(token) && EndsToken(rest)
    ensures FirstSpace(token + rest) == |token|
    ensures (token + rest)[..|token|] == token
    decreases |token|
  {
    if token != [] {
      assert (token + rest)[1..] == token[1..] + rest;
      FirstSpaceOfToken(token[1..], rest);
    }
  }

  /**
   * For a scheme spelled "basic" in any case followed by a token, the username is what
   * `UserIdOf` makes of the decoded token, whatever follows the token.
   */
  lemma {:induction false} BasicAuthDecoded(headers: Headers, decode: string -> Option<string>,
      scheme: string, sep: string, token: string, rest: string, decoded: string)
    requires scheme != [] && NoSpace(scheme) && ToLower(scheme) == "basic"
    requires sep != [] && AllSpace(sep) && token != [] && NoSpace(token) && EndsToken(rest)
    requires decode(token) == Some(decoded)
    ensures GetBasicAuthUsername(headers[PROXY_AUTHORIZATION := Text(scheme + sep + token + rest)], decode)
         == UserIdOf(decoded)
  {
    SplitParts(scheme, sep, token, rest);
  }

  /** A token that does not decode (the `catch` branch) yields no username. */
  lemma {:induction false} BasicAuthDecodeFails(headers: Headers, decode: string -> Option<string>,
      scheme: string, sep: string, token: string, rest: string)
    requires scheme != [] && NoSpace(scheme) && ToLower(scheme) == "basic"
    requires sep != [] && AllSpace(sep) && token != [] && NoSpace(token) && EndsToken(rest)
    requires decode(token) == None
    ensures GetBasicAuthUsername(headers[PROXY_AUTHORIZATION := Text(scheme + sep + token + rest)], decode) == None
  {
    SplitParts(scheme, sep, token, rest);
  }

  /**
   * Basic credentials are read as the source promises: for a token decoding to a user-id
   * with white space around it, then nothing or a colon and the password, the username is
   * the trimmed user-id, and null when that is empty.
   */
  lemma {:induction false} BasicAuthCredentials(headers: Headers, decode: string -> Option<string>,
      scheme: string, sep: string, token: string, rest: string,
      p: string, user: string, q: string, password: string)
    requires scheme != [] && NoSpace(scheme) && ToLower(scheme) == "basic"
    requires sep != [] && AllSpace(sep) && token != [] && NoSpace(token) && EndsToken(rest)
    requires AllSpace(p) && AllSpace(q) && Trimmed(user) && ':' !in p + user + q
    requires password == [] || password[0] == ':'
    requires decode(token) == Some(p + user + q + password)
    ensures GetBasicAuthUsername(headers[PROXY_AUTHORIZATION := Text(scheme + sep + token + rest)], decode)
         == if user == [] then None else Some(user)
  {
    BasicAuthDecoded(headers, decode, scheme, sep, token, rest, p + user + q + password);
    UserIdOfPadded(p, user, q, password);
  }

  /**
   * The user-id is the text before the first colon, or all of the text without one,
   * trimmed, and null when that is empty: " us :pw" gives "us", "us" gives "us", and
   * ":pw" gives null.
   */
  lemma {:induction false} UserIdOfPadded(p: string, user: string, q: string, rest: string)
    requires AllSpace(p) && AllSpace(q) && Trimmed(user) && ':' !in p + user + q
    requires rest == [] || rest[0] == ':'
    ensures UserIdOf(p + user + q + rest) == if user == [] then None else Some(user)
  {
    var n := p + user + q;
    var d := n + rest;
    assert p + user + q + rest == d;
    if rest == [] {
      assert d == n;
      assert IndexOf(d, ':') == -1;
    } else {
      assert d[|n|] == ':';
      assert d[..|n|] == n;
      assert IndexOf(d, ':') == |n|;
    }
    TrimPadded(p, user, q);
  }

  /** White space around the user-id is trimmed: " us :pw" gives "us". */
  lemma UserIdOfPaddedExample()
    ensures UserIdOf(" us :pw") == Some("us")
  {
    assert " us :pw" == " " + "us" + " " + ":pw";
    UserIdOfPadded(" ", "us", " ", ":pw");
  }

  /** Without a colon the whole text is the user-id: "us" gives "us". */
  lemma UserIdOfNoColonExample()
    ensures UserIdOf("us") == Some("us")
  {
    assert "us" == [] + "us" + [] + [];
    UserIdOfPadded([], "us", [], []);
  }

  /** An empty user-id is no username: ":pw" gives null. */
  lemma UserIdOfBlankExample()
    ensures UserIdOf(":pw") == None
  {
    assert ":pw" == [] + [] + [] + ":pw";
    UserIdOfPadded([], [], [], ":pw");
  }

  /** The user-id ends at the first colon: the password may contain colons of its own. */
  lemma {:induction false} UserIdOfCredentials(user: string, password: string)
    requires user != "" && Trimmed(user) && ':' !in user
    ensures UserIdOf(user + ":" + password) == Some(user)
  {
    UserIdOfPadded([], user, [], ":" + password);
    assert [] + user + [] + (":" + password) == user + ":" + password;
  }

  /** Any other scheme, such as "Bearer" or "Digest", yields no username. */
  lemma {:induction false} BasicAuthOtherScheme(headers: Headers, decode: string -> Option<string>,
      scheme: string, rest: string)
    requires NoSpace(scheme) && ToLower(scheme) != "basic" && EndsToken(rest)
    ensures GetBasicAuthUsername(headers[PROXY_AUTHORIZATION := Text(scheme + rest)], decode) == None
  {
    var v := scheme + rest;
    FirstSpaceOfToken(scheme, rest);
  }

  /** "Basic" with no token after it (nothing, or only white space) yields no username. */
  lemma {:induction false} BasicAuthMissingToken(headers: Headers, decode: string -> Option<string>,
      scheme: string, sep: string)
    requires NoSpace(scheme) && AllSpace(sep)
    ensures GetBasicAuthUsername(headers[PROXY_AUTHORIZATION := Text(scheme + sep)], decode) == None
  {
    FirstSpaceOfToken(scheme, sep);
    var v := scheme + sep;
    if |scheme| < |v| {
      assert v[|scheme|..] == sep;
      TrimAllSpace(sep);
    }
  }

  /** An absent header, an empty one, and an empty array all yield no username. */
  lemma BasicAuthNoHeader(headers: Headers, decode: string -> Option<string>)
    ensures PROXY_AUTHORIZATION !in headers ==> GetBasicAuthUsername(headers, decode) == None
    ensures GetBasicAuthUsername(headers[PROXY_AUTHORIZATION := Text("")], decode) == None
    ensures GetBasicAuthUsername(headers[PROXY_AUTHORIZATION := List([])], decode) == None
  {
  }

  /** For an array-valued header only the first element counts. */
  lemma BasicAuthFirstElement(headers: Headers, decode: string -> Option<string>, v: string, more: seq<string>)
    ensures GetBasicAuthUsername(headers[PROXY_AUTHORIZATION := List([v] + more)], decode)
         == GetBasicAuthUsername(headers[PROXY_AUTHORIZATION := Text(v)], decode)
  {
  }

  // ---------------------------------------------------------------------------------------
  // getCountryFromConnectHeaders

  /**
   * `getCountryFromConnectHeaders`: the `x-tor-exit-country` header, or the first element of
   * an array-valued one; `None` when it is absent, empty, or an empty array. An array whose
   * first element is "" yields `Some("")`, as in the source.
   */
  function GetCountryFromConnectHeaders(headers: Headers): (r: Option<string>)
    ensures r.None? <==> !HeaderPresent(headers, CONNECT_EXIT_HEADER) || headers[CONNECT_EXIT_HEADER] == List([])
    ensures r.Some? ==> r == FirstElement(headers[CONNECT_EXIT_HEADER])
  {
    if !HeaderPresent(headers, CONNECT_EXIT_HEADER) then None
    else FirstElement(headers[CONNECT_EXIT_HEADER])
  }

  /** For an array-valued header only the first element counts. */
  lemma ConnectHeaderFirstElement(headers: Headers, v: string, more: seq<string>)
    ensures GetCountryFromConnectHeaders(headers[CONNECT_EXIT_HEADER := List([v] + more)]) == Some(v)
    ensures GetCountryFromConnectHeaders(headers[CONNECT_EXIT_HEADER := Text(v)]) == if v == "" then None else Some(v)
  {
  }

  // ---------------------------------------------------------------------------------------
  // Query parameters (URLSearchParams as a list of name-value pairs) and stripExitParam

  type Param = (string, string)

  /** `URLSearchParams.get(name)`: the value of the first pair with that name. */
  function QueryGet(params: seq<Param>, name: string): (r: Option<string>)
    ensures r.None? <==> forall i :: 0 <= i < |params| ==> params[i].0 != name
    ensures r.Some? ==> (name, r.value) in params
  {
    if params == [] then None
    else if params[0].0 == name then Some(params[0].1)
    else QueryGet(params[1..], name)
  }

  /** `get` gives the value of the first pair with the name, whatever the later ones say. */
  lemma {:induction false} QueryGetFirst(params: seq<Param>, name: string, i: int)
    requires 0 <= i < |params| && params[i].0 == name
    requires forall j :: 0 <= j < i ==> params[j].0 != name
    ensures QueryGet(params, name) == Some(params[i].1)
  {
    if i > 0 {
      QueryGetFirst(params[1..], name, i - 1);
    }
  }

  /** The number of pairs named `name`. */
  function CountNamed(params: seq<Param>, name: string): (n: nat)
    ensures n <= |params|
  {
    if params == [] then 0
    else (if params[0].0 == name then 1 else 0) + CountNamed(params[1..], name)
  }

  /** `a` is `b` with some pairs left out, the rest in their order. */
  predicate IsSubsequence(a: seq<Param>, b: seq<Param>)
    decreases |b|
  {
    a == [] || (b != [] && ((a[0] == b[0] && IsSubsequence(a[1..], b[1..])) || IsSubsequence(a, b[1..])))
  }

  /**
   * `URLSearchParams.delete(name)`: every pair with that name removed, the other pairs kept
   * in their order.
   */
  function QueryDelete(params: seq<Param>, name: string): (r: seq<Param>)
    ensures forall i :: 0 <= i < |r| ==> r[i].0 != name
    ensures IsSubsequence(r, params)
    ensures |r| == |params| - CountNamed(params, name)
  {
    if params == [] then []
    else if params[0].0 == name then QueryDelete(params[1..], name)
    else
      var rest := QueryDelete(params[1..], name);
      var r := [params[0]] + rest;
      assert r[1..] == rest && params[1..] == params[1..];
      r
  }

  lemma {:induction false} SubsequenceAvoidingBound(a: seq<Param>, b: seq<Param>, name: string)
    requires IsSubsequence(a, b) && forall i :: 0 <= i < |a| ==> a[i].0 != name
    ensures |a| <= |b| - CountNamed(b, name)
    decreases |b|
  {
    if a != [] {
      if a[0] == b[0] && IsSubsequence(a[1..], b[1..]) {
        SubsequenceAvoidingBound(a[1..], b[1..], name);
      } else {
        SubsequenceAvoidingBound(a, b[1..], name);
      }
    }
  }

  /**
   * The three properties of `QueryDelete` pin it down: any list of pairs with none named
   * `name`, taken from `params` in order, and as long as the pairs not named `name`, is it.
   */
  lemma {:induction false} QueryDeleteUnique(params: seq<Param>, name: string, r: seq<Param>)
    requires forall i :: 0 <= i < |r| ==> r[i].0 != name
    requires IsSubsequence(r, params)
    requires |r| == |params| - CountNamed(params, name)
    ensures r == QueryDelete(params, name)
    decreases |params|
  {
    if params != [] {
      var x, t := params[0], params[1..];
      if r != [] && r[0] == x && IsSubsequence(r[1..], t) {
        assert x.0 != name;
        QueryDeleteUnique(t, name, r[1..]);
        assert r == [x] + r[1..];
      } else if r != [] {
        assert IsSubsequence(r, t);
        SubsequenceAvoidingBound(r, t, name);
        QueryDeleteUnique(t, name, r);
      }
    }
  }

  /** Deleting one name changes the value `get` gives for no other name. */
  lemma {:induction false} QueryDeleteKeepsOthers(params: seq<Param>, name: string, other: string)
    requires other != name
    ensures QueryGet(QueryDelete(params, name), other) == QueryGet(params, other)
  {
    if params != [] {
      QueryDeleteKeepsOthers(params[1..], name, other);
      if params[0].0 != name {
        assert ([params[0]] + QueryDelete(params[1..], name))[1..] == QueryDelete(params[1..], name);
      }
    }
  }

  /** After deleting a name, `get` finds no value for it. */
  lemma QueryDeleteRemoves(params: seq<Param>, name: string)
    ensures QueryGet(QueryDelete(params, name), name) == None
  {
  }

  /** The URL's `searchParams`, which `stripExitParam` changes in place. */
  class SearchParams {
    var list: seq<Param>

    constructor (list: seq<Param>)
      ensures this.list == list
    {
      this.list := list;
    }
  }

  /**
   * `stripExitParam`: returns the first `tor_exit` value and removes every `tor_exit` pair
   * from the URL's query, leaving the other pairs and their order as they were.
   */
  method StripExitParam(searchParams: SearchParams) returns (countryCode: Option<string>)
    modifies searchParams
    ensures countryCode == QueryGet(old(searchParams.list), EXIT_PARAM)
    ensures searchParams.list == QueryDelete(old(searchParams.list), EXIT_PARAM)
  {
    countryCode := QueryGet(searchParams.list, EXIT_PARAM);
    searchParams.list := QueryDelete(searchParams.list, EXIT_PARAM);
  }

  // ---------------------------------------------------------------------------------------
  // The hint-priority choices

  /** `a || b` on two strings-or-null. */
  function FirstTruthy(a: Option<string>, b: Option<string>): (r: Option<string>)
    ensures Truthy(a) ==> r == a
    ensures !Truthy(a) ==> r == b
  {
    if Truthy(a) then a else b
  }

  /** Plain-forward mode: the `tor_exit` query value if it is non-empty, else the proxy username. */
  function ForwardCountryHint(params: seq<Param>, headers: Headers, decode: string -> Option<string>): Option<string> {
    FirstTruthy(QueryGet(params, EXIT_PARAM), GetBasicAuthUsername(headers, decode))
  }

  /** Tunnel mode: the proxy username if there is one, else the `x-tor-exit-country` header. */
  function TunnelCountryHint(headers: Headers, decode: string -> Option<string>): Option<string> {
    FirstTruthy(GetBasicAuthUsername(headers, decode), GetCountryFromConnectHeaders(headers))
  }

  /**
   * Plain-forward priority: a non-empty `tor_exit` value decides, whatever the credentials
   * say; without one (absent or empty) the proxy username decides.
   */
  lemma ForwardHintPriority(params: seq<Param>, headers: Headers, decode: string -> Option<string>)
    ensures Truthy(QueryGet(params, EXIT_PARAM)) ==>
      ForwardCountryHint(params, headers, decode) == QueryGet(params, EXIT_PARAM)
    ensures !Truthy(QueryGet(params, EXIT_PARAM)) ==>
      ForwardCountryHint(params, headers, decode) == GetBasicAuthUsername(headers, decode)
  {
  }

  /**
   * Tunnel priority: a proxy username decides; without one the header decides; with neither
   * the request goes to the default route.
   */
  lemma {:induction false} TunnelHintPriority(headers: Headers, decode: string -> Option<string>)
    ensures GetBasicAuthUsername(headers, decode).Some? ==>
      TunnelCountryHint(headers, decode) == GetBasicAuthUsername(headers, decode)
    ensures GetBasicAuthUsername(headers, decode).None? ==>
      TunnelCountryHint(headers, decode) == GetCountryFromConnectHeaders(headers)
    ensures GetBasicAuthUsername(headers, decode).None? && !HeaderPresent(headers, CONNECT_EXIT_HEADER) ==>
      TorManager.NormalizeCountryCode(TunnelCountryHint(headers, decode)) == None
  {
  }

  /**
   * The choice is made before normalization: a non-empty `tor_exit` value that is not a
   * country code (say "zzz") shadows a valid username and sends the request to the default
   * route.
   */
  lemma {:induction false} InvalidQueryHintShadowsUsername(params: seq<Param>, headers: Headers, decode: string -> Option<string>)
    requires Truthy(QueryGet(params, EXIT_PARAM))
    requires TorManager.NormalizeCountryCode(QueryGet(params, EXIT_PARAM)).None?
    ensures TorManager.NormalizeCountryCode(ForwardCountryHint(params, headers, decode)) == None
  {
  }

  // ---------------------------------------------------------------------------------------
  // The CONNECT target

  /** The destination of a CONNECT tunnel; `port` is `None` where `parseInt` gives `NaN`. */
  datatype ConnectTarget = ConnectTarget(host: string, port: Option<int>)

  /**
   * The host and port text of a CONNECT target: for "[...", the text between the first
   * character and the first ']' and everything from two characters after it (when there is
   * no ']', `indexOf` gives -1 and `slice` reads that as "up to the last character"); else
   * the first two pieces of `split(":")`, the second `None` when there is no colon.
   */
  function SplitConnectTarget(target: string): (string, Option<string>) {
    if |target| > 0 && target[0] == '[' then
      var end := IndexOf(target, ']');
      (Slice(target, 1, end), Some(Slice(target, end + 2, |target|)))
    else
      var i := IndexOf(target, ':');
      if i < 0 then (target, None)
      else
        var rest := target[i + 1..];
        var j := IndexOf(rest, ':');
        (target[..i], Some(if j < 0 then rest else rest[..j]))
  }

  /** The CONNECT target parse: the port text, or "443" when it is missing or empty, read by `parseInt`. */
  function ParseConnectTarget(target: string): ConnectTarget {
    var (host, portText) := SplitConnectTarget(target);
    ConnectTarget(host, ParseInt(if portText.None? || portText.value == "" then DEFAULT_CONNECT_PORT else portText.value))
  }

  lemma DefaultPortParses()
    ensures ParseInt(DEFAULT_CONNECT_PORT) == Some(443)
  {
    assert Decimal(443) + "" == "443";
    ParseIntDecimal(443, "");
  }

  /** "host:port" gives that host and port. */
  lemma {:induction false} ConnectHostPort(host: string, port: nat)
    requires ':' !in host && (host == [] || host[0] != '[')
    ensures ParseConnectTarget(host + ":" + Decimal(port)) == ConnectTarget(host, Some(port))
  {
    var t := host + ":" + Decimal(port);
    assert t[|host|] == ':' && t[..|host|] == host;
    assert IndexOf(t, ':') == |host|;
    var rest := t[|host| + 1..];
    assert rest == Decimal(port);
    assert ':' !in rest;
    assert Decimal(port) + "" == Decimal(port);
    ParseIntDecimal(port, "");
  }

  /** "[v6]:port" gives the address inside the brackets and the port. */
  lemma {:induction false} ConnectBracketedHostPort(host: string, port: nat)
    requires ']' !in host
    ensures ParseConnectTarget("[" + host + "]:" + Decimal(port)) == ConnectTarget(host, Some(port))
  {
    var t := "[" + host + "]:" + Decimal(port);
    var e := |host| + 1;
    assert t[e] == ']';
    assert t[..e] == "[" + host;
    assert ']' !in t[..e];
    assert IndexOf(t, ']') == e;
    assert Slice(t, 1, e) == t[1..e] == host;
    assert t == ("[" + host + "]:") + Decimal(port);
    assert t[e + 2..] == Decimal(port);
    assert Slice(t, e + 2, |t|) == Decimal(port);
    assert Decimal(port) + "" == Decimal(port);
    ParseIntDecimal(port, "");
  }

  /**
   * The character after ']' is skipped without being checked: "[v6]" then any character
   * then the port gives the address and the port, "[::1]x9000" as well as "[::1]:9000".
   */
  lemma {:induction false} ConnectBracketSkipsSeparator(host: string, c: char, port: nat)
    requires ']' !in host
    ensures ParseConnectTarget("[" + host + "]" + [c] + Decimal(port)) == ConnectTarget(host, Some(port))
  {
    var t := "[" + host + "]" + [c] + Decimal(port);
    var e := |host| + 1;
    assert t[e] == ']';
    assert t[..e] == "[" + host;
    assert ']' !in t[..e];
    assert IndexOf(t, ']') == e;
    assert Slice(t, 1, e) == t[1..e] == host;
    assert t == ("[" + host + "]" + [c]) + Decimal(port);
    assert t[e + 2..] == Decimal(port);
    assert Slice(t, e + 2, |t|) == Decimal(port);
    assert Decimal(port) + "" == Decimal(port);
    ParseIntDecimal(port, "");
  }

  /** Everything after a second colon is dropped: "a:1:2" is host "a", port 1. */
  lemma {:induction false} ConnectExtraColonDropped(host: string, port: nat, more: string)
    requires ':' !in host && (host == [] || host[0] != '[')
    ensures ParseConnectTarget(host + ":" + Decimal(port) + ":" + more) == ConnectTarget(host, Some(port))
  {
    var d := Decimal(port);
    var rest := d + ":" + more;
    var t := host + ":" + d + ":" + more;
    assert t == (host + ":") + rest;
    SplitAtFirstColon(host, rest);
    FirstColonAfterDigits(d, more);
    ParseGivenPort(t, host, d);
    assert d + "" == d;
    ParseIntDecimal(port, "");
  }

  /** Helper: a target whose port text is present and non-empty reads that text with `parseInt`. */
  lemma ParseGivenPort(t: string, host: string, portText: string)
    requires SplitConnectTarget(t) == (host, Some(portText)) && portText != ""
    ensures ParseConnectTarget(t) == ConnectTarget(host, ParseInt(portText))
  {
  }


  /** Helper: an unbracketed target splits at its first colon. */
  lemma SplitAtFirstColon(host: string, rest: string)
    requires ':' !in host && (host == [] || host[0] != '[')
    ensures var j := IndexOf(rest, ':');
      SplitConnectTarget((host + ":") + rest) == (host, Some(if j < 0 then rest else rest[..j]))
  {
    var t := (host + ":") + rest;
    assert t[|host|] == ':' && t[..|host|] == host;
    assert IndexOf(t, ':') == |host|;
    assert t[|host| + 1..] == rest;
  }

  /** Helper: the first colon after a decimal numeral is the one that follows it. */
  lemma FirstColonAfterDigits(d: string, more: string)
    requires ':' !in d
    ensures var rest := d + ":" + more; IndexOf(rest, ':') == |d| && rest[..|d|] == d
  {
    var rest := d + ":" + more;
    assert rest[|d|] == ':' && rest[..|d|] == d;
  }



  /** Without a colon, "host" gets port 443. */
  lemma {:induction false} ConnectNoPort(host: string)
    requires ':' !in host && (host == [] || host[0] != '[')
    ensures ParseConnectTarget(host) == ConnectTarget(host, Some(443))
  {
    DefaultPortParses();
  }

  /** An empty port, as in "host:", is port 443. */
  lemma {:induction false} ConnectEmptyPort(host: string)
    requires ':' !in host && (host == [] || host[0] != '[')
    ensures ParseConnectTarget(host + ":") == ConnectTarget(host, Some(443))
  {
    DefaultPortParses();
    var t := host + ":";
    assert t[|host|] == ':' && t[..|host|] == host;
    assert IndexOf(t, ':') == |host|;
    assert t[|host| + 1..] == "";
  }

  /** A bracketed address without a port, "[v6]", gets port 443. */
  lemma {:induction false} ConnectBracketedNoPort(host: string)
    requires ']' !in host
    ensures ParseConnectTarget("[" + host + "]") == ConnectTarget(host, Some(443))
  {
    DefaultPortParses();
    var b := "[" + host + "]";
    var e := |host| + 1;
    assert b[e] == ']' && b[..e] == "[" + host;
    assert ']' !in b[..e];
    assert IndexOf(b, ']') == e;
    assert Slice(b, 1, e) == b[1..e] == host;
    assert Slice(b, e + 2, |b|) == "";
  }

  /**
   * Without a closing ']' the source slices with index -1: "[::1" gives host "::" and the
   * port text "::1", which `parseInt` reads as `NaN`.
   */
  lemma ConnectUnclosedBracket()
    ensures ParseConnectTarget("[::1") == ConnectTarget("::", None)
  {
    var t := "[::1";
    assert ']' !in t;
    assert IndexOf(t, ']') == -1;
    assert Slice(t, 1, -1) == t[1..3] == "::";
    assert Slice(t, 1, |t|) == "::1";
    assert "::1" == [] + [':'] + ":1";
    ParseIntNotNumeric([], ':', ":1");
  }

  /** "example.com:8443" is host "example.com", port 8443. */
  lemma ConnectExampleHostPort()
    ensures ParseConnectTarget("example.com:8443") == ConnectTarget("example.com", Some(8443))
  {
    assert Decimal(8443) == "8443";
    assert "example.com" + ":" + "8443" == "example.com:8443";
    ConnectHostPort("example.com", 8443);
  }

  /** "[::1]:9000" is host "::1", port 9000. */
  lemma ConnectExampleBracketed()
    ensures ParseConnectTarget("[::1]:9000") == ConnectTarget("::1", Some(9000))
  {
    assert Decimal(9000) == "9000";
    assert "[" + "::1" + "]:" + "9000" == "[::1]:9000";
    ConnectBracketedHostPort("::1", 9000);
  }

  /** "example.com" is host "example.com", port 443. */
  lemma ConnectExampleDefaultPort()
    ensures ParseConnectTarget("example.com") == ConnectTarget("example.com", Some(443))
  {
    ConnectNoPort("example.com");
  }

  // ---------------------------------------------------------------------------------------
  // Dispatching a request

  datatype Request = Request(httpMethod: string, url: string, headers: Headers)

  /** What the plain-forward handler does before contacting any backend. */
  datatype PlainAction =
    | Reply(status: int, body: string)
    | BadRequest
    | Forward(countryCode: Option<string>, query: seq<Param>, headers: Headers)

  /** The liveness probe: exactly `GET /__health`. */
  predicate IsHealthProbe(req: Request) {
    req.httpMethod == "GET" && req.url == HEALTH_PATH
  }

  /**
   * The plain-forward handler up to the call of `getSocksPortForRequest`: the health probe
   * is answered first; a URL that does not parse (`parseQuery` returns `None`, where
   * `new URL` throws) is a bad request; otherwise the exit parameter is read and stripped,
   * the hint chosen, and the headers copied without the two proxy headers.
   * `parseQuery` gives the query of an absolute URL as its list of name-value pairs.
   */
  method PlanPlainRequest(req: Request, parseQuery: string -> Option<seq<Param>>, decode: string -> Option<string>)
    returns (action: PlainAction)
    ensures IsHealthProbe(req) ==> action == Reply(200, "ok")
    ensures !IsHealthProbe(req) && parseQuery(req.url).None? ==> action == BadRequest
    ensures !IsHealthProbe(req) && parseQuery(req.url).Some? ==>
      var params := parseQuery(req.url).value;
      && action.Forward?
      && action.countryCode == ForwardCountryHint(params, req.headers, decode)
      && action.query == QueryDelete(params, EXIT_PARAM)
      && action.headers.Keys == req.headers.Keys - {PROXY_CONNECTION, PROXY_AUTHORIZATION}
      && (forall k :: k in action.headers ==> action.headers[k] == req.headers[k])
    ensures action.Forward? ==>
      && QueryGet(action.query, EXIT_PARAM) == None
      && GetBasicAuthUsername(action.headers, decode) == None
  {
    if req.httpMethod == "GET" && req.url == HEALTH_PATH {
      return Reply(200, "ok");
    }
    var parsed := parseQuery(req.url);
    if parsed.None? {
      return BadRequest;
    }
    var searchParams := new SearchParams(parsed.value);
    var countryFromQuery := StripExitParam(searchParams);
    var countryFromAuth := GetBasicAuthUsername(req.headers, decode);
    var countryCode := FirstTruthy(countryFromQuery, countryFromAuth);
    var headers := req.headers;
    headers := headers - {PROXY_CONNECTION};
    headers := headers - {PROXY_AUTHORIZATION};
    QueryDeleteRemoves(parsed.value, EXIT_PARAM);
    action := Forward(countryCode, searchParams.list, headers);
  }

  /** What the CONNECT handler asks of the backend: a tunnel to `target` through the hinted region. */
  datatype TunnelPlan = TunnelPlan(target: ConnectTarget, countryCode: Option<string>)

  /** The CONNECT handler up to the call of `getSocksPortForRequest`. */
  function PlanConnect(req: Request, decode: string -> Option<string>): (plan: TunnelPlan)
    ensures plan.target == ParseConnectTarget(req.url)
    ensures GetBasicAuthUsername(req.headers, decode).Some? ==>
      plan.countryCode == GetBasicAuthUsername(req.headers, decode)
    ensures GetBasicAuthUsername(req.headers, decode).None? ==>
      plan.countryCode == GetCountryFromConnectHeaders(req.headers)
  {
    TunnelPlan(ParseConnectTarget(req.url), TunnelCountryHint(req.headers, decode))
  }
}
