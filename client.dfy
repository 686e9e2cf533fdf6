/**
 * The HTTP core of the SDK: the client record, the string-to-sign and its
 * HMAC-SHA1 signature, header assembly for one request, and the dispatch on
 * the request method. The date header is an argument (the wall clock is not
 * modelled) and the transport is `Env.send`.
 */
module Client {
  import opened Wrappers
  import opened Text
  import opened Http
  import opened Util
  import opened Primitives
  import Conf

  /** The error variants the core produces (`reqwest` failures are `Transport`). */
  datatype ClientError = Signature | UnsupportedMethod | Xml | Transport

  const XMqVersion: string := "2015-06-06"
  const ContentType: string := "text/xml;charset=utf-8"
  const UserAgent: string := "mq-rust-sdk/1.0.4"
  const DefaultHeaderValue: string := ""

  datatype Client = Client(
    endpoint: string,
    accessKeyId: string,
    accessKeySecret: string,
    securityToken: Option<string>,
    namespace: Option<string>)
  {
    function GetSecurityToken(): Option<string> {
      securityToken
    }

    function GetNamespace(): Option<string> {
      namespace
    }

    /** `Client::new`: the client takes over every field of the options, and its getters agree with the options' getters. */
    static function New(option: Conf.ClientOption): (c: Client)
      reads option
      ensures c.endpoint == option.GetEndpoint()
      ensures c.accessKeyId == option.GetAccessKeyId() && c.accessKeySecret == option.GetAccessKeySecret()
      ensures c.GetSecurityToken() == option.GetSecurityToken() && c.GetNamespace() == option.GetNamespace()
    {
      Client(option.endpoint, option.accessKeyId, option.accessKeySecret, option.securityToken, option.namespace)
    }
  }

  /**
   * The texts that the request turns into header values with `unwrap`:
   * the access key id (inside `Authorization`) and the security token.
   */
  predicate HeaderSafe(c: Client) {
    IsHeaderValueText(c.accessKeyId)
    && (c.securityToken.Some? ==> IsHeaderValueText(c.securityToken.value))
  }

  // ---------------------------------------------------------------------
  // Signing
  // ---------------------------------------------------------------------

  /** A header's field in the string-to-sign: its readable value, or the empty string when it is absent or unreadable. */
  function HeaderField(headers: HeaderMap, name: string): string {
    match Lookup(headers, name)
    case None => DefaultHeaderValue
    case Some(v) => ToStr(v).GetOr("")
  }

  /** `method\nmd5\ncontent-type\ndate\n` followed by the canonical block and, with no separator, the resource. */
  function StringToSign(m: Method, headers: HeaderMap, resource: string): string {
    MethodText(m) + "\n"
    + HeaderField(headers, "content-md5") + "\n"
    + HeaderField(headers, "content-type") + "\n"
    + HeaderField(headers, "date") + "\n"
    + CanonicalizedMqHeaders(headers) + resource
  }

  /** `Client::signature`: base64 of HMAC-SHA1 over the string-to-sign, or `Signature` when the key is refused. */
  function Sign(c: Client, env: Env, m: Method, headers: HeaderMap, resource: string): (r: Result<string, ClientError>)
    ensures r.Err? <==> !env.hmacAcceptsKey(Utf8(c.accessKeySecret))
    ensures r.Err? ==> r.error == Signature
    ensures ValidEnv(env) && r.Ok? ==> IsBase64Text(r.value)
  {
    var key := Utf8(c.accessKeySecret);
    if env.hmacAcceptsKey(key) then
      Ok(env.base64(env.hmacSha1(key, Utf8(StringToSign(m, headers, resource)))))
    else
      Err(Signature)
  }

  /** Headers the string-to-sign does not read. */
  predicate Unsigned(extra: HeaderMap) {
    NoMqHeader(extra)
    && !HasName(extra, "content-md5") && !HasName(extra, "content-type") && !HasName(extra, "date")
  }

  /** Headers added after signing, if the string-to-sign does not read them, leave the signature unchanged. */
  lemma SignIgnoresLaterHeaders(c: Client, env: Env, m: Method, base: HeaderMap, extra: HeaderMap, resource: string)
    requires Unsigned(extra)
    ensures StringToSign(m, base + extra, resource) == StringToSign(m, base, resource)
    ensures Sign(c, env, m, base + extra, resource) == Sign(c, env, m, base, resource)
  {
    StringToSignIgnores(m, base, extra, resource);
  }

  lemma StringToSignIgnores(m: Method, base: HeaderMap, extra: HeaderMap, resource: string)
    requires Unsigned(extra)
    ensures StringToSign(m, base + extra, resource) == StringToSign(m, base, resource)
  {
    var h := base + extra;
    LookupAppendUnsigned(base, extra, "content-md5");
    LookupAppendUnsigned(base, extra, "content-type");
    LookupAppendUnsigned(base, extra, "date");
    CanonicalIgnoresOthers(base, extra, []);
    assert base + extra + [] == h;
    assert base + [] == base;
    assert CanonicalizedMqHeaders(h) == CanonicalizedMqHeaders(base);
  }

  lemma LookupAppendUnsigned(base: HeaderMap, extra: HeaderMap, name: string)
    requires !HasName(extra, name)
    ensures HeaderField(base + extra, name) == HeaderField(base, name)
  {
    LookupAppend(base, extra, name);
  }

  // ---------------------------------------------------------------------
  // The headers of a request
  // ---------------------------------------------------------------------

  /** `Content-Length`: the decimal byte length of the body. */
  function ContentLength(body: string): string {
    Decimal(|Utf8(body)|)
  }

  /** `Content-MD5`: base64 of the 32-character lowercase hex text of the MD5 digest (not of the raw 16 bytes). */
  function ContentMd5(env: Env, body: string): string {
    env.base64(Utf8(HexLower(env.md5(Utf8(body)))))
  }

  /** What base64 encodes for `Content-MD5`: 32 bytes of lowercase hex that spell the MD5 digest. */
  lemma ContentMd5Input(env: Env, body: string)
    ensures var hex := HexLower(env.md5(Utf8(body)));
      |hex| == 32 && |Utf8(hex)| == 32 && IsAscii(hex) && HexBytes(hex) == env.md5(Utf8(body))
  {
    HexIsAscii(env.md5(Utf8(body)));
    HexRoundTrip(env.md5(Utf8(body)));
  }

  /** The four headers every request carries, in insertion order. */
  function FixedHeaders(date: string): HeaderMap {
    [Header("date", date), Header("x-mq-version", XMqVersion),
     Header("content-type", ContentType), Header("user-agent", UserAgent)]
  }

  /** The two headers only a request with a body carries. */
  function BodyHeaders(env: Env, body: Option<string>): HeaderMap {
    match body
    case None => []
    case Some(b) => [Header("content-length", ContentLength(b)), Header("content-md5", ContentMd5(env, b))]
  }

  /** The headers in place when the signature is computed, in insertion order. */
  function UnsignedHeaders(env: Env, body: Option<string>, date: string): HeaderMap {
    FixedHeaders(date) + BodyHeaders(env, body)
  }

  function AuthorizationValue(c: Client, sign: string): string {
    "MQ " + c.accessKeyId + ":" + sign
  }

  function TokenHeader(c: Client): HeaderMap {
    match c.securityToken
    case None => []
    case Some(t) => [Header("security-token", t)]
  }

  /** The headers inserted after signing: the authorization, then the optional token. */
  function LateHeaders(c: Client, sign: string): HeaderMap {
    [Header("authorization", AuthorizationValue(c, sign))] + TokenHeader(c)
  }

  /** The complete header list of a request, or the signing error. */
  function SignedHeaders(c: Client, env: Env, m: Method, resource: string, body: Option<string>, date: string)
    : Result<HeaderMap, ClientError>
  {
    var base := UnsignedHeaders(env, body, date);
    match Sign(c, env, m, base, resource)
    case Err(e) => Err(e)
    case Ok(sign) => Ok(base + LateHeaders(c, sign))
  }

  /** Only a refused HMAC key makes header assembly fail, and then with `Signature`. */
  lemma SignedHeadersFailure(c: Client, env: Env, m: Method, resource: string, body: Option<string>, date: string)
    ensures SignedHeaders(c, env, m, resource, body, date).Err? <==> !env.hmacAcceptsKey(Utf8(c.accessKeySecret))
    ensures SignedHeaders(c, env, m, resource, body, date).Err? ==>
              SignedHeaders(c, env, m, resource, body, date).error == Signature
  {
  }

  lemma FixedHeadersFacts(date: string)
    ensures var f := FixedHeaders(date);
      && DistinctNames(f)
      && Lookup(f, "date") == Some(date)
      && Lookup(f, "x-mq-version") == Some(XMqVersion)
      && Lookup(f, "content-type") == Some(ContentType)
      && Lookup(f, "user-agent") == Some(UserAgent)
      && !HasName(f, "content-length") && !HasName(f, "content-md5")
      && !HasName(f, "authorization") && !HasName(f, "security-token")
  {
    var f := FixedHeaders(date);
    FixedHeadersDistinct(date);
    LookupAt(f, 0);
    LookupAt(f, 1);
    LookupAt(f, 2);
    LookupAt(f, 3);
    FixedHeadersLackOthers(date);
  }

  /** The four fixed names differ in their first letter. */
  lemma FixedHeadersDistinct(date: string)
    ensures DistinctNames(FixedHeaders(date))
  {
    var f := FixedHeaders(date);
    assert f[0].name[0] == 'd' && f[1].name[0] == 'x' && f[2].name[0] == 'c' && f[3].name[0] == 'u';
  }

  /** None of the body, authorization or token names is a fixed name. */
  lemma FixedHeadersLackOthers(date: string)
    ensures var f := FixedHeaders(date);
      && !HasName(f, "content-length") && !HasName(f, "content-md5")
      && !HasName(f, "authorization") && !HasName(f, "security-token")
  {
    var f := FixedHeaders(date);
    assert f[0].name[0] == 'd' && f[1].name[0] == 'x' && f[2].name[8] == 't' && f[3].name[0] == 'u';
    assert "content-length"[8] == 'l' && "content-md5"[8] == 'm';
    assert "authorization"[0] == 'a' && "security-token"[0] == 's';
  }

  lemma BodyHeadersFacts(env: Env, body: Option<string>)
    ensures var b := BodyHeaders(env, body);
      && DistinctNames(b)
      && NoMqHeader(b)
      && Lookup(b, "content-length") == (if body.None? then None else Some(ContentLength(body.value)))
      && Lookup(b, "content-md5") == (if body.None? then None else Some(ContentMd5(env, body.value)))
      && !HasName(b, "date") && !HasName(b, "x-mq-version") && !HasName(b, "content-type") && !HasName(b, "user-agent")
      && !HasName(b, "authorization") && !HasName(b, "security-token")
  {
    var b := BodyHeaders(env, body);
    FixedNamesNotMq();
    if body.Some? {
      BodyHeadersDistinct(env, body.value);
      LookupAt(b, 0);
      LookupAt(b, 1);
      BodyHeadersLackOthers(env, body.value);
    }
  }

  lemma BodyHeadersDistinct(env: Env, body: string)
    ensures DistinctNames(BodyHeaders(env, Some(body)))
  {
    var b := BodyHeaders(env, Some(body));
    assert b[0].name[8] == 'l' && b[1].name[8] == 'm';
  }

  /** Neither body name is a fixed, authorization or token name. */
  lemma BodyHeadersLackOthers(env: Env, body: string)
    ensures var b := BodyHeaders(env, Some(body));
      && !HasName(b, "date") && !HasName(b, "x-mq-version") && !HasName(b, "content-type") && !HasName(b, "user-agent")
      && !HasName(b, "authorization") && !HasName(b, "security-token")
  {
    var b := BodyHeaders(env, Some(body));
    assert b[0].name[0] == 'c' && b[0].name[8] == 'l' && b[1].name[0] == 'c' && b[1].name[8] == 'm';
    assert "date"[0] == 'd' && "x-mq-version"[0] == 'x' && "content-type"[8] == 't' && "user-agent"[0] == 'u';
    assert "authorization"[0] == 'a' && "security-token"[0] == 's';
  }

  lemma LateHeadersFacts(c: Client, sign: string)
    ensures var l := LateHeaders(c, sign);
      && DistinctNames(l)
      && Unsigned(l)
      && Lookup(l, "authorization") == Some(AuthorizationValue(c, sign))
      && Lookup(l, "security-token") == c.securityToken
      && !HasName(l, "x-mq-version") && !HasName(l, "user-agent") && !HasName(l, "content-length")
  {
    var l := LateHeaders(c, sign);
    FixedNamesNotMq();
    LookupAt(l, 0);
    if c.securityToken.Some? {
      LookupAt(l, 1);
    }
    assert "content-length"[0] != "security-token"[0];
  }

  lemma UnsignedHeadersFacts(env: Env, body: Option<string>, date: string)
    ensures DistinctNames(UnsignedHeaders(env, body, date))
    ensures !HasName(UnsignedHeaders(env, body, date), "authorization")
    ensures !HasName(UnsignedHeaders(env, body, date), "security-token")
  {
    var f, b := FixedHeaders(date), BodyHeaders(env, body);
    UnsignedDistinct(env, body, date);
    FixedHeadersFacts(date);
    BodyHeadersFacts(env, body);
    LookupAppend(f, b, "authorization");
    LookupAppend(f, b, "security-token");
  }

  lemma UnsignedDistinct(env: Env, body: Option<string>, date: string)
    ensures DistinctNames(UnsignedHeaders(env, body, date))
  {
    var f, b := FixedHeaders(date), BodyHeaders(env, body);
    FixedHeadersDistinct(date);
    FixedHeadersLackOthers(date);
    if body.Some? {
      BodyHeadersDistinct(env, body.value);
      assert b[0].name == "content-length" && b[1].name == "content-md5";
      AppendDistinct(f, b);
    } else {
      assert f + b == f;
    }
  }

  /** A successful assembly is the unsigned headers followed by the late ones, signed over the unsigned ones. */
  lemma SignedHeadersShape(c: Client, env: Env, m: Method, resource: string, body: Option<string>, date: string)
    requires SignedHeaders(c, env, m, resource, body, date).Ok?
    ensures SignedHeaders(c, env, m, resource, body, date).value
         == FixedHeaders(date) + BodyHeaders(env, body)
            + LateHeaders(c, Sign(c, env, m, UnsignedHeaders(env, body, date), resource).value)
  {
  }

  lemma AssembledDistinct(c: Client, env: Env, body: Option<string>, date: string, sign: string)
    ensures DistinctNames(FixedHeaders(date) + BodyHeaders(env, body) + LateHeaders(c, sign))
  {
    var base, l := UnsignedHeaders(env, body, date), LateHeaders(c, sign);
    UnsignedHeadersFacts(env, body, date);
    LateHeadersFacts(c, sign);
    assert forall j :: 0 <= j < |l| ==> l[j].name == "authorization" || l[j].name == "security-token";
    AppendDistinct(base, l);
  }

  /** The lookups in an assembled header list, for any signature text. */
  lemma AssembledHeaderValues(c: Client, env: Env, body: Option<string>, date: string, sign: string)
    ensures var h := FixedHeaders(date) + BodyHeaders(env, body) + LateHeaders(c, sign);
      && DistinctNames(h)
      && Lookup(h, "date") == Some(date)
      && Lookup(h, "x-mq-version") == Some(XMqVersion)
      && Lookup(h, "content-type") == Some(ContentType)
      && Lookup(h, "user-agent") == Some(UserAgent)
      && Lookup(h, "content-length") == (if body.None? then None else Some(ContentLength(body.value)))
      && Lookup(h, "content-md5") == (if body.None? then None else Some(ContentMd5(env, body.value)))
      && Lookup(h, "authorization") == Some(AuthorizationValue(c, sign))
      && Lookup(h, "security-token") == c.securityToken
  {
    var f, b, l := FixedHeaders(date), BodyHeaders(env, body), LateHeaders(c, sign);
    FixedHeadersFacts(date);
    BodyHeadersFacts(env, body);
    LateHeadersFacts(c, sign);
    AssembledDistinct(c, env, body, date, sign);
    LookupThree(f, b, l, "date");
    LookupThree(f, b, l, "x-mq-version");
    LookupThree(f, b, l, "content-type");
    LookupThree(f, b, l, "user-agent");
    LookupThree(f, b, l, "content-length");
    LookupThree(f, b, l, "content-md5");
    LookupThree(f, b, l, "authorization");
    LookupThree(f, b, l, "security-token");
  }

  /**
   * The header values of a signed request: the fixed four always; the
   * body's length and digest exactly when there is a body; the
   * authorization `MQ id:signature`, where the signature is the one over
   * the final header list (so adding it and the token changed nothing);
   * the security token exactly when one is configured.
   */
  lemma SignedHeaderValues(c: Client, env: Env, m: Method, resource: string, body: Option<string>, date: string)
    requires SignedHeaders(c, env, m, resource, body, date).Ok?
    ensures var h := SignedHeaders(c, env, m, resource, body, date).value;
      && DistinctNames(h)
      && Lookup(h, "date") == Some(date)
      && Lookup(h, "x-mq-version") == Some("2015-06-06")
      && Lookup(h, "content-type") == Some("text/xml;charset=utf-8")
      && Lookup(h, "user-agent") == Some("mq-rust-sdk/1.0.4")
      && Lookup(h, "content-length") == (if body.None? then None else Some(Decimal(|Utf8(body.value)|)))
      && (body.Some? ==> DecimalValue(Lookup(h, "content-length").value) == |Utf8(body.value)|)
      && Lookup(h, "content-md5") == (if body.None? then None else Some(ContentMd5(env, body.value)))
      && Lookup(h, "authorization") == Some("MQ " + c.accessKeyId + ":" + Sign(c, env, m, h, resource).value)
      && Lookup(h, "security-token") == c.securityToken
  {
    var base := UnsignedHeaders(env, body, date);
    var sign := Sign(c, env, m, base, resource).value;
    var l := LateHeaders(c, sign);
    SignedHeadersShape(c, env, m, resource, body, date);
    AssembledHeaderValues(c, env, body, date, sign);
    LateHeadersFacts(c, sign);
    SignIgnoresLaterHeaders(c, env, m, base, l, resource);
    if body.Some? {
      DecimalRoundTrip(|Utf8(body.value)|);
    }
  }

  lemma FixedHeadersCanonicalBlock(date: string)
    ensures CanonicalizedMqHeaders(FixedHeaders(date)) == "x-mq-version:2015-06-06\n"
  {
    var f := FixedHeaders(date);
    FixedNamesNotMq();
    assert f == [f[0]] + [f[1]] + f[2..];
    assert NoMqHeader(f[2..]);
    CanonicalSingle(f[0]);
    VersionContribution();
    CanonicalOrder([f[0]], f[1], f[2..]);
  }

  /** The `x-mq-version` header contributes its one canonical line. */
  lemma VersionContribution()
    ensures Contribution(Header("x-mq-version", XMqVersion)) == "x-mq-version:2015-06-06\n"
  {
    FixedNamesNotMq();
    assert ToStr(XMqVersion) == Some(XMqVersion);
  }

  /** Every request carries `x-mq-version` and no other `x-mq-` header, so its canonical block is one fixed line. */
  lemma SignedHeadersCanonicalBlock(c: Client, env: Env, m: Method, resource: string, body: Option<string>, date: string)
    requires SignedHeaders(c, env, m, resource, body, date).Ok?
    ensures CanonicalizedMqHeaders(SignedHeaders(c, env, m, resource, body, date).value) == "x-mq-version:2015-06-06\n"
    ensures CanonicalizedMqHeaders(UnsignedHeaders(env, body, date)) == "x-mq-version:2015-06-06\n"
  {
    var sign := Sign(c, env, m, UnsignedHeaders(env, body, date), resource).value;
    SignedHeadersShape(c, env, m, resource, body, date);
    AssembledCanonicalBlock(c, env, body, date, sign);
  }

  lemma AssembledCanonicalBlock(c: Client, env: Env, body: Option<string>, date: string, sign: string)
    ensures CanonicalizedMqHeaders(FixedHeaders(date) + BodyHeaders(env, body) + LateHeaders(c, sign)) == "x-mq-version:2015-06-06\n"
    ensures CanonicalizedMqHeaders(UnsignedHeaders(env, body, date)) == "x-mq-version:2015-06-06\n"
  {
    var f, b, l := FixedHeaders(date), BodyHeaders(env, body), LateHeaders(c, sign);
    FixedHeadersCanonicalBlock(date);
    OptionalHeadersNotMq(c, env, body, sign);
    CanonicalConcat(f, b);
    CanonicalConcat(f + b, l);
  }

  /** Neither the body headers nor the late headers contribute to the canonical block. */
  lemma OptionalHeadersNotMq(c: Client, env: Env, body: Option<string>, sign: string)
    ensures CanonicalizedMqHeaders(BodyHeaders(env, body)) == ""
    ensures CanonicalizedMqHeaders(LateHeaders(c, sign)) == ""
  {
    BodyHeadersFacts(env, body);
    LateHeadersFacts(c, sign);
  }

  /**
   * The string-to-sign of every request spelled out: method, the body
   * digest or nothing, the content type, the date if it reads as visible
   * ASCII, then `x-mq-version:2015-06-06\n` directly followed by the resource.
   */
  lemma SignedRequestStringToSign(c: Client, env: Env, m: Method, resource: string, body: Option<string>, date: string)
    requires ValidEnv(env)
    requires SignedHeaders(c, env, m, resource, body, date).Ok?
    ensures StringToSign(m, SignedHeaders(c, env, m, resource, body, date).value, resource)
         == MethodText(m) + "\n"
            + (if body.None? then "" else ContentMd5(env, body.value)) + "\n"
            + "text/xml;charset=utf-8" + "\n"
            + ToStr(date).GetOr("") + "\n"
            + "x-mq-version:2015-06-06\n" + resource
  {
    var sign := Sign(c, env, m, UnsignedHeaders(env, body, date), resource).value;
    SignedHeadersShape(c, env, m, resource, body, date);
    AssembledStringToSign(c, env, m, resource, body, date, sign);
  }

  lemma AssembledStringToSign(c: Client, env: Env, m: Method, resource: string, body: Option<string>, date: string, sign: string)
    requires ValidEnv(env)
    ensures StringToSign(m, FixedHeaders(date) + BodyHeaders(env, body) + LateHeaders(c, sign), resource)
         == MethodText(m) + "\n"
            + (if body.None? then "" else ContentMd5(env, body.value)) + "\n"
            + "text/xml;charset=utf-8" + "\n"
            + ToStr(date).GetOr("") + "\n"
            + "x-mq-version:2015-06-06\n" + resource
  {
    var h := FixedHeaders(date) + BodyHeaders(env, body) + LateHeaders(c, sign);
    AssembledHeaderValues(c, env, body, date, sign);
    AssembledCanonicalBlock(c, env, body, date, sign);
    if body.Some? {
      Base64IsHeaderText(ContentMd5(env, body.value));
      assert HeaderField(h, "content-md5") == ContentMd5(env, body.value);
    } else {
      assert HeaderField(h, "content-md5") == "";
    }
    ConstantsAreVisible();
    assert HeaderField(h, "content-type") == "text/xml;charset=utf-8";
    assert HeaderField(h, "date") == ToStr(date).GetOr("");
  }

  // ---------------------------------------------------------------------
  // Dispatch
  // ---------------------------------------------------------------------

  /** The methods `make_request` has a builder for. */
  predicate IsDispatched(m: Method) {
    m == GET || m == DELETE || m == POST
  }

  /**
   * The method line of the string-to-sign names GET, DELETE or POST exactly
   * when the request is dispatched: an extension method never spells a
   * standard name, because parsing normalises those.
   */
  lemma DispatchedByMethodText(m: Method)
    ensures IsDispatched(m) <==> MethodText(m) in {"GET", "DELETE", "POST"}
  {
    if m.Extension? {
      assert !IsStandardToken(m.token);
    }
  }

  /** `send().await?`: a transport failure becomes `Transport`. */
  function Send(env: Env, req: HttpRequest): Result<Response, ClientError> {
    match env.send(req)
    case None => Err(Transport)
    case Some(resp) => Ok(resp)
  }

  /** `make_request`: GET, DELETE and POST are sent with the headers and body given; any other method is `UnsupportedMethod`, unsent. */
  function MakeRequest(env: Env, url: string, m: Method, headers: HeaderMap, body: Option<string>)
    : (r: Result<Response, ClientError>)
    ensures r == Err(UnsupportedMethod) <==> !IsDispatched(m)
    ensures IsDispatched(m) ==> r == Send(env, HttpRequest(m, url, headers, body))
  {
    match m
    case GET => Send(env, HttpRequest(GET, url, headers, body))
    case DELETE => Send(env, HttpRequest(DELETE, url, headers, body))
    case POST => Send(env, HttpRequest(POST, url, headers, body))
    case _ => Err(UnsupportedMethod)
  }

  /** What one call of `request` yields: header assembly and signing first, then dispatch to `endpoint + resource`. */
  function Exchange(c: Client, env: Env, m: Method, resource: string, body: Option<string>, date: string)
    : Result<Response, ClientError>
  {
    match SignedHeaders(c, env, m, resource, body, date)
    case Err(e) => Err(e)
    case Ok(h) => MakeRequest(env, c.endpoint + resource, m, h, body)
  }

  /**
   * The outcomes of a request: `Signature` exactly when the HMAC key is
   * refused (nothing is sent); otherwise `UnsupportedMethod` exactly for a
   * method other than GET, DELETE and POST (nothing is sent); otherwise the
   * signed request goes to `endpoint + resource` with the body unchanged.
   */
  lemma ExchangeOutcome(c: Client, env: Env, m: Method, resource: string, body: Option<string>, date: string)
    ensures var r := Exchange(c, env, m, resource, body, date);
      && (r == Err(Signature) <==> !env.hmacAcceptsKey(Utf8(c.accessKeySecret)))
      && (r == Err(UnsupportedMethod) <==> env.hmacAcceptsKey(Utf8(c.accessKeySecret)) && !IsDispatched(m))
      && (env.hmacAcceptsKey(Utf8(c.accessKeySecret)) && IsDispatched(m) ==>
            r == Send(env, HttpRequest(m, c.endpoint + resource, SignedHeaders(c, env, m, resource, body, date).value, body)))
  {
    SignedHeadersFailure(c, env, m, resource, body, date);
  }

  /** `to_str` reads the fixed header values back unchanged. */
  lemma ConstantsAreVisible()
    ensures ToStr(XMqVersion) == Some(XMqVersion) && ToStr(ContentType) == Some(ContentType)
  {
  }

  lemma ConstantsAreHeaderText()
    ensures IsHeaderValueText(XMqVersion) && IsHeaderValueText(ContentType) && IsHeaderValueText(UserAgent)
    ensures IsHeaderValueText("MQ ") && IsHeaderValueText(":")
  {
  }

  lemma DigitsAreHeaderText(s: string)
    requires AllDigits(s)
    ensures IsHeaderValueText(s)
  {
  }

  /** The fixed headers have distinct names and values `HeaderValue::from_str` accepts. */
  lemma FixedHeadersInsertable(date: string)
    requires IsHeaderValueText(date)
    ensures DistinctNames(FixedHeaders(date))
    ensures forall i :: 0 <= i < |FixedHeaders(date)| ==> IsHeaderValueText(FixedHeaders(date)[i].value)
  {
    FixedHeadersDistinct(date);
    ConstantsAreHeaderText();
  }

  /** The first part of `request`: the four fixed headers, inserted one by one. */
  method InsertFixedHeaders(date: string) returns (headers: HeaderMap)
    requires IsHeaderValueText(date)
    ensures headers == FixedHeaders(date)
  {
    headers := InsertDateAndVersion(date);
    headers := InsertTypeAndAgent(date, headers);
  }

  /** `Date`, then `x-mq-version`. */
  method InsertDateAndVersion(date: string) returns (headers: HeaderMap)
    requires IsHeaderValueText(date)
    ensures headers == FixedHeaders(date)[..2]
  {
    ghost var f := FixedHeaders(date);
    FixedHeadersInsertable(date);
    headers := [];
    assert headers == f[..0];
    InsertNext(f, 0);
    headers := Insert(headers, "date", date);
    InsertNext(f, 1);
    headers := Insert(headers, "x-mq-version", XMqVersion);
  }

  /** `Content-Type`, then `User-Agent`, after the first two fixed headers. */
  method InsertTypeAndAgent(date: string, leading: HeaderMap) returns (headers: HeaderMap)
    requires IsHeaderValueText(date)
    requires leading == FixedHeaders(date)[..2]
    ensures headers == FixedHeaders(date)
  {
    ghost var f := FixedHeaders(date);
    FixedHeadersInsertable(date);
    InsertNext(f, 2);
    headers := Insert(leading, "content-type", ContentType);
    InsertNext(f, 3);
    headers := Insert(headers, "user-agent", UserAgent);
    assert f[..4] == f;
  }

  /** The headers `request` inserts before signing. */
  method InsertUnsignedHeaders(env: Env, body: Option<string>, date: string) returns (headers: HeaderMap)
    requires ValidEnv(env) && IsHeaderValueText(date)
    ensures headers == UnsignedHeaders(env, body, date)
  {
    headers := InsertFixedHeaders(date);
    if body.Some? {
      headers := InsertBodyHeaders(env, date, headers, body.value);
    } else {
      assert headers == FixedHeaders(date) + BodyHeaders(env, body);
    }
  }

  /** The body part of `request`: `Content-Length`, then `Content-MD5`. */
  method InsertBodyHeaders(env: Env, date: string, headers: HeaderMap, body: string) returns (withBody: HeaderMap)
    requires ValidEnv(env)
    requires headers == FixedHeaders(date)
    ensures withBody == FixedHeaders(date) + BodyHeaders(env, Some(body))
  {
    ghost var u := UnsignedHeaders(env, Some(body), date);
    UnsignedHeadersFacts(env, Some(body), date);
    var len := ContentLength(body);
    var digest := env.md5(Utf8(body));
    var md5 := HexLower(digest);
    var encoded := env.base64(Utf8(md5));
    DigitsAreHeaderText(len);
    Base64IsHeaderText(encoded);
    assert u[..4] == headers;
    assert u[4] == Header("content-length", len) && u[5] == Header("content-md5", encoded);
    InsertNext(u, 4);
    withBody := Insert(headers, "content-length", len);
    InsertNext(u, 5);
    withBody := Insert(withBody, "content-md5", encoded);
    assert u[..6] == u;
  }

  /** The last part of `request`: the authorization, then the security token if one is configured. */
  method InsertLateHeaders(c: Client, env: Env, body: Option<string>, date: string, headers: HeaderMap, sign: string)
    returns (signed: HeaderMap)
    requires ValidEnv(env) && HeaderSafe(c) && IsBase64Text(sign)
    requires headers == UnsignedHeaders(env, body, date)
    ensures signed == headers + LateHeaders(c, sign)
  {
    var auth := AuthorizationValue(c, sign);
    Base64IsHeaderText(sign);
    ConstantsAreHeaderText();
    HeaderValueTextConcat("MQ ", c.accessKeyId);
    HeaderValueTextConcat("MQ " + c.accessKeyId, ":");
    HeaderValueTextConcat("MQ " + c.accessKeyId + ":", sign);
    UnsignedHeadersFacts(env, body, date);
    signed := Insert(headers, "authorization", auth);
    if c.securityToken.Some? {
      LookupAppend(headers, [Header("authorization", auth)], "security-token");
      signed := Insert(signed, "security-token", c.securityToken.value);
    }
  }

  /**
   * `Client::request`: inserts the headers one by one, signs, adds the
   * authorization and the optional token, then dispatches. The `unwrap`s on
   * header values are why the date and the client's texts must be header text.
   */
  method Request(c: Client, env: Env, m: Method, resource: string, body: Option<string>, date: string)
    returns (r: Result<Response, ClientError>)
    requires ValidEnv(env) && IsHeaderValueText(date) && HeaderSafe(c)
    ensures r == Exchange(c, env, m, resource, body, date)
  {
    var url := c.endpoint + resource;
    var headers := InsertUnsignedHeaders(env, body, date);
    var sign := Sign(c, env, m, headers, resource);
    if sign.Err? {
      return Err(sign.error);
    }
    headers := InsertLateHeaders(c, env, body, date, headers, sign.value);
    r := MakeRequest(env, url, m, headers, body);
  }

  /** `get`: a signed GET of `endpoint + resource` with no body; it can never be `UnsupportedMethod`. */
  method Get(c: Client, env: Env, resource: string, date: string) returns (r: Result<Response, ClientError>)
    requires ValidEnv(env) && IsHeaderValueText(date) && HeaderSafe(c)
    ensures r == Exchange(c, env, GET, resource, None, date)
    ensures r != Err(UnsupportedMethod)
  {
    r := Request(c, env, GET, resource, None, date);
  }

  /** `post`: a signed POST carrying `body`; it can never be `UnsupportedMethod`. */
  method Post(c: Client, env: Env, resource: string, body: string, date: string) returns (r: Result<Response, ClientError>)
    requires ValidEnv(env) && IsHeaderValueText(date) && HeaderSafe(c)
    ensures r == Exchange(c, env, POST, resource, Some(body), date)
    ensures r != Err(UnsupportedMethod)
  {
    r := Request(c, env, POST, resource, Some(body), date);
  }

  /** `delete`: a signed DELETE carrying `body`; it can never be `UnsupportedMethod`. */
  method Delete(c: Client, env: Env, resource: string, body: string, date: string) returns (r: Result<Response, ClientError>)
    requires ValidEnv(env) && IsHeaderValueText(date) && HeaderSafe(c)
    ensures r == Exchange(c, env, DELETE, resource, Some(body), date)
    ensures r != Err(UnsupportedMethod)
  {
    r := Request(c, env, DELETE, resource, Some(body), date);
  }
}
