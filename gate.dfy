/** The request gate (`app/api/middleware.ts`): which requests consult the
    rate limiter, under which key, the 429 answer with its `Retry-After`,
    the headers attached to a forwarded request, and the route matcher
    that decides which paths reach the gate at all. The limiter's verdict
    and the clock are inputs. */
module Gate {
  import opened Common
  import opened JsNumber

  const ApiPrefix: string := "/api/"
  const KeyPrefix: string := "ratelimit_middleware_"
  const LoopbackAddress: string := "127.0.0.1"

  /** `pathname.startsWith('/api/')` */
  predicate IsApiPath(path: string) {
    StartsWith(path, ApiPrefix)
  }

  /** `` `ratelimit_middleware_${request.ip ?? '127.0.0.1'}` `` */
  function LimiterKey(ip: Option<string>): (key: string)
    ensures StartsWith(key, KeyPrefix)
    ensures key[|KeyPrefix|..] == ip.GetOr(LoopbackAddress)
  {
    KeyPrefix + ip.GetOr(LoopbackAddress)
  }

  /** Distinct client addresses get distinct limiter keys; a request with
      no address shares the loopback address's key. */
  lemma LimiterKeySeparatesClients(a: Option<string>, b: Option<string>)
    ensures LimiterKey(a) == LimiterKey(b) <==> a.GetOr(LoopbackAddress) == b.GetOr(LoopbackAddress)
    ensures LimiterKey(None) == LimiterKey(Some(LoopbackAddress))
  {
    if LimiterKey(a) == LimiterKey(b) {
      assert LimiterKey(a)[|KeyPrefix|..] == LimiterKey(b)[|KeyPrefix|..];
    }
  }

  /** `Math.ceil(Math.max(0, reset - now) / 1000)` on integer milliseconds:
      the least whole number of seconds that covers the remaining wait. */
  function RetryAfterSeconds(reset: int, now: int): (r: nat)
    ensures r * 1000 >= reset - now
    ensures r > 0 ==> (r - 1) * 1000 < reset - now
    ensures r == 0 <==> reset <= now
  {
    var wait := if reset - now > 0 then reset - now else 0;
    (wait + 999) / 1000
  }

  /** The limiter's answer: `{ success, limit, remaining, reset }`, reset
      being a time in milliseconds. */
  datatype LimitResult = LimitResult(success: bool, limit: nat, remaining: nat, reset: nat)

  /** The names of the headers the gate sets. */
  datatype HeaderName =
    | DnsPrefetchControl | StrictTransportSecurity | XssProtection | FrameOptions
    | ContentTypeOptions | ReferrerPolicy | ContentSecurityPolicy
    | RateLimitLimit | RateLimitRemaining | RateLimitReset | RetryAfter
  {
    /** One of the three headers that report the limiter's state. */
    predicate IsRateLimit() {
      RateLimitLimit? || RateLimitRemaining? || RateLimitReset?
    }

    /** One of the seven fixed security headers. */
    predicate IsSecurity() {
      !IsRateLimit() && !RetryAfter?
    }

    /** The name as the source spells it. */
    function Text(): string {
      match this
      case DnsPrefetchControl => "X-DNS-Prefetch-Control"
      case StrictTransportSecurity => "Strict-Transport-Security"
      case XssProtection => "X-XSS-Protection"
      case FrameOptions => "X-Frame-Options"
      case ContentTypeOptions => "X-Content-Type-Options"
      case ReferrerPolicy => "Referrer-Policy"
      case ContentSecurityPolicy => "Content-Security-Policy"
      case RateLimitLimit => "X-RateLimit-Limit"
      case RateLimitRemaining => "X-RateLimit-Remaining"
      case RateLimitReset => "X-RateLimit-Reset"
      case RetryAfter => "Retry-After"
    }
  }

  /** Different names are spelled differently, so a map keyed by
      `HeaderName` is a map keyed by the spelled names. */
  lemma HeaderNameTextInjective(a: HeaderName, b: HeaderName)
    requires a != b
    ensures a.Text() != b.Text()
  {
  }

  type Header = (HeaderName, string)

  const DnsPrefetchValue := "on"
  const TransportSecurityValue := "max-age=31536000; includeSubDomains"
  const XssProtectionValue := "1; mode=block"
  const FrameOptionsValue := "DENY"
  const ContentTypeOptionsValue := "nosniff"
  const ReferrerPolicyValue := "origin-when-cross-origin"
  const ContentSecurityPolicyValue :=
    "default-src 'self'; script-src 'self' 'unsafe-inline' 'unsafe-eval'; style-src 'self' 'unsafe-inline'; img-src 'self' data: https:; font-src 'self' data:; connect-src 'self' https://*.supabase.co;"

  /** `Object.entries(securityHeaders)`: the pairs in declaration order. */
  const SecurityHeaders: seq<Header> := [
    (DnsPrefetchControl, DnsPrefetchValue),
    (StrictTransportSecurity, TransportSecurityValue),
    (XssProtection, XssProtectionValue),
    (FrameOptions, FrameOptionsValue),
    (ContentTypeOptions, ContentTypeOptionsValue),
    (ReferrerPolicy, ReferrerPolicyValue),
    (ContentSecurityPolicy, ContentSecurityPolicyValue)
  ]

  /** `securityHeaders` as an object: each name with its value. */
  const SecurityMap: map<HeaderName, string> := map[
    DnsPrefetchControl := DnsPrefetchValue,
    StrictTransportSecurity := TransportSecurityValue,
    XssProtection := XssProtectionValue,
    FrameOptions := FrameOptionsValue,
    ContentTypeOptions := ContentTypeOptionsValue,
    ReferrerPolicy := ReferrerPolicyValue,
    ContentSecurityPolicy := ContentSecurityPolicyValue
  ]

  /** The header map obtained by setting each pair in order; a later pair
      replaces an earlier one with the same name. */
  function HeaderMap(hs: seq<Header>): map<HeaderName, string>
    decreases |hs|
  {
    if hs == [] then map[] else HeaderMap(hs[..|hs| - 1])[hs[|hs| - 1].0 := hs[|hs| - 1].1]
  }

  /** Setting the entries of `securityHeaders` one after the other gives
      the object back: no name is set twice. */
  lemma SecurityHeadersInOrder()
    ensures HeaderMap(SecurityHeaders) == SecurityMap
  {
    var hs := SecurityHeaders;
    assert hs[..1][..0] == [];
    assert HeaderMap(hs[..1]) == map[DnsPrefetchControl := DnsPrefetchValue];
    assert hs[..2][..1] == hs[..1];
    assert HeaderMap(hs[..2]) == HeaderMap(hs[..1])[StrictTransportSecurity := TransportSecurityValue];
    assert hs[..3][..2] == hs[..2];
    assert HeaderMap(hs[..3]) == HeaderMap(hs[..2])[XssProtection := XssProtectionValue];
    assert hs[..4][..3] == hs[..3];
    assert HeaderMap(hs[..4]) == HeaderMap(hs[..3])[FrameOptions := FrameOptionsValue];
    assert hs[..5][..4] == hs[..4];
    assert HeaderMap(hs[..5]) == HeaderMap(hs[..4])[ContentTypeOptions := ContentTypeOptionsValue];
    assert hs[..6][..5] == hs[..5];
    assert HeaderMap(hs[..6]) == HeaderMap(hs[..5])[ReferrerPolicy := ReferrerPolicyValue];
    assert hs[..7][..6] == hs[..6] && hs[..7] == hs;
  }

  /** The three rate-limit headers, values as `toString()` renders them. */
  function RateLimitMap(l: LimitResult): map<HeaderName, string> {
    map[RateLimitLimit := NatToString(l.limit),
        RateLimitRemaining := NatToString(l.remaining),
        RateLimitReset := NatToString(l.reset)]
  }

  /** The header object of the 429 answer: the security headers spread
      first, then the rate-limit headers and `Retry-After`; a later key
      would replace an earlier one. */
  function RejectionMap(l: LimitResult, now: int): map<HeaderName, string> {
    SecurityMap + RateLimitMap(l) + map[RetryAfter := NatToString(RetryAfterSeconds(l.reset, now))]
  }

  /** A response's header list (`response.headers`), updated in place by
      `set`. */
  class Headers {
    var entries: map<HeaderName, string>

    constructor ()
      ensures entries == map[]
    {
      entries := map[];
    }

    method Set(name: HeaderName, value: string)
      modifies this
      ensures entries == old(entries)[name := value]
    {
      entries := entries[name := value];
    }
  }

  /** `Object.entries(obj).forEach(([k, v]) => headers.set(k, v))` for the
      entries `hs` of some object. */
  method SetEach(h: Headers, hs: seq<Header>)
    modifies h
    ensures h.entries == old(h.entries) + HeaderMap(hs)
  {
    for i := 0 to |hs|
      invariant h.entries == old(h.entries) + HeaderMap(hs[..i])
    {
      assert hs[..i + 1][..i] == hs[..i];
      h.Set(hs[i].0, hs[i].1);
    }
    assert hs[..|hs|] == hs;
  }

  /** The forwarded response gets every security header, each with its
      declared value, on top of what it already had. */
  method AddSecurityHeaders(h: Headers)
    modifies h
    ensures h.entries == old(h.entries) + SecurityMap
  {
    SetEach(h, SecurityHeaders);
    SecurityHeadersInOrder();
  }

  /** What the gate does with a request: forward it with extra headers, or
      answer it itself. */
  datatype GateResponse =
    | Forward(headers: map<HeaderName, string>)
    | Reject(status: int, body: string, headers: map<HeaderName, string>)

  /** `limiterKey` is the key the limiter was consulted with, if it was. */
  datatype GateOutcome = GateOutcome(limiterKey: Option<string>, response: GateResponse)

  /** `middleware(request)`: `limiter` is what the limiter answers when it
      is consulted and `now` is `Date.now()`. */
  method Middleware(path: string, ip: Option<string>, limiter: LimitResult, now: int) returns (o: GateOutcome)
    ensures o.limiterKey.Some? <==> IsApiPath(path)
    ensures o.limiterKey.Some? ==> o.limiterKey.value == LimiterKey(ip)
    ensures !IsApiPath(path) ==> o.response == Forward(SecurityMap)
    ensures IsApiPath(path) && !limiter.success ==>
      o.response == Reject(429, "Too Many Requests", RejectionMap(limiter, now))
    ensures IsApiPath(path) && limiter.success ==>
      o.response == Forward(RateLimitMap(limiter) + SecurityMap)
  {
    if IsApiPath(path) {
      var key := LimiterKey(ip);
      if !limiter.success {
        o := GateOutcome(Some(key), Reject(429, "Too Many Requests", RejectionMap(limiter, now)));
        return;
      }
      var h := new Headers();
      h.Set(RateLimitLimit, NatToString(limiter.limit));
      h.Set(RateLimitRemaining, NatToString(limiter.remaining));
      h.Set(RateLimitReset, NatToString(limiter.reset));
      assert h.entries == RateLimitMap(limiter);
      AddSecurityHeaders(h);
      o := GateOutcome(Some(key), Forward(h.entries));
    } else {
      var h := new Headers();
      AddSecurityHeaders(h);
      o := GateOutcome(None, Forward(h.entries));
    }
  }

  // ---------------------------------------------------------------------
  // Header maps

  /** A non-API request is forwarded with the seven security headers and
      with nothing else. */
  lemma SecurityMapShape()
    ensures SecurityMap.Keys == {DnsPrefetchControl, StrictTransportSecurity, XssProtection,
                                 FrameOptions, ContentTypeOptions, ReferrerPolicy, ContentSecurityPolicy}
    ensures forall n: HeaderName :: n in SecurityMap <==> n.IsSecurity()
  {
  }

  /** There are seven of them. */
  lemma SecurityMapSize()
    ensures |SecurityMap| == 7
  {
    SecurityMapShape();
  }

  /** The rate-limit headers are the three rate-limit names. */
  lemma RateLimitMapShape(l: LimitResult)
    ensures RateLimitMap(l).Keys == {RateLimitLimit, RateLimitRemaining, RateLimitReset}
    ensures forall n: HeaderName :: n in RateLimitMap(l) <==> n.IsRateLimit()
    ensures |RateLimitMap(l)| == 3
  {
    assert RateLimitMap(l).Keys == {RateLimitLimit, RateLimitRemaining, RateLimitReset};
  }

  /** The rate-limit values read back as the limiter's numbers. */
  lemma RateLimitValues(l: LimitResult)
    ensures var m := RateLimitMap(l);
      && ParseInt(m[RateLimitLimit]) == Int(l.limit)
      && ParseInt(m[RateLimitRemaining]) == Int(l.remaining)
      && ParseInt(m[RateLimitReset]) == Int(l.reset)
  {
    ParseIntOfNatToString(l.limit);
    ParseIntOfNatToString(l.remaining);
    ParseIntOfNatToString(l.reset);
  }

  /** The size of a union of maps with disjoint keys. */
  lemma DisjointUnionSize(a: map<HeaderName, string>, b: map<HeaderName, string>)
    requires a.Keys !! b.Keys
    ensures |a + b| == |a| + |b|
  {
    assert (a + b).Keys == a.Keys + b.Keys;
  }

  /** An accepted API request is forwarded with the three rate-limit
      headers and the seven security headers: no name is in both groups, so
      neither overwrites the other, and there is no `Retry-After`. */
  lemma ForwardedApiHeaders(l: LimitResult)
    ensures RateLimitMap(l).Keys !! SecurityMap.Keys
    ensures var m := RateLimitMap(l) + SecurityMap;
      && (forall n :: n in SecurityMap ==> n in m && m[n] == SecurityMap[n])
      && (forall n :: n in RateLimitMap(l) ==> n in m && m[n] == RateLimitMap(l)[n])
      && RetryAfter !in m
  {
    SecurityMapShape();
    RateLimitMapShape(l);
    assert !RetryAfter.IsSecurity() && !RetryAfter.IsRateLimit();
  }

  /** Ten headers in all. */
  lemma ForwardedApiHeaderCount(l: LimitResult)
    ensures |RateLimitMap(l) + SecurityMap| == 10
  {
    SecurityMapSize();
    RateLimitMapShape(l);
    ForwardedApiHeaders(l);
    DisjointUnionSize(RateLimitMap(l), SecurityMap);
  }

  /** The 429 answer carries every security header as declared, the three
      rate-limit headers with the limiter's values and `Retry-After` with
      the waiting time in whole seconds. */
  lemma RejectionHeaderMap(l: LimitResult, now: int)
    ensures var m := RejectionMap(l, now);
      && (forall n :: n in SecurityMap ==> n in m && m[n] == SecurityMap[n])
      && (forall n :: n in RateLimitMap(l) ==> n in m && m[n] == RateLimitMap(l)[n])
      && RetryAfter in m && m[RetryAfter] == NatToString(RetryAfterSeconds(l.reset, now))
  {
    ForwardedApiHeaders(l);
  }

  /** Eleven headers in all: the spread and the literal keys are disjoint. */
  lemma RejectionHeaderCount(l: LimitResult, now: int)
    ensures |RejectionMap(l, now)| == 11
  {
    ForwardedApiHeaders(l);
    ForwardedApiHeaderCount(l);
    DisjointUnionCommutes(SecurityMap, RateLimitMap(l));
    AddAbsentKey(SecurityMap + RateLimitMap(l), RetryAfter, NatToString(RetryAfterSeconds(l.reset, now)));
  }

  lemma DisjointUnionCommutes(a: map<HeaderName, string>, b: map<HeaderName, string>)
    requires a.Keys !! b.Keys
    ensures a + b == b + a
  {
  }

  lemma AddAbsentKey(m: map<HeaderName, string>, k: HeaderName, v: string)
    requires k !in m
    ensures |m + map[k := v]| == |m| + 1
  {
    assert m + map[k := v] == m[k := v];
  }

  /** `Retry-After` reads back as the wait in whole seconds, rounded up and
      never negative. */
  lemma RetryAfterValue(reset: int, now: int)
    ensures var v := ParseInt(NatToString(RetryAfterSeconds(reset, now)));
      && v.Int? && v.value >= 0
      && v.value * 1000 >= reset - now
      && (v.value > 0 ==> (v.value - 1) * 1000 < reset - now)
  {
    ParseIntOfNatToString(RetryAfterSeconds(reset, now));
  }

  /** A request whose limit resets later is told to wait at least one
      second; one whose reset time has passed is told to wait zero. */
  lemma RetryAfterPositiveIffPending(reset: int, now: int)
    ensures RetryAfterSeconds(reset, now) > 0 <==> now < reset
    ensures reset - now == 1 ==> RetryAfterSeconds(reset, now) == 1
    ensures reset - now == 1000 ==> RetryAfterSeconds(reset, now) == 1
    ensures reset - now == 1001 ==> RetryAfterSeconds(reset, now) == 2
  {
  }

  // ---------------------------------------------------------------------
  // Route matcher

  /** Characters the regular-expression `.` does not match. */
  predicate IsLineTerminator(c: char) {
    c == '\n' || c == '\r' || c == '\U{2028}' || c == '\U{2029}'
  }

  /** The lookahead `(?!_next/static|_next/image|favicon.ico)` fails at the
      start of `rest`; the unescaped `.` in `favicon.ico` matches any
      character but a line terminator. */
  predicate ExcludedByMatcher(rest: string) {
    StartsWith(rest, "_next/static") ||
    StartsWith(rest, "_next/image") ||
    (|rest| >= 11 && rest[..7] == "favicon" && !IsLineTerminator(rest[7]) && rest[8..11] == "ico")
  }

  /** `config.matcher`, the pattern `/((?!_next/static|_next/image|favicon.ico).*)`
      anchored at both ends: a leading `/`, a remainder that does not
      start with an excluded prefix, and no line terminator (`.*`). */
  predicate MatcherSelects(path: string) {
    |path| >= 1 && path[0] == '/' && !ExcludedByMatcher(path[1..]) &&
    forall i :: 1 <= i < |path| ==> !IsLineTerminator(path[i])
  }

  /** Every API path reaches the middleware, so every API request goes
      through the rate limiter. */
  lemma ApiPathsSelected(path: string)
    requires IsApiPath(path)
    requires forall i :: 0 <= i < |path| ==> !IsLineTerminator(path[i])
    ensures MatcherSelects(path)
  {
    var rest := path[1..];
    assert rest[0] == path[1] == 'a';
  }

  /** Static files, optimised images and the favicon bypass the middleware. */
  lemma AssetsNotSelected(suffix: string)
    ensures !MatcherSelects("/_next/static" + suffix)
    ensures !MatcherSelects("/_next/image" + suffix)
    ensures !MatcherSelects("/favicon.ico" + suffix)
  {
    assert ("/_next/static" + suffix)[1..] == "_next/static" + suffix;
    assert ("_next/static" + suffix)[..12] == "_next/static";
    assert ("/_next/image" + suffix)[1..] == "_next/image" + suffix;
    assert ("_next/image" + suffix)[..11] == "_next/image";
    var f := ("/favicon.ico" + suffix)[1..];
    assert f == "favicon.ico" + suffix;
    assert f[..7] == "favicon" && f[7] == '.' && f[8..11] == "ico";
  }

  /** As written, the `.` is a wildcard: `/faviconXico` also bypasses the
      middleware, while an ordinary page does not. */
  lemma MatcherDotIsWildcard()
    ensures !MatcherSelects("/faviconXico")
    ensures MatcherSelects("/dashboard")
  {
    var f := "/faviconXico"[1..];
    assert f == "faviconXico";
    assert f[..7] == "favicon" && f[7] == 'X' && f[8..11] == "ico";
    var d := "/dashboard"[1..];
    assert d == "dashboard";
    assert d[0] == 'd';
  }
}
