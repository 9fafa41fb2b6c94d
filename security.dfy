/** JwtTokenService's static `shrinkToken`: the Authorization header with
    its `Bearer` scheme cut off. */
module JwtTokenService {
  import opened Wrappers
  import opened Exceptions

  /** `Character.isWhitespace` on one UTF-16 unit: the space, line and
      paragraph separators other than the three no-break spaces, plus the
      controls TAB, LF, VT, FF, CR and FS, GS, RS, US. */
  predicate IsWhitespace(c: char) {
    var n := c as int;
    (0x09 <= n <= 0x0D) || (0x1C <= n <= 0x20) || n == 0x1680
    || (0x2000 <= n <= 0x2006) || (0x2008 <= n <= 0x200A)
    || n == 0x2028 || n == 0x2029 || n == 0x205F || n == 0x3000
  }

  /** Every character is whitespace (the empty string included). */
  predicate Blank(s: string) {
    s == [] || (IsWhitespace(s[0]) && Blank(s[1..]))
  }

  /** `StringUtils.hasText`: present and holding a character that is not
      whitespace. */
  predicate HasText(s: Option<string>) {
    s.Some? && !Blank(s.value)
  }

  predicate StartsWith(s: string, prefix: string) {
    |prefix| <= |s| && s[..|prefix|] == prefix
  }

  const Scheme := "Bearer"

  /** `shrinkToken`. A header with text that starts with the scheme loses its
      first seven characters, whatever the seventh is; every other header,
      absent and blank included, comes back unchanged. The header that is
      exactly the scheme is the one input that throws, as `substring(7)` on
      six characters. */
  function ShrinkToken(header: Option<string>): (r: Result<Option<string>, Exception>)
    ensures r.Failure? <==> header == Some(Scheme)
    ensures r.Failure? ==> r.error == StringIndexOutOfBounds(7, 6)
    ensures !HasText(header) ==> r == Success(header)
    ensures header.Some? && !StartsWith(header.value, Scheme) ==> r == Success(header)
    ensures header.Some? && StartsWith(header.value, Scheme) && |header.value| >= 7 ==>
      r == Success(Some(header.value[7..]))
    ensures r.Success? && r.value.Some? ==> header.Some? && |r.value.value| <= |header.value|
  {
    assert header.Some? && StartsWith(header.value, Scheme) ==>
      HasText(header) && (|header.value| < 7 <==> header == Some(Scheme)) by {
      if header.Some? && StartsWith(header.value, Scheme) {
        SchemePrefixed(header.value);
      }
    }
    if HasText(header) && StartsWith(header.value, Scheme) then
      if |header.value| < 7 then Failure(StringIndexOutOfBounds(7, |header.value|))
      else Success(Some(header.value[7..]))
    else Success(header)
  }

  /** A header that starts with the scheme has text, and is too short to cut
      only when it is the bare scheme. */
  lemma SchemePrefixed(header: string)
    requires StartsWith(header, Scheme)
    ensures HasText(Some(header))
    ensures |header| < 7 <==> header == Scheme
  {
    assert !IsWhitespace(header[0]);
    if |header| < 7 {
      assert header == header[..|Scheme|];
    }
  }

  /** Cutting is the inverse of prefixing `Bearer ` to a token. */
  lemma ShrinkBearer(token: string)
    ensures ShrinkToken(Some(Scheme + " " + token)) == Success(Some(token))
  {
    var header := Scheme + " " + token;
    assert header[..|Scheme|] == Scheme;
    SchemePrefixed(header);
    assert header[7..] == token;
  }
}

/** JwtTokenFilter's `doFilterInternal`: the principal attached to the
    request before the rest of the chain runs. The token service is two
    functions handed in; the security context is an explicit value. */
module JwtTokenFilter {
  import opened Wrappers
  import opened Exceptions
  import opened JwtTokenService

  /** `validateToken` and `extractUsername`; either may throw. */
  datatype TokenService = TokenService(
    validate: string -> Result<bool, Exception>,
    extract: string -> Result<string, Exception>)

  const GodToken := "LUCKY_YOU"

  /** The service of the application accepts this literal without parsing it. */
  predicate HonoursBypass(service: TokenService) {
    service.validate(GodToken) == Success(true)
  }

  /** A `BearerAuthenticationToken`: the username as principal, marked
      authenticated on construction. */
  datatype Authentication = Authentication(principal: string, authenticated: bool)

  datatype SecurityContext = SecurityContext(authentication: Option<Authentication>)

  const EmptyContext := SecurityContext(None)

  predicate IsAuthenticated(context: SecurityContext) {
    context.authentication.Some? && context.authentication.value.authenticated
  }

  /** The calls the filter makes outward, in order. */
  datatype Call =
    | Validate(token: string)
    | Extract(token: string)
    | Chain(context: SecurityContext)

  datatype CallKind = Validating | Extracting | Chaining

  function KindOf(c: Call): CallKind {
    match c
    case Validate(_) => Validating
    case Extract(_) => Extracting
    case Chain(_) => Chaining
  }

  /** How many calls of a kind a trace holds. */
  function Count(calls: seq<Call>, kind: CallKind): (n: nat)
    ensures n <= |calls|
  {
    if calls == [] then 0
    else Count(calls[..|calls| - 1], kind) + (if KindOf(calls[|calls| - 1]) == kind then 1 else 0)
  }

  /** Counting is additive over consecutive stretches of a trace. */
  lemma {:induction false} CountConcat(a: seq<Call>, b: seq<Call>, kind: CallKind)
    ensures Count(a + b, kind) == Count(a, kind) + Count(b, kind)
    decreases |b|
  {
    if b == [] {
      assert a + b == a;
    } else {
      assert (a + b)[..|a + b| - 1] == a + b[..|b| - 1];
      CountConcat(a, b[..|b| - 1], kind);
    }
  }

  /** One run of the filter: how it ends and the calls it made. */
  datatype Run = Run(result: Result<SecurityContext, Exception>, calls: seq<Call>)

  /** The run of `doFilterInternal` as a value: the shrunk header decides
      whether the token service is asked at all, and each answer of the
      service decides the next step. */
  function Filtered(authorization: Option<string>, service: TokenService, context: SecurityContext): Run {
    match ShrinkToken(authorization)
    case Failure(e) => Run(Failure(e), [])
    case Success(token) =>
      if !HasText(token) then Run(Success(context), [Chain(context)])
      else
        match service.validate(token.value)
        case Failure(e) => Run(Failure(e), [Validate(token.value)])
        case Success(false) => Run(Success(context), [Validate(token.value), Chain(context)])
        case Success(true) =>
          match service.extract(token.value)
          case Failure(e) => Run(Failure(e), [Validate(token.value), Extract(token.value)])
          case Success(username) =>
            var authenticated := SecurityContext(Some(Authentication(username, true)));
            Run(Success(authenticated), [Validate(token.value), Extract(token.value), Chain(authenticated)])
  }

  /** The run step by step: an exception from shrinking makes no call; a
      token without text goes straight to the chain; a token with text is
      validated first, and what validation and extraction answer decides
      the rest. */
  lemma FilteredSteps(authorization: Option<string>, service: TokenService, context: SecurityContext)
    ensures var run := Filtered(authorization, service, context);
      (ShrinkToken(authorization).Failure? ==>
         run == Run(Failure(ShrinkToken(authorization).error), []))
      && (ShrinkToken(authorization).Success? && !HasText(ShrinkToken(authorization).value) ==>
            run == Run(Success(context), [Chain(context)]))
      && (ShrinkToken(authorization).Success? && HasText(ShrinkToken(authorization).value) ==>
            var token := ShrinkToken(authorization).value.value;
            |run.calls| > 0 && run.calls[0] == Validate(token)
            && (service.validate(token).Failure? ==> run == Run(Failure(service.validate(token).error), [Validate(token)]))
            && (service.validate(token) == Success(false) ==> run == Run(Success(context), [Validate(token), Chain(context)]))
            && (service.validate(token) == Success(true) && service.extract(token).Failure? ==>
                  run == Run(Failure(service.extract(token).error), [Validate(token), Extract(token)]))
            && (service.validate(token) == Success(true) && service.extract(token).Success? ==>
                  var authenticated := SecurityContext(Some(Authentication(service.extract(token).value, true)));
                  run == Run(Success(authenticated), [Validate(token), Extract(token), Chain(authenticated)])))
  {
  }

  /** A run validates at most once and extracts only after validating; the
      chain is called once, as the last call, exactly when the run ends
      without an exception. */
  predicate WellChained(run: Run) {
    Count(run.calls, Validating) <= 1
    && Count(run.calls, Extracting) <= Count(run.calls, Validating)
    && (run.result.Success? <==> Count(run.calls, Chaining) == 1)
    && (run.result.Failure? ==> Count(run.calls, Chaining) == 0)
    && (run.result.Success? ==> |run.calls| > 0 && run.calls[|run.calls| - 1] == Chain(run.result.value))
  }

  /** Every run of the filter is well chained. */
  lemma FilteredChainsOnce(authorization: Option<string>, service: TokenService, context: SecurityContext)
    ensures WellChained(Filtered(authorization, service, context))
  {
    var run := Filtered(authorization, service, context);
    match ShrinkToken(authorization)
    case Failure(_) =>
      UnvalidatedRunsWellChained(run.result);
    case Success(token) =>
      if !HasText(token) {
        UnvalidatedRunsWellChained(run.result);
      } else {
        var t := token.value;
        if service.validate(t) == Success(true) {
          ExtractedRunsWellChained(t, run.result);
        } else {
          ValidatedRunsWellChained(t, run.result);
        }
      }
  }

  /** The runs that never reach the token service. */
  lemma UnvalidatedRunsWellChained(result: Result<SecurityContext, Exception>)
    ensures result.Failure? ==> WellChained(Run(result, []))
    ensures result.Success? ==> WellChained(Run(result, [Chain(result.value)]))
  {
    if result.Success? {
      TraceCounts([], Chain(result.value));
      assert [] + [Chain(result.value)] == [Chain(result.value)];
    }
  }

  /** The runs that stop after validation. */
  lemma ValidatedRunsWellChained(t: string, result: Result<SecurityContext, Exception>)
    ensures result.Failure? ==> WellChained(Run(result, [Validate(t)]))
    ensures result.Success? ==> WellChained(Run(result, [Validate(t), Chain(result.value)]))
  {
    TraceCounts([], Validate(t));
    assert [] + [Validate(t)] == [Validate(t)];
    if result.Success? {
      TraceCounts([Validate(t)], Chain(result.value));
      assert [Validate(t)] + [Chain(result.value)] == [Validate(t), Chain(result.value)];
    }
  }

  /** The runs that ask for the username. */
  lemma ExtractedRunsWellChained(t: string, result: Result<SecurityContext, Exception>)
    ensures result.Failure? ==> WellChained(Run(result, [Validate(t), Extract(t)]))
    ensures result.Success? ==> WellChained(Run(result, [Validate(t), Extract(t), Chain(result.value)]))
  {
    TraceCounts([], Validate(t));
    assert [] + [Validate(t)] == [Validate(t)];
    TraceCounts([Validate(t)], Extract(t));
    assert [Validate(t)] + [Extract(t)] == [Validate(t), Extract(t)];
    if result.Success? {
      TraceCounts([Validate(t), Extract(t)], Chain(result.value));
      assert [Validate(t), Extract(t)] + [Chain(result.value)] == [Validate(t), Extract(t), Chain(result.value)];
    }
  }

  /** The counts of a trace with one more call. */
  lemma TraceCounts(calls: seq<Call>, c: Call)
    ensures Count(calls + [c], Validating) == Count(calls, Validating) + (if c.Validate? then 1 else 0)
    ensures Count(calls + [c], Extracting) == Count(calls, Extracting) + (if c.Extract? then 1 else 0)
    ensures Count(calls + [c], Chaining) == Count(calls, Chaining) + (if c.Chain? then 1 else 0)
  {
    CountConcat(calls, [c], Validating);
    CountConcat(calls, [c], Extracting);
    CountConcat(calls, [c], Chaining);
  }

  /** The context changes only through a validated token, into one whose
      authenticated principal is the username extracted from it. */
  lemma FilteredAuthenticates(authorization: Option<string>, service: TokenService, context: SecurityContext)
    ensures var run := Filtered(authorization, service, context);
      run.result.Success? && run.result.value != context ==>
        ShrinkToken(authorization).Success?
        && HasText(ShrinkToken(authorization).value)
        && service.validate(ShrinkToken(authorization).value.value) == Success(true)
        && service.extract(ShrinkToken(authorization).value.value).Success?
        && IsAuthenticated(run.result.value)
        && run.result.value.authentication.value.principal == service.extract(ShrinkToken(authorization).value.value).value
  {
  }

  /** `doFilterInternal` given the Authorization header and the context the
      request arrives with. The token is the shrunk header; only a token
      with text is validated, and only a validated one is asked for its
      username, which becomes the authenticated principal of a new context.
      The chain is then called once with the context in force; an exception
      from shrinking, validating or extracting ends the filter before it. */
  method DoFilterInternal(authorization: Option<string>, service: TokenService, context: SecurityContext)
    returns (r: Result<SecurityContext, Exception>, calls: seq<Call>)
    ensures Run(r, calls) == Filtered(authorization, service, context)
    ensures WellChained(Run(r, calls))
    ensures r.Success? && r.value != context ==>
      ShrinkToken(authorization).Success?
      && HasText(ShrinkToken(authorization).value)
      && service.validate(ShrinkToken(authorization).value.value) == Success(true)
      && service.extract(ShrinkToken(authorization).value.value).Success?
      && IsAuthenticated(r.value)
      && r.value.authentication.value.principal == service.extract(ShrinkToken(authorization).value.value).value
  {
    FilteredChainsOnce(authorization, service, context);
    FilteredAuthenticates(authorization, service, context);
    var shrunk := ShrinkToken(authorization);
    if shrunk.Failure? {
      return Failure(shrunk.error), [];
    }
    var token := shrunk.value;
    calls := [];
    var current := context;
    if HasText(token) {
      var valid := service.validate(token.value);
      calls := calls + [Validate(token.value)];
      if valid.Failure? {
        return Failure(valid.error), calls;
      }
      if valid.value {
        var username := service.extract(token.value);
        calls := calls + [Extract(token.value)];
        if username.Failure? {
          return Failure(username.error), calls;
        }
        current := SecurityContext(Some(Authentication(username.value, true)));
      }
    }
    calls := calls + [Chain(current)];
    r := Success(current);
  }
}

/** SecurityConfig's `configure`: the method and path rule table, applied
    after the token filter has run. */
module SecurityConfig {
  import opened Wrappers
  import opened Exceptions
  import opened JwtTokenService
  import opened JwtTokenFilter

  datatype HttpMethod = GET | HEAD | POST | PUT | PATCH | DELETE | OPTIONS | TRACE

  const ApiRoot := "/api/v1"

  /** The ant pattern of the API (the root, then any number of segments):
      the root itself or anything below it. */
  predicate UnderApi(path: string) {
    path == ApiRoot || StartsWith(path, ApiRoot + "/")
  }

  datatype Access = PermitAll | Authenticated

  /** The first matching rule of the table; a request no rule names is
      permitted. */
  function RuleFor(verb: HttpMethod, path: string): (a: Access)
    ensures a == Authenticated <==> (verb == PUT || verb == DELETE) && UnderApi(path)
  {
    if verb == POST && UnderApi(path) then PermitAll
    else if verb == GET && UnderApi(path) then PermitAll
    else if verb == PUT && UnderApi(path) then Authenticated
    else if verb == DELETE && UnderApi(path) then Authenticated
    else PermitAll
  }

  /** Whether the rule lets a request with this context through. */
  predicate Permits(verb: HttpMethod, path: string, context: SecurityContext) {
    RuleFor(verb, path) == PermitAll || IsAuthenticated(context)
  }

  /** What becomes of a request at the security layer: it reaches its
      controller with a context, it is refused for want of authentication
      (the entry point answers 401), or an exception escapes the filter. */
  datatype Admission = Admitted(context: SecurityContext) | Refused | Raised(error: Exception)

  /** A stateless request: the filter runs on an empty context, then the
      rule decides with the context the filter left in force. */
  method Authorize(verb: HttpMethod, path: string, authorization: Option<string>, service: TokenService)
    returns (a: Admission, calls: seq<Call>)
    ensures a.Refused? <==>
      (verb == PUT || verb == DELETE) && UnderApi(path)
      && ShrinkToken(authorization).Success?
      && (!HasText(ShrinkToken(authorization).value)
          || service.validate(ShrinkToken(authorization).value.value) == Success(false))
    ensures (verb == PUT || verb == DELETE) && UnderApi(path) && authorization.None? ==>
      a == Refused && calls == [Chain(EmptyContext)]
    ensures a.Admitted? && RuleFor(verb, path) == Authenticated ==>
      IsAuthenticated(a.context)
      && ShrinkToken(authorization).Success? && HasText(ShrinkToken(authorization).value)
      && service.validate(ShrinkToken(authorization).value.value) == Success(true)
      && service.extract(ShrinkToken(authorization).value.value).Success?
      && a.context.authentication.value.principal == service.extract(ShrinkToken(authorization).value.value).value
    ensures forall token, username ::
      authorization == Some(Scheme + " " + token) && HasText(Some(token))
      && service.validate(token) == Success(true) && service.extract(token) == Success(username) ==>
      a == Admitted(SecurityContext(Some(Authentication(username, true))))
    ensures (ShrinkToken(authorization).Success? && HasText(ShrinkToken(authorization).value)
             && service.validate(ShrinkToken(authorization).value.value).Failure?) ==>
      a == Raised(service.validate(ShrinkToken(authorization).value.value).error)
    ensures authorization == Some(GodToken) && HonoursBypass(service) && service.extract(GodToken).Success? ==>
      a == Admitted(SecurityContext(Some(Authentication(service.extract(GodToken).value, true))))
  {
    var filtered;
    filtered, calls := DoFilterInternal(authorization, service, EmptyContext);
    FilteredSteps(authorization, service, EmptyContext);
    forall token | authorization == Some(Scheme + " " + token)
      ensures ShrinkToken(authorization) == Success(Some(token))
    {
      ShrinkBearer(token);
    }
    assert authorization == Some(GodToken) ==> ShrinkToken(authorization) == Success(authorization) && HasText(authorization) by {
      if authorization == Some(GodToken) {
        assert !IsWhitespace(GodToken[0]);
        assert GodToken[..|Scheme|] != Scheme;
      }
    }
    if filtered.Failure? {
      a := Raised(filtered.error);
    } else if Permits(verb, path, filtered.value) {
      a := Admitted(filtered.value);
    } else {
      a := Refused;
    }
  }
}
