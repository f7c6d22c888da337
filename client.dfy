/**
 * Issuing a request (`perform`): the URL is parsed, with the `:port` and
 * `:/path` shorthands for localhost; a form file without `--form` is refused;
 * the session adds what it stored and, unless read-only, stores the request's
 * headers and credentials; the parameters are applied; basic and bearer
 * credentials are added last. Sending the request is not part of the model:
 * the result is the request that would be sent.
 */
module Client {
  import opened Results
  import opened Errors
  import opened Params
  import opened Requests
  import opened Cli
  import opened Auth
  import opened Sessions
  import opened Assembly

  /** Multipart mode: some parameter is a form file. */
  function IsMultipart(ps: seq<Parameter>): (b: bool)
    ensures b <==> exists i :: 0 <= i < |ps| && IsFormFile(ps[i])
    ensures FormFilesNeedMultipart(ps, b)
  {
    if ps == [] then false
    else if IsFormFile(ps[0]) then true
    else
      var b := IsMultipart(ps[1..]);
      assert forall i :: 1 <= i < |ps| ==> ps[i] == ps[1..][i - 1];
      b
  }

  /** `handle_auth`: the basic credential, when `--auth` is given, then the bearer token, when given. */
  function HandleAuth(builder: Request, auth: Option<string>, token: Option<string>, prompt: Result<string, IoErrorKind>)
    : (r: Result<Request, Error>)
    ensures r.Failure? <==> auth.Some? && ParseAuth(auth.value, prompt).Failure?
    ensures r.Failure? ==> r.error == ParseAuth(auth.value, prompt).error
    ensures r.Success? ==>
      && r.value == builder.(credentials := r.value.credentials)
      && |builder.credentials| <= |r.value.credentials|
      && r.value.credentials[..|builder.credentials|] == builder.credentials
      && r.value.credentials[|builder.credentials|..] ==
           (if auth.Some? then [Basic(ParseAuth(auth.value, prompt).value.0, ParseAuth(auth.value, prompt).value.1)] else [])
           + (if token.Some? then [Bearer(token.value)] else [])
  {
    var withBasic :- if auth.Some? then
        match ParseAuth(auth.value, prompt)
        case Failure(e) => Failure(e)
        case Success((user, password)) => Success(builder.(credentials := builder.credentials + [Basic(user, password)]))
      else Success(builder);
    if token.Some? then Success(withBasic.(credentials := withBasic.credentials + [Bearer(token.value)]))
    else Success(withBasic)
  }

  /**
   * The credentials given are appended after the request's own, and the one
   * added last is the token when given, else the parsed `--auth`, else the
   * request's own last one.
   */
  lemma HandleAuthWins(builder: Request, auth: Option<string>, token: Option<string>, prompt: Result<string, IoErrorKind>)
    ensures var r := HandleAuth(builder, auth, token, prompt);
      r.Success? ==>
        && r.value.credentials ==
             builder.credentials
             + (if auth.Some? then [Basic(ParseAuth(auth.value, prompt).value.0, ParseAuth(auth.value, prompt).value.1)] else [])
             + (if token.Some? then [Bearer(token.value)] else [])
        && Authorization(r.value) ==
             if token.Some? then Some(Bearer(token.value))
             else if auth.Some? then Some(Basic(ParseAuth(auth.value, prompt).value.0, ParseAuth(auth.value, prompt).value.1))
             else Authorization(builder)
  {
    var r := HandleAuth(builder, auth, token, prompt);
    if r.Success? {
      var n := |builder.credentials|;
      assert r.value.credentials == r.value.credentials[..n] + r.value.credentials[n..];
      if token.None? && auth.None? {
        assert r.value == builder;
      }
    }
  }

  /** `s` begins with `prefix`. */
  predicate StartsWith(s: string, prefix: string) {
    |prefix| <= |s| && s[..|prefix|] == prefix
  }

  /** The scheme put in front of a URL given without one: https with `--secure`, http otherwise. */
  function SchemePrefix(secure: bool): (r: string)
    ensures StartsWith(r, "https://") <==> secure
    ensures !secure ==> r == "http://"
  {
    if secure then "https://" else "http://"
  }

  /** The scheme prefix as written in `parse`, with `htpp` for the insecure case. */
  function SchemePrefixAsWritten(secure: bool): string {
    if secure then "https://" else "htpp://"
  }

  /**
   * `parse`: `:/path` and `:port...` stand for localhost over http; anything
   * else is parsed as it is and, if that fails, again behind the default scheme.
   */
  function ParseUrl(secure: bool, s: string, parse: string -> Result<string, UrlErrorKind>): (r: Result<string, UrlErrorKind>)
    ensures StartsWith(s, ":/") ==> r == parse("http://localhost" + s[1..])
    ensures StartsWith(s, ":") && !StartsWith(s, ":/") ==> r == parse("http://localhost" + s)
    ensures !StartsWith(s, ":") ==> r == if parse(s).Success? then parse(s) else parse(SchemePrefix(secure) + s)
  {
    if StartsWith(s, ":/") then parse("http://localhost" + s[1..])
    else if StartsWith(s, ":") then parse("http://localhost" + s)
    else
      match parse(s)
      case Success(url) => Success(url)
      case Failure(_) => parse(SchemePrefix(secure) + s)
  }

  /** `parse` as written, with the misspelled scheme. */
  function ParseUrlAsWritten(secure: bool, s: string, parse: string -> Result<string, UrlErrorKind>): Result<string, UrlErrorKind> {
    if StartsWith(s, ":/") then parse("http://localhost" + s[1..])
    else if StartsWith(s, ":") then parse("http://localhost" + s)
    else
      match parse(s)
      case Success(url) => Success(url)
      case Failure(_) => parse(SchemePrefixAsWritten(secure) + s)
  }

  /**
   * A leading colon means localhost over http: `:/path` keeps the path and
   * `:port/path` keeps the colon before the port; `--secure` plays no part.
   */
  lemma LocalhostShorthand(secure: bool, rest: string, parse: string -> Result<string, UrlErrorKind>)
    ensures ParseUrl(secure, ":" + rest, parse) ==
      if rest != [] && rest[0] == '/' then parse("http://localhost" + rest) else parse("http://localhost:" + rest)
  {
    var s := ":" + rest;
    assert s[1..] == rest;
    assert StartsWith(s, ":");
    if rest != [] && rest[0] == '/' {
      assert s[..2] == ":/";
    } else {
      assert "http://localhost" + s == "http://localhost:" + rest;
    }
  }

  /** Without the shorthand, a URL that parses is used as it is, whatever `--secure` says. */
  lemma AbsoluteUrlKept(secure: bool, s: string, parse: string -> Result<string, UrlErrorKind>)
    requires !StartsWith(s, ":") && parse(s).Success?
    ensures ParseUrl(secure, s, parse) == parse(s)
  {
  }

  /** Without the shorthand, a URL that does not parse is tried again behind https with `--secure` and http without. */
  lemma FallbackScheme(secure: bool, s: string, parse: string -> Result<string, UrlErrorKind>)
    requires !StartsWith(s, ":") && parse(s).Failure?
    ensures ParseUrl(secure, s, parse) == parse((if secure then "https://" else "http://") + s)
  {
  }

  /** As written, a host given without a scheme and without `--secure` is handed to the URL parser behind `htpp://`. */
  lemma ParseUrlAsWrittenMisspellsScheme(parse: string -> Result<string, UrlErrorKind>)
    requires parse("example.com").Failure?
    ensures ParseUrlAsWritten(false, "example.com", parse) == parse("htpp://example.com")
    ensures !StartsWith("htpp://example.com", "http://") && !StartsWith("htpp://example.com", "https://")
    ensures ParseUrl(false, "example.com", parse) == parse("http://example.com")
  {
    assert "example.com"[..1][0] == 'e' && "example.com"[..2][0] == 'e';
    assert !StartsWith("example.com", ":") && !StartsWith("example.com", ":/");
    assert "htpp://example.com"[..7][2] != "http://"[2];
    assert "htpp://example.com"[..8][4] != "https://"[4];
    assert SchemePrefixAsWritten(false) + "example.com" == "htpp://example.com";
    assert SchemePrefix(false) + "example.com" == "http://example.com";
  }

  /**
   * `handel_session`: with a session, what it stored is added to the request;
   * unless read-only, it then stores the header parameters and the credentials.
   */
  method HandleSession(builder: Request, session: Session?, ps: seq<Parameter>, updateSession: bool,
                       auth: Option<string>, token: Option<string>) returns (b: Request)
    modifies session
    ensures session == null ==> b == builder
    ensures session != null ==> b == AddToRequest(old(session.State()), builder)
    ensures session != null ==>
      session.State() == if updateSession then Updated(old(session.State()), ps, auth, token) else old(session.State())
  {
    b := builder;
    if session != null {
      b := AddToRequest(session.State(), b);
      if updateSession {
        session.UpdateWithParameters(ps);
        session.UpdateAuth(auth, token);
      }
    }
  }

  /**
   * The request `perform` would send, or its error, given the flags, what the
   * session stored when there is a session, the raw URL and the parameters.
   */
  function Outcome(flags: Settings, verb: HttpMethod, stored: Option<Stored>, rawUrl: string,
                   ps: seq<Parameter>, env: Env): Result<Request, Error>
  {
    match ParseUrl(flags.secure, rawUrl, env.parseUrl)
    case Failure(k) => Failure(UrlParseError(k))
    case Success(url) =>
      var multipart := IsMultipart(ps);
      if multipart && !flags.form then Failure(NotFromButHasFormFile)
      else
        var start := NewRequest(verb, url);
        var withSession := if stored.Some? then AddToRequest(stored.value, start) else start;
        match Assemble(withSession, flags.form, multipart, ps, env)
        case Failure(e) => Failure(e)
        case Success(assembled) => HandleAuth(assembled, flags.auth, flags.token, env.readPassword)
  }

  /** The URL does not parse, or a form file is given without `--form`: `perform` stops before building a request. */
  predicate RejectedEarly(flags: Settings, rawUrl: string, ps: seq<Parameter>, env: Env) {
    ParseUrl(flags.secure, rawUrl, env.parseUrl).Failure? || (IsMultipart(ps) && !flags.form)
  }

  /**
   * `perform`, up to the point where the request is sent. The session is
   * updated before the parameters are applied, so it keeps what it stored even
   * when a parameter then fails.
   */
  method Perform(app: App, verb: HttpMethod, session: Session?, rawUrl: string, ps: seq<Parameter>, env: Env)
    returns (r: Result<Request, Error>)
    modifies session
    ensures r == Outcome(app.CurrentSettings(), verb, if session == null then None else Some(old(session.State())), rawUrl, ps, env)
    ensures session != null && (RejectedEarly(app.CurrentSettings(), rawUrl, ps, env) || app.readOnly) ==>
      session.State() == old(session.State())
    ensures session != null && !RejectedEarly(app.CurrentSettings(), rawUrl, ps, env) && !app.readOnly ==>
      session.State() == Updated(old(session.State()), ps, app.auth, app.token)
  {
    var url := ParseUrl(app.secure, rawUrl, env.parseUrl);
    if url.Failure? {
      return Failure(UrlParseError(url.error));
    }
    var isMultipart := IsMultipart(ps);
    if isMultipart {
      if !app.form {
        return Failure(NotFromButHasFormFile);
      }
    }
    var builder := NewRequest(verb, url.value);
    builder := HandleSession(builder, session, ps, !app.readOnly, app.auth, app.token);
    var assembled := HandleParameters(builder, app.form, isMultipart, ps, env);
    if assembled.Failure? {
      return Failure(assembled.error);
    }
    r := HandleAuth(assembled.value, app.auth, app.token, env.readPassword);
  }

  /** `perform_method`: a method subcommand's URL and parameters, with the method it names. */
  method PerformMethod(app: App, cmd: Subcommand, session: Session?, env: Env) returns (r: Result<Request, Error>)
    modifies session
    ensures r == Outcome(app.CurrentSettings(), MethodOf(cmd),
                         if session == null then None else Some(old(session.State())), cmd.data.url, cmd.data.parameters, env)
  {
    r := Perform(app, MethodOf(cmd), session, cmd.data.url, cmd.data.parameters, env);
  }

  /**
   * A URL that does not parse is reported first; then a form file without
   * `--form` is refused whatever the files and JSON would have been.
   */
  lemma OutcomeErrorOrder(flags: Settings, verb: HttpMethod, stored: Option<Stored>, rawUrl: string,
                          ps: seq<Parameter>, env: Env, other: Env)
    requires other.parseUrl == env.parseUrl
    ensures ParseUrl(flags.secure, rawUrl, env.parseUrl).Failure? ==>
      Outcome(flags, verb, stored, rawUrl, ps, env) == Failure(UrlParseError(ParseUrl(flags.secure, rawUrl, env.parseUrl).error))
    ensures ParseUrl(flags.secure, rawUrl, env.parseUrl).Success? && !flags.form && (exists i :: 0 <= i < |ps| && IsFormFile(ps[i])) ==>
      && Outcome(flags, verb, stored, rawUrl, ps, env) == Failure(NotFromButHasFormFile)
      && Outcome(flags, verb, stored, rawUrl, ps, other) == Failure(NotFromButHasFormFile)
  {
  }

  /**
   * A request that comes out has the method and the parsed URL, the session's
   * headers before the header parameters, the query parameters in order and
   * the session's cookies; every parameter succeeded on the way.
   */
  lemma OutcomeShape(flags: Settings, verb: HttpMethod, stored: Option<Stored>, rawUrl: string,
                     ps: seq<Parameter>, env: Env)
    ensures var r := Outcome(flags, verb, stored, rawUrl, ps, env);
      r.Success? ==>
        && ParseUrl(flags.secure, rawUrl, env.parseUrl) == Success(r.value.url)
        && r.value.verb == verb
        && r.value.headers == (if stored.Some? then stored.value.headers else []) + HeadersOf(ps)
        && r.value.query == QueriesOf(ps)
        && r.value.cookies == (if stored.Some? then stored.value.cookies else [])
        && (forall i :: 0 <= i < |ps| ==> Route(ps[i], IsMultipart(ps), env).Success?)
  {
    var r := Outcome(flags, verb, stored, rawUrl, ps, env);
    if r.Success? {
      var url := ParseUrl(flags.secure, rawUrl, env.parseUrl).value;
      var multipart := IsMultipart(ps);
      var start := NewRequest(verb, url);
      var withSession := if stored.Some? then AddToRequest(stored.value, start) else start;
      AssembleAppendsInOrder(withSession, flags.form, multipart, ps, env);
      AssembleFailsAtFirstError(withSession, flags.form, multipart, ps, env);
      assert withSession.headers == if stored.Some? then stored.value.headers else [];
      assert withSession.cookies == if stored.Some? then stored.value.cookies else [];
    }
  }

  /**
   * What the invocation gives is added after what the session stored, so the
   * value added last under a header name is the header parameter's when there
   * is one, and the credential added last is `--token`, then `--auth`, before
   * the stored token and auth. The earlier values are still sent.
   */
  lemma OutcomePrecedence(flags: Settings, verb: HttpMethod, stored: Option<Stored>, rawUrl: string,
                          ps: seq<Parameter>, env: Env, name: string)
    ensures var r := Outcome(flags, verb, stored, rawUrl, ps, env);
      r.Success? ==>
        && Lookup(r.value.headers, name) ==
             (if Lookup(HeadersOf(ps), name).Some? then Lookup(HeadersOf(ps), name)
              else if stored.Some? then Lookup(stored.value.headers, name) else None)
        && Authorization(r.value) ==
             (if flags.token.Some? then Some(Bearer(flags.token.value))
              else if flags.auth.Some? then Some(Basic(ParseAuth(flags.auth.value, env.readPassword).value.0,
                                                        ParseAuth(flags.auth.value, env.readPassword).value.1))
              else if stored.Some? then StoredAuthorization(stored.value) else None)
  {
    if Outcome(flags, verb, stored, rawUrl, ps, env).Success? {
      OutcomeShape(flags, verb, stored, rawUrl, ps, env);
      LookupAppend(if stored.Some? then stored.value.headers else [], HeadersOf(ps), name);
      OutcomeCredentials(flags, verb, stored, rawUrl, ps, env);
    }
  }

  /**
   * The credentials are only appended: the session's stored basic credential
   * and token, then the basic credential of `--auth` and the token of `--token`.
   * The last of them is the token when given, else `--auth`, else the session's.
   */
  lemma OutcomeCredentials(flags: Settings, verb: HttpMethod, stored: Option<Stored>, rawUrl: string,
                           ps: seq<Parameter>, env: Env)
    ensures var r := Outcome(flags, verb, stored, rawUrl, ps, env);
      r.Success? ==>
        && r.value.credentials ==
             (if stored.Some? then StoredCredentials(stored.value) else [])
             + (if flags.auth.Some? then [Basic(ParseAuth(flags.auth.value, env.readPassword).value.0,
                                                ParseAuth(flags.auth.value, env.readPassword).value.1)] else [])
             + (if flags.token.Some? then [Bearer(flags.token.value)] else [])
        && Authorization(r.value) ==
             if flags.token.Some? then Some(Bearer(flags.token.value))
             else if flags.auth.Some? then Some(Basic(ParseAuth(flags.auth.value, env.readPassword).value.0,
                                                      ParseAuth(flags.auth.value, env.readPassword).value.1))
             else if stored.Some? then StoredAuthorization(stored.value) else None
  {
    if Outcome(flags, verb, stored, rawUrl, ps, env).Success? {
      var withSession := OutcomeSteps(flags, verb, stored, rawUrl, ps, env);
      AssembleAppendsInOrder(withSession, flags.form, IsMultipart(ps), ps, env);
      var assembled := Assemble(withSession, flags.form, IsMultipart(ps), ps, env).value;
      HandleAuthWins(assembled, flags.auth, flags.token, env.readPassword);
    }
  }

  /** A request that comes out is `handle_auth` applied to the assembly of the session's request. */
  lemma OutcomeSteps(flags: Settings, verb: HttpMethod, stored: Option<Stored>, rawUrl: string,
                     ps: seq<Parameter>, env: Env) returns (withSession: Request)
    requires Outcome(flags, verb, stored, rawUrl, ps, env).Success?
    ensures ParseUrl(flags.secure, rawUrl, env.parseUrl).Success?
    ensures withSession.credentials == if stored.Some? then StoredCredentials(stored.value) else []
    ensures Authorization(withSession) == if stored.Some? then StoredAuthorization(stored.value) else None
    ensures FormFilesNeedMultipart(ps, IsMultipart(ps))
    ensures Assemble(withSession, flags.form, IsMultipart(ps), ps, env).Success?
    ensures Outcome(flags, verb, stored, rawUrl, ps, env)
      == HandleAuth(Assemble(withSession, flags.form, IsMultipart(ps), ps, env).value, flags.auth, flags.token, env.readPassword)
  {
    var url := ParseUrl(flags.secure, rawUrl, env.parseUrl).value;
    var start := NewRequest(verb, url);
    withSession := if stored.Some? then AddToRequest(stored.value, start) else start;
  }

  /**
   * Through a session, a single header parameter is sent after the stored
   * headers, so it is the value added last under its name.
   */
  lemma OneHeaderAfterSession(flags: Settings, verb: HttpMethod, st: Stored, rawUrl: string,
                              name: string, value: string, env: Env)
    ensures var o := Outcome(flags, verb, Some(st), rawUrl, [Header(name, value)], env);
      o.Success? ==> o.value.headers == st.headers + [(name, value)] && Lookup(o.value.headers, name) == Some(value)
  {
    var ps := [Header(name, value)];
    assert ps[..0] == [];
    assert HeadersOf(ps) == [(name, value)];
    OutcomeShape(flags, verb, Some(st), rawUrl, ps, env);
    var hs := st.headers + [(name, value)];
    assert hs[|hs| - 1] == (name, value);
  }

  /** A session that is updated with a single header parameter stores its value. */
  lemma OneHeaderStored(st: Stored, name: string, value: string, auth: Option<string>, token: Option<string>)
    ensures Lookup(Updated(st, [Header(name, value)], auth, token).headers, name) == Some(value)
  {
    var ps := [Header(name, value)];
    assert ps[..0] == [];
    assert HeadersOf(ps) == [(name, value)];
    UpdatedRecalls(st, ps, auth, token, name);
  }

  /**
   * A session that stored `X-Session: old`, and a request with the parameter
   * `X-Session:new`: the request sends the stored headers and then `new`, so
   * `new` is the value added last, and a session that is not read-only stores
   * `new` for the next request.
   */
  lemma SessionHeaderOverride(flags: Settings, verb: HttpMethod, st: Stored, rawUrl: string, env: Env)
    requires Lookup(st.headers, "X-Session") == Some("old")
    ensures var ps := [Header("X-Session", "new")];
      var o := Outcome(flags, verb, Some(st), rawUrl, ps, env);
      && (o.Success? ==>
            && o.value.headers == st.headers + [("X-Session", "new")]
            && Lookup(o.value.headers, "X-Session") == Some("new"))
      && Lookup(Updated(st, ps, flags.auth, flags.token).headers, "X-Session") == Some("new")
  {
    OneHeaderAfterSession(flags, verb, st, rawUrl, "X-Session", "new", env);
    OneHeaderStored(st, "X-Session", "new", flags.auth, flags.token);
  }

  /**
   * With the method chosen by default (no subcommand), a GET, chosen when no
   * parameter is data, carries no body.
   */
  lemma DefaultGetHasNoBody(flags: Settings, stored: Option<Stored>, rawUrl: string,
                            ps: seq<Parameter>, env: Env)
    requires DefaultMethod(ps) == Get
    ensures var r := Outcome(flags, DefaultMethod(ps), stored, rawUrl, ps, env);
      r.Success? ==> r.value.body == NoBody
  {
    var r := Outcome(flags, Get, stored, rawUrl, ps, env);
    if r.Success? {
      var url := ParseUrl(flags.secure, rawUrl, env.parseUrl).value;
      var multipart := IsMultipart(ps);
      assert !multipart;
      var start := NewRequest(Get, url);
      var withSession := if stored.Some? then AddToRequest(stored.value, start) else start;
      AssembleBody(withSession, flags.form, multipart, ps, env);
    }
  }
}
