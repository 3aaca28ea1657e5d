/** The admin panel's gate: the IP allow-list, HTTP Basic credentials
    (section 2 of RFC 7617), the credentials cookie, and the decision of
    `verify_admin`, together with what the web framework then does with
    that decision. Base64 decoding followed by UTF-8 decoding is a
    parameter: it yields the text, or `None` where it raises. */
module Auth {
  import opened Wrappers
  import opened Strings
  import opened Models

  /** base64 decoding then UTF-8 decoding; `None` where either raises. */
  type Base64Text = string -> Option<string>

  /** The parts of a request the gate reads. An absent header is `None`. */
  datatype Request = Request(clientIp: string, accept: Option<string>, authorization: Option<string>,
                             authCookie: Option<string>, path: string)

  /** Credentials as a username and a password. */
  datatype Credentials = Credentials(username: string, password: string)

  /** `check_ip_allowed`: an empty allow-list admits every client. */
  function CheckIpAllowed(allowedIps: seq<string>, clientIp: string): (r: bool)
    ensures r <==> allowedIps == [] || clientIp in allowedIps
  {
    if allowedIps == [] then true else clientIp in allowedIps
  }

  const BasicPrefix: string := "Basic "

  /** Decoded credential text split at the first ":", so that the password
      may hold ":"; `None` when there is no ":" (the unpacking raises). */
  function ParseCredentials(decoded: Option<string>): (r: Option<Credentials>)
    ensures r.Some? <==> decoded.Some? && ':' in decoded.value
    ensures r.Some? ==> ':' !in r.value.username && decoded.value == r.value.username + ":" + r.value.password
  {
    match decoded
    case None => None
    case Some(text) =>
      match SplitFirst(text, ':')
      case None => None
      case Some((user, password)) => Some(Credentials(user, password))
  }

  /** `get_credentials_optional`: only a header starting with "Basic " is
      read; every occurrence of "Basic " is removed before decoding, and any
      failure gives no credentials. */
  function GetCredentialsOptional(authorization: Option<string>, decode: Base64Text): (r: Option<Credentials>)
    ensures !(Truthy(authorization) && StartsWith(authorization.value, BasicPrefix)) ==> r.None?
    ensures Truthy(authorization) && StartsWith(authorization.value, BasicPrefix) ==>
              r == ParseCredentials(decode(ReplaceAll(authorization.value, BasicPrefix, "")))
  {
    if authorization.Some? && authorization.value != "" && StartsWith(authorization.value, BasicPrefix) then
      ParseCredentials(decode(ReplaceAll(authorization.value, BasicPrefix, "")))
    else None
  }

  /** A header "Basic <token>" hands exactly the token to the decoder when
      the token holds no space, as a base64 token never does. */
  lemma BasicTokenIsDecoded(token: string)
    requires ' ' !in token
    ensures ReplaceAll(BasicPrefix + token, BasicPrefix, "") == token
  {
    var header := BasicPrefix + token;
    assert StartsWith(header, BasicPrefix);
    assert header[|BasicPrefix|..] == token;
    NoSpaceNoBasic(token);
    ReplaceAbsent(token, BasicPrefix, "");
  }

  lemma {:induction false} NoSpaceNoBasic(s: string)
    requires ' ' !in s
    ensures !Contains(s, BasicPrefix)
    decreases |s|
  {
    if |s| >= |BasicPrefix| {
      assert s[5] in s;
    }
    if s != [] {
      NoSpaceNoBasic(s[1..]);
    }
  }

  /** The credentials of a well-formed Basic header come back whole, with a
      password that may itself hold ":". */
  lemma BasicHeaderRoundTrip(token: string, user: string, password: string, decode: Base64Text)
    requires ' ' !in token && ':' !in user
    requires decode(token) == Some(user + ":" + password)
    ensures GetCredentialsOptional(Some(BasicPrefix + token), decode) == Some(Credentials(user, password))
  {
    var header := BasicPrefix + token;
    assert header[..|BasicPrefix|] == BasicPrefix;
    BasicTokenIsDecoded(token);
    var text := user + ":" + password;
    var r := ParseCredentials(Some(text));
    assert text[|user|] == ':';
    assert r.Some?;
    SplitAtFirstColon(user, password, r.value.username, r.value.password);
  }

  /** The first ":" of "user:password" is the one after the user. */
  lemma FirstColon(user: string, password: string)
    requires ':' !in user
    ensures IndexOf(user + ":" + password, ':') == Some(|user|)
  {
    var s := user + ":" + password;
    assert s[..|user|] == user;
    assert s[|user|] == ':';
  }

  /** Where the first ":" falls, a split is unique. */
  lemma SplitAtFirstColon(u1: string, p1: string, u2: string, p2: string)
    requires ':' !in u1 && ':' !in u2
    requires u1 + ":" + p1 == u2 + ":" + p2
    ensures u1 == u2 && p1 == p2
  {
    var s := u1 + ":" + p1;
    FirstColon(u1, p1);
    FirstColon(u2, p2);
    assert u1 == s[..|u1|] == u2;
    assert p1 == s[|u1| + 1..] == p2;
  }

  /** The credentials cookie, decoded as the Basic header is: a username and
      a password, or neither when decoding or splitting fails. */
  function CookieCredentials(authCookie: Option<string>, decode: Base64Text): (r: Option<Credentials>)
    ensures !Truthy(authCookie) ==> r.None?
    ensures Truthy(authCookie) ==> r == ParseCredentials(decode(authCookie.value))
  {
    if authCookie.Some? && authCookie.value != "" then ParseCredentials(decode(authCookie.value)) else None
  }

  /** The credentials `verify_admin` checks: the cookie's when they carry a
      non-empty username, the Basic header's otherwise. */
  function ChosenCredentials(req: Request, decode: Base64Text): (r: Option<Credentials>)
    ensures var c := CookieCredentials(req.authCookie, decode);
            c.Some? && c.value.username != "" ==> r == c
    ensures var c := CookieCredentials(req.authCookie, decode);
            !(c.Some? && c.value.username != "") && GetCredentialsOptional(req.authorization, decode).Some? ==>
              r == GetCredentialsOptional(req.authorization, decode)
    ensures r.None? ==> GetCredentialsOptional(req.authorization, decode).None?
  {
    var fromCookie := CookieCredentials(req.authCookie, decode);
    if fromCookie.Some? && fromCookie.value.username != "" then fromCookie
    else
      var fromHeader := GetCredentialsOptional(req.authorization, decode);
      if fromHeader.Some? then fromHeader else fromCookie
  }

  /** Whether the client asked for HTML. */
  predicate WantsHtml(req: Request)
    ensures WantsHtml(req) ==> req.accept.Some?
  {
    Contains(req.accept.GetOr(""), "text/html")
  }

  /** What `verify_admin` ends with: the admin's name, a redirect to the
      login page (returned, for HTML requests), or a raised 403 or 401. */
  datatype Verdict = Admin(username: string) | RedirectToLogin | Forbidden | Unauthorized

  /** Whether credentials name an admin with that admin's password. */
  predicate IsAdmin(admins: map<string, string>, c: Option<Credentials>) {
    c.Some? && c.value.username != "" && c.value.username in admins && admins[c.value.username] == c.value.password
  }

  /** `verify_admin`: the IP check first, then the credentials. */
  function VerifyAdmin(allowedIps: seq<string>, admins: map<string, string>, req: Request, decode: Base64Text): (r: Verdict)
    ensures !CheckIpAllowed(allowedIps, req.clientIp) ==> r == (if WantsHtml(req) then RedirectToLogin else Forbidden)
    ensures r.Admin? <==> CheckIpAllowed(allowedIps, req.clientIp) && IsAdmin(admins, ChosenCredentials(req, decode))
    ensures r.Admin? ==> r.username in admins && Some(Credentials(r.username, admins[r.username])) == ChosenCredentials(req, decode)
    ensures r == Unauthorized <==>
              CheckIpAllowed(allowedIps, req.clientIp) && !IsAdmin(admins, ChosenCredentials(req, decode)) && !WantsHtml(req)
  {
    if !CheckIpAllowed(allowedIps, req.clientIp) then
      if WantsHtml(req) then RedirectToLogin else Forbidden
    else
      var c := ChosenCredentials(req, decode);
      if !IsAdmin(admins, c) then
        if WantsHtml(req) then RedirectToLogin else Unauthorized
      else Admin(c.value.username)
  }

  /** A rejected cookie is not retried with the Basic header: when the
      cookie names a user, the header plays no part. */
  lemma CookieShadowsBasicHeader(allowedIps: seq<string>, admins: map<string, string>, req: Request, header: Option<string>, decode: Base64Text)
    requires CookieCredentials(req.authCookie, decode).Some? && CookieCredentials(req.authCookie, decode).value.username != ""
    ensures VerifyAdmin(allowedIps, admins, req, decode) == VerifyAdmin(allowedIps, admins, req.(authorization := header), decode)
  {
  }

  /** What a request to a protected route gets once the framework has the
      gate's verdict. */
  datatype Response =
    | HandlerRan(username: Option<string>)  // None: the handler ran without an admin
    | LoginRedirect
    | ErrorStatus(code: nat)

  /** The framework as the code is wired: a verdict that is returned rather
      than raised is handed to the route as its `username`, so a returned
      redirect runs the route. A raised 401 becomes a login redirect for an
      HTML page outside "/api". */
  function DispatchAsWritten(v: Verdict, req: Request): (r: Response)
    ensures v.Admin? ==> r == HandlerRan(Some(v.username))
    ensures v == RedirectToLogin ==> r == HandlerRan(None)
    ensures v == Forbidden ==> r == ErrorStatus(403)
    ensures v == Unauthorized ==> r == (if WantsHtml(req) && !StartsWith(req.path, "/api") then LoginRedirect else ErrorStatus(401))
  {
    match v
    case Admin(u) => HandlerRan(Some(u))
    case RedirectToLogin => HandlerRan(None)
    case Forbidden => ErrorStatus(403)
    case Unauthorized => if WantsHtml(req) && !StartsWith(req.path, "/api") then LoginRedirect else ErrorStatus(401)
  }

  /** The gate as evidently intended: a redirect verdict is sent to the
      client instead of running the route. */
  function Dispatch(v: Verdict, req: Request): (r: Response)
    ensures v == RedirectToLogin ==> r == LoginRedirect
    ensures v != RedirectToLogin ==> r == DispatchAsWritten(v, req)
  {
    if v == RedirectToLogin then LoginRedirect else DispatchAsWritten(v, req)
  }

  /** As written, an HTML request with no credentials from an allowed
      client runs a protected route, even one under "/api". */
  lemma HtmlRequestBypassesGate(admins: map<string, string>, decode: Base64Text)
    ensures var req := Request("203.0.113.7", Some("text/html"), None, None, "/api/stats");
            DispatchAsWritten(VerifyAdmin([], admins, req, decode), req) == HandlerRan(None)
  {
    var req := Request("203.0.113.7", Some("text/html"), None, None, "/api/stats");
    assert StartsWith("text/html", "text/html");
    assert WantsHtml(req);
    assert !IsAdmin(admins, ChosenCredentials(req, decode));
  }

  /** With the intended dispatch a route runs only for an allowed client
      whose chosen credentials are an admin's. */
  lemma HandlerRunsOnlyForAdmins(allowedIps: seq<string>, admins: map<string, string>, req: Request, decode: Base64Text)
    ensures var r := Dispatch(VerifyAdmin(allowedIps, admins, req, decode), req);
            r.HandlerRan? <==> CheckIpAllowed(allowedIps, req.clientIp) && IsAdmin(admins, ChosenCredentials(req, decode))
    ensures var r := Dispatch(VerifyAdmin(allowedIps, admins, req, decode), req);
            r.HandlerRan? ==> r.username.Some? && r.username.value in admins
  {
  }

  /** With the intended dispatch an HTML request that fails the gate is
      sent to the login page. */
  lemma RejectedHtmlGoesToLogin(allowedIps: seq<string>, admins: map<string, string>, req: Request, decode: Base64Text)
    requires WantsHtml(req)
    requires !VerifyAdmin(allowedIps, admins, req, decode).Admin?
    ensures Dispatch(VerifyAdmin(allowedIps, admins, req, decode), req) == LoginRedirect
  {
  }
}
