/**
 * The mobile single-sign-on views: the login entry point that records in the
 * session whether the login should end in the mobile deep link, the completion
 * handler that issues an authorization code and redirects with it, the
 * endpoint that exchanges a code for an OAuth token and then clears the code,
 * and the two redirect views.
 *
 * The social-auth pipeline, the login function, the OAuth token generator and
 * URL reversal are collaborators: their results are inputs, and the calls the
 * views make into them are recorded as effects.
 */
module MobileSso {
  import opened Common
  import opened AuthCodes
  import opened ExchangeForm

  const MobileErrorMsg := "error"
  const MobileSuccessMsg := "success"
  const SecondsPerDay := 24 * 60 * 60

  /** The settings the views read. */
  datatype Settings = Settings(
    mobileSsoDeeplink: string,
    oauthExpirePublicClientDays: int,
    oauthDefaultScopes: seq<string>)

  /** Python's `str()` of an optional string, as an f-string renders it. */
  function PyStr(v: Option<string>): string {
    match v
    case None => "None"
    case Some(s) => s
  }

  // ---------------------------------------------------------------------------
  // Redirect URLs

  /** The two parameters the completion appends. */
  function AuthQuery(code: string, status: string): string {
    "AuthorizationCode=" + code + "&Status=" + status
  }

  /** The separator the completion puts before its parameters: `&` when the URL
      already has a query string, otherwise `?`. */
  function Separator(url: string): char {
    if '?' in url then '&' else '?'
  }

  /** Appending a query to a URL after its separator. */
  function AppendQuery(url: string, query: string): string {
    url + [Separator(url)] + query
  }

  lemma CountCharOne(d: char, c: char)
    ensures CountChar([d], c) == if d == c then 1 else 0
  {
    assert [d][1..] == [];
  }

  /** The URL keeps its base and gains the query at its end, after `&` exactly
      when the base already holds a `?`. */
  lemma AppendQueryKeepsBase(url: string, query: string)
    ensures var r := AppendQuery(url, query);
      && StartsWith(r, url)
      && r[|url| + 1..] == query
      && (r[|url|] == '&' <==> '?' in url)
  {
    var r := AppendQuery(url, query);
    assert r == url + ([Separator(url)] + query);
    assert r[..|url|] == url;
    assert r[|url|] == Separator(url);
  }

  /** The URL never gets a second query-string start: it holds exactly one `?`
      when the base has at most one and the query none. */
  lemma AppendQuerySingleQuery(url: string, query: string)
    requires '?' !in query && CountChar(url, '?') <= 1
    ensures CountChar(AppendQuery(url, query), '?') == 1
  {
    var r := AppendQuery(url, query);
    assert r == url + ([Separator(url)] + query);
    CountCharAppend(url, [Separator(url)] + query, '?');
    CountCharAppend([Separator(url)], query, '?');
    CountCharOne(Separator(url), '?');
  }

  /** A code was issued: `mobile_auth_code` is truthy. */
  predicate Issued_(code: Option<string>) {
    code.Some? && code.value != ""
  }

  /** The redirect target of the mobile completion (corrected form, see
      `CompletionUrlAsWritten`): the `sso-deeplink` route carrying the code and
      `Status=success` when a code was issued, otherwise the login-error URL with
      `Status=error`. */
  function CompletionUrl(code: Option<string>, loginErrorUrl: string, deeplinkRoute: string): (url: string)
    ensures var status := if Issued_(code) then MobileSuccessMsg else MobileErrorMsg;
      url == AppendQuery(if Issued_(code) then deeplinkRoute else loginErrorUrl, AuthQuery(PyStr(code), status))
  {
    var status := if Issued_(code) then MobileSuccessMsg else MobileErrorMsg;
    var url := if Issued_(code) then deeplinkRoute else loginErrorUrl;
    AppendQuery(url, AuthQuery(PyStr(code), status))
  }

  /** The status the URL reports is `success` exactly when a code was issued, and
      the code travels in the `AuthorizationCode` parameter. */
  lemma CompletionUrlStatus(code: Option<string>, loginErrorUrl: string, deeplinkRoute: string)
    ensures var url := CompletionUrl(code, loginErrorUrl, deeplinkRoute);
      var base := if Issued_(code) then deeplinkRoute else loginErrorUrl;
      && StartsWith(url, base)
      && url[|base| + 1..] == "AuthorizationCode=" + PyStr(code) + "&Status=" + (if Issued_(code) then "success" else "error")
      && (Issued_(code) <==> url[|url| - 7..] == "success")
  {
    var base := if Issued_(code) then deeplinkRoute else loginErrorUrl;
    var status := if Issued_(code) then MobileSuccessMsg else MobileErrorMsg;
    AppendQueryKeepsBase(base, AuthQuery(PyStr(code), status));
    var url := CompletionUrl(code, loginErrorUrl, deeplinkRoute);
    if !Issued_(code) {
      assert url[|url| - 5..] == "error";
      assert url[|url| - 7..][2..] == "error";
    }
  }

  /** How the completion URL ends as written at lines 121-129: `url` is bound
      only by the issued-code branch and by the no-user branch. */
  datatype UrlAsWritten = Bound(url: string) | UnboundLocalUrl

  /** `mobile_do_complete` lines 108-129 as written, once the pipeline's result
      is a user or nothing: `code` is `mobile_auth_code` after the branches.
      Line 122, the only assignment of the login-error URL, runs only for an
      anonymous caller with no user, so an authenticated caller whose pipeline
      yields no user and who gets no code reaches line 129 with `url` unbound. */
  function CompletionUrlAsWritten(code: Option<string>, caller: Caller, result: PipelineResult,
                                  loginErrorUrl: string, deeplinkRoute: string): (r: UrlAsWritten)
    requires !result.OtherResponse?
    ensures r.Bound? ==> r.url == CompletionUrl(code, loginErrorUrl, deeplinkRoute)
    ensures r.UnboundLocalUrl? <==> !Issued_(code) && !(caller.Anonymous? && result.NoUser?)
  {
    var status := if Issued_(code) then MobileSuccessMsg else MobileErrorMsg;
    var noUserBranch := caller.Anonymous? && result.NoUser?;
    if Issued_(code) then Bound(AppendQuery(deeplinkRoute, AuthQuery(PyStr(code), status)))
    else if noUserBranch then Bound(AppendQuery(loginErrorUrl, AuthQuery(PyStr(code), status)))
    else UnboundLocalUrl
  }

  /** The input that shows it: an authenticated caller and a pipeline that
      returns no user. `_populate_authorization_code(None)` gives no code, and
      line 129 raises `UnboundLocalError`. */
  lemma AuthenticatedWithoutUserRaises(rows: Rows, caller: UserId, uuids: seq<nat>,
                                       loginErrorUrl: string, deeplinkRoute: string)
    requires AllBounded(uuids)
    ensures var code := Populate(rows, None, uuids).code;
      CompletionUrlAsWritten(code, SignedIn(caller), NoUser, loginErrorUrl, deeplinkRoute) == UnboundLocalUrl
  {
  }

  // ---------------------------------------------------------------------------
  // The deep-link and login redirects

  datatype HttpResponse = HttpResponse(status: nat, body: string, location: string)

  /** `redirect_to_mobile_deeplink`: the deep link with both parameters copied
      from the query string, always joined with `?`; a missing parameter
      renders as `None`. */
  function RedirectToMobileDeeplink(deeplink: string, code: Option<string>, status: Option<string>): (r: HttpResponse)
    ensures r.status == 302 && r.location == r.body
    ensures r.body == deeplink + "?" + AuthQuery(PyStr(code), PyStr(status))
  {
    var url := deeplink + "?" + AuthQuery(PyStr(code), PyStr(status));
    HttpResponse(302, url, url)
  }

  /** No `?` among the two parameters unless the values carry one. */
  lemma AuthQueryQuestionMarks(code: string, status: string)
    ensures CountChar(AuthQuery(code, status), '?') == CountChar(code, '?') + CountChar(status, '?')
  {
    var p1, p2 := "AuthorizationCode=", "&Status=";
    assert '?' !in p1 && '?' !in p2;
    assert AuthQuery(code, status) == p1 + (code + (p2 + status));
    CountCharAppend(p1, code + (p2 + status), '?');
    CountCharAppend(code, p2 + status, '?');
    CountCharAppend(p2, status, '?');
  }

  /** Unlike the completion URL, the deep-link redirect does not look for an
      existing query: it always joins with `?`. */
  lemma DeeplinkJoinsWithQuestionMark(deeplink: string, code: Option<string>, status: Option<string>)
    ensures var r := RedirectToMobileDeeplink(deeplink, code, status);
      && StartsWith(r.body, deeplink) && r.body[|deeplink|] == '?'
  {
    var r := RedirectToMobileDeeplink(deeplink, code, status);
    assert r.body == deeplink + (['?'] + AuthQuery(PyStr(code), PyStr(status)));
    assert r.body[..|deeplink|] == deeplink;
  }

  /** The deep-link redirect therefore adds one `?` to those the deep link
      already holds. */
  lemma DeeplinkAddsOneQuestionMark(deeplink: string, code: string, status: string)
    requires '?' !in code && '?' !in status
    ensures CountChar(RedirectToMobileDeeplink(deeplink, Some(code), Some(status)).body, '?')
         == CountChar(deeplink, '?') + 1
  {
    var q := AuthQuery(code, status);
    var r := RedirectToMobileDeeplink(deeplink, Some(code), Some(status));
    assert r.body == deeplink + (['?'] + q);
    CountCharAppend(deeplink, ['?'] + q, '?');
    CountCharAppend(['?'], q, '?');
    CountCharOne('?', '?');
    AuthQueryQuestionMarks(code, status);
  }

  /** The login redirect `redirect_to_mobile` builds: the route name, the
      backend and the extra query parameters, in insertion order. */
  datatype LoginRedirect = LoginRedirect(route: string, backend: string, params: seq<(string, string)>)

  /** `redirect_to_mobile`: send the browser to the overridden login route with
      `next` set to the deep link, and for the SAML backend also the login entry
      and the identity provider (`default` when none is given). */
  function RedirectToMobile(backendName: string, idp: Option<string>, s: Settings): (r: LoginRedirect)
    ensures r.route == "social_login_override" && r.backend == backendName
    ensures |r.params| > 0 && r.params[0] == ("next", s.mobileSsoDeeplink)
    ensures backendName == "tpa-saml" <==> |r.params| == 3
    ensures backendName == "tpa-saml" ==> r.params[1..] == [("auth_entry", "login"), ("idp", idp.GetOr("default"))]
    ensures backendName != "tpa-saml" ==> r.params == [("next", s.mobileSsoDeeplink)]
  {
    var extra := [("next", s.mobileSsoDeeplink)];
    var extra := if backendName == "tpa-saml" then extra + [("auth_entry", "login"), ("idp", idp.GetOr("default"))] else extra;
    LoginRedirect("social_login_override", backendName, extra)
  }

  /** The login start's test for a mobile login: the `next` parameter, read as
      `""` when missing, equals the configured deep link. */
  predicate DeeplinkRequested(next: Option<string>, s: Settings) {
    next.GetOr("") == s.mobileSsoDeeplink
  }

  /** A login begun through `redirect_to_mobile` is a mobile login; a login with
      no `next` is not, unless the deep link is configured empty. */
  lemma MobileLoginIsDetected(backendName: string, idp: Option<string>, s: Settings)
    ensures var next := RedirectToMobile(backendName, idp, s).params[0].1;
      DeeplinkRequested(Some(next), s)
    ensures DeeplinkRequested(None, s) <==> s.mobileSsoDeeplink == ""
  {
  }

  // ---------------------------------------------------------------------------
  // Sessions, collaborators and the exchange request

  /** The two keys the views keep in the login session. */
  class Session {
    var deeplinkRedirect: Option<bool>
    var lastLoginBackend: Option<string>

    constructor ()
      ensures deeplinkRedirect == None && lastLoginBackend == None
    {
      deeplinkRedirect := None;
      lastLoginBackend := None;
    }
  }

  /** `request.user` at completion time. */
  datatype Caller = Anonymous | SignedIn(user: UserId)

  /** What the social-auth pipeline (`backend.complete` or
      `backend.continue_pipeline`) returns: no user, a user with the provider of
      its social account, or some other response to hand back unchanged. */
  datatype PipelineResult = NoUser | PipelineUser(user: UserId, provider: string) | OtherResponse(response: nat)

  /** Calls into collaborators, in the order the views make them. */
  datatype Effect =
    | AuthBegun(backend: string)
    | PipelineContinued
    | PipelineCompleted(caller: Option<UserId>)
    | DefaultCompletion
    | LoggedIn(user: UserId, provider: string)
    | ActivationEmailSent(user: UserId)

  datatype Completion = PassThrough(response: nat) | Redirect(url: string) | DelegatedToDefault

  /** The fields django-oauth-toolkit expects on the request before minting. */
  datatype TokenRequestFields = TokenRequestFields(
    user: Option<UserId>,
    scopes: seq<string>,
    client: Option<Client>,
    state: Option<string>,
    refreshToken: Option<string>,
    extraCredentials: Option<string>,
    grantType: Option<string>)

  /** What `_populate_create_access_token_request` leaves on the request. */
  function PopulatedFields(u: UserId, c: Client, s: Settings): (f: TokenRequestFields)
    ensures f.user == Some(u) && f.client == Some(c)
    ensures f.scopes == s.oauthDefaultScopes && f.grantType == Some(c.authorizationGrantType)
    ensures f.state.None? && f.refreshToken.None? && f.extraCredentials.None?
  {
    TokenRequestFields(Some(u), s.oauthDefaultScopes, Some(c), None, None, None, Some(c.authorizationGrantType))
  }

  /** The token lifetime: the configured number of days in seconds. */
  function ExpiresIn(s: Settings): (seconds: int)
    ensures seconds == s.oauthExpirePublicClientDays * 86400
  {
    s.oauthExpirePublicClientDays * SecondsPerDay
  }

  /** The token payload `BearerToken.create_token` returns. */
  datatype Token = Token(accessToken: string, tokenType: string, expiresIn: int, refreshToken: string, scope: string)

  /** `BearerToken(expires_in=...).create_token(request, refresh_token=...)`, an
      oracle of the request fields, the lifetime and the refresh flag. */
  type TokenGenerator = (TokenRequestFields, int, bool) -> Token

  /** The incoming HTTP request object, which the exchange view decorates. */
  class TokenRequest {
    var user: Option<UserId>
    var scopes: seq<string>
    var client: Option<Client>
    var state: Option<string>
    var refreshToken: Option<string>
    var extraCredentials: Option<string>
    var grantType: Option<string>

    constructor ()
      ensures Fields() == TokenRequestFields(None, [], None, None, None, None, None)
    {
      user, scopes, client := None, [], None;
      state, refreshToken, extraCredentials, grantType := None, None, None, None;
    }

    function Fields(): TokenRequestFields
      reads this
    {
      TokenRequestFields(user, scopes, client, state, refreshToken, extraCredentials, grantType)
    }

    /** `_populate_create_access_token_request`. */
    method Populate(u: UserId, c: Client, s: Settings)
      modifies this
      ensures Fields() == PopulatedFields(u, c, s)
    {
      user := Some(u);
      var copy: seq<string> := [];
      for i := 0 to |s.oauthDefaultScopes|
        invariant copy == s.oauthDefaultScopes[..i]
      {
        copy := copy + [s.oauthDefaultScopes[i]];
      }
      scopes := copy;
      client := Some(c);
      state := None;
      refreshToken := None;
      extraCredentials := None;
      grantType := Some(c.authorizationGrantType);
    }
  }

  datatype ExchangeResponse = TokenResponse(token: Token) | ErrorResponse(status: nat, errors: map<Field, seq<FieldError>>)

  /** A submission the exchange form accepts against the stored codes. */
  ghost predicate ExchangeAccepted(data: map<string, string>, clients: map<string, Client>, rows: Rows) {
    && CleanCode(data).Accepted? && CleanClientId(data).Accepted?
    && CleanClientId(data).text in clients
    && exists u :: HoldsCode(rows, u, CleanCode(data).text)
  }

  /** `_clean_authorization_code` as documented: the row holding the code gets a
      null code. */
  function ClearCode(rows: Rows, code: string): (r: Rows)
    ensures r.Keys == rows.Keys
  {
    map u | u in rows :: if rows[u] == Some(code) then None else rows[u]
  }

  /** Clearing removes exactly that code, keeps the table's uniqueness, and makes
      a replay of the same submission fail validation: codes are single use. */
  lemma ClearCodeRevokes(data: map<string, string>, clients: map<string, Client>, rows: Rows)
    requires CodesUnique(rows) && ExchangeAccepted(data, clients, rows)
    ensures var code := CleanCode(data).text;
      var after := ClearCode(rows, code);
      && CodesUnique(after)
      && (forall u :: u in rows && rows[u] != Some(code) ==> after[u] == rows[u])
      && !ExchangeAccepted(data, clients, after)
  {
    var code := CleanCode(data).text;
    var after := ClearCode(rows, code);
    forall u | u in after ensures after[u] != Some(code) {
      assert after[u] == if rows[u] == Some(code) then None else rows[u];
    }
  }

  /** `_clean_authorization_code` as written: line 243 looks the user up by a
      relation named `extra_user_info`, which the table does not declare, and
      line 245 saves the user rather than the code row; either way no row is
      written. */
  function ClearCodeAsWritten(rows: Rows, code: string): (r: Rows)
    ensures r == rows
  {
    rows
  }

  /** The input that shows it: any accepted submission is accepted again after
      the clearing step as written. */
  lemma ReplayAcceptedAsWritten(data: map<string, string>, clients: map<string, Client>, rows: Rows)
    requires ExchangeAccepted(data, clients, rows)
    ensures ExchangeAccepted(data, clients, ClearCodeAsWritten(rows, CleanCode(data).text))
  {
  }

  /** `_populate_authorization_code` on the table: a user gets a row (created
      with a null code) and then `set_authorization_code`; no user, no code. */
  function Populate(rows: Rows, user: Option<UserId>, uuids: seq<nat>): (r: Issued)
    requires AllBounded(uuids)
    ensures user.None? ==> r == Issued(rows, None)
    ensures user.Some? ==> r.rows.Keys == rows.Keys + {user.value}
    ensures user.Some? && user.value in rows && HasCode(rows[user.value]) ==> r == Issued(rows, rows[user.value])
    ensures r.code.Some? ==> user.Some? && r.rows[user.value] == r.code && HasCode(r.code)
    ensures CodesUnique(rows) ==> CodesUnique(r.rows)
  {
    match user
    case None => Issued(rows, None)
    case Some(u) =>
      var withRow := if u in rows then rows else rows[u := None];
      assert CodesUnique(rows) ==> CodesUnique(withRow);
      Issue(withRow, u, uuids)
  }

  predicate IsActive(active: map<UserId, bool>, u: UserId) {
    u in active && active[u]
  }

  /** `_send_activation_email` on the users' `is_active` flags and the calls
      made: with a profile, a user ends active when already active or when the
      provider skips email verification, and is sent an activation email
      exactly otherwise; no other user is touched. */
  function Activation(active: map<UserId, bool>, effects: seq<Effect>, u: UserId,
                      hasProfile: bool, skipEmailVerification: bool): (o: (map<UserId, bool>, seq<Effect>))
    ensures !hasProfile ==> o == (active, effects)
    ensures hasProfile ==> (IsActive(o.0, u) <==> IsActive(active, u) || skipEmailVerification)
    ensures o.1 == effects || o.1 == effects + [ActivationEmailSent(u)]
    ensures o.1 != effects <==> hasProfile && !IsActive(active, u) && !skipEmailVerification
    ensures IsActive(active, u) ==> o.0 == active
    ensures forall v :: v != u ==> (v in o.0 <==> v in active) && (v in active ==> o.0[v] == active[v])
  {
    if !hasProfile then (active, effects)
    else
      var activated := IsActive(active, u);
      var active' := if skipEmailVerification && !activated then active[u := true] else active;
      var activated' := activated || skipEmailVerification;
      (active', if activated' then effects else effects + [ActivationEmailSent(u)])
  }

  /** What the mobile completion reads and writes besides the session flag. */
  datatype CompletionState = CompletionState(
    rows: Rows,
    active: map<UserId, bool>,
    effects: seq<Effect>,
    lastLoginBackend: Option<string>)

  /** The call into the pipeline that starts the completion. */
  function PipelineCall(caller: Caller, partial: bool): Effect {
    if partial then PipelineContinued else PipelineCompleted(if caller.SignedIn? then Some(caller.user) else None)
  }

  /** `mobile_do_complete` (corrected form), on the state it touches. */
  function MobileCompletion(st: CompletionState, caller: Caller, partial: bool, result: PipelineResult,
                            hasProfile: bool, skipEmailVerification: bool, uuids: seq<nat>,
                            loginErrorUrl: string, deeplinkRoute: string): (o: (Completion, CompletionState))
    requires AllBounded(uuids)
    // a response that is not a user is handed back after the pipeline call
    ensures result.OtherResponse? ==>
      o == (PassThrough(result.response), st.(effects := st.effects + [PipelineCall(caller, partial)]))
    // an authenticated caller: a code for the pipeline's user, no login
    ensures caller.SignedIn? && !result.OtherResponse? ==>
      var issued := Populate(st.rows, if result.PipelineUser? then Some(result.user) else None, uuids);
      o == (Redirect(CompletionUrl(issued.code, loginErrorUrl, deeplinkRoute)),
            CompletionState(issued.rows, st.active, st.effects + [PipelineCall(caller, partial)], st.lastLoginBackend))
    // a new login: log in, remember the provider, issue a code, then activation
    ensures caller.Anonymous? && result.PipelineUser? ==>
      var issued := Populate(st.rows, Some(result.user), uuids);
      var (active, effects) := Activation(st.active, st.effects + [PipelineCall(caller, partial), LoggedIn(result.user, result.provider)],
                                          result.user, hasProfile, skipEmailVerification);
      o == (Redirect(CompletionUrl(issued.code, loginErrorUrl, deeplinkRoute)),
            CompletionState(issued.rows, active, effects, Some(result.provider)))
    // no user at all: back to the login-error URL with an empty code
    ensures caller.Anonymous? && result.NoUser? ==>
      o == (Redirect(AppendQuery(loginErrorUrl, AuthQuery("", MobileErrorMsg))),
            st.(effects := st.effects + [PipelineCall(caller, partial)]))
    // only a new login writes the login backend and the users' flags
    ensures !(caller.Anonymous? && result.PipelineUser?) ==>
      o.1.lastLoginBackend == st.lastLoginBackend && o.1.active == st.active
    ensures CodesUnique(st.rows) ==> CodesUnique(o.1.rows)
  {
    var mobileAuthCode: Option<string> := Some("");
    var st1 := st.(effects := st.effects + [PipelineCall(caller, partial)]);
    if result.OtherResponse? then (PassThrough(result.response), st1)
    else if caller.SignedIn? then
      var issued := Populate(st1.rows, if result.PipelineUser? then Some(result.user) else None, uuids);
      (Redirect(CompletionUrl(issued.code, loginErrorUrl, deeplinkRoute)), st1.(rows := issued.rows))
    else if result.PipelineUser? then
      var st2 := st1.(effects := st1.effects + [LoggedIn(result.user, result.provider)], lastLoginBackend := Some(result.provider));
      assert st2.effects == st.effects + [PipelineCall(caller, partial), LoggedIn(result.user, result.provider)];
      var issued := Populate(st2.rows, Some(result.user), uuids);
      var (active, effects) := Activation(st2.active, st2.effects, result.user, hasProfile, skipEmailVerification);
      (Redirect(CompletionUrl(issued.code, loginErrorUrl, deeplinkRoute)),
       CompletionState(issued.rows, active, effects, st2.lastLoginBackend))
    else (Redirect(CompletionUrl(mobileAuthCode, loginErrorUrl, deeplinkRoute)), st1)
  }

  /** The plugin's view of the platform: the code table, the users' `is_active`
      flags, and the calls made into collaborators. */
  class Platform {
    const codes: MobileUserAuthTable
    var active: map<UserId, bool>
    var effects: seq<Effect>

    ghost predicate Valid()
      reads this, codes
    {
      codes.Valid()
    }

    /** The state the mobile completion reads and writes. */
    ghost function CompletionStateOf(session: Session): CompletionState
      reads this, codes, session
    {
      CompletionState(codes.rows, active, effects, session.lastLoginBackend)
    }

    constructor (table: MobileUserAuthTable)
      requires table.Valid()
      ensures Valid() && codes == table && active == map[] && effects == []
    {
      codes := table;
      active := map[];
      effects := [];
    }

    /** `auth_mobile`: record in the session whether this login is a mobile one,
        then begin authentication. Only this session is written. */
    method AuthMobile(session: Session, backend: string, next: Option<string>, s: Settings)
      modifies session, this
      ensures session.deeplinkRedirect == Some(DeeplinkRequested(next, s))
      ensures session.lastLoginBackend == old(session.lastLoginBackend)
      ensures effects == old(effects) + [AuthBegun(backend)] && active == old(active)
    {
      var redirectValue := next.GetOr("");
      session.deeplinkRedirect := Some(redirectValue == s.mobileSsoDeeplink);
      effects := effects + [AuthBegun(backend)];
    }

    /** `_populate_authorization_code`. */
    method PopulateAuthorizationCode(user: Option<UserId>, uuids: seq<nat>) returns (token: Option<string>)
      requires Valid() && AllBounded(uuids)
      modifies codes
      ensures Valid()
      ensures Issued(codes.rows, token) == Populate(old(codes.rows), user, uuids)
    {
      token := None;
      if user.Some? {
        var created := codes.GetOrCreate(user.value);
        token := codes.SetAuthorizationCode(user.value, uuids);
      }
    }

    /** `_send_activation_email`: with no profile nothing happens; an inactive
        user is activated when the provider skips email verification and is
        sent an activation email otherwise. */
    method SendActivationEmail(u: UserId, hasProfile: bool, skipEmailVerification: bool)
      modifies this
      ensures (active, effects) == Activation(old(active), old(effects), u, hasProfile, skipEmailVerification)
    {
      if hasProfile {
        var activated := IsActive(active, u);
        if skipEmailVerification && !activated {
          active := active[u := true];
          activated := true;
        }
        if !activated {
          effects := effects + [ActivationEmailSent(u)];
        }
      }
    }

    /** `mobile_do_complete`, with the `url` default of the corrected form. */
    method MobileDoComplete(
      session: Session, caller: Caller, partial: bool, result: PipelineResult,
      hasProfile: bool, skipEmailVerification: bool, uuids: seq<nat>,
      loginErrorUrl: string, deeplinkRoute: string)
      returns (r: Completion)
      requires Valid() && AllBounded(uuids)
      modifies this, codes, session
      ensures Valid() && session.deeplinkRedirect == old(session.deeplinkRedirect)
      ensures (r, CompletionStateOf(session))
           == MobileCompletion(old(CompletionStateOf(session)), caller, partial, result, hasProfile,
                               skipEmailVerification, uuids, loginErrorUrl, deeplinkRoute)
    {
      var isAuthenticated := caller.SignedIn?;
      var mobileAuthCode: Option<string> := Some("");
      var url := loginErrorUrl;

      if partial {
        effects := effects + [PipelineContinued];
      } else {
        effects := effects + [PipelineCompleted(if isAuthenticated then Some(caller.user) else None)];
      }

      if result.OtherResponse? {
        return PassThrough(result.response);
      }

      if isAuthenticated {
        mobileAuthCode := PopulateAuthorizationCode(if result.PipelineUser? then Some(result.user) else None, uuids);
      } else if result.PipelineUser? {
        effects := effects + [LoggedIn(result.user, result.provider)];
        session.lastLoginBackend := Some(result.provider);
        mobileAuthCode := PopulateAuthorizationCode(Some(result.user), uuids);
        SendActivationEmail(result.user, hasProfile, skipEmailVerification);
      } else {
        url := loginErrorUrl;
      }

      var status := if Issued_(mobileAuthCode) then MobileSuccessMsg else MobileErrorMsg;
      if Issued_(mobileAuthCode) {
        url := deeplinkRoute;
      }
      url := AppendQuery(url, AuthQuery(PyStr(mobileAuthCode), status));
      r := Redirect(url);
    }

    /** `complete_mobile`: the mobile completion runs exactly when the login
        start stored a true `deeplink_redirect` in this session, and then does
        what `MobileCompletion` says; otherwise social-core's completion runs. */
    method CompleteMobile(
      session: Session, caller: Caller, partial: bool, result: PipelineResult,
      hasProfile: bool, skipEmailVerification: bool, uuids: seq<nat>,
      loginErrorUrl: string, deeplinkRoute: string)
      returns (r: Completion)
      requires Valid() && AllBounded(uuids)
      modifies this, codes, session
      ensures Valid()
      ensures old(session.deeplinkRedirect) != Some(true) ==>
        r == DelegatedToDefault && effects == old(effects) + [DefaultCompletion]
        && codes.rows == old(codes.rows) && active == old(active)
      ensures old(session.deeplinkRedirect) == Some(true) ==>
        (r, CompletionStateOf(session))
          == MobileCompletion(old(CompletionStateOf(session)), caller, partial, result, hasProfile,
                              skipEmailVerification, uuids, loginErrorUrl, deeplinkRoute)
    {
      if session.deeplinkRedirect == Some(true) {
        r := MobileDoComplete(session, caller, partial, result, hasProfile, skipEmailVerification,
                              uuids, loginErrorUrl, deeplinkRoute);
      } else {
        effects := effects + [DefaultCompletion];
        r := DelegatedToDefault;
      }
    }

    /** `_clean_authorization_code` as documented. */
    method CleanAuthorizationCode(code: string)
      requires Valid()
      modifies codes
      ensures Valid() && codes.rows == ClearCode(old(codes.rows), code)
    {
      codes.rows := ClearCode(codes.rows, code);
    }

    /** `AuthorizationCodeExchangeView.post`: an invalid form is a 400 with its
        errors and changes nothing; a valid one mints a token for the code's
        holder and then clears the code. */
    method Post(request: TokenRequest, data: map<string, string>, clients: map<string, Client>,
                s: Settings, generate: TokenGenerator)
      returns (resp: ExchangeResponse)
      requires Valid()
      modifies codes, request
      ensures Valid()
      ensures !ExchangeAccepted(data, clients, old(codes.rows)) ==>
        && resp.ErrorResponse? && resp.status == 400
        && FormErrorsAre(resp.errors, data, clients, old(codes.rows))
        && codes.rows == old(codes.rows) && request.Fields() == old(request.Fields())
      ensures ExchangeAccepted(data, clients, old(codes.rows)) ==>
        var code := CleanCode(data).text;
        var client := clients[CleanClientId(data).text];
        && codes.rows == ClearCode(old(codes.rows), code)
        && exists u :: HoldsCode(old(codes.rows), u, code)
             && request.Fields() == PopulatedFields(u, client, s)
             && resp == TokenResponse(generate(PopulatedFields(u, client, s), ExpiresIn(s), true))
    {
      var form := Validate(data, clients, codes.rows);
      assert form.IsValid() <==> ExchangeAccepted(data, clients, codes.rows);
      if !form.IsValid() {
        resp := ErrorResponse(400, form.errors);
        return;
      }
      var user := form.user.value;
      var authorizationCode := form.authorizationCode.value;
      var client := form.client.value;
      var token := CreateAccessToken(request, user, client, s, generate);
      CleanAuthorizationCode(authorizationCode);
      resp := TokenResponse(token);
    }

    /** `create_access_token`. */
    method CreateAccessToken(request: TokenRequest, u: UserId, c: Client, s: Settings, generate: TokenGenerator)
      returns (token: Token)
      modifies request
      ensures request.Fields() == PopulatedFields(u, c, s)
      ensures token == generate(PopulatedFields(u, c, s), ExpiresIn(s), true)
    {
      request.Populate(u, c, s);
      token := generate(request.Fields(), s.oauthExpirePublicClientDays * SecondsPerDay, true);
    }

    /** The same exchange submitted twice: the second one is refused with an
        error on `authorization_code`. */
    method ExchangeTwice(request: TokenRequest, data: map<string, string>, clients: map<string, Client>,
                         s: Settings, generate: TokenGenerator)
      returns (first: ExchangeResponse, second: ExchangeResponse)
      requires Valid()
      modifies codes, request
      ensures Valid()
      ensures first.TokenResponse? ==> second.ErrorResponse? && AuthorizationCode in second.errors
    {
      ghost var before := codes.rows;
      first := Post(request, data, clients, s, generate);
      if first.TokenResponse? {
        ClearCodeRevokes(data, clients, before);
      }
      second := Post(request, data, clients, s, generate);
    }
  }
}
