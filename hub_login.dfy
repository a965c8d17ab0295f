/** The decisions of the login component in src/login/DamlHubLogin.tsx: which login controls
    to show, which cookie holds the user's token, where the login button sends the browser,
    and when a token found in a cookie is logged out instead of logged in. The redirects,
    cookie deletions and callbacks themselves become values describing them. */
module HubLogin {
  import opened JsValues
  import opened HubEnv
  import MinimalToken

  const DablCookie := "DABL_LEDGER_ACCESS_TOKEN"
  const DamlHubCookie := "DAMLHUB_LEDGER_ACCESS_TOKEN"

  // ---------------------------------------------------------------------------------------
  // Display options

  /** A `LoginMethod` option, as far as the display logic reads it: whether its `text` and
      its `render` are truthy. */
  datatype LoginMethod = LoginMethod(text: bool, render: bool)

  /** `options.method`, each entry optional. */
  datatype LoginOptions = LoginOptions(button: Option<LoginMethod>, token: Option<LoginMethod>, file: Option<LoginMethod>)

  datatype DisplayProps = DisplayProps(options: Option<LoginOptions>, withButton: bool, withToken: bool, withFile: bool)

  datatype Display = Display(button: bool, token: bool, file: bool)

  /** `!!m?.render || !!m?.text` */
  predicate Customised(m: Option<LoginMethod>) {
    m.Some? && (m.value.render || m.value.text)
  }

  function ButtonOption(p: DisplayProps): Option<LoginMethod> {
    if p.options.Some? then p.options.value.button else None
  }

  function TokenOption(p: DisplayProps): Option<LoginMethod> {
    if p.options.Some? then p.options.value.token else None
  }

  function FileOption(p: DisplayProps): Option<LoginMethod> {
    if p.options.Some? then p.options.value.file else None
  }

  /** `normalizeDisplayOpt`: a control is shown when asked for by its flag or customised by
      its option; the button is shown whenever nothing else is. */
  function NormalizeDisplayOpt(p: DisplayProps): (r: Display)
    ensures r.token <==> p.withToken || Customised(TokenOption(p))
    ensures r.file <==> p.withFile || Customised(FileOption(p))
    ensures r.button || r.token || r.file
    ensures !r.token && !r.file ==> r.button
    ensures r.token || r.file ==> (r.button <==> p.withButton || Customised(ButtonOption(p)))
  {
    var showToken := p.withToken || Customised(TokenOption(p));
    var showFile := p.withFile || Customised(FileOption(p));
    var showButton := if showToken || showFile then p.withButton || Customised(ButtonOption(p)) else true;
    Display(showButton, showToken, showFile)
  }

  /** With no flags and no options only the button is shown; asking for the file input alone
      hides the button. */
  lemma DisplayExamples()
    ensures NormalizeDisplayOpt(DisplayProps(None, false, false, false)) == Display(true, false, false)
    ensures NormalizeDisplayOpt(DisplayProps(None, false, false, true)) == Display(false, false, true)
    ensures NormalizeDisplayOpt(DisplayProps(None, true, true, true)) == Display(true, true, true)
    ensures NormalizeDisplayOpt(DisplayProps(Some(LoginOptions(None, Some(LoginMethod(true, false)), None)), false, false, false))
              == Display(false, true, false)
  {
  }

  // ---------------------------------------------------------------------------------------
  // The token cookie

  lemma CookieNamesArePlain()
    ensures IsPlainName(DablCookie) && IsPlainName(DamlHubCookie)
  {
  }

  /** `DAMLHUB_LEDGER_ACCESS_TOKEN || DABL_LEDGER_ACCESS_TOKEN` over `document.cookie`. */
  function TokenFromCookie(cookie: string): (r: Option<string>)
    ensures GetCookieValue(cookie, DamlHubCookie).Some? ==> r == GetCookieValue(cookie, DamlHubCookie)
    ensures GetCookieValue(cookie, DamlHubCookie).None? ==> r == GetCookieValue(cookie, DablCookie)
    ensures r.Some? ==> r.value != [] && ';' !in r.value
  {
    CookieNamesArePlain();
    OrElse(GetCookieValue(cookie, DamlHubCookie), GetCookieValue(cookie, DablCookie))
  }

  /** A cookie string that starts with the Daml Hub cookie yields its value, whatever the
      legacy cookie after it holds. */
  lemma DamlHubCookieWins(value: string, legacyValue: string, rest: string)
    requires value != [] && ';' !in value && !IsJsSpace(value[0])
    ensures TokenFromCookie(DamlHubCookie + "=" + value + ";" + " " + DablCookie + "=" + legacyValue + rest) == Some(value)
  {
    CookieNamesArePlain();
    assert DamlHubCookie + "=" + value + ";" + " " + DablCookie + "=" + legacyValue + rest
        == DamlHubCookie + "=" + value + ";" + (" " + DablCookie + "=" + legacyValue + rest);
    CookieAtStart(DamlHubCookie, value, " " + DablCookie + "=" + legacyValue + rest);
  }

  // ---------------------------------------------------------------------------------------
  // The login button

  datatype ClickOutcome =
    | Redirect(url: string)                       // window.location.assign(url)
    | Login(token: MinimalToken.MinimalToken)     // onLogin(token)
    | Throws(error: MinimalToken.TokenError)      // the token constructor throws, uncaught
    | NoCallback                                  // no `onLogin` prop: nothing is built or called

  const AppLoginPath := "/.hub/v1/auth/login"

  function LegacyLoginUrl(hostname: string): string {
    "https://login.projectdabl.com/auth/login?ledgerId=" + FirstLabel(hostname)
  }

  /** `handleButtonLogin`: without a token cookie the browser is sent to the hub's login page;
      with one, the token is built and handed to `onLogin`, when that optional prop is given
      (`hasOnLogin`); `onLogin && onLogin(...)` builds nothing without it. */
  function HandleButtonLogin(loc: Location, cookie: string, decode: JwtDecoder, hasOnLogin: bool): (r: ClickOutcome)
    ensures r.Redirect? <==> TokenFromCookie(cookie).None?
    ensures r.NoCallback? <==> TokenFromCookie(cookie).Some? && !hasOnLogin
    ensures r.Login? ==> hasOnLogin && r.token.ToString() == TokenFromCookie(cookie).value
    ensures r.Throws? ==> hasOnLogin && MinimalToken.New(TokenFromCookie(cookie).value, decode) == Err(r.error)
  {
    var t := TokenFromCookie(cookie);
    if !TruthyStr(t) then
      if DetectAppDomainType(loc.hostname) == AppDomain then Redirect(AppLoginPath)
      else Redirect(LegacyLoginUrl(loc.hostname))
    else if !hasOnLogin then NoCallback
    else
      match MinimalToken.New(t.value, decode)
      case Ok(at) => Login(at)
      case Err(e) => Throws(e)
  }

  /** Without a cookie an app host goes to the hub's own login path; every other host goes to
      the legacy login service, naming the first label of the hostname as the ledger. */
  lemma RedirectTargets(loc: Location, cookie: string, decode: JwtDecoder, hasOnLogin: bool)
    requires TokenFromCookie(cookie).None?
    ensures !IsLegacyHost(loc.hostname) && IsAppHost(loc.hostname) ==>
              HandleButtonLogin(loc, cookie, decode, hasOnLogin) == Redirect("/.hub/v1/auth/login")
    ensures IsLegacyHost(loc.hostname) || !IsAppHost(loc.hostname) ==>
              HandleButtonLogin(loc, cookie, decode, hasOnLogin)
                == Redirect("https://login.projectdabl.com/auth/login?ledgerId=" + FirstLabel(loc.hostname))
  {
  }

  /** With `onLogin`, a cookie token that decodes logs in with exactly that token string, and
      one that does not throws the format error naming it; without `onLogin` nothing happens. */
  lemma ClickWithCookie(loc: Location, cookie: string, decode: JwtDecoder, hasOnLogin: bool)
    requires TokenFromCookie(cookie).Some?
    ensures !hasOnLogin ==> HandleButtonLogin(loc, cookie, decode, hasOnLogin) == NoCallback
    ensures var t := TokenFromCookie(cookie).value;
            hasOnLogin ==>
            HandleButtonLogin(loc, cookie, decode, hasOnLogin)
              == (if MinimalToken.DecodeExp(decode(t)).Some?
                  then Login(MinimalToken.MinimalToken(t, MinimalToken.DecodeExp(decode(t))))
                  else Throws(MinimalToken.NotHubFormat(t)))
  {
  }

  // ---------------------------------------------------------------------------------------
  // Logout

  datatype CookieDeletion = Delete(name: string, domain: Option<string>)

  /** `damlHubLogout`, as the cookie deletions it performs. */
  function DamlHubLogout(hostname: string): (r: seq<CookieDeletion>)
    ensures (exists i | 0 <= i < |r| :: r[i].name == DamlHubCookie) <==> IsRunningOnHub(hostname)
    ensures (exists i | 0 <= i < |r| :: r[i].name == DablCookie) <==> IsLegacyHost(hostname)
    ensures forall i | 0 <= i < |r| :: r[i].domain.Some? <==> IsLegacyHost(hostname)
    ensures IsLegacyHost(hostname) ==> forall i | 0 <= i < |r| :: r[i].domain == Some("projectdabl.com")
    ensures |r| == (if IsLegacyHost(hostname) then 2 else if IsRunningOnHub(hostname) then 1 else 0)
  {
    match DetectAppDomainType(hostname)
    case LegacyDomain =>
      var r := [Delete(DablCookie, Some("projectdabl.com")), Delete(DamlHubCookie, Some("projectdabl.com"))];
      assert r[1].name == DamlHubCookie && r[0].name == DablCookie;
      r
    case AppDomain =>
      var r := [Delete(DamlHubCookie, None)];
      assert r[0].name == DamlHubCookie;
      assert DablCookie != DamlHubCookie by { assert DablCookie[2] != DamlHubCookie[2]; }
      r
    case NonHubDomain => []
  }

  // ---------------------------------------------------------------------------------------
  // The cookie effect on mount

  datatype EffectOutcome =
    | NoCookie
    | LoggedIn(token: MinimalToken.MinimalToken)  // onLogin(at)
    | LoggedOut(deleted: seq<CookieDeletion>)      // damlHubLogout()
    | LoginError(error: string)                    // onLogin(undefined, JSON.stringify(error))
    | Ignored                                      // `onLogin &&` with no `onLogin` prop

  /** `at.ledgerId` on the minimal token: that class has no such property, so it reads as
      `undefined`. */
  function TokenLedgerId(at: MinimalToken.MinimalToken): Option<Json> {
    None
  }

  /** `JSON.stringify` of an `Error`: its message is not an enumerable property, so the
      text is an empty object. */
  const StringifiedError := "{}"

  /** The effect as written: a token that decodes is logged out when the environment names a
      ledger, that ledger differs from the token's, and the host is legacy. */
  function CookieEffect(loc: Location, cookie: string, decode: JwtDecoder, hasOnLogin: bool): (r: EffectOutcome)
    ensures r == NoCookie <==> TokenFromCookie(cookie).None?
    ensures r.LoggedIn? ==> hasOnLogin && MinimalToken.New(TokenFromCookie(cookie).value, decode) == Ok(r.token)
    ensures r.LoginError? ==> hasOnLogin && MinimalToken.New(TokenFromCookie(cookie).value, decode).Err?
    ensures r.LoggedOut? ==> IsLegacyHost(loc.hostname) && r.deleted == DamlHubLogout(loc.hostname)
                             && MinimalToken.New(TokenFromCookie(cookie).value, decode).Ok?
    ensures r.Ignored? ==> !hasOnLogin
  {
    var t := TokenFromCookie(cookie);
    if !TruthyStr(t) then NoCookie
    else
      match MinimalToken.New(t.value, decode)
      case Err(_) => if hasOnLogin then LoginError(StringifiedError) else Ignored
      case Ok(at) =>
        var ledgerId := DamlHubEnvironment(loc).ledgerId;
        if && TruthyStr(ledgerId)
           && Some(JStr(ledgerId.value)) != TokenLedgerId(at)
           && DetectAppDomainType(loc.hostname) == LegacyDomain
        then LoggedOut(DamlHubLogout(loc.hostname))
        else if hasOnLogin then LoggedIn(at)
        else Ignored
  }

  /** The `ledgerId` claim of a token, read from its decoded claims. */
  function ClaimedLedgerId(token: string, decode: JwtDecoder): Option<Json> {
    if decode(token).DObj? then Get(decode(token).claims, "ledgerId") else None
  }

  /** The effect as intended: the environment's ledger is compared with the ledger the token
      claims. */
  function CookieEffectIntended(loc: Location, cookie: string, decode: JwtDecoder, hasOnLogin: bool): (r: EffectOutcome)
    ensures r == NoCookie <==> TokenFromCookie(cookie).None?
    ensures r.LoggedIn? ==> hasOnLogin && MinimalToken.New(TokenFromCookie(cookie).value, decode) == Ok(r.token)
    ensures r.LoginError? ==> hasOnLogin && MinimalToken.New(TokenFromCookie(cookie).value, decode).Err?
    ensures r.LoggedOut? ==> IsLegacyHost(loc.hostname) && r.deleted == DamlHubLogout(loc.hostname)
                             && MinimalToken.New(TokenFromCookie(cookie).value, decode).Ok?
    ensures r.Ignored? ==> !hasOnLogin
  {
    var t := TokenFromCookie(cookie);
    if !TruthyStr(t) then NoCookie
    else
      match MinimalToken.New(t.value, decode)
      case Err(_) => if hasOnLogin then LoginError(StringifiedError) else Ignored
      case Ok(at) =>
        var ledgerId := DamlHubEnvironment(loc).ledgerId;
        if && TruthyStr(ledgerId)
           && Some(JStr(ledgerId.value)) != ClaimedLedgerId(t.value, decode)
           && DetectAppDomainType(loc.hostname) == LegacyDomain
        then LoggedOut(DamlHubLogout(loc.hostname))
        else if hasOnLogin then LoggedIn(at)
        else Ignored
  }

  /** Off a legacy host a cookie token that decodes is always logged in, under both versions. */
  lemma NonLegacyLogsIn(loc: Location, cookie: string, decode: JwtDecoder, hasOnLogin: bool)
    requires !IsLegacyHost(loc.hostname)
    requires TokenFromCookie(cookie).Some? && MinimalToken.New(TokenFromCookie(cookie).value, decode).Ok?
    ensures CookieEffect(loc, cookie, decode, hasOnLogin)
              == (if hasOnLogin then LoggedIn(MinimalToken.New(TokenFromCookie(cookie).value, decode).value) else Ignored)
    ensures CookieEffectIntended(loc, cookie, decode, hasOnLogin) == CookieEffect(loc, cookie, decode, hasOnLogin)
  {
  }

  /** A cookie token that does not decode is reported with an empty error object. */
  lemma UndecodableCookie(loc: Location, cookie: string, decode: JwtDecoder, hasOnLogin: bool)
    requires TokenFromCookie(cookie).Some? && MinimalToken.New(TokenFromCookie(cookie).value, decode).Err?
    ensures CookieEffect(loc, cookie, decode, hasOnLogin) == (if hasOnLogin then LoginError("{}") else Ignored)
  {
  }

  /** As written, on a legacy host whose first label is non-empty every cookie token that
      decodes is logged out, including one that claims exactly that ledger. */
  lemma LegacyTokenAlwaysLoggedOut(loc: Location, cookie: string, decode: JwtDecoder, hasOnLogin: bool)
    requires IsLegacyHost(loc.hostname) && FirstLabel(loc.hostname) != ""
    requires TokenFromCookie(cookie).Some? && MinimalToken.New(TokenFromCookie(cookie).value, decode).Ok?
    requires ClaimedLedgerId(TokenFromCookie(cookie).value, decode) == Some(JStr(FirstLabel(loc.hostname)))
    ensures CookieEffect(loc, cookie, decode, hasOnLogin) == LoggedOut(DamlHubLogout(loc.hostname))
  {
  }

  /** As intended, on a legacy host a token claiming the host's ledger is logged in, and one
      claiming another ledger is logged out with both cookies deleted. */
  lemma IntendedComparesLedgers(loc: Location, cookie: string, decode: JwtDecoder, hasOnLogin: bool)
    requires IsLegacyHost(loc.hostname) && FirstLabel(loc.hostname) != ""
    requires TokenFromCookie(cookie).Some? && MinimalToken.New(TokenFromCookie(cookie).value, decode).Ok?
    ensures ClaimedLedgerId(TokenFromCookie(cookie).value, decode) == Some(JStr(FirstLabel(loc.hostname))) ==>
              CookieEffectIntended(loc, cookie, decode, hasOnLogin)
                == (if hasOnLogin then LoggedIn(MinimalToken.New(TokenFromCookie(cookie).value, decode).value) else Ignored)
    ensures ClaimedLedgerId(TokenFromCookie(cookie).value, decode) != Some(JStr(FirstLabel(loc.hostname))) ==>
              CookieEffectIntended(loc, cookie, decode, hasOnLogin)
                == LoggedOut([Delete(DablCookie, Some("projectdabl.com")), Delete(DamlHubCookie, Some("projectdabl.com"))])
  {
  }
}
