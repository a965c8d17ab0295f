/** The full-check ledger access token: `PartyToken` in src/party-info/PartyToken.ts and its
    duplicate `AccessToken` in src/access-tokens/AccessToken.ts. A token is built once from its
    raw string; it keeps that string and, when the decoded claims pass the shape check, the
    claims. A token whose payload has been removed afterwards is the value with payload None. */
module FullToken {
  import opened JsValues

  const LedgerApiClaim := "https://daml.com/ledger-api"

  /** The top-level claims that must be truthy, in the order the check reads them. */
  const TopClaims: seq<string> := ["exp", "ledgerId", "owner", "party", "partyName"]

  /** The claims of the ledger-API object that must be truthy. */
  const LedgerApiClaims: seq<string> := ["applicationId", "ledgerId", "actAs", "readAs"]

  /** The three ways the shape check can end: the payload is accepted, it is rejected, or
      reading the ledger-API object's first claim fails because that object is `undefined` or
      `null` (a TypeError, not the format error). */
  datatype PayloadCheck = Accepted | Rejected | LedgerApiUnreadable

  predicate AllTruthy(m: map<string, Json>, keys: seq<string>) {
    forall i :: 0 <= i < |keys| ==> TruthyOpt(Get(m, keys[i]))
  }

  predicate TopClaimsTruthy(c: map<string, Json>) {
    && TruthyOpt(Get(c, "exp"))
    && TruthyOpt(Get(c, "ledgerId"))
    && TruthyOpt(Get(c, "owner"))
    && TruthyOpt(Get(c, "party"))
    && TruthyOpt(Get(c, "partyName"))
  }

  /** A property of the ledger-API value: an object's entry, otherwise `undefined`. */
  function ApiClaim(api: Json, key: string): Option<Json> {
    if api.JObj? then Get(api.fields, key) else None
  }

  /** `isPartyTokenPayload` / `isAccessTokenPayload`. */
  function CheckPayload(d: Decoded): (r: PayloadCheck)
    ensures r == Accepted <==>
              d.DObj? && AllTruthy(d.claims, TopClaims) && LedgerApiClaim in d.claims
              && d.claims[LedgerApiClaim].JObj?
              && AllTruthy(d.claims[LedgerApiClaim].fields, LedgerApiClaims)
    ensures r == LedgerApiUnreadable <==>
              d.DObj? && AllTruthy(d.claims, TopClaims)
              && (LedgerApiClaim !in d.claims || d.claims[LedgerApiClaim] == JNull)
  {
    match d
    case DNone => Rejected
    case DStr(_) => Rejected
    case DObj(c) =>
      assert TopClaimsTruthy(c) <==> AllTruthy(c, TopClaims) by {
        if TopClaimsTruthy(c) {
          forall i | 0 <= i < |TopClaims| ensures TruthyOpt(Get(c, TopClaims[i])) {
            assert i in {0, 1, 2, 3, 4};
          }
        }
        if AllTruthy(c, TopClaims) {
          assert TruthyOpt(Get(c, TopClaims[0])) && TruthyOpt(Get(c, TopClaims[1]));
          assert TruthyOpt(Get(c, TopClaims[2])) && TruthyOpt(Get(c, TopClaims[3]));
          assert TruthyOpt(Get(c, TopClaims[4]));
        }
      }
      if !TopClaimsTruthy(c) then Rejected
      else
        var api := Get(c, LedgerApiClaim);
        if api.None? || api.value == JNull then LedgerApiUnreadable
        else
          var ok := && TruthyOpt(ApiClaim(api.value, "applicationId"))
                    && TruthyOpt(ApiClaim(api.value, "ledgerId"))
                    && TruthyOpt(ApiClaim(api.value, "actAs"))
                    && TruthyOpt(ApiClaim(api.value, "readAs"));
          assert api.value.JObj? ==> (ok <==> AllTruthy(api.value.fields, LedgerApiClaims)) by {
            if api.value.JObj? {
              var f := api.value.fields;
              if ok {
                forall i | 0 <= i < |LedgerApiClaims| ensures TruthyOpt(Get(f, LedgerApiClaims[i])) {
                  assert i in {0, 1, 2, 3};
                }
              }
              if AllTruthy(f, LedgerApiClaims) {
                assert TruthyOpt(Get(f, LedgerApiClaims[0])) && TruthyOpt(Get(f, LedgerApiClaims[1]));
                assert TruthyOpt(Get(f, LedgerApiClaims[2])) && TruthyOpt(Get(f, LedgerApiClaims[3]));
              }
            }
          }
          if ok then Accepted else Rejected
  }

  datatype TokenError =
    | NotHubFormat(token: string)   // "Access token not in Daml Hub format: <token>"
    | LedgerApiTypeError            // reading a claim of an undefined/null ledger-API object

  function FormatMessage(token: string): string {
    "Access token not in Daml Hub format: " + token
  }

  /** What `toJSON` returns. */
  datatype TokenJson = TokenJson(token: string, party: Json, partyName: Json, ledgerId: Json, isExpired: bool)

  datatype HubToken = HubToken(token: string, payload: Option<map<string, Json>>) {

    /** The state every constructed token is in, until its payload is removed. */
    predicate Valid() {
      payload.Some? ==> CheckPayload(DObj(payload.value)) == Accepted
    }

    /** A getter: the claim when the payload is present and the claim truthy, else the error. */
    function Claim(key: string, missing: string): (r: Result<Json, string>)
      ensures r.Ok? <==> payload.Some? && TruthyOpt(Get(payload.value, key))
      ensures r.Ok? ==> r.value == payload.value[key]
      ensures r.Err? ==> r.error == missing
    {
      if payload.Some? && TruthyOpt(Get(payload.value, key)) then Ok(payload.value[key]) else Err(missing)
    }

    /** `get partyName`. */
    function PartyName(): Result<Json, string> {
      Claim("partyName", "Party name not found in token.")
    }

    /** `get party`. */
    function Party(): Result<Json, string> {
      Claim("party", "Party identifier not found in token.")
    }

    /** `get ledgerId`. */
    function LedgerId(): Result<Json, string> {
      Claim("ledgerId", "Ledger identifier not found in token.")
    }

    /** `get isExpired` at a clock reading of `nowMs` milliseconds since the epoch: the `exp`
        claim, in seconds, minus the time in seconds is not positive. An absent payload or claim
        counts as expired; a claim JavaScript cannot turn into a number gives NaN, and a NaN
        comparison is false. */
    function IsExpired(nowMs: int): (r: bool)
      ensures payload.None? || Get(payload.value, "exp").None? ==> r
      ensures payload.Some? && Get(payload.value, "exp").Some? && ToNumber(payload.value["exp"]).NaN? ==> !r
      ensures payload.Some? && Get(payload.value, "exp").Some? && ToNumber(payload.value["exp"]).Num? ==>
                (r <==> ToNumber(payload.value["exp"]).value <= (nowMs as real) / 1000.0)
    {
      match payload
      case None => true
      case Some(c) =>
        match Get(c, "exp")
        case None => true
        case Some(e) =>
          match ToNumber(e)
          case NaN => false
          case Num(x) => x - (nowMs as real) / 1000.0 <= 0.0
    }

    /** `toJSON` (party-info variant): the getters are read in the order party, partyName,
        ledgerId, and the first one that throws ends the call. */
    function ToJson(nowMs: int): (r: Result<TokenJson, string>)
      ensures r.Ok? <==> && payload.Some? && TruthyOpt(Get(payload.value, "party"))
                         && TruthyOpt(Get(payload.value, "partyName")) && TruthyOpt(Get(payload.value, "ledgerId"))
      ensures r.Ok? ==> r.value == TokenJson(token, payload.value["party"], payload.value["partyName"],
                                             payload.value["ledgerId"], IsExpired(nowMs))
      ensures Party().Err? ==> r == Err("Party identifier not found in token.")
      ensures Party().Ok? && PartyName().Err? ==> r == Err("Party name not found in token.")
      ensures Party().Ok? && PartyName().Ok? && LedgerId().Err? ==> r == Err("Ledger identifier not found in token.")
    {
      match Party()
      case Err(e) => Err(e)
      case Ok(p) =>
        match PartyName()
        case Err(e) => Err(e)
        case Ok(n) =>
          match LedgerId()
          case Err(e) => Err(e)
          case Ok(l) => Ok(TokenJson(token, p, n, l, IsExpired(nowMs)))
    }

    /** `toString`. */
    function ToString(): string {
      token
    }
  }

  /** The constructor: keep the raw string, decode it, and keep the claims when they pass the
      shape check; otherwise fail with the format error naming the raw token, or with the
      TypeError the check itself raises. */
  function New(token: string, decode: JwtDecoder): (r: Result<HubToken, TokenError>)
    ensures r.Ok? <==> CheckPayload(decode(token)) == Accepted
    ensures r.Ok? ==> r.value.token == token && r.value.payload == Some(decode(token).claims)
    ensures r.Ok? ==> r.value.Valid() && r.value.ToString() == token
    ensures CheckPayload(decode(token)) == Rejected ==> r == Err(NotHubFormat(token))
    ensures CheckPayload(decode(token)) == LedgerApiUnreadable ==> r == Err(LedgerApiTypeError)
  {
    var decoded := decode(token);
    match CheckPayload(decoded)
    case Accepted => Ok(HubToken(token, Some(decoded.claims)))
    case Rejected => Err(NotHubFormat(token))
    case LedgerApiUnreadable => Err(LedgerApiTypeError)
  }

  // ---------------------------------------------------------------------------------------
  // Properties

  /** On a constructed token the three getters return exactly the claims, and `toJSON`
      collects them with the raw token and the expiry flag. */
  lemma GettersOfConstructed(t: HubToken, nowMs: int)
    requires t.Valid() && t.payload.Some?
    ensures t.Party() == Ok(t.payload.value["party"])
    ensures t.PartyName() == Ok(t.payload.value["partyName"])
    ensures t.LedgerId() == Ok(t.payload.value["ledgerId"])
    ensures t.ToJson(nowMs) == Ok(TokenJson(t.token, t.payload.value["party"],
                                            t.payload.value["partyName"],
                                            t.payload.value["ledgerId"], t.IsExpired(nowMs)))
  {
    var c := t.payload.value;
    assert AllTruthy(c, TopClaims);
    assert TruthyOpt(Get(c, TopClaims[1])) && TruthyOpt(Get(c, TopClaims[3])) && TruthyOpt(Get(c, TopClaims[4]));
  }

  /** With the payload removed every getter throws its own error, `toJSON` throws the first
      one, and the token reads as expired. */
  lemma GettersWithoutPayload(t: HubToken, nowMs: int)
    requires t.payload.None?
    ensures t.Party() == Err("Party identifier not found in token.")
    ensures t.PartyName() == Err("Party name not found in token.")
    ensures t.LedgerId() == Err("Ledger identifier not found in token.")
    ensures t.ToJson(nowMs) == Err("Party identifier not found in token.")
    ensures t.IsExpired(nowMs)
  {
  }

  /** For a numeric `exp` claim the token is expired exactly when `exp` is not after the
      current time in seconds. */
  lemma IsExpiredIffPast(t: HubToken, nowMs: int, exp: real)
    requires t.payload.Some? && Get(t.payload.value, "exp") == Some(JNum(exp))
    ensures t.IsExpired(nowMs) <==> exp <= (nowMs as real) / 1000.0
  {
  }

  /** Construction of the raw string kept verbatim: `toString` gives it back. */
  lemma RoundTrip(token: string, decode: JwtDecoder)
    requires New(token, decode).Ok?
    ensures New(token, decode).value.ToString() == token
    ensures New(token, decode).value.token == token
  {
  }

  // ---------------------------------------------------------------------------------------
  // The claims of the tests' well-formed token, with `exp` and the ledger as parameters

  function LedgerApi(ledger: string, readAs: seq<Json>): Json {
    JObj(map[
      "applicationId" := JStr("damlhub"),
      "ledgerId" := JStr(ledger),
      "actAs" := JArr([JStr("ledger-party-abcd")]),
      "readAs" := JArr(readAs)])
  }

  function TestClaims(exp: real, ledger: string): map<string, Json> {
    map[
      "exp" := JNum(exp),
      LedgerApiClaim := LedgerApi(ledger, []),
      "ledgerId" := JStr(ledger),
      "owner" := JStr("user-grant-1111"),
      "party" := JStr("ledger-party-abcd"),
      "partyName" := JStr("Frank")]
  }

  /** `c` holds every claim of `claims` and possibly more, such as the `iat` that signing adds. */
  predicate HoldsClaims(c: map<string, Json>, claims: map<string, Json>) {
    forall k | k in claims :: k in c && c[k] == claims[k]
  }

  /** Claims that hold the tests' claims pass the payload check, although their `readAs` list
      is empty (an array is truthy). */
  lemma TestClaimsAccepted(exp: real, ledger: string, c: map<string, Json>)
    requires exp != 0.0 && ledger != ""
    requires HoldsClaims(c, TestClaims(exp, ledger))
    ensures CheckPayload(DObj(c)) == Accepted
  {
    var tc := TestClaims(exp, ledger);
    assert AllTruthy(c, TopClaims) by {
      forall i | 0 <= i < |TopClaims| ensures TruthyOpt(Get(c, TopClaims[i])) {
        assert i in {0, 1, 2, 3, 4};
        assert TopClaims[i] in tc;
      }
    }
    assert LedgerApiClaim in tc;
    var f := LedgerApi(ledger, []).fields;
    assert AllTruthy(f, LedgerApiClaims) by {
      forall i | 0 <= i < |LedgerApiClaims| ensures TruthyOpt(Get(f, LedgerApiClaims[i])) {
        assert i in {0, 1, 2, 3};
      }
    }
  }

  /** A token holding the tests' claims constructs; the getters return those claims, and it is
      not expired while `exp` lies ahead. */
  lemma WellFormedTokenAccepted(token: string, decode: JwtDecoder, exp: real, ledger: string, nowMs: int)
    requires exp != 0.0 && ledger != ""
    requires decode(token).DObj? && HoldsClaims(decode(token).claims, TestClaims(exp, ledger))
    ensures New(token, decode).Ok?
    ensures New(token, decode).value.Party() == Ok(JStr("ledger-party-abcd"))
    ensures New(token, decode).value.PartyName() == Ok(JStr("Frank"))
    ensures New(token, decode).value.LedgerId() == Ok(JStr(ledger))
    ensures New(token, decode).value.IsExpired(nowMs) <==> exp <= (nowMs as real) / 1000.0
  {
    var c := decode(token).claims;
    var tc := TestClaims(exp, ledger);
    TestClaimsAccepted(exp, ledger, c);
    assert c["party"] == JStr("ledger-party-abcd") by { assert "party" in tc; }
    assert c["partyName"] == JStr("Frank") by { assert "partyName" in tc; }
    assert c["ledgerId"] == JStr(ledger) by { assert "ledgerId" in tc; }
    assert Get(c, "exp") == Some(JNum(exp)) by { assert "exp" in tc; }
    var t := New(token, decode).value;
    assert t.payload == Some(c);
    GettersOfConstructed(t, nowMs);
    IsExpiredIffPast(t, nowMs, exp);
  }

  /** Truthiness is the rule: an `exp` of 0 or an empty party name is rejected with the format
      error naming the token. */
  lemma FalsyClaimsRejected(token: string, decode: JwtDecoder)
    ensures decode(token) == DObj(TestClaims(0.0, "ledger-abc")) ==> New(token, decode) == Err(NotHubFormat(token))
    ensures decode(token) == DObj(TestClaims(1.0, "ledger-abc")["partyName" := JStr("")]) ==>
              New(token, decode) == Err(NotHubFormat(token))
  {
    if decode(token) == DObj(TestClaims(0.0, "ledger-abc")) {
      assert !TruthyOpt(Get(decode(token).claims, TopClaims[0]));
    }
    if decode(token) == DObj(TestClaims(1.0, "ledger-abc")["partyName" := JStr("")]) {
      assert !TruthyOpt(Get(decode(token).claims, TopClaims[4]));
    }
  }

  /** A payload that decodes to a plain string (the test's 'notevenjson!'), or claims with only
      `exp` and the ledger-API object, are rejected with the format error. */
  lemma MalformedTokensRejected(token: string, decode: JwtDecoder, exp: real)
    ensures decode(token) == DStr("notevenjson!") ==> New(token, decode) == Err(NotHubFormat(token))
    ensures decode(token) == DObj(map["exp" := JNum(exp), LedgerApiClaim := LedgerApi("ledger-abc", [])]) ==>
              New(token, decode) == Err(NotHubFormat(token))
  {
    if decode(token) == DObj(map["exp" := JNum(exp), LedgerApiClaim := LedgerApi("ledger-abc", [])]) {
      assert !TruthyOpt(Get(decode(token).claims, TopClaims[1]));
    }
  }

  /** Top-level claims without the ledger-API object: the check reads a property of
      `undefined`, which is a TypeError rather than the format error. */
  lemma MissingLedgerApiIsTypeError(token: string, decode: JwtDecoder)
    requires decode(token) == DObj(TestClaims(1.0, "ledger-abc") - {LedgerApiClaim})
    ensures New(token, decode) == Err(LedgerApiTypeError)
  {
    var c := decode(token).claims;
    assert AllTruthy(c, TopClaims) by {
      forall i | 0 <= i < |TopClaims| ensures TruthyOpt(Get(c, TopClaims[i])) {
        assert i in {0, 1, 2, 3, 4};
      }
    }
  }

  /** The expiry cases of the tests: ten thousand seconds in the past is expired, ten
      thousand seconds ahead is not. */
  lemma ExpiryAroundNow(t: HubToken, nowMs: int)
    requires t.payload.Some?
    ensures Get(t.payload.value, "exp") == Some(JNum((nowMs as real) / 1000.0 - 10000.0)) ==> t.IsExpired(nowMs)
    ensures Get(t.payload.value, "exp") == Some(JNum((nowMs as real) / 1000.0 + 10000.0)) ==> !t.IsExpired(nowMs)
  {
  }
}
