/** The minimal ledger access token of src/party-token/PartyToken.ts: it checks only that the
    decoded claims are an object with a numeric `exp`, and keeps only that claim. */
module MinimalToken {
  import opened JsValues

  /** The `object({exp: number()})` decoder: the claims must be an object whose `exp` is a
      number; the result holds `exp` and nothing else. */
  function DecodeExp(d: Decoded): (r: Option<real>)
    ensures r.Some? <==> d.DObj? && "exp" in d.claims && d.claims["exp"].JNum?
    ensures r.Some? ==> r.value == d.claims["exp"].n
  {
    match d
    case DObj(c) => (match Get(c, "exp") case Some(JNum(n)) => Some(n) case _ => None)
    case _ => None
  }

  /** The constructor's error: its message begins with the text `Message` gives and goes on
      with the decoder's own description of the failure. */
  datatype TokenError = NotHubFormat(token: string)

  function Message(e: TokenError): string {
    "Access token not in Daml Hub format: " + e.token + "."
  }

  datatype TokenJson = TokenJson(token: string, isExpired: bool)

  /** `payload` None is a token whose payload has been removed. */
  datatype MinimalToken = MinimalToken(token: string, payload: Option<real>) {

    /** `get isExpired`: `exp` in seconds minus the time in seconds is not positive; without a
        payload the token is expired. */
    function IsExpired(nowMs: int): (r: bool)
      ensures payload.None? ==> r
      ensures payload.Some? ==> (r <==> payload.value <= (nowMs as real) / 1000.0)
    {
      match payload
      case None => true
      case Some(exp) => exp - (nowMs as real) / 1000.0 <= 0.0
    }

    /** `toJSON`. */
    function ToJson(nowMs: int): (r: TokenJson)
      ensures r.token == ToString()
      ensures r.isExpired <==> payload.None? || payload.value <= (nowMs as real) / 1000.0
    {
      TokenJson(token, IsExpired(nowMs))
    }

    /** `toString`. */
    function ToString(): string {
      token
    }
  }

  /** The constructor: the raw string is kept, and the decoded `exp` becomes the payload;
      any decoding failure is the format error naming the raw token. */
  function New(token: string, decode: JwtDecoder): (r: Result<MinimalToken, TokenError>)
    ensures r.Ok? <==> DecodeExp(decode(token)).Some?
    ensures r.Ok? ==> r.value.ToString() == token && r.value.payload == DecodeExp(decode(token))
    ensures r.Err? ==> r.error == NotHubFormat(token)
  {
    match DecodeExp(decode(token))
    case Some(exp) => Ok(MinimalToken(token, Some(exp)))
    case None => Err(NotHubFormat(token))
  }

  // ---------------------------------------------------------------------------------------
  // Properties

  /** Any claims object with a numeric `exp` constructs, whatever else it holds or lacks, and
      the payload is the `exp` alone. In particular claims that carry only `exp` and the
      ledger-API object are accepted. */
  lemma AcceptsAnyNumericExp(token: string, decode: JwtDecoder, claims: map<string, Json>, exp: real)
    requires decode(token) == DObj(claims) && "exp" in claims && claims["exp"] == JNum(exp)
    ensures New(token, decode) == Ok(MinimalToken(token, Some(exp)))
  {
  }

  /** Claims without a numeric `exp`, or a payload that is not an object, are rejected with
      the format error. */
  lemma RejectsWithoutNumericExp(token: string, decode: JwtDecoder)
    requires !decode(token).DObj? || "exp" !in decode(token).claims || !decode(token).claims["exp"].JNum?
    ensures New(token, decode) == Err(NotHubFormat(token))
    ensures Message(New(token, decode).error) == "Access token not in Daml Hub format: " + token + "."
  {
  }

  /** `toJSON` carries the raw token and the expiry flag, and the token is expired exactly
      when its `exp` is not after the current time in seconds. */
  lemma ToJsonOfConstructed(token: string, decode: JwtDecoder, nowMs: int)
    requires New(token, decode).Ok?
    ensures New(token, decode).value.ToJson(nowMs).token == token
    ensures New(token, decode).value.ToJson(nowMs).isExpired <==>
              decode(token).claims["exp"].n <= (nowMs as real) / 1000.0
  {
  }

  /** With the payload removed, the token reads as expired. */
  lemma ExpiredWithoutPayload(t: MinimalToken, nowMs: int)
    requires t.payload.None?
    ensures t.IsExpired(nowMs) && t.ToJson(nowMs) == TokenJson(t.token, true)
  {
  }
}
