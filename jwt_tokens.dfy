/** The older JWT helpers of JwtTokens.ts: reading one claim of an unverified token and
    deciding whether the token has expired. */
module JwtTokens {
  import opened JsValues

  /** `fieldFromDablJWT`: when the token does not decode to a claims object the result is
      JavaScript's `null` (`Some(JNull)`); otherwise it is the claim, `undefined` (None) when
      absent. */
  function FieldFromDablJwt(token: string, fieldName: string, decode: JwtDecoder): (r: Option<Json>)
    ensures !decode(token).DObj? ==> r == Some(JNull)
    ensures decode(token).DObj? ==> r == Get(decode(token).claims, fieldName)
  {
    match decode(token)
    case DObj(c) => Get(c, fieldName)
    case _ => Some(JNull)
  }

  /** `partyName`. */
  function PartyName(token: string, decode: JwtDecoder): (r: Option<Json>)
    ensures !decode(token).DObj? ==> r == Some(JNull)
    ensures decode(token).DObj? ==> r == Get(decode(token).claims, "partyName")
  {
    FieldFromDablJwt(token, "partyName", decode)
  }

  /** `expiredToken` as written: a `null` claim (including the not-a-JWT case) is expired; the
      claim is otherwise parsed as an integer, and that integer (a time in seconds) is compared
      with the clock in milliseconds. The check of the parsed value against `undefined` can
      never succeed, so a NaN reaches the comparison, which is then false. */
  function ExpiredToken(token: string, decode: JwtDecoder, nowMs: int): (r: bool)
    ensures FieldFromDablJwt(token, "exp", decode) == Some(JNull) ==> r
    ensures FieldFromDablJwt(token, "exp", decode) != Some(JNull) ==>
              (r <==> (ParseIntOf(FieldFromDablJwt(token, "exp", decode)).Int?
                       && ParseIntOf(FieldFromDablJwt(token, "exp", decode)).value <= nowMs))
  {
    var exp := FieldFromDablJwt(token, "exp", decode);
    if exp == Some(JNull) then true
    else
      match ParseIntOf(exp)
      case IntNaN => false
      case Int(asSeconds) => asSeconds <= nowMs
  }

  /** The check as intended: the whole seconds of `exp` are compared with the clock in
      seconds, and a token without a readable `exp` counts as expired. */
  function ExpiredTokenIntended(token: string, decode: JwtDecoder, nowMs: int): (r: bool)
    ensures FieldFromDablJwt(token, "exp", decode) == Some(JNull) ==> r
    ensures ParseIntOf(FieldFromDablJwt(token, "exp", decode)).IntNaN? ==> r
  {
    var exp := FieldFromDablJwt(token, "exp", decode);
    if exp == Some(JNull) then true
    else
      match ParseIntOf(exp)
      case IntNaN => true
      case Int(asSeconds) => (asSeconds as real) <= (nowMs as real) / 1000.0
  }

  // ---------------------------------------------------------------------------------------
  // Properties

  /** The claim read back from a token whose claims hold it. */
  lemma PartyNameOfClaims(token: string, decode: JwtDecoder, name: string)
    requires decode(token).DObj? && Get(decode(token).claims, "partyName") == Some(JStr(name))
    ensures PartyName(token, decode) == Some(JStr(name))
  {
  }

  /** A token that is not a JWT has a `null` party name and is expired, under both checks. */
  lemma NotAJwt(token: string, decode: JwtDecoder, nowMs: int)
    requires decode(token) == DNone
    ensures PartyName(token, decode) == Some(JNull)
    ensures ExpiredToken(token, decode, nowMs) && ExpiredTokenIntended(token, decode, nowMs)
  {
  }

  /** As written, a token whose `exp` lies two minutes ahead is reported expired once the
      clock reads at least one second past the epoch: seconds are compared with milliseconds. */
  lemma FreshTokenReportedExpired(token: string, decode: JwtDecoder, nowMs: int)
    requires nowMs >= 1000
    requires decode(token).DObj? && Get(decode(token).claims, "exp") == Some(JNum((nowMs as real) / 1000.0 + 120.0))
    ensures ExpiredToken(token, decode, nowMs)
  {
    var x := (nowMs as real) / 1000.0 + 120.0;
    assert ParseIntOf(FieldFromDablJwt(token, "exp", decode)) == Int(Trunc(x));
    assert x <= nowMs as real;
  }

  /** As written, a token without an `exp` claim is reported as not expired. */
  lemma MissingExpReportedLive(token: string, decode: JwtDecoder, nowMs: int)
    requires decode(token).DObj? && "exp" !in decode(token).claims
    ensures !ExpiredToken(token, decode, nowMs)
  {
  }

  /** The intended check on a numeric `exp`: expired exactly when the whole seconds of `exp`
      are not after the clock in seconds. */
  lemma IntendedComparesSeconds(token: string, decode: JwtDecoder, nowMs: int, exp: real)
    requires decode(token).DObj? && Get(decode(token).claims, "exp") == Some(JNum(exp))
    ensures ExpiredTokenIntended(token, decode, nowMs) <==> (Trunc(exp) as real) <= (nowMs as real) / 1000.0
  {
  }

  /** The intended check meets the expectations of the expiry test: ten seconds past is
      expired, ten seconds ahead is not; a missing `exp` is expired. */
  lemma IntendedAroundNow(token: string, decode: JwtDecoder, nowMs: int)
    requires nowMs >= 0
    ensures decode(token).DObj? && Get(decode(token).claims, "exp") == Some(JNum((nowMs as real) / 1000.0 - 10.0)) ==>
              ExpiredTokenIntended(token, decode, nowMs)
    ensures decode(token).DObj? && Get(decode(token).claims, "exp") == Some(JNum((nowMs as real) / 1000.0 + 10.0)) ==>
              !ExpiredTokenIntended(token, decode, nowMs)
    ensures decode(token).DObj? && "exp" !in decode(token).claims ==>
              ExpiredTokenIntended(token, decode, nowMs)
  {
    var now := (nowMs as real) / 1000.0;
    if decode(token).DObj? && Get(decode(token).claims, "exp") == Some(JNum(now - 10.0)) {
      assert ParseIntOf(FieldFromDablJwt(token, "exp", decode)) == Int(Trunc(now - 10.0));
    }
    if decode(token).DObj? && Get(decode(token).claims, "exp") == Some(JNum(now + 10.0)) {
      assert ParseIntOf(FieldFromDablJwt(token, "exp", decode)) == Int(Trunc(now + 10.0));
    }
  }
}
