/** `convertPartiesJson` of DablPartiesInput.tsx: the same checks as the throwing variant, with
    token expiry judged by the `expiredToken` helper of JwtTokens.ts, and every throw caught
    and turned into the second half of a `[parties, error]` pair. */
module DablPartiesInput {
  import opened JsValues
  import opened PartiesFile
  import JwtTokens

  /** What the body of the `try` can throw. */
  datatype Thrown =
    | ParseError                                // JSON.parse rejects the text
    | TypeError                                 // `isPartyDetails(null)`
    | Custom(kind: PartyError, message: string) // an `InvalidPartiesError`

  const DefaultMessage := "Not a valid JSON file."

  /** The `catch`: an error whose `type` is truthy (a non-zero `PartyErrors` value) reports its
      own message, every other error the default message. */
  function CatchMessage(e: Thrown): (m: string)
    ensures e.Custom? && e.kind != InvalidPartiesError ==> m == e.message
    ensures e.Custom? && e.kind == InvalidPartiesError ==> m == DefaultMessage
    ensures !e.Custom? ==> m == DefaultMessage
  {
    match e
    case Custom(kind, message) => if kind.Ordinal() != 0 then message else DefaultMessage
    case _ => DefaultMessage
  }

  /** The expiry `reduce`: `valid || expiredToken(party.token)`, from `acc`. It finds an
      expired token exactly when some entry has one. */
  function ExpiredFold(parties: seq<PartyDetails>, expired: string -> bool, acc: bool): (r: bool)
    ensures r <==> acc || exists i | 0 <= i < |parties| :: expired(parties[i].token)
  {
    if parties == [] then acc
    else
      assert (exists i | 0 <= i < |parties| :: expired(parties[i].token)) <==>
               expired(parties[0].token) || exists i | 0 <= i < |parties[1..]| :: expired(parties[1..][i].token) by {
        if exists i | 0 <= i < |parties[1..]| :: expired(parties[1..][i].token) {
          var i :| 0 <= i < |parties[1..]| && expired(parties[1..][i].token);
          assert parties[i + 1] == parties[1..][i];
        }
        if exists i | 0 <= i < |parties| :: expired(parties[i].token) {
          var i :| 0 <= i < |parties| && expired(parties[i].token);
          if i > 0 { assert parties[1..][i - 1] == parties[i]; }
        }
      }
      ExpiredFold(parties[1..], expired, acc || expired(parties[0].token))
  }

  /** `validateParties` with the token expiry test as a parameter: a ledger mismatch is
      reported ahead of an expired token. None means the file passes. */
  function ValidateParties(parties: seq<PartyDetails>, ledgerId: string, expired: string -> bool): (r: Option<Thrown>)
    ensures r.None? <==> && (forall i :: 0 <= i < |parties| ==> parties[i].ledgerId == ledgerId)
                         && (forall i :: 0 <= i < |parties| ==> !expired(parties[i].token))
    ensures FindMismatch(parties, ledgerId).Some? ==>
              r == Some(Custom(LedgerMismatchError,
                               MismatchMessage(parties[FindMismatch(parties, ledgerId).value].ledgerId, ledgerId)))
    ensures FindMismatch(parties, ledgerId).None? && r.Some? ==> r == Some(Custom(ExpiredTokenError, ExpiredMessage))
  {
    MismatchFoldFinds(parties, ledgerId, false);
    var invalidLedger := LedgerMismatchFold(parties, ledgerId, false);
    var invalidTokens := ExpiredFold(parties, expired, false);
    if invalidLedger then
      Some(Custom(LedgerMismatchError, MismatchMessage(FileLedgerText(parties, ledgerId), ledgerId)))
    else if invalidTokens then Some(Custom(ExpiredTokenError, ExpiredMessage))
    else None
  }

  /** The body of the `try`: the parsed value, or what is thrown. */
  function TryConvert(partiesJson: string, ledgerId: string, validateFile: bool,
                      parse: string -> Option<Json>, expired: string -> bool): Result<Json, Thrown>
  {
    match parse(partiesJson)
    case None => Err(ParseError)
    case Some(parsed) =>
      if !validateFile then Ok(parsed)
      else
        match IsParties(parsed)
        case Throws => Err(TypeError)
        case No => Err(Custom(InvalidPartyDetailError, FormatMessage))
        case Yes =>
          match ValidateParties(AllDetailsOf(parsed.items), ledgerId, expired)
          case Some(e) => Err(e)
          case None => Ok(parsed)
  }

  /** The `[PartyDetails[] | undefined, string | undefined]` pair. */
  type PartiesOrError = (Option<Json>, Option<string>)

  /** `convertPartiesJson` over any expiry test: exactly one half of the pair is present; on
      success it is the parsed value itself. */
  function Convert(partiesJson: string, ledgerId: string, validateFile: bool,
                   parse: string -> Option<Json>, expired: string -> bool): (r: PartiesOrError)
    ensures r.0.Some? != r.1.Some?
    ensures r.0.Some? ==> parse(partiesJson) == r.0
  {
    match TryConvert(partiesJson, ledgerId, validateFile, parse, expired)
    case Ok(parsed) => (Some(parsed), None)
    case Err(e) => (None, Some(CatchMessage(e)))
  }

  /** `convertPartiesJson` as written: the expiry test is `expiredToken` at clock `nowMs`. */
  function ConvertPartiesJson(partiesJson: string, ledgerId: string, validateFile: bool,
                              parse: string -> Option<Json>, decode: JwtDecoder, nowMs: int): (r: PartiesOrError)
    ensures r.0.Some? != r.1.Some?
    ensures r.0.Some? ==> parse(partiesJson) == r.0
    ensures validateFile && r.0.Some? ==>
              && r.0.value.JArr? && AllDetails(r.0.value.items)
              && (forall i :: 0 <= i < |r.0.value.items| ==> AllDetailsOf(r.0.value.items)[i].ledgerId == ledgerId)
              && (forall i :: 0 <= i < |r.0.value.items| ==>
                    !JwtTokens.ExpiredToken(AllDetailsOf(r.0.value.items)[i].token, decode, nowMs))
  {
    AcceptedIff(partiesJson, ledgerId, parse, t => JwtTokens.ExpiredToken(t, decode, nowMs));
    Convert(partiesJson, ledgerId, validateFile, parse, t => JwtTokens.ExpiredToken(t, decode, nowMs))
  }

  /** `convertPartiesJson` with the expiry test compared in seconds. */
  function ConvertPartiesJsonIntended(partiesJson: string, ledgerId: string, validateFile: bool,
                                      parse: string -> Option<Json>, decode: JwtDecoder, nowMs: int): (r: PartiesOrError)
    ensures r.0.Some? != r.1.Some?
    ensures r.0.Some? ==> parse(partiesJson) == r.0
    ensures validateFile && r.0.Some? ==>
              && r.0.value.JArr? && AllDetails(r.0.value.items)
              && (forall i :: 0 <= i < |r.0.value.items| ==> AllDetailsOf(r.0.value.items)[i].ledgerId == ledgerId)
              && (forall i :: 0 <= i < |r.0.value.items| ==>
                    !JwtTokens.ExpiredTokenIntended(AllDetailsOf(r.0.value.items)[i].token, decode, nowMs))
  {
    AcceptedIff(partiesJson, ledgerId, parse, t => JwtTokens.ExpiredTokenIntended(t, decode, nowMs));
    Convert(partiesJson, ledgerId, validateFile, parse, t => JwtTokens.ExpiredTokenIntended(t, decode, nowMs))
  }

  // ---------------------------------------------------------------------------------------
  // Properties

  /** Every error the code throws itself has a truthy `type`, so its message is reported. */
  lemma ThrownMessagesReported(fileLedgerId: string, ledgerId: string)
    ensures CatchMessage(Custom(InvalidPartyDetailError, FormatMessage)) == FormatMessage
    ensures CatchMessage(Custom(LedgerMismatchError, MismatchMessage(fileLedgerId, ledgerId)))
              == MismatchMessage(fileLedgerId, ledgerId)
    ensures CatchMessage(Custom(ExpiredTokenError, ExpiredMessage)) == ExpiredMessage
    ensures CatchMessage(Custom(InvalidPartiesError, FormatMessage)) == DefaultMessage
  {
  }

  /** A validated file is accepted exactly when it is an array of well-formed entries, all for
      the app's ledger, none with an expired token; the accepted value is the parsed file. */
  lemma AcceptedIff(partiesJson: string, ledgerId: string, parse: string -> Option<Json>, expired: string -> bool)
    ensures Convert(partiesJson, ledgerId, true, parse, expired).0.Some? <==>
              && parse(partiesJson).Some? && parse(partiesJson).value.JArr?
              && AllDetails(parse(partiesJson).value.items)
              && (forall i :: 0 <= i < |parse(partiesJson).value.items| ==>
                    AllDetailsOf(parse(partiesJson).value.items)[i].ledgerId == ledgerId)
              && (forall i :: 0 <= i < |parse(partiesJson).value.items| ==>
                    !expired(AllDetailsOf(parse(partiesJson).value.items)[i].token))
  {
    if parse(partiesJson).Some? && IsParties(parse(partiesJson).value) == Yes {
      var ps := AllDetailsOf(parse(partiesJson).value.items);
      MismatchFoldFinds(ps, ledgerId, false);
    }
  }

  /** Text JSON.parse rejects, and a `null` entry the scan reaches, both give the default
      message. */
  lemma DefaultMessageCases(partiesJson: string, ledgerId: string, parse: string -> Option<Json>, expired: string -> bool)
    ensures parse(partiesJson).None? ==>
              Convert(partiesJson, ledgerId, true, parse, expired) == (None, Some(DefaultMessage))
    ensures parse(partiesJson).Some? && parse(partiesJson).value.JArr? && NullReached(parse(partiesJson).value.items) ==>
              Convert(partiesJson, ledgerId, true, parse, expired) == (None, Some(DefaultMessage))
  {
  }

  /** A non-array, or a malformed entry ahead of any `null`, gives the format message. */
  lemma FormatMessageCases(partiesJson: string, ledgerId: string, parse: string -> Option<Json>, expired: string -> bool)
    requires parse(partiesJson).Some?
    requires var v := parse(partiesJson).value; !v.JArr? || (!AllDetails(v.items) && !NullReached(v.items))
    ensures Convert(partiesJson, ledgerId, true, parse, expired) == (None, Some(FormatMessage))
  {
  }

  /** A ledger mismatch is reported for the first mismatching entry, whatever the tokens. */
  lemma LedgerMismatchWins(partiesJson: string, ledgerId: string, parse: string -> Option<Json>,
                           expired: string -> bool, k: nat)
    requires parse(partiesJson).Some? && IsParties(parse(partiesJson).value) == Yes
    requires var ps := AllDetailsOf(parse(partiesJson).value.items);
             && k < |ps| && ps[k].ledgerId != ledgerId
             && forall j :: 0 <= j < k ==> ps[j].ledgerId == ledgerId
    ensures var ps := AllDetailsOf(parse(partiesJson).value.items);
            Convert(partiesJson, ledgerId, true, parse, expired)
              == (None, Some(MismatchMessage(ps[k].ledgerId, ledgerId)))
  {
    var ps := AllDetailsOf(parse(partiesJson).value.items);
    assert FindMismatch(ps, ledgerId) == Some(k);
  }

  /** With every ledger matching, one expired token anywhere rejects the whole file. */
  lemma AnyExpiredRejects(partiesJson: string, ledgerId: string, parse: string -> Option<Json>,
                          expired: string -> bool, k: nat)
    requires parse(partiesJson).Some? && IsParties(parse(partiesJson).value) == Yes
    requires var ps := AllDetailsOf(parse(partiesJson).value.items);
             && (forall i :: 0 <= i < |ps| ==> ps[i].ledgerId == ledgerId)
             && k < |ps| && expired(ps[k].token)
    ensures Convert(partiesJson, ledgerId, true, parse, expired) == (None, Some(ExpiredMessage))
  {
    var ps := AllDetailsOf(parse(partiesJson).value.items);
    assert !ValidateParties(ps, ledgerId, expired).None?;
  }

  /** Without validation any parsed value is handed back unchecked. */
  lemma UnvalidatedFile(partiesJson: string, ledgerId: string, parse: string -> Option<Json>, expired: string -> bool)
    requires parse(partiesJson).Some?
    ensures Convert(partiesJson, ledgerId, false, parse, expired) == (parse(partiesJson), None)
  {
  }

  // ---------------------------------------------------------------------------------------
  // The tests' file: one entry whose token carries only `exp`, two minutes ahead

  function Entry(token: string): Json {
    JObj(map["ledgerId" := JStr("ledger-id-xyz"), "owner" := JStr("user-grant-abcd"),
             "party" := JStr("leder-party-1234"), "partyName" := JStr("Frank"), "token" := JStr(token)])
  }

  lemma EntryShape(token: string)
    ensures IsParties(JArr([Entry(token)])) == Yes
    ensures AllDetailsOf([Entry(token)])[0].ledgerId == "ledger-id-xyz"
    ensures AllDetailsOf([Entry(token)])[0].token == token
  {
    var f := Entry(token).fields;
    assert HasDetailFields(f) by {
      forall i | 0 <= i < |DetailFields| ensures IsStringField(f, DetailFields[i]) {
        assert i in {0, 1, 2, 3, 4};
      }
    }
    PartiesFile.ShapeExamples(JNull, f);
  }

  /** The tests' file is rejected as expired exactly when its one token is expired, and is
      otherwise accepted unchanged. */
  lemma OneEntryVerdict(partiesJson: string, parse: string -> Option<Json>, token: string, expired: string -> bool)
    requires parse(partiesJson) == Some(JArr([Entry(token)]))
    ensures Convert(partiesJson, "ledger-id-xyz", true, parse, expired)
              == if expired(token) then (None, Some(ExpiredMessage)) else (parse(partiesJson), None)
  {
    EntryShape(token);
    if expired(token) {
      AnyExpiredRejects(partiesJson, "ledger-id-xyz", parse, expired, 0);
    } else {
      AcceptedIff(partiesJson, "ledger-id-xyz", parse, expired);
    }
  }

  /** As written, the tests' valid file is rejected as expired once the clock is past one
      second after the epoch: its token's two-minutes-ahead `exp` is compared with
      milliseconds. */
  lemma FreshFileRejected(partiesJson: string, parse: string -> Option<Json>, decode: JwtDecoder,
                          token: string, nowMs: int)
    requires nowMs >= 1000
    requires decode(token).DObj? && Get(decode(token).claims, "exp") == Some(JNum((nowMs as real) / 1000.0 + 120.0))
    requires parse(partiesJson) == Some(JArr([Entry(token)]))
    ensures ConvertPartiesJson(partiesJson, "ledger-id-xyz", true, parse, decode, nowMs) == (None, Some(ExpiredMessage))
  {
    JwtTokens.FreshTokenReportedExpired(token, decode, nowMs);
    OneEntryVerdict(partiesJson, parse, token, t => JwtTokens.ExpiredToken(t, decode, nowMs));
  }

  /** With the expiry compared in seconds the same file is accepted unchanged. */
  lemma FreshFileAcceptedIntended(partiesJson: string, parse: string -> Option<Json>, decode: JwtDecoder,
                                  token: string, nowMs: int)
    requires nowMs >= 0
    requires parse(partiesJson) == Some(JArr([Entry(token)]))
    requires decode(token).DObj? && Get(decode(token).claims, "exp") == Some(JNum((nowMs as real) / 1000.0 + 120.0))
    ensures ConvertPartiesJsonIntended(partiesJson, "ledger-id-xyz", true, parse, decode, nowMs) == (parse(partiesJson), None)
  {
    var now := (nowMs as real) / 1000.0;
    assert !JwtTokens.ExpiredTokenIntended(token, decode, nowMs) by {
      JwtTokens.IntendedComparesSeconds(token, decode, nowMs, now + 120.0);
      assert Trunc(now + 120.0) as real > now;
    }
    OneEntryVerdict(partiesJson, parse, token, t => JwtTokens.ExpiredTokenIntended(t, decode, nowMs));
  }

  /** With the expiry compared in seconds, the file whose token expired two minutes ago is
      rejected as expired. */
  lemma StaleFileRejectedIntended(partiesJson: string, parse: string -> Option<Json>, decode: JwtDecoder,
                                  token: string, nowMs: int)
    requires nowMs >= 0
    requires parse(partiesJson) == Some(JArr([Entry(token)]))
    requires decode(token).DObj? && Get(decode(token).claims, "exp") == Some(JNum((nowMs as real) / 1000.0 - 120.0))
    ensures ConvertPartiesJsonIntended(partiesJson, "ledger-id-xyz", true, parse, decode, nowMs) == (None, Some(ExpiredMessage))
  {
    var now := (nowMs as real) / 1000.0;
    assert JwtTokens.ExpiredTokenIntended(token, decode, nowMs) by {
      JwtTokens.IntendedComparesSeconds(token, decode, nowMs, now - 120.0);
      assert Trunc(now - 120.0) as real <= now;
    }
    OneEntryVerdict(partiesJson, parse, token, t => JwtTokens.ExpiredTokenIntended(t, decode, nowMs));
  }
}
