/** `convertPartiesJson` of src/login/PartiesInput.tsx: a parties.json file becomes a list of
    full-check tokens, or the call throws. Validation is all or nothing: the record shape of
    every entry, the ledger of every entry, and the expiry of every token. */
module PartiesInput {
  import opened JsValues
  import opened PartiesFile
  import FullToken
  import Text
  import HubEnv

  /** What the call throws. */
  datatype BundleError =
    | SyntaxError                            // JSON.parse rejects the text
    | TypeError                              // a property read of `null`, or `map` of a non-array
    | Invalid(kind: PartyError, message: string)
    | Token(error: FullToken.TokenError)     // a token constructor throws
    | NonStringToken                         // an entry's `token` is not a string

  function Message(e: BundleError): Option<string> {
    match e
    case Invalid(_, m) => Some(m)
    case Token(te) => if te.NotHubFormat? then Some(FullToken.FormatMessage(te.token)) else None
    case _ => None                           // the engine's or the library's own text
  }

  /** A token string constructs and is not expired at `nowMs`. */
  predicate Live(token: string, decode: JwtDecoder, nowMs: int) {
    FullToken.New(token, decode).Ok? && !FullToken.New(token, decode).value.IsExpired(nowMs)
  }

  /** The expiry `reduce`: `valid || new PartyToken(party.token).isExpired`. Tokens are built
      in order until one is expired; a constructor that throws ends the scan. */
  function AnyExpired(parties: seq<PartyDetails>, decode: JwtDecoder, nowMs: int): (r: Result<bool, FullToken.TokenError>)
    ensures r == Ok(false) <==> forall i :: 0 <= i < |parties| ==> Live(parties[i].token, decode, nowMs)
    ensures r == Ok(true) ==> exists i | 0 <= i < |parties| :: FullToken.New(parties[i].token, decode).Ok?
                                && FullToken.New(parties[i].token, decode).value.IsExpired(nowMs)
  {
    if parties == [] then Ok(false)
    else
      var rest := AnyExpired(parties[1..], decode, nowMs);
      assert (forall i :: 0 <= i < |parties| ==> Live(parties[i].token, decode, nowMs)) <==>
             Live(parties[0].token, decode, nowMs) && (forall i :: 0 <= i < |parties[1..]| ==> Live(parties[1..][i].token, decode, nowMs)) by {
        if Live(parties[0].token, decode, nowMs) && (forall i :: 0 <= i < |parties[1..]| ==> Live(parties[1..][i].token, decode, nowMs)) {
          forall i | 0 < i < |parties| ensures Live(parties[i].token, decode, nowMs) {
            assert parties[i] == parties[1..][i - 1];
          }
        }
      }
      match FullToken.New(parties[0].token, decode)
      case Err(e) => Err(e)
      case Ok(t) => if t.IsExpired(nowMs) then Ok(true) else rest
  }

  /** `validateParties`: both folds run first, and the expiry fold may throw; then a ledger
      mismatch is reported ahead of an expired token. None means the file passes. */
  function ValidateParties(parties: seq<PartyDetails>, ledgerId: string, decode: JwtDecoder, nowMs: int): (r: Option<BundleError>)
    ensures r.None? <==> && (forall i :: 0 <= i < |parties| ==> parties[i].ledgerId == ledgerId)
                         && (forall i :: 0 <= i < |parties| ==> Live(parties[i].token, decode, nowMs))
    ensures AnyExpired(parties, decode, nowMs).Err? ==> r == Some(Token(AnyExpired(parties, decode, nowMs).error))
    ensures AnyExpired(parties, decode, nowMs).Ok? && FindMismatch(parties, ledgerId).Some? ==>
              r == Some(Invalid(LedgerMismatchError,
                                MismatchMessage(parties[FindMismatch(parties, ledgerId).value].ledgerId, ledgerId)))
    ensures AnyExpired(parties, decode, nowMs) == Ok(true) && FindMismatch(parties, ledgerId).None? ==>
              r == Some(Invalid(ExpiredTokenError, ExpiredMessage))
  {
    MismatchFoldFinds(parties, ledgerId, false);
    var invalidLedger := LedgerMismatchFold(parties, ledgerId, false);
    match AnyExpired(parties, decode, nowMs)
    case Err(e) => Some(Token(e))
    case Ok(invalidTokens) =>
      if invalidLedger then
        Some(Invalid(LedgerMismatchError, MismatchMessage(FileLedgerText(parties, ledgerId), ledgerId)))
      else if invalidTokens then Some(Invalid(ExpiredTokenError, ExpiredMessage))
      else None
  }

  /** `p.token` of one parsed entry, turned into a token. */
  function EntryToken(v: Json, decode: JwtDecoder): Result<FullToken.HubToken, BundleError> {
    match v
    case JNull => Err(TypeError)
    case JObj(f) =>
      if IsStringField(f, "token") then
        (match FullToken.New(f["token"].s, decode)
         case Ok(t) => Ok(t)
         case Err(e) => Err(Token(e)))
      else Err(NonStringToken)
    case _ => Err(NonStringToken)
  }

  /** `parsed.map(p => new PartyToken(p.token))`: one token per entry in order, or the first
      entry's error. */
  function MapTokens(items: seq<Json>, decode: JwtDecoder): (r: Result<seq<FullToken.HubToken>, BundleError>)
    ensures r.Ok? <==> forall i :: 0 <= i < |items| ==> EntryToken(items[i], decode).Ok?
    ensures r.Ok? ==> |r.value| == |items| && forall i :: 0 <= i < |items| ==> Ok(r.value[i]) == EntryToken(items[i], decode)
    ensures r.Err? ==> exists i | 0 <= i < |items| :: EntryToken(items[i], decode) == Err(r.error)
  {
    if items == [] then Ok([])
    else
      match EntryToken(items[0], decode)
      case Err(e) => Err(e)
      case Ok(t) =>
        match MapTokens(items[1..], decode)
        case Err(e) =>
          var k :| 0 <= k < |items[1..]| && EntryToken(items[1..][k], decode) == Err(e);
          assert items[k + 1] == items[1..][k];
          Err(e)
        case Ok(ts) =>
          assert forall i :: 0 < i < |items| ==> items[i] == items[1..][i - 1];
          Ok([t] + ts)
  }

  /** `convertPartiesJson(partiesJson, ledgerId, validateFile)`, with JSON.parse, the token
      decoder and the clock as parameters. */
  function ConvertPartiesJson(partiesJson: string, ledgerId: string, validateFile: bool,
                              parse: string -> Option<Json>, decode: JwtDecoder, nowMs: int)
    : (r: Result<seq<FullToken.HubToken>, BundleError>)
    ensures parse(partiesJson).None? ==> r == Err(SyntaxError)
    ensures r.Ok? ==> && parse(partiesJson).Some? && parse(partiesJson).value.JArr?
                      && r == MapTokens(parse(partiesJson).value.items, decode)
    ensures validateFile && r.Ok? ==>
              && AllDetails(parse(partiesJson).value.items)
              && ValidateParties(AllDetailsOf(parse(partiesJson).value.items), ledgerId, decode, nowMs).None?
    ensures (validateFile && parse(partiesJson).Some? && parse(partiesJson).value.JArr?
             && NullReached(parse(partiesJson).value.items)) ==> r == Err(TypeError)
  {
    match parse(partiesJson)
    case None => Err(SyntaxError)
    case Some(parsed) =>
      if validateFile then
        match IsParties(parsed)
        case Throws => Err(TypeError)
        case No => Err(Invalid(InvalidPartyDetailError, FormatMessage))
        case Yes =>
          match ValidateParties(AllDetailsOf(parsed.items), ledgerId, decode, nowMs)
          case Some(e) => Err(e)
          case None => MapTokens(parsed.items, decode)
      else if parsed.JArr? then MapTokens(parsed.items, decode)
      else Err(TypeError)
  }

  /** What `tryPartyConversion` leaves in the component's state: the parties, and the error
      last recorded. */
  datatype Conversion = Conversion(parties: seq<FullToken.HubToken>, error: Option<BundleError>)

  /** `tryPartyConversion` of the `PartiesInput` component: the ledger is the first label of
      the page's hostname. A throw empties the parties and records the error; a success sets
      the parties and leaves the error recorded earlier in place. */
  function TryPartyConversion(contents: string, hostname: string, validateFile: bool, previousError: Option<BundleError>,
                              parse: string -> Option<Json>, decode: JwtDecoder, nowMs: int)
    : (r: Conversion)
    ensures var c := ConvertPartiesJson(contents, HubEnv.FirstLabel(hostname), validateFile, parse, decode, nowMs);
            && (c.Ok? ==> r == Conversion(c.value, previousError))
            && (c.Err? ==> r == Conversion([], Some(c.error)))
  {
    match ConvertPartiesJson(contents, HubEnv.FirstLabel(hostname), validateFile, parse, decode, nowMs)
    case Ok(ts) => Conversion(ts, previousError)
    case Err(e) => Conversion([], Some(e))
  }

  // ---------------------------------------------------------------------------------------
  // Properties

  /** An accepted file is an array of well-formed entries, all for the app's ledger, all with
      live tokens, and the result holds each entry's token in the file's order. */
  lemma AcceptedFile(partiesJson: string, ledgerId: string, parse: string -> Option<Json>,
                     decode: JwtDecoder, nowMs: int)
    requires ConvertPartiesJson(partiesJson, ledgerId, true, parse, decode, nowMs).Ok?
    ensures parse(partiesJson).Some? && parse(partiesJson).value.JArr?
    ensures AllDetails(parse(partiesJson).value.items)
    ensures var ps := AllDetailsOf(parse(partiesJson).value.items);
            var ts := ConvertPartiesJson(partiesJson, ledgerId, true, parse, decode, nowMs).value;
            && |ts| == |ps|
            && (forall i :: 0 <= i < |ps| ==> ps[i].ledgerId == ledgerId)
            && (forall i :: 0 <= i < |ps| ==> ts[i].token == ps[i].token && !ts[i].IsExpired(nowMs))
  {
    var items := parse(partiesJson).value.items;
    var ps := AllDetailsOf(items);
    MismatchFoldFinds(ps, ledgerId, false);
    var ts := ConvertPartiesJson(partiesJson, ledgerId, true, parse, decode, nowMs).value;
    forall i | 0 <= i < |ps| ensures ts[i].token == ps[i].token && !ts[i].IsExpired(nowMs) {
      assert Ok(ts[i]) == EntryToken(items[i], decode);
      assert Live(ps[i].token, decode, nowMs);
    }
  }

  /** The converse: a validated file that is an array of well-formed entries, all for the
      app's ledger and all with live tokens, is accepted, one token per entry in order. */
  lemma ValidFileAccepted(partiesJson: string, ledgerId: string, parse: string -> Option<Json>,
                          decode: JwtDecoder, nowMs: int)
    requires parse(partiesJson).Some? && parse(partiesJson).value.JArr?
    requires AllDetails(parse(partiesJson).value.items)
    requires var ps := AllDetailsOf(parse(partiesJson).value.items);
             && (forall i :: 0 <= i < |ps| ==> ps[i].ledgerId == ledgerId)
             && (forall i :: 0 <= i < |ps| ==> Live(ps[i].token, decode, nowMs))
    ensures ConvertPartiesJson(partiesJson, ledgerId, true, parse, decode, nowMs).Ok?
    ensures var ps := AllDetailsOf(parse(partiesJson).value.items);
            var ts := ConvertPartiesJson(partiesJson, ledgerId, true, parse, decode, nowMs).value;
            && |ts| == |ps|
            && forall i :: 0 <= i < |ps| ==> ts[i].token == ps[i].token
  {
    var items := parse(partiesJson).value.items;
    var ps := AllDetailsOf(items);
    MismatchFoldFinds(ps, ledgerId, false);
    assert AnyExpired(ps, decode, nowMs) == Ok(false);
    assert ValidateParties(ps, ledgerId, decode, nowMs).None?;
    forall i | 0 <= i < |items| ensures EntryToken(items[i], decode).Ok? {
      assert ps[i] == DetailsOf(items[i]);
      assert Live(ps[i].token, decode, nowMs);
    }
    var ts := ConvertPartiesJson(partiesJson, ledgerId, true, parse, decode, nowMs).value;
    forall i | 0 <= i < |ps| ensures ts[i].token == ps[i].token {
      assert ps[i] == DetailsOf(items[i]);
      assert Ok(ts[i]) == EntryToken(items[i], decode);
    }
  }

  /** On a page served from `<ledger>.<rest>` the file is checked against `<ledger>`: when the
      validated conversion succeeds, the component holds only entries for `<ledger>`, each
      with a live token, in the file's order. */
  lemma PageLedgerAccepted(contents: string, ledger: string, rest: string, previousError: Option<BundleError>,
                           parse: string -> Option<Json>, decode: JwtDecoder, nowMs: int)
    requires '.' !in ledger
    requires ConvertPartiesJson(contents, HubEnv.FirstLabel(ledger + "." + rest), true, parse, decode, nowMs).Ok?
    ensures HubEnv.FirstLabel(ledger + "." + rest) == ledger
    ensures parse(contents).Some? && parse(contents).value.JArr? && AllDetails(parse(contents).value.items)
    ensures var ps := AllDetailsOf(parse(contents).value.items);
            var ts := TryPartyConversion(contents, ledger + "." + rest, true, previousError, parse, decode, nowMs).parties;
            && |ts| == |ps|
            && (forall i :: 0 <= i < |ps| ==> ps[i].ledgerId == ledger)
            && (forall i :: 0 <= i < |ps| ==> ts[i].token == ps[i].token && !ts[i].IsExpired(nowMs))
  {
    Text.SplitAtFirst(ledger, rest, '.');
    AcceptedFile(contents, ledger, parse, decode, nowMs);
  }

  /** A text JSON.parse rejects propagates its error, whether or not the file is validated. */
  lemma UnparsableFile(partiesJson: string, ledgerId: string, validateFile: bool,
                       parse: string -> Option<Json>, decode: JwtDecoder, nowMs: int)
    requires parse(partiesJson).None?
    ensures ConvertPartiesJson(partiesJson, ledgerId, validateFile, parse, decode, nowMs) == Err(SyntaxError)
  {
  }

  /** A validated file that is not an array, or that has a malformed entry before any `null`,
      is rejected with the format message. */
  lemma MalformedFile(partiesJson: string, ledgerId: string, parse: string -> Option<Json>,
                      decode: JwtDecoder, nowMs: int)
    requires parse(partiesJson).Some?
    requires var v := parse(partiesJson).value; !v.JArr? || (!AllDetails(v.items) && !NullReached(v.items))
    ensures ConvertPartiesJson(partiesJson, ledgerId, true, parse, decode, nowMs)
              == Err(Invalid(InvalidPartyDetailError, FormatMessage))
    ensures Message(Invalid(InvalidPartyDetailError, FormatMessage)) == Some("Format does not look like parties.json")
  {
  }

  /** When every token constructs, a file naming another ledger is rejected with the mismatch
      message for the first such entry, even if tokens are also expired. */
  lemma LedgerMismatchWins(partiesJson: string, ledgerId: string, parse: string -> Option<Json>,
                           decode: JwtDecoder, nowMs: int, k: nat)
    requires parse(partiesJson).Some? && IsParties(parse(partiesJson).value) == Yes
    requires var ps := AllDetailsOf(parse(partiesJson).value.items);
             && AnyExpired(ps, decode, nowMs).Ok?
             && k < |ps| && ps[k].ledgerId != ledgerId
             && forall j :: 0 <= j < k ==> ps[j].ledgerId == ledgerId
    ensures var ps := AllDetailsOf(parse(partiesJson).value.items);
            ConvertPartiesJson(partiesJson, ledgerId, true, parse, decode, nowMs)
              == Err(Invalid(LedgerMismatchError, MismatchMessage(ps[k].ledgerId, ledgerId)))
  {
    MismatchMessageNamesFirst(AllDetailsOf(parse(partiesJson).value.items), ledgerId, k);
  }

  /** A file whose entries all name the app's ledger, and whose scan meets an expired token
      before any malformed one, is rejected with the expired-tokens message. */
  lemma ExpiredTokenRejected(partiesJson: string, ledgerId: string, parse: string -> Option<Json>,
                             decode: JwtDecoder, nowMs: int)
    requires parse(partiesJson).Some? && IsParties(parse(partiesJson).value) == Yes
    requires var ps := AllDetailsOf(parse(partiesJson).value.items);
             && AnyExpired(ps, decode, nowMs) == Ok(true)
             && forall i :: 0 <= i < |ps| ==> ps[i].ledgerId == ledgerId
    ensures ConvertPartiesJson(partiesJson, ledgerId, true, parse, decode, nowMs)
              == Err(Invalid(ExpiredTokenError, ExpiredMessage))
  {
    MismatchFoldFinds(AllDetailsOf(parse(partiesJson).value.items), ledgerId, false);
  }

  /** Without validation a file for another ledger, or with expired tokens, is accepted as
      long as every entry's token constructs; a non-array is a TypeError. */
  lemma UnvalidatedFile(partiesJson: string, ledgerId: string, parse: string -> Option<Json>,
                        decode: JwtDecoder, nowMs: int)
    requires parse(partiesJson).Some?
    ensures var v := parse(partiesJson).value;
            ConvertPartiesJson(partiesJson, ledgerId, false, parse, decode, nowMs)
              == (if v.JArr? then MapTokens(v.items, decode) else Err(TypeError))
  {
  }

  // ---------------------------------------------------------------------------------------
  // The tests' file

  function Entry(ledgerId: Json, token: string): Json {
    JObj(map["ledgerId" := ledgerId, "owner" := JStr("user-grant-abcd"), "party" := JStr("leder-party-1234"),
             "partyName" := JStr("Frank"), "token" := JStr(token)])
  }

  /** An entry of the tests' file, on any ledger, is well formed. */
  lemma EntryWellFormed(ledgerId: string, token: string)
    ensures IsPartyDetails(Entry(JStr(ledgerId), token)) == Yes
    ensures DetailsOf(Entry(JStr(ledgerId), token)).ledgerId == ledgerId
    ensures DetailsOf(Entry(JStr(ledgerId), token)).token == token
  {
    var e := Entry(JStr(ledgerId), token);
    assert HasDetailFields(e.fields) by {
      forall i | 0 <= i < |DetailFields| ensures IsStringField(e.fields, DetailFields[i]) {
        assert i in {0, 1, 2, 3, 4};
      }
    }
  }

  /** The tests' one-entry file passes the shape check, and its token is live. */
  lemma OneEntryShape(decode: JwtDecoder, token: string, exp: real, nowMs: int)
    requires nowMs >= 0 && exp > (nowMs as real) / 1000.0
    requires decode(token).DObj? && FullToken.HoldsClaims(decode(token).claims, FullToken.TestClaims(exp, "ledger-id-xyz"))
    ensures IsParties(JArr([Entry(JStr("ledger-id-xyz"), token)])) == Yes
    ensures var ps := AllDetailsOf([Entry(JStr("ledger-id-xyz"), token)]);
            && |ps| == 1 && ps[0].ledgerId == "ledger-id-xyz" && ps[0].token == token
            && AnyExpired(ps, decode, nowMs) == Ok(false)
  {
    var e := Entry(JStr("ledger-id-xyz"), token);
    EntryWellFormed("ledger-id-xyz", token);
    assert [e][1..] == [];
    assert AnyInvalid([e]) == No;
    var ps := AllDetailsOf([e]);
    assert ps[0] == DetailsOf(e);
    FullToken.WellFormedTokenAccepted(token, decode, exp, "ledger-id-xyz", nowMs);
    assert Live(ps[0].token, decode, nowMs);
  }

  /** A validated one-entry file on the app's ledger whose token is live yields exactly that
      token. */
  lemma SingleEntryAccepted(partiesJson: string, parse: string -> Option<Json>, decode: JwtDecoder,
                            ledgerId: string, v: Json, nowMs: int)
    requires parse(partiesJson) == Some(JArr([v]))
    requires IsPartyDetails(v) == Yes
    requires DetailsOf(v).ledgerId == ledgerId && Live(DetailsOf(v).token, decode, nowMs)
    ensures ConvertPartiesJson(partiesJson, ledgerId, true, parse, decode, nowMs)
              == Ok([FullToken.New(DetailsOf(v).token, decode).value])
  {
    assert [v][1..] == [];
    assert AnyInvalid([v]) == No;
    assert AllDetailsOf([v])[0] == DetailsOf(v);
    ValidFileAccepted(partiesJson, ledgerId, parse, decode, nowMs);
    var r := ConvertPartiesJson(partiesJson, ledgerId, true, parse, decode, nowMs);
    assert Ok(r.value[0]) == EntryToken(v, decode) == Ok(FullToken.New(DetailsOf(v).token, decode).value);
    assert r.value == [r.value[0]];
  }

  /** With a live well-formed token the tests' file yields one token whose party name is the
      claim (src/login/PartiesInput.test.tsx, the valid-file case). */
  lemma OneEntryAccepted(partiesJson: string, parse: string -> Option<Json>, decode: JwtDecoder,
                         token: string, exp: real, nowMs: int)
    requires nowMs >= 0 && exp > (nowMs as real) / 1000.0
    requires decode(token).DObj? && FullToken.HoldsClaims(decode(token).claims, FullToken.TestClaims(exp, "ledger-id-xyz"))
    requires parse(partiesJson) == Some(JArr([Entry(JStr("ledger-id-xyz"), token)]))
    ensures var r := ConvertPartiesJson(partiesJson, "ledger-id-xyz", true, parse, decode, nowMs);
            r.Ok? && |r.value| == 1 && r.value[0].PartyName() == Ok(JStr("Frank"))
  {
    FullToken.WellFormedTokenAccepted(token, decode, exp, "ledger-id-xyz", nowMs);
    EntryWellFormed("ledger-id-xyz", token);
    SingleEntryAccepted(partiesJson, parse, decode, "ledger-id-xyz", Entry(JStr("ledger-id-xyz"), token), nowMs);
  }

  /** Asked for another ledger, the tests' file is rejected naming both ledgers. */
  lemma OneEntryWrongLedger(partiesJson: string, parse: string -> Option<Json>, decode: JwtDecoder,
                            token: string, exp: real, nowMs: int)
    requires nowMs >= 0 && exp > (nowMs as real) / 1000.0
    requires decode(token).DObj? && FullToken.HoldsClaims(decode(token).claims, FullToken.TestClaims(exp, "ledger-id-xyz"))
    requires parse(partiesJson) == Some(JArr([Entry(JStr("ledger-id-xyz"), token)]))
    ensures ConvertPartiesJson(partiesJson, "ledger-id-zzz", true, parse, decode, nowMs)
              == Err(Invalid(LedgerMismatchError, MismatchMessage("ledger-id-xyz", "ledger-id-zzz")))
  {
    OneEntryShape(decode, token, exp, nowMs);
    assert "ledger-id-xyz"[10] != "ledger-id-zzz"[10];
    LedgerMismatchWins(partiesJson, "ledger-id-zzz", parse, decode, nowMs, 0);
  }

  /** An entry whose ledger is the number 42 makes the file malformed. */
  lemma NumericLedgerMalformed(partiesJson: string, parse: string -> Option<Json>, decode: JwtDecoder,
                               token: string, nowMs: int)
    requires parse(partiesJson) == Some(JArr([Entry(JNum(42.0), token)]))
    ensures ConvertPartiesJson(partiesJson, "ledger-id-xyz", true, parse, decode, nowMs)
              == Err(Invalid(InvalidPartyDetailError, FormatMessage))
  {
    var e := Entry(JStr("ledger-id-xyz"), token);
    PartiesFile.ShapeExamples(JNull, e.fields);
    assert Entry(JNum(42.0), token) == JObj(e.fields["ledgerId" := JNum(42.0)]);
  }
}
