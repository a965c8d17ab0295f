/** The parties.json record check and the ledger comparison, which src/login/PartiesInput.tsx
    and DablPartiesInput.tsx define identically: the per-entry shape test, the test over the
    whole file, the error kinds and messages, and the ledger `reduce` and `find`. */
module PartiesFile {
  import opened JsValues

  /** One entry of a parties.json file. */
  datatype PartyDetails = PartyDetails(ledgerId: string, owner: string, party: string, partyName: string, token: string)

  /** The fields every entry must hold as strings, in the order the check reads them. */
  const DetailFields: seq<string> := ["ledgerId", "owner", "party", "partyName", "token"]

  /** A check that may also throw: reading a property of `null` is a TypeError. */
  datatype Verdict = Yes | No | Throws

  predicate IsStringField(f: map<string, Json>, key: string) {
    key in f && f[key].JStr?
  }

  predicate HasDetailFields(f: map<string, Json>) {
    forall i :: 0 <= i < |DetailFields| ==> IsStringField(f, DetailFields[i])
  }

  /** `isPartyDetails`: every field is a string. A property of any other non-null value is
      `undefined`, so such a value is simply not an entry; `null` throws. */
  function IsPartyDetails(v: Json): (r: Verdict)
    ensures r == Throws <==> v == JNull
    ensures r == Yes <==> v.JObj? && HasDetailFields(v.fields)
  {
    match v
    case JNull => Throws
    case JObj(f) =>
      var ok := && IsStringField(f, "ledgerId")
                && IsStringField(f, "owner")
                && IsStringField(f, "party")
                && IsStringField(f, "partyName")
                && IsStringField(f, "token");
      assert ok <==> HasDetailFields(f) by {
        if ok {
          forall i | 0 <= i < |DetailFields| ensures IsStringField(f, DetailFields[i]) {
            assert i in {0, 1, 2, 3, 4};
          }
        }
        if HasDetailFields(f) {
          assert IsStringField(f, DetailFields[0]) && IsStringField(f, DetailFields[1]);
          assert IsStringField(f, DetailFields[2]) && IsStringField(f, DetailFields[3]);
          assert IsStringField(f, DetailFields[4]);
        }
      }
      if ok then Yes else No
    case _ => No
  }

  predicate AllDetails(items: seq<Json>) {
    forall i :: 0 <= i < |items| ==> IsPartyDetails(items[i]) == Yes
  }

  /** A `null` entry is reached by the scan: every entry before it is well formed. */
  predicate NullReached(items: seq<Json>) {
    exists i | 0 <= i < |items| :: items[i] == JNull && AllDetails(items[..i])
  }

  /** The `reduce` of `isParties`: `invalid || !isPartyDetails(party)`, which stops evaluating
      entries once one is invalid. Yes means an invalid entry was found. */
  function AnyInvalid(items: seq<Json>): (r: Verdict)
    ensures r == No <==> AllDetails(items)
    ensures r == Throws <==> NullReached(items)
  {
    if items == [] then No
    else
      var rest := AnyInvalid(items[1..]);
      assert AllDetails(items) <==> IsPartyDetails(items[0]) == Yes && AllDetails(items[1..]) by {
        if IsPartyDetails(items[0]) == Yes && AllDetails(items[1..]) {
          forall i | 0 <= i < |items| ensures IsPartyDetails(items[i]) == Yes {
            if i > 0 { assert items[i] == items[1..][i - 1]; }
          }
        }
      }
      assert IsPartyDetails(items[0]) == Yes ==> (NullReached(items) <==> NullReached(items[1..])) by {
        if IsPartyDetails(items[0]) == Yes {
          if NullReached(items) {
            var i :| 0 <= i < |items| && items[i] == JNull && AllDetails(items[..i]);
            assert i > 0;
            assert items[1..][i - 1] == JNull;
            var tail := items[1..][..i - 1];
            assert AllDetails(tail) by {
              forall j | 0 <= j < |tail| ensures IsPartyDetails(tail[j]) == Yes {
                assert tail[j] == items[..i][j + 1];
              }
            }
          }
          if NullReached(items[1..]) {
            var i :| 0 <= i < |items[1..]| && items[1..][i] == JNull && AllDetails(items[1..][..i]);
            assert items[i + 1] == JNull;
            var pre := items[..i + 1];
            assert AllDetails(pre) by {
              forall j | 0 <= j < |pre| ensures IsPartyDetails(pre[j]) == Yes {
                if j > 0 { assert pre[j] == items[1..][..i][j - 1]; }
              }
            }
          }
        }
      }
      assert IsPartyDetails(items[0]) == Throws ==> NullReached(items) by {
        if IsPartyDetails(items[0]) == Throws {
          assert items[0] == JNull && AllDetails(items[..0]);
        }
      }
      assert NullReached(items) ==> IsPartyDetails(items[0]) != No by {
        if NullReached(items) {
          var i :| 0 <= i < |items| && items[i] == JNull && AllDetails(items[..i]);
          if i > 0 {
            assert items[..i][0] == items[0];
          }
        }
      }
      match IsPartyDetails(items[0])
      case Throws => Throws
      case No => Yes
      case Yes => rest
  }

  /** `isParties`: an array all of whose entries are well formed; anything else is not a
      parties file. The scan itself throws on a `null` entry it reaches. */
  function IsParties(v: Json): (r: Verdict)
    ensures r == Yes <==> v.JArr? && AllDetails(v.items)
    ensures r == Throws <==> v.JArr? && NullReached(v.items)
  {
    if v.JArr? then
      match AnyInvalid(v.items)
      case Yes => No
      case No => Yes
      case Throws => Throws
    else No
  }

  /** The typed view of a well-formed entry. */
  function DetailsOf(v: Json): (d: PartyDetails)
    requires IsPartyDetails(v) == Yes
    ensures v.fields["ledgerId"] == JStr(d.ledgerId) && v.fields["token"] == JStr(d.token)
  {
    assert IsStringField(v.fields, DetailFields[0]) && IsStringField(v.fields, DetailFields[1]);
    assert IsStringField(v.fields, DetailFields[2]) && IsStringField(v.fields, DetailFields[3]);
    assert IsStringField(v.fields, DetailFields[4]);
    PartyDetails(v.fields["ledgerId"].s, v.fields["owner"].s, v.fields["party"].s,
                 v.fields["partyName"].s, v.fields["token"].s)
  }

  function AllDetailsOf(items: seq<Json>): (ds: seq<PartyDetails>)
    requires AllDetails(items)
    ensures |ds| == |items|
    ensures forall i :: 0 <= i < |items| ==> ds[i] == DetailsOf(items[i])
  {
    seq(|items|, i requires 0 <= i < |items| => DetailsOf(items[i]))
  }

  // ---------------------------------------------------------------------------------------
  // Errors

  /** `PartyErrors`, with its numeric values. */
  datatype PartyError = InvalidPartiesError | InvalidPartyDetailError | LedgerMismatchError | ExpiredTokenError {
    function Ordinal(): (n: nat)
      ensures n < 4
      ensures n == 0 <==> this.InvalidPartiesError?
    {
      match this
      case InvalidPartiesError => 0
      case InvalidPartyDetailError => 1
      case LedgerMismatchError => 2
      case ExpiredTokenError => 3
    }
  }

  const FormatMessage := "Format does not look like parties.json"

  const ExpiredMessage := "Your parties.json file contains expired tokens!"

  function MismatchMessage(fileLedgerId: string, ledgerId: string): string {
    "Your parties.json file is for a different ledger! File uses ledger " + fileLedgerId
      + " but app is running on ledger " + ledgerId
  }

  // ---------------------------------------------------------------------------------------
  // The ledger comparison

  /** The `reduce` of `validateParties`: `valid || party.ledgerId !== ledgerId`, from `acc`. */
  function LedgerMismatchFold(parties: seq<PartyDetails>, ledgerId: string, acc: bool): bool {
    if parties == [] then acc
    else LedgerMismatchFold(parties[1..], ledgerId, acc || parties[0].ledgerId != ledgerId)
  }

  /** The index `find` stops at: the first entry for another ledger. */
  function FindMismatch(parties: seq<PartyDetails>, ledgerId: string): (r: Option<nat>)
    ensures r.None? <==> forall i :: 0 <= i < |parties| ==> parties[i].ledgerId == ledgerId
    ensures r.Some? ==> r.value < |parties| && parties[r.value].ledgerId != ledgerId
    ensures r.Some? ==> forall j :: 0 <= j < r.value ==> parties[j].ledgerId == ledgerId
  {
    if parties == [] then None
    else if parties[0].ledgerId != ledgerId then Some(0)
    else
      match FindMismatch(parties[1..], ledgerId)
      case None =>
        assert forall i :: 0 < i < |parties| ==> parties[i] == parties[1..][i - 1];
        None
      case Some(k) =>
        assert forall j :: 0 < j < k + 1 ==> parties[j] == parties[1..][j - 1];
        Some(k + 1)
  }

  /** The `find(...)?.ledgerId` of the message: `undefined` when nothing is found. */
  function FileLedgerText(parties: seq<PartyDetails>, ledgerId: string): string {
    match FindMismatch(parties, ledgerId)
    case Some(i) => parties[i].ledgerId
    case None => "undefined"
  }

  /** The `reduce` and the `find` agree: the fold reports a mismatch exactly when `find`
      returns an entry, so the message never names an `undefined` ledger. */
  lemma {:induction false} MismatchFoldFinds(parties: seq<PartyDetails>, ledgerId: string, acc: bool)
    ensures LedgerMismatchFold(parties, ledgerId, acc) <==> acc || FindMismatch(parties, ledgerId).Some?
  {
    if parties != [] {
      MismatchFoldFinds(parties[1..], ledgerId, acc || parties[0].ledgerId != ledgerId);
    }
  }

  /** The message names the first entry's ledger that differs, and the app's ledger. */
  lemma MismatchMessageNamesFirst(parties: seq<PartyDetails>, ledgerId: string, k: nat)
    requires k < |parties| && parties[k].ledgerId != ledgerId
    requires forall j :: 0 <= j < k ==> parties[j].ledgerId == ledgerId
    ensures LedgerMismatchFold(parties, ledgerId, false)
    ensures FileLedgerText(parties, ledgerId) == parties[k].ledgerId
  {
    MismatchFoldFinds(parties, ledgerId, false);
  }

  /** An empty file and a file of well-formed entries pass the shape check; a non-array does
      not; an entry whose ledger is a number fails it. */
  lemma ShapeExamples(v: Json, f: map<string, Json>)
    ensures IsParties(JArr([])) == Yes
    ensures !v.JArr? ==> IsParties(v) == No
    ensures HasDetailFields(f) ==> IsParties(JArr([JObj(f)])) == Yes
    ensures IsParties(JArr([JObj(f["ledgerId" := JNum(42.0)])])) == No
  {
    assert !IsStringField(f["ledgerId" := JNum(42.0)], DetailFields[0]);
    assert !NullReached([JObj(f["ledgerId" := JNum(42.0)])]);
  }

  /** A `null` entry ahead of every malformed one makes the scan throw; one after a
      malformed entry is never read. */
  lemma NullEntries(good: Json, bad: Json)
    requires IsPartyDetails(good) == Yes && IsPartyDetails(bad) == No
    ensures IsParties(JArr([good, JNull, bad])) == Throws
    ensures IsParties(JArr([good, bad, JNull])) == No
  {
    var early := [good, JNull, bad];
    assert early[1..] == [JNull, bad];
    assert AnyInvalid([JNull, bad]) == Throws;
    assert AnyInvalid(early) == Throws;
    var late := [good, bad, JNull];
    assert late[1..] == [bad, JNull];
    assert AnyInvalid([bad, JNull]) == Yes;
    assert AnyInvalid(late) == Yes;
  }
}
