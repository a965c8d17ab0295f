/** The default parties of src/default-parties/defaultParties.ts: which service document is
    read for the host, how its body is decoded, and how the `[public, userAdmin]` pair is taken
    from it. Fetching and parsing the document are a parameter `get` from URL to the parsed body,
    None when the request or the parse fails. */
module DefaultParties {
  import opened JsValues
  import HubEnv

  const PublicDisplayName := "Public"
  const UserAdminDisplayName := "UserAdmin"

  /** One entry of the app service's `result` list. */
  datatype PartyDetails = PartyDetails(displayName: string, identifier: string, isLocal: bool)

  /** `DefaultParties`: the public party and the user-admin party, each possibly `undefined`. */
  type Pair = (Option<string>, Option<string>)

  /** `getPartyIdByName`: the identifier of the first entry with that display name. */
  function GetPartyIdByName(list: seq<PartyDetails>, displayName: string): (r: Option<string>)
    ensures r.None? <==> forall i :: 0 <= i < |list| ==> list[i].displayName != displayName
    ensures r.Some? ==> exists i :: 0 <= i < |list| && list[i].displayName == displayName
                                  && list[i].identifier == r.value
                                  && forall j :: 0 <= j < i ==> list[j].displayName != displayName
  {
    if list == [] then None
    else if list[0].displayName == displayName then Some(list[0].identifier)
    else
      var rest := GetPartyIdByName(list[1..], displayName);
      assert forall i :: 0 < i < |list| ==> list[i] == list[1..][i - 1];
      if rest.Some? then
        var k :| 0 <= k < |list[1..]| && list[1..][k].displayName == displayName
                 && list[1..][k].identifier == rest.value
                 && forall j :: 0 <= j < k ==> list[1..][j].displayName != displayName;
        assert list[k + 1] == list[1..][k];
        rest
      else rest
  }

  /** The party found by name is the one at the first index holding that name. */
  lemma FirstNamedEntryWins(list: seq<PartyDetails>, displayName: string, k: nat)
    requires k < |list| && list[k].displayName == displayName
    requires forall j :: 0 <= j < k ==> list[j].displayName != displayName
    ensures GetPartyIdByName(list, displayName) == Some(list[k].identifier)
  {
    var r := GetPartyIdByName(list, displayName);
    var i :| 0 <= i < |list| && list[i].displayName == displayName && list[i].identifier == r.value
             && forall j :: 0 <= j < i ==> list[j].displayName != displayName;
    assert i == k;
  }

  // ---------------------------------------------------------------------------------------
  // The decoders

  /** `legacyAPIDecoder`: `publicParty` a string, `userAdminParty` a string or absent; other
      fields are ignored. */
  function DecodeLegacy(body: Json): (r: Option<Pair>)
    ensures r.Some? <==> body.JObj? && IsStr(body.fields, "publicParty") && OptionalStr(body.fields, "userAdminParty")
    ensures r.Some? ==> r.value.0 == Some(body.fields["publicParty"].s)
    ensures r.Some? ==> (r.value.1.None? <==> "userAdminParty" !in body.fields)
    ensures r.Some? && r.value.1.Some? ==> body.fields["userAdminParty"] == JStr(r.value.1.value)
  {
    if body.JObj? && IsStr(body.fields, "publicParty") && OptionalStr(body.fields, "userAdminParty") then
      var ua := if "userAdminParty" in body.fields then Some(body.fields["userAdminParty"].s) else None;
      Some((Some(body.fields["publicParty"].s), ua))
    else None
  }

  predicate IsStr(f: map<string, Json>, key: string) {
    key in f && f[key].JStr?
  }

  predicate OptionalStr(f: map<string, Json>, key: string) {
    key in f ==> f[key].JStr?
  }

  /** One element of `result`: `displayName` and `identifier` strings, `isLocal` a boolean. */
  function DecodeDetails(v: Json): (r: Option<PartyDetails>)
    ensures r.Some? <==> v.JObj? && IsStr(v.fields, "displayName") && IsStr(v.fields, "identifier")
                         && "isLocal" in v.fields && v.fields["isLocal"].JBool?
    ensures r.Some? ==> v.fields["displayName"] == JStr(r.value.displayName)
                        && v.fields["identifier"] == JStr(r.value.identifier)
  {
    if v.JObj? && IsStr(v.fields, "displayName") && IsStr(v.fields, "identifier")
       && "isLocal" in v.fields && v.fields["isLocal"].JBool?
    then Some(PartyDetails(v.fields["displayName"].s, v.fields["identifier"].s, v.fields["isLocal"].b))
    else None
  }

  /** The `array(...)` decoder: every element decodes, and the list keeps their order. */
  function DecodeList(items: seq<Json>): (r: Option<seq<PartyDetails>>)
    ensures r.Some? <==> forall i :: 0 <= i < |items| ==> DecodeDetails(items[i]).Some?
    ensures r.Some? ==> |r.value| == |items|
                        && forall i :: 0 <= i < |items| ==> DecodeDetails(items[i]) == Some(r.value[i])
  {
    if items == [] then Some([])
    else
      var head := DecodeDetails(items[0]);
      var tail := DecodeList(items[1..]);
      assert forall i :: 0 < i < |items| ==> items[i] == items[1..][i - 1];
      if head.Some? && tail.Some? then Some([head.value] + tail.value)
      else None
  }

  /** `appAPIDecoder`: a `result` list of details and a numeric `status`. */
  function DecodeApp(body: Json): (r: Option<seq<PartyDetails>>)
    ensures (body.JObj? && "result" in body.fields && body.fields["result"].JArr?
             && "status" in body.fields && body.fields["status"].JNum?) ==>
              r == DecodeList(body.fields["result"].items)
    ensures r.Some? ==> body.JObj? && "status" in body.fields && body.fields["status"].JNum?
    ensures r.Some? ==> "result" in body.fields && body.fields["result"].JArr?
                        && DecodeList(body.fields["result"].items) == r
  {
    if body.JObj? && "result" in body.fields && body.fields["result"].JArr?
       && "status" in body.fields && body.fields["status"].JNum?
    then DecodeList(body.fields["result"].items)
    else None
  }

  // ---------------------------------------------------------------------------------------
  // fetchDefaultParties

  /** The document read for a host: the well-known file on a legacy host, the hub service on
      every other host. */
  function DefaultPartiesUrl(hostname: string): (url: string)
    ensures HubEnv.DetectAppDomainType(hostname) == HubEnv.LegacyDomain ==>
              url == "//" + hostname + "/.well-known/dabl.json"
    ensures HubEnv.DetectAppDomainType(hostname) != HubEnv.LegacyDomain ==>
              url == "//" + hostname + "/.hub/v1/default-parties"
  {
    match HubEnv.DetectAppDomainType(hostname)
    case LegacyDomain => "//" + hostname + "/.well-known/dabl.json"
    case _ => "//" + hostname + "/.hub/v1/default-parties"
  }

  /** `fetchDefaultParties`: Err when the request, the parse or the decoder fails (the error
      is logged and rethrown). */
  function FetchDefaultParties(hostname: string, get: string -> Option<Json>): (r: Result<Pair, ()>)
    ensures get(DefaultPartiesUrl(hostname)).None? ==> r.Err?
    ensures HubEnv.DetectAppDomainType(hostname) == HubEnv.LegacyDomain ==>
              (r.Ok? <==> get(DefaultPartiesUrl(hostname)).Some? && DecodeLegacy(get(DefaultPartiesUrl(hostname)).value).Some?)
    ensures HubEnv.DetectAppDomainType(hostname) == HubEnv.LegacyDomain && r.Ok? ==>
              r.value == DecodeLegacy(get(DefaultPartiesUrl(hostname)).value).value
    ensures HubEnv.DetectAppDomainType(hostname) != HubEnv.LegacyDomain ==>
              (r.Ok? <==> get(DefaultPartiesUrl(hostname)).Some? && DecodeApp(get(DefaultPartiesUrl(hostname)).value).Some?)
    ensures HubEnv.DetectAppDomainType(hostname) != HubEnv.LegacyDomain && r.Ok? ==>
              exists list :: DecodeApp(get(DefaultPartiesUrl(hostname)).value) == Some(list)
                             && r.value == (GetPartyIdByName(list, PublicDisplayName), GetPartyIdByName(list, UserAdminDisplayName))
  {
    var body := get(DefaultPartiesUrl(hostname));
    if body.None? then Err(())
    else if HubEnv.DetectAppDomainType(hostname) == HubEnv.LegacyDomain then
      match DecodeLegacy(body.value)
      case Some(pair) => Ok(pair)
      case None => Err(())
    else
      match DecodeApp(body.value)
      case Some(list) => Ok((GetPartyIdByName(list, PublicDisplayName), GetPartyIdByName(list, UserAdminDisplayName)))
      case None => Err(())
  }

  // ---------------------------------------------------------------------------------------
  // Properties

  function Entry(name: string, id: string): Json {
    JObj(map["displayName" := JStr(name), "identifier" := JStr(id), "isLocal" := JBool(true)])
  }

  lemma EntryDecodes(name: string, id: string)
    ensures DecodeDetails(Entry(name, id)) == Some(PartyDetails(name, id, true))
  {
  }

  lemma DecodeCons(name: string, id: string, rest: seq<Json>, decoded: seq<PartyDetails>)
    requires DecodeList(rest) == Some(decoded)
    ensures DecodeList([Entry(name, id)] + rest) == Some([PartyDetails(name, id, true)] + decoded)
  {
    EntryDecodes(name, id);
    assert ([Entry(name, id)] + rest)[1..] == rest;
  }

  /** On every host but a legacy one, the pair is looked up by name in the decoded list. */
  lemma AppHostLookup(hostname: string, get: string -> Option<Json>, list: seq<PartyDetails>)
    requires HubEnv.DetectAppDomainType(hostname) != HubEnv.LegacyDomain
    requires get(DefaultPartiesUrl(hostname)).Some? && DecodeApp(get(DefaultPartiesUrl(hostname)).value) == Some(list)
    ensures FetchDefaultParties(hostname, get) == Ok((GetPartyIdByName(list, PublicDisplayName), GetPartyIdByName(list, UserAdminDisplayName)))
  {
  }

  /** A service answer with status 200 and the given `result` list. */
  function AppBody(items: seq<Json>): Json {
    JObj(map["result" := JArr(items), "status" := JNum(200.0)])
  }

  lemma AppBodyDecodes(items: seq<Json>)
    ensures DecodeApp(AppBody(items)) == DecodeList(items)
  {
    var f := AppBody(items).fields;
    assert "result" in f && f["result"] == JArr(items);
    assert "status" in f && f["status"].JNum?;
  }

  function ThreeEntries(pub: string, ua: string, other: string): seq<Json> {
    [Entry(other, "x"), Entry(UserAdminDisplayName, ua), Entry(PublicDisplayName, pub)]
  }

  function ThreeDetails(pub: string, ua: string, other: string): seq<PartyDetails> {
    [PartyDetails(other, "x", true), PartyDetails(UserAdminDisplayName, ua, true), PartyDetails(PublicDisplayName, pub, true)]
  }

  lemma ThreeEntriesDecode(pub: string, ua: string, other: string)
    ensures DecodeList(ThreeEntries(pub, ua, other)) == Some(ThreeDetails(pub, ua, other))
  {
    var items := ThreeEntries(pub, ua, other);
    var l := ThreeDetails(pub, ua, other);
    DecodeCons(PublicDisplayName, pub, [], []);
    assert [Entry(PublicDisplayName, pub)] + [] == items[2..];
    assert [PartyDetails(PublicDisplayName, pub, true)] + [] == l[2..];
    DecodeCons(UserAdminDisplayName, ua, items[2..], l[2..]);
    assert [Entry(UserAdminDisplayName, ua)] + items[2..] == items[1..];
    assert [PartyDetails(UserAdminDisplayName, ua, true)] + l[2..] == l[1..];
    DecodeCons(other, "x", items[1..], l[1..]);
    assert items == [Entry(other, "x")] + items[1..];
    assert l == [PartyDetails(other, "x", true)] + l[1..];
  }

  /** A service answer with an unrelated entry ahead of the two default parties: it decodes
      in order, and each default party is found by its display name. */
  lemma ThreeEntriesLookup(pub: string, ua: string, other: string)
    requires other != PublicDisplayName && other != UserAdminDisplayName
    ensures DecodeApp(AppBody(ThreeEntries(pub, ua, other))).Some?
    ensures GetPartyIdByName(DecodeApp(AppBody(ThreeEntries(pub, ua, other))).value, PublicDisplayName) == Some(pub)
    ensures GetPartyIdByName(DecodeApp(AppBody(ThreeEntries(pub, ua, other))).value, UserAdminDisplayName) == Some(ua)
  {
    var l := ThreeDetails(pub, ua, other);
    ThreeEntriesDecode(pub, ua, other);
    AppBodyDecodes(ThreeEntries(pub, ua, other));
    FirstNamedEntryWins(l, PublicDisplayName, 2);
    FirstNamedEntryWins(l, UserAdminDisplayName, 1);
  }

  /** A party missing from the service's list is `undefined`. */
  lemma AppHostMissingParty(hostname: string, get: string -> Option<Json>, pub: string)
    requires HubEnv.DetectAppDomainType(hostname) != HubEnv.LegacyDomain
    requires get(DefaultPartiesUrl(hostname)) == Some(AppBody([Entry(PublicDisplayName, pub)]))
    ensures FetchDefaultParties(hostname, get) == Ok((Some(pub), None))
  {
    AppBodyDecodes([Entry(PublicDisplayName, pub)]);
    var l := [PartyDetails(PublicDisplayName, pub, true)];
    DecodeCons(PublicDisplayName, pub, [], []);
    assert [Entry(PublicDisplayName, pub)] + [] == [Entry(PublicDisplayName, pub)];
    assert [PartyDetails(PublicDisplayName, pub, true)] + [] == l;
    FirstNamedEntryWins(l, PublicDisplayName, 0);
    assert l[0].displayName != UserAdminDisplayName;
  }

  /** On a legacy host the well-known file gives the pair directly. */
  lemma LegacyHostPair(hostname: string, get: string -> Option<Json>, pub: string, ua: string)
    requires HubEnv.DetectAppDomainType(hostname) == HubEnv.LegacyDomain
    requires get(DefaultPartiesUrl(hostname)) == Some(JObj(map["publicParty" := JStr(pub), "userAdminParty" := JStr(ua)]))
    ensures FetchDefaultParties(hostname, get) == Ok((Some(pub), Some(ua)))
  {
  }

  /** The user-admin party of the well-known file is optional, the public party is not. */
  lemma LegacyHostOptionalAdmin(hostname: string, get: string -> Option<Json>, pub: string, ua: string)
    requires HubEnv.DetectAppDomainType(hostname) == HubEnv.LegacyDomain
    ensures get(DefaultPartiesUrl(hostname)) == Some(JObj(map["publicParty" := JStr(pub)])) ==>
              FetchDefaultParties(hostname, get) == Ok((Some(pub), None))
    ensures get(DefaultPartiesUrl(hostname)) == Some(JObj(map["userAdminParty" := JStr(ua)])) ==>
              FetchDefaultParties(hostname, get).Err?
  {
  }
}
