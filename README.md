# Daml Hub credential handling, in Dafny

This project models the credential-handling core of `@daml/hub-react` (the `dabl-react`
repository), a React library for apps that run on Daml Hub or on its legacy `projectdabl.com`
domain. It then proves properties of that model. The model covers:

- **Access tokens.** There are three token classes:
  - the full-claim `PartyToken` of `src/party-info` and its copy `AccessToken` (module `FullToken`);
  - the minimal `PartyToken` of `src/party-token`, which only needs a numeric `exp` (module `MinimalToken`);
  - the older helpers of `JwtTokens.ts` (module `JwtTokens`).

  Each class builds from a raw JWT string, decides whether the token has expired, and exposes the claims.
- **parties.json bundles.** Both converters are modelled:
  - the one that throws and returns tokens (`src/login/PartiesInput.tsx`, module `PartiesInput`);
  - the one that returns a `[parsed, error]` pair (`DablPartiesInput.tsx`, module `DablPartiesInput`).

  They share the record check and the ledger comparison (module `PartiesFile`).
- **Hosts and cookies.** Module `HubEnv` covers `src/utils.ts`:
  - the classification of a hostname into app, legacy and non-hub domains;
  - the base and websocket URLs;
  - the environment record;
  - `getCookieValue`, with the cookie string as a parameter.
- **Login decisions** (`src/login/DamlHubLogin.tsx`, module `HubLogin`):
  - which login controls are displayed;
  - which cookie token wins;
  - where the login button redirects;
  - what the cookie effect does with a token, and which cookies logging out deletes.
- **Context state** (`src/context/DamlHub.tsx`, module `HubContext`):
  - the reducer and the initial state;
  - the effect that adopts a `token` prop;
  - the guards that decide what one polling pass fetches and dispatches.
- **Default parties** (`src/default-parties/defaultParties.ts`, module `DefaultParties`):
  - which document is read for a host;
  - how its body is decoded;
  - how the `[public, userAdmin]` pair is taken from it.

The source is written in an expression style: getters, predicates and decisions over values.
The model follows that style:
- everything is datatypes, functions and lemmas;
- a token whose payload has been removed is a value with `payload == None`;
- a JavaScript exception is an `Err`, `None` or `Throws` result.

Modules `JsValues` and `Text` give the JavaScript semantics these decisions depend on:
- truthiness;
- `Number(...)` and `parseInt(...)` on claim values;
- `includes`, `split` and `join`.

The outside world enters as parameters:
- the JWT decoder: `decode: string -> Decoded`;
- `JSON.parse`: `parse: string -> Option<Json>`;
- the clock: `nowMs`, the value of `getTime()`;
- `document.cookie`: a string;
- `window.location`: a `Location` value;
- the results of network fetches: a `get` function, or `Fetch` values.

## Model

| member | source | states |
|---|---|---|
| FullToken.CheckPayload | src/party-info/PartyToken.ts:17-38 | A payload passes exactly when it is an object and every claim is truthy: `exp`, `ledgerId`, `owner`, `party`, `partyName`, and the ledger-API `applicationId`, `ledgerId`, `actAs`, `readAs`. The check raises a TypeError exactly when the top claims pass and the ledger-API claim is missing or `null`. |
| FullToken.New | src/party-info/PartyToken.ts:47-57 | Construction succeeds exactly when the payload check passes. The token keeps the raw string and the decoded claims. A rejection is the format error carrying the raw token; an unreadable ledger-API claim is the TypeError. |
| FullToken.HubToken.Claim | src/party-info/PartyToken.ts:63-94 | A getter returns the claim exactly when the payload is present and the claim is truthy; otherwise it returns the getter's own "not found" message. |
| FullToken.HubToken.IsExpired | src/party-info/PartyToken.ts:99-107 | Without a payload or an `exp` claim the token is expired. An `exp` that converts to NaN is never expired, because the comparison is false. A numeric `exp` is expired exactly when it is not after the clock in seconds. |
| FullToken.HubToken.ToJson | src/party-info/PartyToken.ts:109-117 | `toJSON` succeeds exactly when the payload is present and `party`, `partyName` and `ledgerId` are all truthy. It then holds the raw token, those three claims and the expiry flag. Otherwise it throws the message of the first missing getter, in the order party, party name, ledger. |
| FullToken.GettersOfConstructed | src/party-info/PartyToken.ts:63-117 | On a constructed token, `party`, `partyName` and `ledgerId` return the claims, and `toJSON` holds the token, the three claims and the expiry flag. |
| FullToken.GettersWithoutPayload | src/access-tokens/AccessToken.test.ts:64-72 | With the payload removed, all three getters throw their messages, `toJSON` throws the first of them, and the token is expired. |
| FullToken.IsExpiredIffPast | src/party-info/PartyToken.ts:99-107 | With a numeric `exp`, the token is expired exactly when `exp` is not after the clock in seconds. |
| FullToken.RoundTrip | src/party-info/PartyToken.ts:119-121 | `toString()` and `.token` of a constructed token give back the raw string. |
| FullToken.TestClaimsAccepted | src/party-info/PartyToken.ts:17-38 | Any claims that include the tests' claims pass the payload check, for example with the `iat` that signing adds. This holds although `readAs` is an empty list: an array is truthy. |
| FullToken.WellFormedTokenAccepted | src/access-tokens/AccessToken.test.ts:42-62 | A token whose claims include the tests' claims constructs. Its getters return those claims, and it is expired exactly when `exp` is not ahead of the clock. |
| FullToken.FalsyClaimsRejected | src/party-info/PartyToken.ts:28-32 | An `exp` of 0 or an empty `partyName` is rejected with the format error. |
| FullToken.MalformedTokensRejected | src/access-tokens/AccessToken.test.ts:46-49 | A string payload, and an object without the top-level party claims, are rejected with the format error. |
| FullToken.MissingLedgerApiIsTypeError | src/party-info/PartyToken.ts:25-33 | Top claims without the ledger-API object give the TypeError, not the format error. |
| FullToken.ExpiryAroundNow | src/access-tokens/AccessToken.test.ts:74-82 | `exp` 10000 s in the past is expired; 10000 s in the future is not. |
| MinimalToken.DecodeExp | src/party-token/PartyToken.ts:9-11 | The decoder succeeds exactly on an object whose `exp` is a number, and keeps that number. |
| MinimalToken.New | src/party-token/PartyToken.ts:20-30 | Construction succeeds exactly when the decoder does. The raw string is kept, and the payload is the decoded `exp`. Any failure is the format error naming the token. |
| MinimalToken.MinimalToken.IsExpired | src/party-token/PartyToken.ts:35-43 | Without a payload the token is expired; with one, it is expired exactly when `exp` is not after the clock in seconds. |
| MinimalToken.MinimalToken.ToJson | src/party-token/PartyToken.ts:45-50 | `toJSON` holds the raw token, and says expired exactly when there is no payload or `exp` is not after the clock in seconds. |
| MinimalToken.AcceptsAnyNumericExp | src/party-token/PartyToken.ts:23-25 | Any claims object with a numeric `exp` is accepted, whatever other claims it has or lacks. |
| MinimalToken.RejectsWithoutNumericExp | src/party-token/PartyToken.ts:26-29 | Anything else is rejected, with a message that starts "Access token not in Daml Hub format: " and names the token. |
| MinimalToken.ToJsonOfConstructed | src/party-token/PartyToken.ts:45-50 | `toJSON` of a constructed token holds exactly the raw token and whether its `exp` has passed. |
| MinimalToken.ExpiredWithoutPayload | src/party-token/PartyToken.ts:36-38 | With the payload removed, the token is expired and `toJSON` says so. |
| JwtTokens.FieldFromDablJwt | JwtTokens.ts:4-12 | A token that does not decode to an object gives `null`; otherwise the result is the claim, `undefined` when it is absent. |
| JwtTokens.PartyName | JwtTokens.ts:14-16 | A token that does not decode to an object has a `null` party name; otherwise it is the `partyName` claim, `undefined` when absent. |
| JwtTokens.ExpiredToken | JwtTokens.ts:18-30 | As written: a `null` claim gives expired. Otherwise the result is expired exactly when `parseInt` of the claim is a number that is at most the clock in milliseconds. |
| JwtTokens.ExpiredTokenIntended | JwtTokens.ts:18-30 | As intended: a `null` claim or a NaN parse gives expired. |
| JwtTokens.PartyNameOfClaims | JwtTokens.test.ts:8-12 | `partyName` of a token reads back its `partyName` claim. |
| JwtTokens.NotAJwt | JwtTokens.ts:6-8 | A string that is not a JWT has a `null` party name and, under both checks, is expired. |
| JwtTokens.FreshTokenReportedExpired | JwtTokens.ts:27 | As written, a token whose `exp` is two minutes ahead is reported expired, whatever other claims it has, because seconds are compared with milliseconds. |
| JwtTokens.MissingExpReportedLive | JwtTokens.ts:23-25 | As written, a token without `exp` is reported live: the `undefined` test on the `parseInt` result never succeeds. |
| JwtTokens.IntendedComparesSeconds | JwtTokens.ts:23-27 | The intended check on a numeric `exp` compares its whole seconds with the clock in seconds. |
| JwtTokens.IntendedAroundNow | JwtTokens.test.ts:14-21 | Under the intended check, an `exp` 10 s past is expired, 10 s ahead is not, and a missing `exp` is expired, whatever other claims the token has. |
| PartiesFile.IsPartyDetails | src/login/PartiesInput.tsx:14-22 | An entry is well formed exactly when it is an object with string `ledgerId`, `owner`, `party`, `partyName` and `token`. A `null` entry throws. |
| PartiesFile.AnyInvalid | src/login/PartiesInput.tsx:27-30 | The scan finds no invalid entry exactly when all entries are well formed. It throws exactly when it reaches a `null` entry before any malformed one. |
| PartiesFile.IsParties | src/login/PartiesInput.tsx:24-35 | A value is a parties file exactly when it is an array of well-formed entries. It throws exactly when the scan reaches a `null` entry. |
| PartiesFile.FindMismatch | src/login/PartiesInput.tsx:67 | `find` returns the least index whose ledger differs, or nothing when all ledgers match. |
| PartiesFile.MismatchFoldFinds | src/login/PartiesInput.tsx:55-58 | The ledger `reduce` is true exactly when `find` returns an entry, so the message never prints `undefined`. |
| PartiesFile.MismatchMessageNamesFirst | src/login/PartiesInput.tsx:66-70 | The mismatch is detected, and the message names the first differing ledger. |
| PartiesFile.ShapeExamples | src/login/PartiesInput.test.tsx:69-77 | An empty array and an array of well-formed entries pass. A non-array, and an entry whose ledger is a number, fail. |
| PartiesFile.NullEntries | DablPartiesInput.tsx:21-32 | A `null` entry that nothing malformed precedes throws; one after a malformed entry is never read. |
| PartiesInput.AnyExpired | src/login/PartiesInput.tsx:61-64 | The expiry scan is `Ok(false)` exactly when every token constructs and is live. When it is `Ok(true)`, some token constructs and is expired. |
| PartiesInput.ValidateParties | src/login/PartiesInput.tsx:53-79 | The file passes exactly when every entry is on the app's ledger and every token constructs and is live. A token constructor that throws during the expiry scan propagates its error. Otherwise a ledger mismatch is reported first, naming the first differing ledger; only then are expired tokens reported. |
| PartiesInput.MapTokens | src/login/PartiesInput.tsx:99 | The conversion succeeds exactly when every entry's token constructs. It gives one token per entry, in order; a failure is some entry's error. |
| PartiesInput.ConvertPartiesJson | src/login/PartiesInput.tsx:81-100 | A file that does not parse fails with the parse error. A success comes from an array, and is the token conversion of its entries. A validated success also means every entry is well formed and the file passes validation. A validated array whose shape scan reaches a `null` entry fails with a TypeError. |
| PartiesInput.AcceptedFile | src/login/PartiesInput.tsx:81-100 | An accepted validated file is an array of well-formed entries, all on the app's ledger. It yields one token per entry, with the entry's token string, none of them expired. |
| PartiesInput.ValidFileAccepted | src/login/PartiesInput.tsx:81-100 | The converse: a validated file that parses to an array of well-formed entries, all on the app's ledger and all with live tokens, is accepted, one token per entry in order. |
| PartiesInput.TryPartyConversion | src/login/PartiesInput.tsx:117-130 | The component converts with the first label of the page's hostname as the ledger. A throw leaves no parties and records the error; a success sets the converted parties and keeps the error recorded before. |
| PartiesInput.PageLedgerAccepted | src/login/PartiesInput.tsx:117-130 | On a page served from `<ledger>.<rest>`, a validated file the component accepts holds only entries for `<ledger>`, with one live token per entry, in order. |
| PartiesInput.UnparsableFile | src/login/PartiesInput.tsx:86 | A file that does not parse fails with the parse error, whether or not it is validated. |
| PartiesInput.MalformedFile | src/login/PartiesInput.tsx:89-94 | A non-array, or an array with a malformed entry and no `null` reached, fails with "Format does not look like parties.json". |
| PartiesInput.LedgerMismatchWins | src/login/PartiesInput.tsx:66-71 | When tokens all construct and an entry is for another ledger, the mismatch error wins and names the first such ledger. |
| PartiesInput.ExpiredTokenRejected | src/login/PartiesInput.tsx:73-78 | On the right ledger, one expired token rejects the whole file with the expired-tokens message. |
| PartiesInput.UnvalidatedFile | src/login/PartiesInput.tsx:88-99 | Without validation, only the token conversion runs; a non-array fails at `map`. |
| PartiesInput.EntryWellFormed | src/login/PartiesInput.test.tsx:1-30 | An entry of the tests' file is well formed on any ledger, and its ledger and token are read back. |
| PartiesInput.OneEntryShape | src/login/PartiesInput.test.tsx:1-30 | The tests' one-entry file passes the shape check. Its token is live when its claims include the tests' claims with an `exp` ahead of the clock. |
| PartiesInput.SingleEntryAccepted | src/login/PartiesInput.tsx:81-100 | A validated one-entry file on the app's ledger with a live token yields exactly the token built from that entry. |
| PartiesInput.OneEntryAccepted | src/login/PartiesInput.test.tsx:64-67 | The tests' file converts to one token whose party name is the entry's. |
| PartiesInput.OneEntryWrongLedger | src/login/PartiesInput.test.tsx:85-89 | The same file on another ledger fails with the mismatch message naming both ledgers. |
| PartiesInput.NumericLedgerMalformed | src/login/PartiesInput.test.tsx:69-77 | An entry whose `ledgerId` is a number makes the file malformed. |
| DablPartiesInput.CatchMessage | DablPartiesInput.tsx:84-91 | A thrown bundle error reports its own message when its kind is truthy, that is, not `InvalidPartiesError`, the enum's 0. Anything else, including engine exceptions, reports "Not a valid JSON file.". |
| DablPartiesInput.ExpiredFold | DablPartiesInput.tsx:55 | The expiry `reduce` is true exactly when some entry's token is expired. |
| DablPartiesInput.ValidateParties | DablPartiesInput.tsx:50-67 | The file passes exactly when every entry is on the app's ledger and no token is expired. A mismatch is reported first, naming the first differing ledger; otherwise a failure is the expired-tokens error. |
| DablPartiesInput.Convert | DablPartiesInput.tsx:71-93 | Exactly one half of the pair is defined, and a defined first half is the parsed value itself. |
| DablPartiesInput.ConvertPartiesJson | DablPartiesInput.tsx:71-93 | As written, with `expiredToken` as the expiry test: exactly one half of the pair is defined, and a defined first half is the parsed value. A validated success is an array of well-formed entries, all on the app's ledger, none expired under that test. |
| DablPartiesInput.ConvertPartiesJsonIntended | DablPartiesInput.tsx:71-93 | The same, with the expiry compared in seconds. |
| DablPartiesInput.AcceptedIff | DablPartiesInput.tsx:71-83 | A validated file is accepted exactly when it parses to an array of well-formed entries, all on the app's ledger and none expired. |
| DablPartiesInput.ThrownMessagesReported | DablPartiesInput.tsx:84-91 | The format, mismatch and expiry messages are reported unchanged. An error of kind 0 falls back to the default message. |
| DablPartiesInput.DefaultMessageCases | DablPartiesInput.test.ts:67-72 | Unparsable JSON, and a `null` entry the scan reaches, give "Not a valid JSON file.". |
| DablPartiesInput.FormatMessageCases | DablPartiesInput.test.ts:60-65 | A non-array or malformed file gives the format message. |
| DablPartiesInput.LedgerMismatchWins | DablPartiesInput.tsx:57-62 | A ledger mismatch is reported before any expiry, naming the first differing ledger. |
| DablPartiesInput.AnyExpiredRejects | DablPartiesInput.tsx:64-66 | On the right ledger, any expired token gives the expired-tokens message. |
| DablPartiesInput.UnvalidatedFile | DablPartiesInput.tsx:75-83 | Without validation, a file that parses is returned unchanged. |
| DablPartiesInput.EntryShape | DablPartiesInput.test.ts:24-38 | The tests' entry is a well-formed one-entry file. |
| DablPartiesInput.FreshFileRejected | DablPartiesInput.tsx:55 | As written, a file whose token expires two minutes from now is rejected as expired. |
| DablPartiesInput.OneEntryVerdict | DablPartiesInput.test.ts:24-48 | Under any expiry test, the tests' file is rejected as expired exactly when its token is expired, and is otherwise returned unchanged. |
| DablPartiesInput.FreshFileAcceptedIntended | DablPartiesInput.test.ts:24-48 | With the intended expiry check, that file is accepted unchanged. |
| DablPartiesInput.StaleFileRejectedIntended | DablPartiesInput.tsx:64-66 | With the intended expiry check, a file whose token expired two minutes ago is rejected as expired. |
| JsValues.ToNumber | src/party-info/PartyToken.ts:100-105 | The `exp` claim enters `asSeconds - timeNow` through JavaScript's number conversion: a number is itself and an object is NaN. |
| JsValues.Trunc | JwtTokens.ts:23 | `parseInt` of a number keeps its integer part, truncating toward zero: the result is within one of the number, on the number's side of zero. |
| JsValues.ParseIntOfJson | JwtTokens.ts:23 | `parseInt(exp, 10)` of a number truncates it; `null`, booleans and objects give NaN. |
| JsValues.ParseIntOf | JwtTokens.ts:19-23 | `parseInt` of an absent claim is NaN. |
| JsValues.NumberOfSignedDigits | src/party-info/PartyToken.ts:105 | `Number` of a minus sign followed by decimal digits is the negated digit value. |
| JsValues.ParseIntOfSignedDigits | JwtTokens.ts:23 | `parseInt` of a minus sign followed by decimal digits is the negated digit value. |
| Text.Split | src/utils.ts:32 | `split` always gives at least one part, and no part contains the separator. |
| Text.SplitSingle | src/utils.ts:47 | `split` gives exactly one part exactly when the separator does not occur. |
| Text.FirstPart | src/utils.ts:35 | The first label of a hostname holds no `.`. |
| HubEnv.DetectAppDomainType | src/utils.ts:9-24 | A host is legacy exactly when it contains "projectdabl" and ".com". It is an app host exactly when it is not legacy and contains "daml" and ".app". Any other host is non-hub. |
| HubEnv.IsRunningOnHub | src/utils.ts:67-69 | A host is on the hub exactly when it is legacy or app. |
| HubEnv.HubBaseUrl | src/utils.ts:43-53 | A base URL exists exactly on a hub host. On an app host it is the origin plus "/". |
| HubEnv.HubWsUrl | src/utils.ts:55-65 | A websocket URL exists exactly on a hub host. On an app host it is `wss://<host>/`. |
| HubEnv.DamlHubEnvironment | src/utils.ts:26-41 | The environment names a ledger exactly on a legacy host, and has both URLs exactly on a hub host. On every kind of host, its hostname is what follows the first label and its dot, and it is empty when the hostname has no dot. |
| HubEnv.EnvironmentHostname | src/utils.ts:32 | For any hostname `<first>.<rest>`, whatever the kind of host, the environment's hostname is `<rest>`. |
| HubEnv.ClassifyHubHosts | src/utils.ts:12-17 | A `projectdabl` host is legacy and a `daml.app` host is an app host. The legacy test comes first, so a host matching both is legacy. |
| HubEnv.ClassifyOffHubHosts | src/utils.ts:18-23 | `localhost` and other hosts without the markers are non-hub; there is no case for local development. |
| HubEnv.LegacyEnvironment | src/utils.ts:26-65 | On a legacy host `<ledger>.<rest>`, the environment has hostname `<rest>` and ledger `<ledger>`, and both URLs point at `api.<rest>/data/<ledger>/`. |
| HubEnv.AppEnvironment | src/utils.ts:43-57 | On an app host, the base URL is the origin plus "/", the websocket URL is `wss://<host>/`, and there is no ledger. |
| HubEnv.NonHubEnvironment | src/utils.ts:50-64 | Off the hub, neither URL nor a ledger is defined. |
| HubEnv.GetCookieValue | src/utils.ts:71-72 | A found value is non-empty and free of `;`. Nothing is found exactly when no entry boundary matches. A found value belongs to the leftmost boundary that matches. |
| HubEnv.CookieAtStart | src/utils.ts:71-72 | The first cookie `name=value;` yields `value`. |
| Text.JoinSplit | src/utils.ts:32 | Splitting on a separator and joining again gives back the string. |
| Text.FirstPartAndRest | src/utils.ts:47-48 | A hostname is its first label, then the separator and the remaining labels. |
| HubLogin.NormalizeDisplayOpt | src/login/DamlHubLogin.tsx:105-123 | Token and file are shown exactly when flagged or customised. The button is always shown when neither is, and otherwise exactly when flagged or customised; some control is always shown. |
| HubLogin.DisplayExamples | src/login/DamlHubLogin.tsx:110-116 | No flags shows only the button, `withFile` alone hides it, and a customised token option shows only the token input. |
| HubLogin.TokenFromCookie | src/login/DamlHubLogin.tsx:167-170 | The `DAMLHUB_LEDGER_ACCESS_TOKEN` cookie wins; otherwise the `DABL_LEDGER_ACCESS_TOKEN` cookie is used. |
| HubLogin.DamlHubCookieWins | src/login/DamlHubLogin.tsx:132-134 | With both cookies set, the Daml Hub one is used. |
| HubLogin.HandleButtonLogin | src/login/DamlHubLogin.tsx:166-188 | A click redirects exactly when there is no cookie token. With a cookie token and no `onLogin` prop nothing happens: no token is built, so nothing throws. With `onLogin`, a login carries the cookie token unchanged, and a throw is the constructor's error. |
| HubLogin.RedirectTargets | src/login/DamlHubLogin.tsx:178-184 | An app host goes to `/.hub/v1/auth/login`. Every other host goes to the projectdabl login page for the host's first label. |
| HubLogin.ClickWithCookie | src/login/DamlHubLogin.tsx:185-187 | With a cookie token and `onLogin`, the click logs in with the minimal token built from it, or throws the format error. Without `onLogin` it does nothing. |
| HubLogin.DamlHubLogout | src/login/DamlHubLogin.tsx:32-39 | The Daml Hub cookie is deleted exactly on a hub host, and the legacy cookie exactly on a legacy host. A domain is given exactly on a legacy host, and it is `projectdabl.com`. Nothing else is deleted: two deletions on a legacy host, one on an app host, none off the hub. |
| HubLogin.CookieEffect | src/login/DamlHubLogin.tsx:131-164 | As written: nothing happens exactly when there is no cookie token. A login or a reported error needs `onLogin`; without it both are ignored. A login carries the token built from the cookie, and a reported error means the constructor threw. A logout happens only on a legacy host, deletes what `damlHubLogout` deletes, and needs a token that constructs. |
| HubLogin.CookieEffectIntended | src/login/DamlHubLogin.tsx:131-164 | The same promises, with the ledger compared against the token's `ledgerId` claim. |
| HubLogin.NonLegacyLogsIn | src/login/DamlHubLogin.tsx:145-159 | Off a legacy host, a cookie token that constructs always logs in when `onLogin` is given, and is ignored otherwise; both variants agree. |
| HubLogin.UndecodableCookie | src/login/DamlHubLogin.tsx:160-162 | A cookie token that does not construct reports `"{}"`, the serialisation of an `Error`, to `onLogin`; without `onLogin` it is ignored. |
| HubLogin.LegacyTokenAlwaysLoggedOut | src/login/DamlHubLogin.tsx:147-151 | As written, on a legacy host even a token claiming the host's own ledger is logged out. |
| HubLogin.IntendedComparesLedgers | src/login/DamlHubLogin.tsx:147-159 | As intended, a legacy-host token whose ledger claim is the host's ledger is logged in (with `onLogin`). Otherwise the session is logged out and both legacy cookies are deleted. |
| HubContext.Initial | src/context/DamlHub.tsx:29-36 | The initial context has every field `undefined`. |
| HubContext.Reduce | src/context/DamlHub.tsx:55-59 | An action sets exactly its own field to the value it carries, and leaves every other field alone. |
| HubContext.LaterActionWins | src/context/DamlHub.tsx:55-59 | Of two actions on the same field, the later one wins. |
| HubContext.ApplyAll | src/context/DamlHub.tsx:55-59 | After the dispatches of a pass, every action that no later action overrides is carried by the state: the last write to each field wins. |
| HubContext.DefaultPartiesCanBeCleared | src/context/DamlHub.tsx:50-51 | The default-party actions can set their field back to `undefined`. |
| HubContext.ApplyAllKeeps | src/context/DamlHub.tsx:55-59 | Applying actions that never name a field leaves that field unchanged. |
| HubContext.TokenEffect | src/context/DamlHub.tsx:73-78 | A truthy `token` prop is adopted exactly while no party token is set. An object is taken as is. A string is adopted exactly when it constructs, as a token whose string is the prop; otherwise the effect throws the format error naming the string. |
| HubContext.PassAvoids | src/context/DamlHub.tsx:82-108 | A field that no stage dispatches is not dispatched by the pass. |
| HubContext.HubApiFetches | src/context/DamlHub.tsx:82-108 | A pass runs to its end exactly when no stage throws. A completed pass dispatches the four stages' actions in order. A throw in the first stage dispatches nothing; a throw in the second dispatches only the first stage's actions. A throw in the automations stage keeps the first two stages' actions, and a throw in the instances stage keeps the first three stages' actions. |
| HubContext.PassKeepsPartyToken | src/context/DamlHub.tsx:82-108 | A polling pass never changes the party token. |
| HubContext.LivePublicTokenKept | src/context/DamlHub.tsx:83-87 | A public token that is present and not expired is not fetched again. |
| HubContext.StalePublicTokenReplaced | src/context/DamlHub.tsx:84-86 | A missing or expired public token is replaced by a fetched one that constructs. |
| HubContext.KnownDefaultPartiesKept | src/context/DamlHub.tsx:89-95 | A known public or user-admin party survives the pass unchanged. |
| HubContext.MissingDefaultPartyFilled | src/context/DamlHub.tsx:90-94 | Only the missing default party is dispatched, with the fetched value. With both known, nothing is fetched. |
| HubContext.ListingsNeedTokens | src/context/DamlHub.tsx:97-107 | Automations are listed only with a public token, and instances only with a party token, both judged on the state the pass started from. |
| HubContext.FirstPass | src/context/DamlHub.tsx:82-108 | The first pass from the initial state dispatches the public token and both parties and lists nothing. |
| DefaultParties.GetPartyIdByName | src/default-parties/defaultParties.ts:51-53 | Nothing is found exactly when no entry has the name. Otherwise the result is the identifier of the first entry that has it. |
| DefaultParties.FirstNamedEntryWins | src/default-parties/defaultParties.ts:51-53 | The lookup returns the identifier at the first index holding the name. |
| DefaultParties.DecodeLegacy | src/default-parties/defaultParties.ts:28-31 | The decoder accepts exactly an object with a string `publicParty` and an optional string `userAdminParty`, and returns them. |
| DefaultParties.DecodeDetails | src/default-parties/defaultParties.ts:40-44 | An entry decodes exactly when `displayName` and `identifier` are strings and `isLocal` is a boolean. |
| DefaultParties.DecodeList | src/default-parties/defaultParties.ts:39-45 | The list decodes exactly when every element does, keeping length and order. |
| DefaultParties.DecodeApp | src/default-parties/defaultParties.ts:38-47 | The decoder needs an array `result` and a numeric `status`, and decodes exactly the `result` list. |
| DefaultParties.DefaultPartiesUrl | src/default-parties/defaultParties.ts:58-66 | A legacy host reads `//<host>/.well-known/dabl.json`; every other host reads `//<host>/.hub/v1/default-parties`. |
| DefaultParties.FetchDefaultParties | src/default-parties/defaultParties.ts:55-77 | A failed request is an error. On a legacy host the call succeeds exactly when the body decodes, and the pair is the decoded pair. On every other host the call succeeds exactly when the request succeeds and the body decodes, and the pair was looked up by name in the decoded list. |
| DefaultParties.AppHostLookup | src/default-parties/defaultParties.ts:64-71 | On a non-legacy host, the pair is the "Public" and "UserAdmin" lookups in the decoded list. |
| DefaultParties.ThreeEntriesLookup | src/default-parties/defaultParties.ts:68-71 | In an answer listing an unrelated entry first, then UserAdmin, then Public, the unrelated entry is ignored and both default parties are found. GetPartyIdByName and FirstNamedEntryWins state the lookup for any position. |
| DefaultParties.AppHostMissingParty | src/default-parties/defaultParties.ts:68-71 | A party missing from the list is `undefined`. |
| DefaultParties.LegacyHostPair | src/default-parties/defaultParties.ts:59-63 | On a legacy host, the well-known file gives the pair directly. |
| DefaultParties.LegacyHostOptionalAdmin | src/default-parties/defaultParties.ts:28-31 | The user-admin party of the well-known file is optional; the public party is not. |

## Left out

- Rendering, React state and hooks are not modelled. This covers the login components, the `PartiesInput` file reader, the effects that hand its state to `onPartiesLoad`, and `usePolling`, including its interval and its no-polling rule off the hub. Only the decisions these components make are modelled. The `PartiesInput` component's choice of ledger, the first label of `window.location.hostname`, is modelled by PartiesInput.TryPartyConversion with the hostname as a parameter. Its recorded error is the thrown error, whose text PartiesInput.Message gives.
- DamlHubLogout: `damlHubLogout` imports `deleteCookie` from `../utils` (src/login/DamlHubLogin.tsx:5), but src/utils.ts defines no such export. The returned deletions model the intended calls, `deleteCookie(name, domain)` per cookie. As the shown text stands, the legacy logout would not compile, or would call `undefined`; that call's TypeError, caught at src/login/DamlHubLogin.tsx:160-162, would become `onLogin(undefined, "{}")`. That path is not modelled.
- CookieEffect: `onLogin(at)` runs inside the `try` (src/login/DamlHubLogin.tsx:157). A callback that throws is called a second time, with `JSON.stringify(error)`. The model treats the callback as returning normally, so this second call is not modelled; likewise for CookieEffectIntended.
- The side effects are not performed. Logging, `window.location.assign` and cookie deletion are modelled as returned outcomes: a redirect URL, and a list of cookie deletions.
- The JWT libraries (`jsonwebtoken`, `jwt-decode`) and `JSON.parse` are parameters. Signatures are never checked by the source either.
- A decoded JWT payload is a string or an object. A top-level JSON array payload is not modelled.
- `fetchPublicToken` and the automation API (`listPublishedAutomations`, `listAutomationInstances`) are not part of this model. Their results enter a polling pass as `Fetch` parameters. A rejected await ends the pass.
- Automations and instances stay as the JSON the service returned; `src/automation/schemas.ts` is not part of this model.
- The context's `SetPublicParty` and `SetUserAdminParty` actions always carry their field. The source dispatches them that way, although its type would allow the key to be absent.
- FullToken.HubToken.IsExpired: `exp` strings are converted like `Number(...)` for decimal digits and fractions only. Exponents, hexadecimal and `Infinity` become NaN in the model.
- JwtTokens.ExpiredToken: `parseInt` is modelled for decimal digits after optional spaces and a sign; a number claim is truncated. JavaScript differs where `String(n)` uses exponent form, for |n| ≥ 1e21 and for 0 < |n| < 1e-6: `parseInt(1e-7)` is 1, not 0. The model's truncation does not capture this.
- JSON numbers are exact reals. Double-precision rounding of `getTime() / 1000` is not modelled.
- HubEnv.GetCookieValue: it requires a cookie name without regular-expression metacharacters, because the source splices the name into a regex. The two names the library uses satisfy this (HubLogin.CookieNamesArePlain).
- MinimalToken.Message: it gives the format message up to its final period. The decoder library's own error text, which the source appends after a line break, is not modelled.
- PartiesInput.Message: the texts of the engine's SyntaxError and TypeError are not modelled (None). A non-string `token` in an unvalidated file is the distinct error `NonStringToken`; the source would hand it to the decoder.
- HubEnv.HubBaseUrl and HubEnv.HubWsUrl: their contracts state on which hosts a URL exists and its value on an app host. The legacy value is stated by LegacyEnvironment.
- Some tests disagree with the code, and the model follows the code:
  - src/party-token/PartyToken.test.ts:48 expects a payload with `exp` but no party claims to be rejected; the minimal decoder accepts it.
  - src/party-token/PartyToken.test.ts:51-53 expects the payload to equal the claims; the minimal decoder keeps only `exp`.
  - src/party-token/PartyToken.test.ts:55-62 uses getters that the minimal class does not define.
- `AccessToken` has no `toJSON`. FullToken.HubToken.ToJson is the party-info variant.

## Findings

| source | as written | input that shows it | evidently intended | confidence | as-written member | corrected member |
|---|---|---|---|---|---|---|
| JwtTokens.ts:27 | `exp` in seconds is compared with `getTime()` in milliseconds | a token whose `exp` is two minutes ahead, at any clock reading past one second after the epoch, is reported expired | compare with the clock in seconds | high; not executed | JwtTokens.FreshTokenReportedExpired | JwtTokens.IntendedAroundNow |
| JwtTokens.ts:23-25 | `parseInt` never returns `undefined`, so a missing or unparsable `exp` gives NaN and the token counts as live | a token whose claims have no `exp` | treat an unreadable `exp` as expired | medium; not executed | JwtTokens.MissingExpReportedLive | JwtTokens.IntendedAroundNow |
| DablPartiesInput.tsx:55 | the bundle uses the check above, so every token whose `exp` is in seconds is rejected | a one-entry file whose token expires two minutes from now | accept the file | high; not executed | DablPartiesInput.FreshFileRejected | DablPartiesInput.FreshFileAcceptedIntended |
| src/login/DamlHubLogin.tsx:147-151 | the minimal `PartyToken` has no `ledgerId`, so the ledger comparison always fails on a legacy host | a legacy-host cookie token whose `ledgerId` claim equals the host's ledger is logged out | compare with the token's `ledgerId` claim | medium; not executed | HubLogin.LegacyTokenAlwaysLoggedOut | HubLogin.IntendedComparesLedgers |

The corrected checks are `JwtTokens.ExpiredTokenIntended`, `DablPartiesInput.ConvertPartiesJsonIntended` and `HubLogin.CookieEffectIntended`. Each sits beside the as-written definition it corrects.
