/** The state of the hub context provider in src/context/DamlHub.tsx: its six optional
    fields, the reducer that sets one of them per action, the effect that adopts a `token`
    prop, and the guards of the periodic fetches. The fetches themselves are parameters: the
    value each one returned, or that it was rejected. Automations and instances are opaque to
    this logic and kept as the JSON the service returned. */
module HubContext {
  import opened JsValues
  import MinimalToken

  type Token = MinimalToken.MinimalToken

  /** `DamlHubCtx`; None is `undefined`. */
  datatype Ctx = Ctx(
    partyToken: Option<Token>,
    publicToken: Option<Token>,
    publicParty: Option<string>,
    userAdminParty: Option<string>,
    automations: Option<seq<Json>>,
    instances: Option<seq<Json>>)

  /** `initialDamlHubCtx`. */
  function Initial(): (c: Ctx)
    ensures c.partyToken.None? && c.publicToken.None? && c.publicParty.None?
    ensures c.userAdminParty.None? && c.automations.None? && c.instances.None?
  {
    Ctx(None, None, None, None, None, None)
  }

  /** `Action`: each action carries the one field named by its `type`. The two default-party
      actions may carry `undefined`. */
  datatype Action =
    | SetPartyToken(partyToken: Token)
    | SetPublicToken(publicToken: Token)
    | SetPublicParty(publicParty: Option<string>)
    | SetUserAdminParty(userAdminParty: Option<string>)
    | SetAutomations(automations: seq<Json>)
    | SetInstances(instances: seq<Json>)

  datatype Field = PartyTokenField | PublicTokenField | PublicPartyField | UserAdminPartyField | AutomationsField | InstancesField

  function FieldOf(a: Action): Field {
    match a
    case SetPartyToken(_) => PartyTokenField
    case SetPublicToken(_) => PublicTokenField
    case SetPublicParty(_) => PublicPartyField
    case SetUserAdminParty(_) => UserAdminPartyField
    case SetAutomations(_) => AutomationsField
    case SetInstances(_) => InstancesField
  }

  /** `s` and `t` agree on every field except possibly `f`. */
  predicate SameExcept(s: Ctx, t: Ctx, f: Field) {
    && (f != PartyTokenField ==> s.partyToken == t.partyToken)
    && (f != PublicTokenField ==> s.publicToken == t.publicToken)
    && (f != PublicPartyField ==> s.publicParty == t.publicParty)
    && (f != UserAdminPartyField ==> s.userAdminParty == t.userAdminParty)
    && (f != AutomationsField ==> s.automations == t.automations)
    && (f != InstancesField ==> s.instances == t.instances)
  }

  /** `t` holds the value `a` carries, in `a`'s field. */
  predicate Carries(a: Action, t: Ctx) {
    match a
    case SetPartyToken(x) => t.partyToken == Some(x)
    case SetPublicToken(x) => t.publicToken == Some(x)
    case SetPublicParty(x) => t.publicParty == x
    case SetUserAdminParty(x) => t.userAdminParty == x
    case SetAutomations(x) => t.automations == Some(x)
    case SetInstances(x) => t.instances == Some(x)
  }

  /** `reducer`: the action without its `type` key, spread over the state. */
  function Reduce(s: Ctx, a: Action): (r: Ctx)
    ensures SameExcept(s, r, FieldOf(a))
    ensures Carries(a, r)
  {
    match a
    case SetPartyToken(x) => s.(partyToken := Some(x))
    case SetPublicToken(x) => s.(publicToken := Some(x))
    case SetPublicParty(x) => s.(publicParty := x)
    case SetUserAdminParty(x) => s.(userAdminParty := x)
    case SetAutomations(x) => s.(automations := Some(x))
    case SetInstances(x) => s.(instances := Some(x))
  }

  /** The dispatches of one pass, applied in order: every action that no later action
      overrides is carried by the final state. */
  function ApplyAll(s: Ctx, actions: seq<Action>): (r: Ctx)
    ensures forall i | 0 <= i < |actions| :: NoneFor(actions[i + 1..], FieldOf(actions[i])) ==> Carries(actions[i], r)
    decreases |actions|, 0
  {
    if actions == [] then s
    else
      var rest := actions[1..];
      var r := ApplyAll(Reduce(s, actions[0]), rest);
      assert forall i | 1 <= i < |actions| :: actions[i] == rest[i - 1] && actions[i + 1..] == rest[i..];
      assert NoneFor(rest, FieldOf(actions[0])) ==> Carries(actions[0], r) by {
        if NoneFor(rest, FieldOf(actions[0])) {
          ApplyAllKeeps(Reduce(s, actions[0]), rest, FieldOf(actions[0]));
        }
      }
      r
  }

  /** Two actions for the same field: the later one wins, and nothing else is touched. */
  lemma LaterActionWins(s: Ctx, a: Action, b: Action)
    requires FieldOf(a) == FieldOf(b)
    ensures Reduce(Reduce(s, a), b) == Reduce(s, b)
  {
  }

  /** The default parties can be set back to `undefined`. */
  lemma DefaultPartiesCanBeCleared(s: Ctx)
    ensures Reduce(s, SetPublicParty(None)).publicParty.None?
    ensures Reduce(s, SetUserAdminParty(None)).userAdminParty.None?
  {
  }

  /** Applying actions none of which names field `f` leaves `f` as it was. */
  lemma {:induction false} ApplyAllKeeps(s: Ctx, actions: seq<Action>, f: Field)
    requires forall i :: 0 <= i < |actions| ==> FieldOf(actions[i]) != f
    ensures f == PartyTokenField ==> ApplyAll(s, actions).partyToken == s.partyToken
    ensures f == PublicTokenField ==> ApplyAll(s, actions).publicToken == s.publicToken
    ensures f == PublicPartyField ==> ApplyAll(s, actions).publicParty == s.publicParty
    ensures f == UserAdminPartyField ==> ApplyAll(s, actions).userAdminParty == s.userAdminParty
    ensures f == AutomationsField ==> ApplyAll(s, actions).automations == s.automations
    ensures f == InstancesField ==> ApplyAll(s, actions).instances == s.instances
    decreases |actions|, 1
  {
    if actions != [] {
      assert forall i :: 0 <= i < |actions[1..]| ==> actions[1..][i] == actions[i + 1];
      ApplyAllKeeps(Reduce(s, actions[0]), actions[1..], f);
    }
  }

  // ---------------------------------------------------------------------------------------
  // The `token` prop

  /** The `token` prop: a raw string or an already built token. */
  datatype TokenProp = TokenString(s: string) | TokenObject(t: Token)

  predicate TruthyProp(p: Option<TokenProp>) {
    p.Some? && (p.value.TokenString? ==> p.value.s != "")
  }

  /** The effect on the `token` prop: when a truthy prop arrives and no party token is set,
      a string is turned into a token (which may throw) and the token is dispatched. */
  function TokenEffect(ctx: Ctx, token: Option<TokenProp>, decode: JwtDecoder)
    : (r: Result<Option<Action>, MinimalToken.TokenError>)
    ensures ctx.partyToken.Some? || !TruthyProp(token) ==> r == Ok(None)
    ensures r.Ok? && r.value.Some? ==> r.value.value.SetPartyToken?
    ensures r.Ok? && r.value.Some? && token.value.TokenString? ==> r.value.value.partyToken.ToString() == token.value.s
    ensures r.Ok? && r.value.Some? && token.value.TokenObject? ==> r.value.value.partyToken == token.value.t
    ensures TruthyProp(token) && ctx.partyToken.None? ==> r != Ok(None)
    ensures TruthyProp(token) && ctx.partyToken.None? && token.value.TokenObject? ==>
              r == Ok(Some(SetPartyToken(token.value.t)))
    ensures TruthyProp(token) && ctx.partyToken.None? && token.value.TokenString? ==>
              (r.Ok? <==> MinimalToken.New(token.value.s, decode).Ok?)
    ensures r.Err? ==> token.Some? && token.value.TokenString? && r.error == MinimalToken.NotHubFormat(token.value.s)
  {
    if TruthyProp(token) && ctx.partyToken.None? then
      match token.value
      case TokenObject(t) => Ok(Some(SetPartyToken(t)))
      case TokenString(s) =>
        match MinimalToken.New(s, decode)
        case Ok(t) => Ok(Some(SetPartyToken(t)))
        case Err(e) => Err(e)
    else Ok(None)
  }

  // ---------------------------------------------------------------------------------------
  // One pass of `hubAPIFetches`

  /** What an awaited fetch produced: its value, or a rejection that ends the pass. */
  datatype Fetch<T> = Returned(value: T) | Rejected

  /** The guards, all evaluated on `ctx`, the state the pass was created with. */
  predicate ShouldFetchPublicToken(ctx: Ctx, nowMs: int) {
    ctx.publicToken.None? || ctx.publicToken.value.IsExpired(nowMs)
  }

  predicate ShouldFetchDefaultParties(ctx: Ctx) {
    !TruthyStr(ctx.publicParty) || !TruthyStr(ctx.userAdminParty)
  }

  predicate ShouldListAutomations(ctx: Ctx) {
    ctx.publicToken.Some?
  }

  predicate ShouldListInstances(ctx: Ctx) {
    ctx.partyToken.Some?
  }

  /** A stage's dispatches, or None when it threw. */
  type Stage = Option<seq<Action>>

  function PublicTokenStage(ctx: Ctx, nowMs: int, decode: JwtDecoder, pt: Fetch<Option<string>>): Stage {
    if !ShouldFetchPublicToken(ctx, nowMs) then Some([])
    else
      match pt
      case Rejected => None
      case Returned(v) =>
        if !TruthyStr(v) then Some([])
        else
          match MinimalToken.New(v.value, decode)
          case Ok(t) => Some([SetPublicToken(t)])
          case Err(_) => None
  }

  /** `!publicParty && dispatch(...)`, `!userAdminParty && dispatch(...)`. */
  function DefaultPartiesStage(ctx: Ctx, dp: Fetch<(Option<string>, Option<string>)>): Stage {
    if !ShouldFetchDefaultParties(ctx) then Some([])
    else
      match dp
      case Rejected => None
      case Returned((p, ua)) =>
        Some((if !TruthyStr(ctx.publicParty) then [SetPublicParty(p)] else [])
             + (if !TruthyStr(ctx.userAdminParty) then [SetUserAdminParty(ua)] else []))
  }

  function AutomationsStage(ctx: Ctx, autos: Fetch<Option<seq<Json>>>): Stage {
    if !ShouldListAutomations(ctx) then Some([])
    else
      match autos
      case Rejected => None
      case Returned(v) => if v.Some? then Some([SetAutomations(v.value)]) else Some([])
  }

  function InstancesStage(ctx: Ctx, insts: Fetch<Option<seq<Json>>>): Stage {
    if !ShouldListInstances(ctx) then Some([])
    else
      match insts
      case Rejected => None
      case Returned(v) => if v.Some? then Some([SetInstances(v.value)]) else Some([])
  }

  /** The dispatches of one pass, in order, and whether the pass ran to its end. */
  datatype Pass = Pass(actions: seq<Action>, completed: bool)

  function Then(done: seq<Action>, next: Stage): Pass {
    if next.Some? then Pass(done + next.value, true) else Pass(done, false)
  }

  /** One pass of `hubAPIFetches`: the four stages in order, each guarded by `ctx`; a stage
      that throws ends the pass. */
  function HubApiFetches(ctx: Ctx, nowMs: int, decode: JwtDecoder,
                               pt: Fetch<Option<string>>, dp: Fetch<(Option<string>, Option<string>)>,
                               autos: Fetch<Option<seq<Json>>>, insts: Fetch<Option<seq<Json>>>): (r: Pass)
    ensures var s1, s2, s3, s4 := PublicTokenStage(ctx, nowMs, decode, pt), DefaultPartiesStage(ctx, dp),
                                  AutomationsStage(ctx, autos), InstancesStage(ctx, insts);
            && (r.completed <==> s1.Some? && s2.Some? && s3.Some? && s4.Some?)
            && (r.completed ==> r.actions == s1.value + s2.value + s3.value + s4.value)
            && (s1.None? ==> r.actions == [])
            && (s1.Some? && s2.None? ==> r.actions == s1.value)
            && (s1.Some? && s2.Some? && s3.None? ==> r.actions == s1.value + s2.value)
            && (s1.Some? && s2.Some? && s3.Some? && s4.None? ==> r.actions == s1.value + s2.value + s3.value)
  {
    var p1 := Then([], PublicTokenStage(ctx, nowMs, decode, pt));
    if !p1.completed then p1
    else
      var p2 := Then(p1.actions, DefaultPartiesStage(ctx, dp));
      if !p2.completed then p2
      else
        var p3 := Then(p2.actions, AutomationsStage(ctx, autos));
        if !p3.completed then p3
        else Then(p3.actions, InstancesStage(ctx, insts))
  }

  predicate NoneFor(actions: seq<Action>, f: Field) {
    forall i :: 0 <= i < |actions| ==> FieldOf(actions[i]) != f
  }

  lemma NoneForConcat(a: seq<Action>, b: seq<Action>, f: Field)
    requires NoneFor(a, f) && NoneFor(b, f)
    ensures NoneFor(a + b, f)
  {
    forall i | 0 <= i < |a + b| ensures FieldOf((a + b)[i]) != f {
      if i >= |a| { assert (a + b)[i] == b[i - |a|]; }
    }
  }

  /** A field that none of the four stages dispatches, given `ctx`, is not dispatched by the
      pass. */
  lemma PassAvoids(ctx: Ctx, nowMs: int, decode: JwtDecoder,
                         pt: Fetch<Option<string>>, dp: Fetch<(Option<string>, Option<string>)>,
                         autos: Fetch<Option<seq<Json>>>, insts: Fetch<Option<seq<Json>>>, f: Field)
    requires var s := PublicTokenStage(ctx, nowMs, decode, pt); s.Some? ==> NoneFor(s.value, f)
    requires var s := DefaultPartiesStage(ctx, dp); s.Some? ==> NoneFor(s.value, f)
    requires var s := AutomationsStage(ctx, autos); s.Some? ==> NoneFor(s.value, f)
    requires var s := InstancesStage(ctx, insts); s.Some? ==> NoneFor(s.value, f)
    ensures NoneFor(HubApiFetches(ctx, nowMs, decode, pt, dp, autos, insts).actions, f)
  {
    var s1 := PublicTokenStage(ctx, nowMs, decode, pt);
    var a1: seq<Action> := if s1.Some? then s1.value else [];
    assert [] + a1 == a1;
    if s1.Some? {
      var s2 := DefaultPartiesStage(ctx, dp);
      if s2.Some? {
        NoneForConcat(a1, s2.value, f);
        var s3 := AutomationsStage(ctx, autos);
        if s3.Some? {
          NoneForConcat(a1 + s2.value, s3.value, f);
          var s4 := InstancesStage(ctx, insts);
          if s4.Some? {
            NoneForConcat(a1 + s2.value + s3.value, s4.value, f);
          }
        }
      }
    }
  }

  /** A pass never sets the party token, so applying it leaves the party token as it was. */
  lemma PassKeepsPartyToken(ctx: Ctx, nowMs: int, decode: JwtDecoder,
                                  pt: Fetch<Option<string>>, dp: Fetch<(Option<string>, Option<string>)>,
                                  autos: Fetch<Option<seq<Json>>>, insts: Fetch<Option<seq<Json>>>)
    ensures ApplyAll(ctx, HubApiFetches(ctx, nowMs, decode, pt, dp, autos, insts).actions).partyToken == ctx.partyToken
  {
    PassAvoids(ctx, nowMs, decode, pt, dp, autos, insts, PartyTokenField);
    ApplyAllKeeps(ctx, HubApiFetches(ctx, nowMs, decode, pt, dp, autos, insts).actions, PartyTokenField);
  }

  /** A public token that is present and not expired is not fetched again. */
  lemma LivePublicTokenKept(ctx: Ctx, nowMs: int, decode: JwtDecoder,
                                  pt: Fetch<Option<string>>, dp: Fetch<(Option<string>, Option<string>)>,
                                  autos: Fetch<Option<seq<Json>>>, insts: Fetch<Option<seq<Json>>>)
    requires ctx.publicToken.Some? && !ctx.publicToken.value.IsExpired(nowMs)
    ensures PublicTokenStage(ctx, nowMs, decode, pt) == Some([])
    ensures ApplyAll(ctx, HubApiFetches(ctx, nowMs, decode, pt, dp, autos, insts).actions).publicToken == ctx.publicToken
  {
    PassAvoids(ctx, nowMs, decode, pt, dp, autos, insts, PublicTokenField);
    ApplyAllKeeps(ctx, HubApiFetches(ctx, nowMs, decode, pt, dp, autos, insts).actions, PublicTokenField);
  }

  /** A missing or expired public token is replaced by a fetched one that constructs. */
  lemma StalePublicTokenReplaced(ctx: Ctx, nowMs: int, decode: JwtDecoder, fetched: string)
    requires ShouldFetchPublicToken(ctx, nowMs)
    requires fetched != "" && MinimalToken.New(fetched, decode).Ok?
    ensures PublicTokenStage(ctx, nowMs, decode, Returned(Some(fetched)))
              == Some([SetPublicToken(MinimalToken.New(fetched, decode).value)])
  {
  }

  /** A known default party is not dispatched by any stage, so not by the pass. */
  lemma KnownStagesAvoid(ctx: Ctx, nowMs: int, decode: JwtDecoder,
                         pt: Fetch<Option<string>>, dp: Fetch<(Option<string>, Option<string>)>,
                         autos: Fetch<Option<seq<Json>>>, insts: Fetch<Option<seq<Json>>>, f: Field)
    requires (f == PublicPartyField && TruthyStr(ctx.publicParty)) || (f == UserAdminPartyField && TruthyStr(ctx.userAdminParty))
    ensures NoneFor(HubApiFetches(ctx, nowMs, decode, pt, dp, autos, insts).actions, f)
  {
    PassAvoids(ctx, nowMs, decode, pt, dp, autos, insts, f);
  }

  /** Only the missing default parties are dispatched: a known public party (or user-admin
      party) survives the pass unchanged. */
  lemma KnownDefaultPartiesKept(ctx: Ctx, nowMs: int, decode: JwtDecoder,
                                      pt: Fetch<Option<string>>, dp: Fetch<(Option<string>, Option<string>)>,
                                      autos: Fetch<Option<seq<Json>>>, insts: Fetch<Option<seq<Json>>>)
    ensures TruthyStr(ctx.publicParty) ==>
              ApplyAll(ctx, HubApiFetches(ctx, nowMs, decode, pt, dp, autos, insts).actions).publicParty == ctx.publicParty
    ensures TruthyStr(ctx.userAdminParty) ==>
              ApplyAll(ctx, HubApiFetches(ctx, nowMs, decode, pt, dp, autos, insts).actions).userAdminParty == ctx.userAdminParty
  {
    var acts := HubApiFetches(ctx, nowMs, decode, pt, dp, autos, insts).actions;
    if TruthyStr(ctx.publicParty) {
      KnownStagesAvoid(ctx, nowMs, decode, pt, dp, autos, insts, PublicPartyField);
      ApplyAllKeeps(ctx, acts, PublicPartyField);
    }
    if TruthyStr(ctx.userAdminParty) {
      KnownStagesAvoid(ctx, nowMs, decode, pt, dp, autos, insts, UserAdminPartyField);
      ApplyAllKeeps(ctx, acts, UserAdminPartyField);
    }
  }

  /** With one default party missing, only that one is dispatched, with the fetched value; with
      both known nothing is fetched. */
  lemma MissingDefaultPartyFilled(ctx: Ctx, p: Option<string>, ua: Option<string>)
    ensures TruthyStr(ctx.publicParty) && !TruthyStr(ctx.userAdminParty) ==>
              DefaultPartiesStage(ctx, Returned((p, ua))) == Some([SetUserAdminParty(ua)])
    ensures !TruthyStr(ctx.publicParty) && TruthyStr(ctx.userAdminParty) ==>
              DefaultPartiesStage(ctx, Returned((p, ua))) == Some([SetPublicParty(p)])
    ensures TruthyStr(ctx.publicParty) && TruthyStr(ctx.userAdminParty) ==>
              DefaultPartiesStage(ctx, Rejected) == Some([])
  {
    assert [SetPublicParty(p)] + [] == [SetPublicParty(p)];
    assert [] + [SetUserAdminParty(ua)] == [SetUserAdminParty(ua)];
  }

  /** Automations are listed only with a public token, instances only with a party token,
      both judged on the state the pass started from. */
  lemma ListingsNeedTokens(ctx: Ctx, nowMs: int, decode: JwtDecoder,
                                 pt: Fetch<Option<string>>, dp: Fetch<(Option<string>, Option<string>)>,
                                 autos: Fetch<Option<seq<Json>>>, insts: Fetch<Option<seq<Json>>>)
    ensures ctx.publicToken.None? ==> NoneFor(HubApiFetches(ctx, nowMs, decode, pt, dp, autos, insts).actions, AutomationsField)
    ensures ctx.partyToken.None? ==> NoneFor(HubApiFetches(ctx, nowMs, decode, pt, dp, autos, insts).actions, InstancesField)
  {
    if ctx.publicToken.None? {
      PassAvoids(ctx, nowMs, decode, pt, dp, autos, insts, AutomationsField);
    }
    if ctx.partyToken.None? {
      PassAvoids(ctx, nowMs, decode, pt, dp, autos, insts, InstancesField);
    }
  }

  /** A first pass from the initial state, with every fetch answering, dispatches the fetched
      public token and both default parties, and lists nothing: the guards see the state the
      pass started from. */
  lemma FirstPass(nowMs: int, decode: JwtDecoder, fetched: string, p: string, ua: string,
                        autos: Fetch<Option<seq<Json>>>, insts: Fetch<Option<seq<Json>>>)
    requires fetched != "" && MinimalToken.New(fetched, decode).Ok?
    ensures HubApiFetches(Initial(), nowMs, decode, Returned(Some(fetched)), Returned((Some(p), Some(ua))), autos, insts)
              == Pass([SetPublicToken(MinimalToken.New(fetched, decode).value), SetPublicParty(Some(p)), SetUserAdminParty(Some(ua))], true)
  {
  }
}
