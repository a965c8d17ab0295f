/** The environment helpers of the library: which kind of host the app is served from, the
    URLs of the hub's data API derived from the hostname, and the cookie lookup. The ambient
    `window.location` and `document.cookie` are parameters. */
module HubEnv {
  import opened JsValues
  import opened Text

  /** The three kinds of host, checked in this order: legacy first, then app, else neither. */
  datatype DomainType = AppDomain | LegacyDomain | NonHubDomain

  /** The parts of `window.location` the helpers read. */
  datatype Location = Location(hostname: string, origin: string)

  predicate IsLegacyHost(hn: string) {
    Contains(hn, "projectdabl") && Contains(hn, ".com")
  }

  predicate IsAppHost(hn: string) {
    Contains(hn, "daml") && Contains(hn, ".app")
  }

  /** `detectAppDomainType`: ordered substring tests on the hostname. */
  function DetectAppDomainType(hn: string): (d: DomainType)
    ensures d == LegacyDomain <==> IsLegacyHost(hn)
    ensures d == AppDomain <==> !IsLegacyHost(hn) && IsAppHost(hn)
    ensures d == NonHubDomain <==> !IsLegacyHost(hn) && !IsAppHost(hn)
  {
    if IsLegacyHost(hn) then LegacyDomain
    else if IsAppHost(hn) then AppDomain
    else NonHubDomain
  }

  /** `isRunningOnHub`. */
  function IsRunningOnHub(hn: string): (r: bool)
    ensures r <==> IsLegacyHost(hn) || IsAppHost(hn)
  {
    DetectAppDomainType(hn) != NonHubDomain
  }

  /** Hub hostnames of both kinds; a hostname carrying both sets of markers is legacy. */
  lemma ClassifyHubHosts()
    ensures DetectAppDomainType("ledger123.projectdabl.com") == LegacyDomain
    ensures DetectAppDomainType("foo.daml.app") == AppDomain
    ensures DetectAppDomainType("projectdabl.com.daml.app") == LegacyDomain
  {
    assert OccursAt("ledger123.projectdabl.com", "projectdabl", 10);
    assert OccursAt("ledger123.projectdabl.com", ".com", 21);
    assert OccursAt("foo.daml.app", "daml", 4);
    assert OccursAt("foo.daml.app", ".app", 8);
    assert !Contains("foo.daml.app", "projectdabl") by {
      assert "foo.daml.app"[0..11][0] != "projectdabl"[0];
      assert "foo.daml.app"[1..12][0] != "projectdabl"[0];
    }
    assert OccursAt("projectdabl.com.daml.app", "projectdabl", 0);
    assert OccursAt("projectdabl.com.daml.app", ".com", 11);
  }

  /** There is no separate case for a local development host: it is off the hub, like any
      other hostname without the markers. */
  lemma ClassifyOffHubHosts()
    ensures DetectAppDomainType("localhost") == NonHubDomain
    ensures DetectAppDomainType("example.org") == NonHubDomain
  {
    assert !Contains("localhost", "projectdabl");
    assert !Contains("localhost", "daml") by {
      forall i | 0 <= i <= 5 ensures !OccursAt("localhost", "daml", i) {
        assert "localhost"[i] != 'd';
      }
    }
    assert !Contains("example.org", "projectdabl") by {
      assert "example.org"[0..11][0] != "projectdabl"[0];
    }
    assert !Contains("example.org", "daml") by {
      forall i | 0 <= i <= 7 ensures !OccursAt("example.org", "daml", i) {
        assert "example.org"[i] != 'd';
      }
    }
  }

  /** The hostname's first label, `hostname.split('.')[0]`. */
  function FirstLabel(hn: string): string {
    FirstPart(hn, '.')
  }

  /** The labels after the first, `hostname.split('.').slice(1).join('.')`. */
  function RestLabels(hn: string): string {
    AfterFirst(hn, '.')
  }

  /** `hubBaseURL`. */
  function HubBaseUrl(loc: Location): (r: Option<string>)
    ensures r.Some? <==> IsRunningOnHub(loc.hostname)
    ensures !IsLegacyHost(loc.hostname) && IsAppHost(loc.hostname) ==> r == Some(loc.origin + "/")
  {
    match DetectAppDomainType(loc.hostname)
    case AppDomain => Some(loc.origin + "/")
    case LegacyDomain =>
      Some("https://api." + RestLabels(loc.hostname) + "/data/" + FirstLabel(loc.hostname) + "/")
    case NonHubDomain => None
  }

  /** `hubWsURL`. */
  function HubWsUrl(loc: Location): (r: Option<string>)
    ensures r.Some? <==> IsRunningOnHub(loc.hostname)
    ensures !IsLegacyHost(loc.hostname) && IsAppHost(loc.hostname) ==> r == Some("wss://" + loc.hostname + "/")
  {
    match DetectAppDomainType(loc.hostname)
    case AppDomain => Some("wss://" + loc.hostname + "/")
    case LegacyDomain =>
      Some("wss://api." + RestLabels(loc.hostname) + "/data/" + FirstLabel(loc.hostname) + "/")
    case NonHubDomain => None
  }

  datatype HubEnvironment = HubEnvironment(
    hostname: string,
    baseURL: Option<string>,
    wsURL: Option<string>,
    ledgerId: Option<string>)

  /** `damlHubEnvironment`. */
  function DamlHubEnvironment(loc: Location): (r: HubEnvironment)
    ensures r.ledgerId.Some? <==> IsLegacyHost(loc.hostname)
    ensures r.baseURL.Some? <==> IsRunningOnHub(loc.hostname)
    ensures r.wsURL.Some? <==> IsRunningOnHub(loc.hostname)
    ensures '.' in loc.hostname ==> loc.hostname == FirstLabel(loc.hostname) + "." + r.hostname
    ensures '.' !in loc.hostname ==> r.hostname == ""
  {
    FirstPartAndRest(loc.hostname, '.');
    HubEnvironment(
      RestLabels(loc.hostname),
      HubBaseUrl(loc),
      HubWsUrl(loc),
      if DetectAppDomainType(loc.hostname) == LegacyDomain then Some(FirstLabel(loc.hostname)) else None)
  }

  /** On a legacy host `<ledger>.<rest>` the environment names the ledger and both URLs point at
      `api.<rest>/data/<ledger>/`; the environment's hostname is `<rest>`. */
  lemma LegacyEnvironment(loc: Location, ledger: string, rest: string)
    requires loc.hostname == ledger + "." + rest && '.' !in ledger
    requires IsLegacyHost(loc.hostname)
    ensures DamlHubEnvironment(loc) == HubEnvironment(
              rest,
              Some("https://api." + rest + "/data/" + ledger + "/"),
              Some("wss://api." + rest + "/data/" + ledger + "/"),
              Some(ledger))
  {
    SplitAtFirst(ledger, rest, '.');
    JoinSplit(rest, '.');
  }

  /** On every kind of host, the environment's hostname is what follows the first label and
      its dot. */
  lemma EnvironmentHostname(loc: Location, first: string, rest: string)
    requires loc.hostname == first + "." + rest && '.' !in first
    ensures DamlHubEnvironment(loc).hostname == rest
  {
    SplitAtFirst(first, rest, '.');
    JoinSplit(rest, '.');
  }

  /** On an app host the base URL is the page's origin, the WebSocket URL is the host itself,
      and no ledger is named. */
  lemma AppEnvironment(loc: Location)
    requires !IsLegacyHost(loc.hostname) && IsAppHost(loc.hostname)
    ensures DamlHubEnvironment(loc).baseURL == Some(loc.origin + "/")
    ensures DamlHubEnvironment(loc).wsURL == Some("wss://" + loc.hostname + "/")
    ensures DamlHubEnvironment(loc).ledgerId == None
  {
  }

  /** Off the hub there is neither a base URL, a WebSocket URL nor a ledger. */
  lemma NonHubEnvironment(loc: Location)
    requires !IsRunningOnHub(loc.hostname)
    ensures DamlHubEnvironment(loc).baseURL == None
    ensures DamlHubEnvironment(loc).wsURL == None
    ensures DamlHubEnvironment(loc).ledgerId == None
  {
  }

  // ---------------------------------------------------------------------------------------
  // getCookieValue: document.cookie.match('(^|;)\\s*' + name + '\\s*=\\s*([^;]+)')?.pop()

  /** Names made of word characters, which the regular expression matches literally. */
  predicate IsPlainName(name: string) {
    forall i :: 0 <= i < |name| ==> IsWordChar(name[i])
  }

  predicate IsWordChar(c: char) {
    ('a' <= c <= 'z') || ('A' <= c <= 'Z') || ('0' <= c <= '9') || c == '_'
  }

  /** The end of the white-space run starting at `i` (a greedy `\s*`). */
  function SkipSpaces(s: string, i: nat): (j: nat)
    requires i <= |s|
    ensures i <= j <= |s|
    ensures forall k :: i <= k < j ==> IsJsSpace(s[k])
    ensures j < |s| ==> !IsJsSpace(s[j])
    decreases |s| - i
  {
    if i < |s| && IsJsSpace(s[i]) then SkipSpaces(s, i + 1) else i
  }

  /** The end of the run of characters other than `;` starting at `i` (a greedy `[^;]*`). */
  function ValueEnd(s: string, i: nat): (j: nat)
    requires i <= |s|
    ensures i <= j <= |s|
    ensures forall k :: i <= k < j ==> s[k] != ';'
    ensures j < |s| ==> s[j] == ';'
    decreases |s| - i
  {
    if i < |s| && s[i] != ';' then ValueEnd(s, i + 1) else i
  }

  /** The regular expression's tail `\s*name\s*=\s*([^;]+)` tried at index `q`: the captured
      value, or None. When only white space follows `=`, the engine gives back the last white
      space character to `[^;]+`, and that one character is the value. */
  function MatchFrom(cookie: string, name: string, q: nat): (r: Option<string>)
    requires q <= |cookie|
    ensures r.Some? ==> r.value != [] && ';' !in r.value
  {
    var a := SkipSpaces(cookie, q);
    if !(a + |name| <= |cookie| && cookie[a..a + |name|] == name) then None
    else
      var b := SkipSpaces(cookie, a + |name|);
      if !(b < |cookie| && cookie[b] == '=') then None
      else
        var d := SkipSpaces(cookie, b + 1);
        var e := ValueEnd(cookie, d);
        if d < e then Some(cookie[d..e])
        else if b + 1 < d then Some([cookie[d - 1]])
        else None
  }

  /** Where the group `(^|;)` lets a match begin: at the very start, or after a `;`. */
  predicate Boundary(cookie: string, q: int) {
    q == 0 || (0 < q <= |cookie| && cookie[q - 1] == ';')
  }

  /** The first match at a boundary `q` or later. Trying boundaries in increasing order is the
      regular expression engine's order: at start 0 it tries `^` (boundary 0) before `;`
      (boundary 1), and each later start `p` contributes boundary `p + 1`. */
  function SearchFrom(cookie: string, name: string, q: nat): (r: Option<string>)
    requires q <= |cookie| + 1
    ensures r.Some? ==> r.value != [] && ';' !in r.value
    decreases |cookie| + 1 - q
  {
    if q > |cookie| then None
    else if Boundary(cookie, q) && MatchFrom(cookie, name, q).Some? then MatchFrom(cookie, name, q)
    else SearchFrom(cookie, name, q + 1)
  }

  /** The search finds nothing exactly when no boundary from `q` on matches. */
  lemma {:induction false} SearchFromFinds(cookie: string, name: string, q: nat)
    requires q <= |cookie| + 1
    ensures SearchFrom(cookie, name, q).None? <==>
              forall q' :: q <= q' <= |cookie| && Boundary(cookie, q') ==> MatchFrom(cookie, name, q').None?
    decreases |cookie| + 1 - q
  {
    if q <= |cookie| && !(Boundary(cookie, q) && MatchFrom(cookie, name, q).Some?) {
      SearchFromFinds(cookie, name, q + 1);
      if SearchFrom(cookie, name, q + 1).None? {
        forall q' | q <= q' <= |cookie| && Boundary(cookie, q') ensures MatchFrom(cookie, name, q').None? {
          if q' > q {
            assert q + 1 <= q' <= |cookie|;
          }
        }
      }
    }
  }

  /** What the search finds is the match at `p`, the leftmost boundary from `q` on that
      matches. */
  lemma {:induction false} SearchFromLeftmost(cookie: string, name: string, q: nat) returns (p: nat)
    requires q <= |cookie| + 1
    requires SearchFrom(cookie, name, q).Some?
    ensures q <= p <= |cookie| && Boundary(cookie, p) && MatchFrom(cookie, name, p) == SearchFrom(cookie, name, q)
    ensures forall q' :: q <= q' < p && Boundary(cookie, q') ==> MatchFrom(cookie, name, q').None?
    decreases |cookie| + 1 - q
  {
    if Boundary(cookie, q) && MatchFrom(cookie, name, q).Some? {
      p := q;
    } else {
      p := SearchFromLeftmost(cookie, name, q + 1);
      var here := MatchFrom(cookie, name, q);
      assert Boundary(cookie, q) ==> here.None?;
      forall q' | q <= q' < p && Boundary(cookie, q') ensures MatchFrom(cookie, name, q').None? {
        if q' == q {
          assert MatchFrom(cookie, name, q') == here;
        } else {
          assert q + 1 <= q' < p;
        }
      }
    }
  }

  /** `getCookieValue(name)` with `document.cookie` as a parameter: the value of the first
      `name=value` pair that starts the string or follows a `;`. */
  function GetCookieValue(cookie: string, name: string): (r: Option<string>)
    requires IsPlainName(name)
    ensures r.Some? ==> r.value != [] && ';' !in r.value
    ensures r.None? <==> forall q :: Boundary(cookie, q) ==> MatchFrom(cookie, name, q).None?
    ensures r.Some? ==> exists q :: Boundary(cookie, q) && MatchFrom(cookie, name, q) == r
                         && forall q' :: 0 <= q' < q && Boundary(cookie, q') ==> MatchFrom(cookie, name, q').None?
  {
    var r := SearchFrom(cookie, name, 0);
    SearchFromFinds(cookie, name, 0);
    assert r.Some? ==> exists q :: Boundary(cookie, q) && MatchFrom(cookie, name, q) == r
                                   && forall q' :: 0 <= q' < q && Boundary(cookie, q') ==> MatchFrom(cookie, name, q').None? by {
      if r.Some? {
        var p := SearchFromLeftmost(cookie, name, 0);
        assert Boundary(cookie, p) && MatchFrom(cookie, name, p) == r;
      }
    }
    assert r.None? ==> forall q :: Boundary(cookie, q) ==> MatchFrom(cookie, name, q).None? by {
      if r.None? {
        forall q | Boundary(cookie, q) ensures MatchFrom(cookie, name, q).None? {
          assert 0 <= q <= |cookie|;
        }
      }
    }
    r
  }

  /** A cookie string that begins with `name=value` yields that value, whatever follows the
      next `;`. */
  lemma CookieAtStart(name: string, value: string, rest: string)
    requires IsPlainName(name)
    requires value != [] && ';' !in value && !IsJsSpace(value[0])
    ensures GetCookieValue(name + "=" + value + ";" + rest, name) == Some(value)
  {
    var cookie := name + "=" + value + ";" + rest;
    MatchAtStart(name, value, rest);
    assert Boundary(cookie, 0);
  }

  lemma MatchAtStart(name: string, value: string, rest: string)
    requires IsPlainName(name)
    requires value != [] && ';' !in value && !IsJsSpace(value[0])
    ensures MatchFrom(name + "=" + value + ";" + rest, name, 0) == Some(value)
  {
    var cookie := name + "=" + value + ";" + rest;
    var n := |name|;
    var d := n + 1;
    var e := d + |value|;
    assert cookie[n] == '=';
    assert !IsJsSpace(cookie[0]) by {
      if n > 0 { assert cookie[0] == name[0] && IsWordChar(name[0]); }
    }
    assert SkipSpaces(cookie, 0) == 0;
    assert cookie[..n] == name;
    assert SkipSpaces(cookie, n) == n;
    assert cookie[d] == value[0];
    assert SkipSpaces(cookie, d) == d;
    assert cookie[d..e] == value;
    assert cookie[e] == ';';
    forall k | d <= k < e ensures cookie[k] != ';' {
      assert cookie[k] == value[k - d];
    }
    ValueEndStops(cookie, d, e);
  }

  lemma {:induction false} ValueEndStops(s: string, i: nat, j: nat)
    requires i <= j < |s| && s[j] == ';'
    requires forall k :: i <= k < j ==> s[k] != ';'
    ensures ValueEnd(s, i) == j
    decreases j - i
  {
    if i < j { ValueEndStops(s, i + 1, j); }
  }
}
