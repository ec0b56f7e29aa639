/** The CSP interceptor (safehttp/plugins/csp/csp.go) as code that runs in a flight. */
module CspPlugin {
  import opened Common
  import opened Canonical
  import opened HeaderModel
  import opened FlightModel
  import opened CspPolicies
  import Object = FlightObject

  const CSP := "Content-Security-Policy"
  const CSP_REPORT_ONLY := "Content-Security-Policy-Report-Only"
  const NONCE_FUNC := "CSPNonce"

  /** cfg is the configuration matched for one handler; entropy is what generating a nonce
      would return, None when the random source fails. */
  datatype CspInterceptor = CspInterceptor(
    policy: Policy, reportOnly: bool, cfg: InterceptorConfig, entropy: Option<string>)

  /** The enforced and the report-only policy, each empty when there is none. */
  function ProcessOverride(it: CspInterceptor, nonce: string): (string, string) {
    Route(it, Text(it.policy, nonce, it.cfg))
  }

  /** The same for the serialized policy p. */
  function Route(it: CspInterceptor, p: string): (string, string) {
    var (disabled, reportOnly) :=
      if it.policy.Match(it.cfg) then it.policy.Overridden(it.cfg) else (false, false);
    if disabled then ("", "")
    else if reportOnly || it.reportOnly then ("", p)
    else (p, "")
  }

  /** Where an interceptor's policy goes. */
  datatype Fate = Enforced | ReportedOnly | Dropped

  /** A matching override decides: the strict and trusted types ones, and disabling framing,
      make the policy report-only or, when reports are skipped as well, drop it; a framing
      allow list makes it report-only if it says so. Otherwise the interceptor decides. */
  function FateOf(it: CspInterceptor): Fate {
    var own := if it.reportOnly then ReportedOnly else Enforced;
    match (it.policy, it.cfg)
    case (StrictPolicy(_, _, _, _, _), DisableStrict(skip)) => if skip then Dropped else ReportedOnly
    case (TrustedTypesPolicy(_), DisableTrustedTypes(skip)) => if skip then Dropped else ReportedOnly
    case (FramingPolicy(_), FramingDisable(skip)) => if skip then Dropped else ReportedOnly
    case (FramingPolicy(_), FramingAllowList(true, _)) => ReportedOnly
    case _ => own
  }

  lemma RouteIsFate(it: CspInterceptor, p: string)
    ensures
      Route(it, p) ==
      match FateOf(it)
      case Enforced => (p, "")
      case ReportedOnly => ("", p)
      case Dropped => ("", "")
  {
  }

  /** Which of the two headers a policy is for, one override after the other. */
  lemma RouteThus(it: CspInterceptor, p: string)
    ensures
      var strict, types, framing := it.policy.StrictPolicy?, it.policy.TrustedTypesPolicy?, it.policy.FramingPolicy?;
      var disables := (strict && it.cfg.DisableStrict?) || (types && it.cfg.DisableTrustedTypes?) || (framing && it.cfg.FramingDisable?);
      var allows := framing && it.cfg.FramingAllowList?;
      && (disables && it.cfg.skipReports ==> Route(it, p) == ("", ""))
      && (disables && !it.cfg.skipReports ==> Route(it, p) == ("", p))
      && (allows && it.cfg.reportOnly ==> Route(it, p) == ("", p))
      && (!disables && !(allows && it.cfg.reportOnly) && it.reportOnly ==> Route(it, p) == ("", p))
      && (!disables && !(allows && it.cfg.reportOnly) && !it.reportOnly ==> Route(it, p) == (p, ""))
  {
  }

  /** A configuration that does not match leaves the choice to the interceptor. */
  lemma UnmatchedRoute(it: CspInterceptor, nonce: string)
    requires !it.policy.Match(it.cfg)
    ensures
      var text := Text(it.policy, nonce, it.cfg);
      ProcessOverride(it, nonce) == if it.reportOnly then ("", text) else (text, "")
  {
  }

  function NonceIn(it: CspInterceptor, st: Flight): Option<string> {
    if CspNonceKey in st.values then Some(st.values[CspNonceKey]) else it.entropy
  }

  function NonceActions(it: CspInterceptor, st: Flight): seq<Action> {
    if CspNonceKey in st.values then []
    else if it.entropy.None? then [Panic]
    else [Put(CspNonceKey, it.entropy.value)]
  }

  function ClaimActions(st: Flight): seq<Action> {
    if CspHeadersKey in st.values then []
    else [HeaderAction(ClaimOp(CSP)), HeaderAction(ClaimOp(CSP_REPORT_ONLY)), Put(CspHeadersKey, "claimed")]
  }

  /** Appends one policy to the values a claimed header has. */
  function AppendActions(st: Flight, key: string, policy: string): seq<Action> {
    if policy == "" then []
    else [HeaderAction(SetterOp(key, Some(st.hdr.Values(key) + [policy])))]
  }

  function PolicyActions(it: CspInterceptor, st: Flight): seq<Action> {
    match NonceIn(it, st)
    case None => []
    case Some(nonce) =>
      var (enf, ro) := ProcessOverride(it, nonce);
      AppendActions(st, CSP, enf) + AppendActions(st, CSP_REPORT_ONLY, ro)
  }

  function BeforeActions(it: CspInterceptor, st: Flight): seq<Action> {
    NonceActions(it, st) + (ClaimActions(st) + PolicyActions(it, st))
  }

  function CommitActions(st: Flight, resp: Response): seq<Action> {
    if !resp.TemplateResponse? then []
    else if CspNonceKey !in st.values then [Panic]
    else [SetFunc(NONCE_FUNC, st.values[CspNonceKey])]
  }

  function AsInterceptor(it: CspInterceptor): Interceptor {
    Interceptor((st: Flight) => BeforeActions(it, st), (st: Flight, resp: Response) => CommitActions(st, resp))
  }

  lemma EnforcedNameIsToken()
    ensures IsToken(CSP)
  {
  }

  lemma EnforcedNameIsSpelled()
    ensures Spelled(CSP, true)
  {
  }

  lemma ReportNameIsToken()
    ensures IsToken(CSP_REPORT_ONLY)
  {
  }

  lemma ReportNameIsSpelled()
    ensures Spelled(CSP_REPORT_ONLY, true)
  {
  }

  lemma CspNamesAreCanonical()
    ensures CanonicalKey(CSP) == CSP && CanonicalKey(CSP_REPORT_ONLY) == CSP_REPORT_ONLY
  {
    EnforcedNameIsToken();
    EnforcedNameIsSpelled();
    SpelledIsFixed(CSP, true);
    ReportNameIsToken();
    ReportNameIsSpelled();
    SpelledIsFixed(CSP_REPORT_ONLY, true);
  }

  lemma CspNamesDiffer()
    ensures CSP != CSP_REPORT_ONLY && CSP != SET_COOKIE && CSP_REPORT_ONLY != SET_COOKIE
  {
    assert |CSP| == 23 && |CSP_REPORT_ONLY| == 35 && |SET_COOKIE| == 10;
  }

  // ----- The statements of Before and Commit -----

  method Nonce(it: CspInterceptor, f: Object.Flight) returns (outcome: Outcome, nonce: string)
    requires f.Valid()
    modifies f
    ensures f.Valid() && Run(f.State(), outcome) == RunActions(f.cfg, NonceActions(it, old(f.State())), old(f.State()))
    ensures outcome.Ok? ==> NonceIn(it, old(f.State())) == Some(nonce)
    ensures outcome.Panicked? <==> CspNonceKey !in old(f.values) && it.entropy == None
    ensures outcome.Ok? ==>
              && nonce == (if CspNonceKey in old(f.values) then old(f.values)[CspNonceKey] else it.entropy.value)
              && f.values == old(f.values)[CspNonceKey := nonce]
  {
    outcome, nonce := Ok, "";
    if CspNonceKey in f.values {
      nonce := f.values[CspNonceKey];
    } else if it.entropy.None? {
      outcome := Panicked;
    } else {
      nonce := it.entropy.value;
      f.values := f.values[CspNonceKey := nonce];
      assert [Put(CspNonceKey, nonce)][1..] == [];
    }
  }

  lemma RunClaims(cfg: Config, st: Flight)
    requires CspHeadersKey !in st.values
    ensures
      var (h1, first) := Apply(st.hdr, ClaimOp(CSP));
      var (h2, second) := Apply(h1, ClaimOp(CSP_REPORT_ONLY));
      RunActions(cfg, ClaimActions(st), st) ==
      if first.Panicked? then Run(st.(hdr := h1), Panicked)
      else if second.Panicked? then Run(st.(hdr := h2), Panicked)
      else Run(st.(hdr := h2, values := st.values[CspHeadersKey := "claimed"]), Ok)
  {
    var a, b, c := HeaderAction(ClaimOp(CSP)), HeaderAction(ClaimOp(CSP_REPORT_ONLY)), Put(CspHeadersKey, "claimed");
    RunCons(cfg, a, [b, c], st);
    assert [a] + [b, c] == ClaimActions(st);
    var r1 := RunAction(cfg, a, st);
    RunCons(cfg, b, [c], r1.flight);
    assert [b] + [c] == [b, c];
    var r2 := RunAction(cfg, b, r1.flight);
    RunCons(cfg, c, [], r2.flight);
    assert [c] + [] == [c];
  }

  lemma RunCons(cfg: Config, a: Action, rest: seq<Action>, st: Flight)
    ensures
      var r := RunAction(cfg, a, st);
      RunActions(cfg, [a] + rest, st) == if r.outcome.Ok? then RunActions(cfg, rest, r.flight) else r
  {
    assert ([a] + rest)[1..] == rest;
  }

  method ClaimedHeaders(f: Object.Flight) returns (outcome: Outcome)
    requires f.Valid()
    modifies f, f.header
    ensures f.Valid() && Run(f.State(), outcome) == RunActions(f.cfg, ClaimActions(old(f.State())), old(f.State()))
  {
    outcome := Ok;
    if CspHeadersKey !in f.values {
      RunClaims(f.cfg, f.State());
      var key;
      outcome, key := f.header.Claim(CSP);
      if outcome.Panicked? { return; }
      outcome, key := f.header.Claim(CSP_REPORT_ONLY);
      if outcome.Panicked? { return; }
      f.values := f.values[CspHeadersKey := "claimed"];
    }
  }

  /** The flight with one more policy in a claimed header. */
  function AppendTo(st: Flight, key: string, policy: string): Flight {
    if policy == "" then st
    else st.(hdr := st.hdr.(wrapped := st.hdr.wrapped[key := st.hdr.Values(key) + [policy]]))
  }

  method AppendPolicy(f: Object.Flight, key: string, policy: string)
    requires f.Valid() && key in f.header.claimed && CanonicalKey(key) == key
    modifies f.raw
    ensures f.Valid() && f.State() == AppendTo(old(f.State()), key, policy)
  {
    if policy != "" {
      var prev := f.header.Model().Values(CanonicalKey(key));
      f.header.CallSetter(key, Some(prev + [policy]));
    }
  }

  lemma {:induction false} RunInTurn(cfg: Config, a: seq<Action>, b: seq<Action>, st: Flight)
    ensures
      var r := RunActions(cfg, a, st);
      RunActions(cfg, a + b, st) == if r.outcome.Ok? then RunActions(cfg, b, r.flight) else r
    decreases a
  {
    if a == [] {
      assert a + b == b;
    } else {
      assert (a + b)[1..] == a[1..] + b;
      RunInTurn(cfg, a[1..], b, RunAction(cfg, a[0], st).flight);
    }
  }

  method Override(it: CspInterceptor, nonce: string) returns (enf: string, ro: string)
    ensures (enf, ro) == ProcessOverride(it, nonce)
    ensures
      var text := Text(it.policy, nonce, it.cfg);
      match FateOf(it)
      case Enforced => enf == text && ro == ""
      case ReportedOnly => enf == "" && ro == text
      case Dropped => enf == "" && ro == ""
  {
    RouteIsFate(it, Text(it.policy, nonce, it.cfg));
    var disabled, reportOnly := false, false;
    if it.policy.Match(it.cfg) {
      disabled, reportOnly := it.policy.Overridden(it.cfg).0, it.policy.Overridden(it.cfg).1;
    }
    if disabled {
      return "", "";
    }
    var p := Serialize(it.policy, nonce, it.cfg);
    if reportOnly || it.reportOnly {
      return "", p;
    }
    return p, "";
  }

  /** The setters stored under the headers key are those of two claimed headers. */
  ghost predicate SettersStored(st: Flight) {
    CspHeadersKey in st.values ==> CSP in st.hdr.claimed && CSP_REPORT_ONLY in st.hdr.claimed
  }

  lemma NonceResult(cfg: Config, it: CspInterceptor, st: Flight)
    ensures
      RunActions(cfg, NonceActions(it, st), st) ==
      match NonceIn(it, st)
      case None => Run(st, Panicked)
      case Some(nonce) => Run(st.(values := st.values[CspNonceKey := nonce]), Ok)
  {
    if CspNonceKey in st.values {
      assert st.values[CspNonceKey := st.values[CspNonceKey]] == st.values;
    } else if it.entropy.Some? {
      RunCons(cfg, Put(CspNonceKey, it.entropy.value), [], st);
      assert NonceActions(it, st) == [Put(CspNonceKey, it.entropy.value)] + [];
    }
  }

  lemma AppendResult(cfg: Config, st: Flight, key: string, policy: string)
    requires key in st.hdr.claimed
    ensures RunActions(cfg, AppendActions(st, key, policy), st) == Run(AppendTo(st, key, policy), Ok)
  {
    if policy != "" {
      var a := HeaderAction(SetterOp(key, Some(st.hdr.Values(key) + [policy])));
      RunCons(cfg, a, [], st);
      assert AppendActions(st, key, policy) == [a] + [];
    }
  }

  lemma PoliciesResult(cfg: Config, it: CspInterceptor, nonce: string, from: Flight, st: Flight)
    requires NonceIn(it, from) == Some(nonce) && from.hdr.wrapped == st.hdr.wrapped
    requires CSP in st.hdr.claimed && CSP_REPORT_ONLY in st.hdr.claimed
    ensures
      var (enf, ro) := ProcessOverride(it, nonce);
      RunActions(cfg, PolicyActions(it, from), st) == Run(AppendTo(AppendTo(st, CSP, enf), CSP_REPORT_ONLY, ro), Ok)
  {
    var (enf, ro) := ProcessOverride(it, nonce);
    CspNamesDiffer();
    RunInTurn(cfg, AppendActions(st, CSP, enf), AppendActions(st, CSP_REPORT_ONLY, ro), st);
    AppendResult(cfg, st, CSP, enf);
    var st' := AppendTo(st, CSP, enf);
    assert AppendActions(st, CSP_REPORT_ONLY, ro) == AppendActions(st', CSP_REPORT_ONLY, ro);
    AppendResult(cfg, st', CSP_REPORT_ONLY, ro);
  }

  /** What the actions of one Before do: find or make the nonce, claim the headers the first
      time, append the enforced and the report-only policy. */
  lemma BeforeResult(cfg: Config, it: CspInterceptor, st: Flight)
    requires SettersStored(st)
    ensures
      var r := RunActions(cfg, BeforeActions(it, st), st);
      match NonceIn(it, st)
      case None => r == Run(st, Panicked)
      case Some(nonce) =>
        var st1 := st.(values := st.values[CspNonceKey := nonce]);
        var c := RunActions(cfg, ClaimActions(st1), st1);
        var (enf, ro) := ProcessOverride(it, nonce);
        if c.outcome.Panicked? then r == c
        else r == Run(AppendTo(AppendTo(c.flight, CSP, enf), CSP_REPORT_ONLY, ro), Ok)
  {
    RunInTurn(cfg, NonceActions(it, st), ClaimActions(st) + PolicyActions(it, st), st);
    NonceResult(cfg, it, st);
    if NonceIn(it, st).Some? {
      var nonce := NonceIn(it, st).value;
      var st1 := st.(values := st.values[CspNonceKey := nonce]);
      assert ClaimActions(st1) == ClaimActions(st);
      RunInTurn(cfg, ClaimActions(st), PolicyActions(it, st), st1);
      var c := RunActions(cfg, ClaimActions(st1), st1);
      ClaimsResult(cfg, st1);
      if c.outcome.Ok? { PoliciesResult(cfg, it, nonce, st, c.flight); }
    }
  }

  lemma ClaimsResult(cfg: Config, st: Flight)
    requires SettersStored(st)
    ensures
      var c := RunActions(cfg, ClaimActions(st), st);
      && c.flight.hdr.wrapped == st.hdr.wrapped && c.flight.log == st.log && c.flight.written == st.written
      && c.flight.funcs == st.funcs && c.flight.values[CspHeadersKey := ""] == st.values[CspHeadersKey := ""]
      && (c.outcome.Ok? ==> CspHeadersKey in c.flight.values && CSP in c.flight.hdr.claimed && CSP_REPORT_ONLY in c.flight.hdr.claimed)
      && (c.outcome.Ok? && CspHeadersKey !in st.values ==> CSP !in st.hdr.claimed && CSP_REPORT_ONLY !in st.hdr.claimed)
  {
    if CspHeadersKey !in st.values {
      RunClaims(cfg, st);
      CspNamesAreCanonical();
    }
  }

  method Before(it: CspInterceptor, f: Object.Flight) returns (outcome: Outcome)
    requires f.Valid() && SettersStored(f.State())
    modifies f, f.header, f.raw
    ensures f.Valid()
    ensures Run(f.State(), outcome) == RunActions(f.cfg, BeforeActions(it, old(f.State())), old(f.State()))
  {
    BeforeResult(f.cfg, it, f.State());
    NonceResult(f.cfg, it, f.State());
    var nonce;
    outcome, nonce := Nonce(it, f);
    if outcome.Panicked? { return; }
    var enf, ro := Override(it, nonce);
    ClaimsResult(f.cfg, f.State());
    outcome := ClaimedHeaders(f);
    if outcome.Panicked? { return; }
    CspNamesAreCanonical();
    AppendPolicy(f, CSP, enf);
    AppendPolicy(f, CSP_REPORT_ONLY, ro);
  }

  method Commit(f: Object.Flight, resp: Response) returns (outcome: Outcome)
    requires f.Valid()
    modifies f
    ensures f.Valid()
    ensures Run(f.State(), outcome) == RunActions(f.cfg, CommitActions(old(f.State()), resp), old(f.State()))
    ensures outcome.Panicked? <==> resp.TemplateResponse? && CspNonceKey !in old(f.values)
  {
    outcome := Ok;
    if resp.TemplateResponse? {
      if CspNonceKey !in f.values {
        return Panicked;
      }
      RunCons(f.cfg, SetFunc(NONCE_FUNC, f.values[CspNonceKey]), [], f.State());
      f.funcs := f.funcs[NONCE_FUNC := f.values[CspNonceKey]];
    }
  }
}
