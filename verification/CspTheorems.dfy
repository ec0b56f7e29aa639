/** Any list of CSP interceptors in one flight, interleaved with arbitrary other code. */
module CspTheorems {
  import opened Common
  import opened HeaderModel
  import opened FlightModel
  import opened FlightTheorems
  import opened FlightInvariants
  import opened CspPlugin
  import opened CspPolicies

  /** An installed interceptor: a CSP one with its configuration, or any other. */
  datatype Slot = CspSlot(it: CspInterceptor) | OtherSlot(other: Interceptor)

  function Installed(slots: seq<Slot>): seq<Interceptor> {
    seq(|slots|, i requires 0 <= i < |slots| =>
      if slots[i].CspSlot? then AsInterceptor(slots[i].it) else slots[i].other)
  }

  function Cfg(slots: seq<Slot>, handler: Flight -> seq<Action>, d: Dispatcher): Config {
    Config(Installed(slots), handler, d)
  }

  /** Other code cannot name the plugin's flight keys, because their Go types are not
      exported. Once the plugin has claimed its two headers (claimed), nobody else can hold
      their setters; before that, other code may have claimed them. */
  predicate Foreign(a: Action, claimed: bool) {
    && (a.Put? ==> a.key != CspNonceKey && a.key != CspHeadersKey)
    && (a.HeaderAction? && a.op.SetterOp? && claimed ==> a.op.key != CSP && a.op.key != CSP_REPORT_ONLY)
  }

  function IsForeign(claimed: bool): Action -> bool {
    a => Foreign(a, claimed)
  }

  predicate Claimed(st: Flight) {
    CspHeadersKey in st.values
  }

  ghost predicate ForeignCode(slots: seq<Slot>, handler: Flight -> seq<Action>) {
    && (forall st :: All(handler(st), IsForeign(Claimed(st))))
    && (forall i, st | 0 <= i < |slots| && slots[i].OtherSlot? ::
          All(slots[i].other.before(st), IsForeign(Claimed(st))))
    && (forall i, st, resp | 0 <= i < |slots| && slots[i].OtherSlot? ::
          All(slots[i].other.commit(st, resp), IsForeign(Claimed(st))))
  }

  lemma OtherBefore(slots: seq<Slot>, handler: Flight -> seq<Action>, k: nat, s: Flight)
    requires ForeignCode(slots, handler) && k < |slots| && slots[k].OtherSlot?
    ensures All(slots[k].other.before(Log(s, BeforeCalled(k))), IsForeign(Claimed(s)))
  {
    assert Claimed(Log(s, BeforeCalled(k))) == Claimed(s);
  }

  predicate HasCsp(slots: seq<Slot>, k: nat)
    requires k <= |slots|
  {
    exists i :: 0 <= i < k && slots[i].CspSlot?
  }

  /** The fate that brings a policy into the header: the report-only one if ro. */
  function FateFor(ro: bool): Fate {
    if ro then ReportedOnly else Enforced
  }

  /** The policies of the first k interceptors that go into the header, in order, for one
      nonce. */
  function Sent(slots: seq<Slot>, k: nat, nonce: string, ro: bool): seq<string>
    requires k <= |slots|
  {
    if k == 0 then []
    else Sent(slots, k - 1, nonce, ro) + SentBy(slots[k - 1], nonce, ro)
  }

  function SentBy(slot: Slot, nonce: string, ro: bool): seq<string> {
    if slot.CspSlot? && FateOf(slot.it) == FateFor(ro) then [Text(slot.it.policy, nonce, slot.it.cfg)] else []
  }

  lemma SentThus(it: CspInterceptor, nonce: string)
    ensures
      var (enf, rep) := ProcessOverride(it, nonce);
      && (if enf != "" then [enf] else []) == SentBy(CspSlot(it), nonce, false)
      && (if rep != "" then [rep] else []) == SentBy(CspSlot(it), nonce, true)
  {
    RouteIsFate(it, Text(it.policy, nonce, it.cfg));
    TextNotEmpty(it.policy, nonce, it.cfg);
  }

  function KeepsNonce(): Action -> bool {
    (a: Action) => a.SetFunc? ==> a.name != NONCE_FUNC
  }

  /** No Commit that runs after all the CSP ones defines the nonce function. Handlers, Before
      methods and all other Commits may define it. */
  ghost predicate CommitsKeepNonce(slots: seq<Slot>) {
    forall i, st, resp | 0 <= i < |slots| && slots[i].OtherSlot? && !HasCsp(slots, i) ::
      All(slots[i].other.commit(st, resp), KeepsNonce())
  }

  // ----- What foreign code keeps -----

  ghost predicate Ready(st: Flight) {
    && CspNonceKey in st.values && CspHeadersKey in st.values
    && CSP in st.hdr.claimed && CSP_REPORT_ONLY in st.hdr.claimed
  }

  /** No CSP interceptor has run. */
  ghost predicate Untouched(st: Flight) {
    CspNonceKey !in st.values && CspHeadersKey !in st.values
  }

  ghost predicate SameValue(st: Flight, x: Flight, key: Key) {
    (key in x.values <==> key in st.values) && (key in st.values ==> x.values[key] == st.values[key])
  }

  ghost predicate SameKeys(st: Flight, x: Flight) {
    SameValue(st, x, CspNonceKey) && SameValue(st, x, CspHeadersKey)
  }

  ghost predicate SameHeaders(st: Flight, m: HeaderMap) {
    ValuesOf(m, CSP) == st.hdr.Values(CSP) && ValuesOf(m, CSP_REPORT_ONLY) == st.hdr.Values(CSP_REPORT_ONLY)
  }

  ghost predicate NonceSet(st: Flight, funcs: map<string, string>) {
    CspNonceKey in st.values && NONCE_FUNC in funcs && funcs[NONCE_FUNC] == st.values[CspNonceKey]
  }

  /** The flight has a nonce, and the template gets it unless a last Commit defines another. */
  ghost predicate NonceShown(slots: seq<Slot>, st: Flight, funcs: map<string, string>) {
    CspNonceKey in st.values && (CommitsKeepNonce(slots) ==> NonceSet(st, funcs))
  }

  /** What a dispatch must show once the flight has come to st: the headers of st, and for a
      template the nonce of st; no template at all when no CSP Before ran. */
  ghost predicate Shows(slots: seq<Slot>, st: Flight, e: Event)
    requires e.Dispatched?
  {
    && (Ready(st) ==> SameHeaders(st, e.headers))
    && (HasCsp(slots, |slots|) && e.resp.TemplateResponse? ==> NonceShown(slots, st, e.funcs))
  }

  /** x is a later state of the same flight, reached from st by foreign code and Commits. */
  ghost predicate Later(slots: seq<Slot>, st: Flight, x: Flight) {
    && SameKeys(st, x)
    && (Ready(st) ==> Ready(x))
    && (Ready(st) && NoDispatch(x.log) ==> SameHeaders(st, x.hdr.wrapped))
    && (forall i :: 0 <= i < |x.log| && x.log[i].Dispatched? ==> Shows(slots, st, x.log[i]))
  }

  ghost function LaterThan(slots: seq<Slot>, st: Flight): Flight -> bool {
    x => Later(slots, st, x)
  }

  ghost function KeysOf(st: Flight): Flight -> bool {
    x => SameKeys(st, x)
  }

  lemma CommitsAllowed(slots: seq<Slot>, handler: Flight -> seq<Action>, d: Dispatcher, i: nat,
                       st: Flight, x: Flight, resp: Response)
    requires ForeignCode(slots, handler) && i < |slots| && SameKeys(st, x)
    ensures All(Cfg(slots, handler, d).interceptors[i].commit(x, resp), IsForeign(Claimed(st)))
  {
    var acts := Cfg(slots, handler, d).interceptors[i].commit(x, resp);
    if slots[i].CspSlot? {
      assert acts == CommitActions(x, resp);
      forall j | 0 <= j < |acts| ensures AllIn(acts[j], IsForeign(Claimed(st))) {
      }
    }
  }

  lemma KeysKept(slots: seq<Slot>, handler: Flight -> seq<Action>, d: Dispatcher, st: Flight)
    requires ForeignCode(slots, handler)
    ensures Kept(Cfg(slots, handler, d), KeysOf(st), IsForeign(Claimed(st)))
  {
    var cfg, inv := Cfg(slots, handler, d), KeysOf(st);
    forall a, x | inv(x) && IsForeign(Claimed(st))(a) && Simple(a) ensures inv(RunAction(cfg, a, x).flight) {
      KeysStep(cfg, st, a, x);
    }
    forall x, resp, isError | inv(x) && x.written && NoDispatch(x.log)
      ensures AfterCommits(cfg, inv, resp, isError, CommitPhase(cfg, |slots|, resp, x))
    {
      var r := CommitPhase(cfg, |slots|, resp, x);
      if inv(r.flight) { KeysDispatch(cfg, st, r.flight, resp, isError); }
    }
    forall i, x, resp | 0 <= i < |slots| && inv(x) ensures All(cfg.interceptors[i].commit(x, resp), IsForeign(Claimed(st))) {
      CommitsAllowed(slots, handler, d, i, st, x, resp);
    }
  }

  lemma KeysDispatch(cfg: Config, st: Flight, x: Flight, resp: Response, isError: bool)
    requires KeysOf(st)(x)
    ensures KeysOf(st)(Dispatch(cfg, x, resp, isError))
  {
  }

  lemma KeysStep(cfg: Config, st: Flight, a: Action, x: Flight)
    requires KeysOf(st)(x) && IsForeign(Claimed(st))(a) && Simple(a)
    ensures KeysOf(st)(RunAction(cfg, a, x).flight)
  {
  }

  /** After the write, code that does not define the nonce function leaves it as it is. */
  lemma {:induction false} NonceStays(cfg: Config, acts: seq<Action>, x: Flight)
    requires x.written && All(acts, KeepsNonce())
    ensures
      var funcs := RunActions(cfg, acts, x).flight.funcs;
      (NONCE_FUNC in funcs <==> NONCE_FUNC in x.funcs) && (NONCE_FUNC in funcs ==> funcs[NONCE_FUNC] == x.funcs[NONCE_FUNC])
    decreases acts
  {
    if acts != [] {
      var r, rest := RunAction(cfg, acts[0], x), acts[1..];
      assert AllIn(acts[0], KeepsNonce());
      if acts[0].Try? { NonceStays(cfg, acts[0].body, x); }
      assert forall i :: 0 <= i < |rest| ==> rest[i] == acts[i + 1];
      if r.outcome.Ok? { NonceStays(cfg, rest, r.flight); }
    }
  }

  lemma CommitCall(slots: seq<Slot>, handler: Flight -> seq<Action>, d: Dispatcher,
                   i: nat, resp: Response, st: Flight, x: Flight)
    requires ForeignCode(slots, handler) && i < |slots| && resp.TemplateResponse?
    requires x.written && SameKeys(st, x) && NoDispatch(x.log)
    ensures
      var cfg, x' := Cfg(slots, handler, d), Log(x, CommitCalled(i));
      var r := RunActions(cfg, cfg.interceptors[i].commit(x', resp), x');
      && SameKeys(st, r.flight) && r.flight.log == x'.log
      && (slots[i].OtherSlot? && !HasCsp(slots, i) && NonceShown(slots, st, x.funcs) ==> NonceShown(slots, st, r.flight.funcs))
      && (slots[i].CspSlot? && r.outcome.Ok? ==> NonceShown(slots, st, r.flight.funcs))
  {
    var cfg, x' := Cfg(slots, handler, d), Log(x, CommitCalled(i));
    var acts := cfg.interceptors[i].commit(x', resp);
    CommitsAllowed(slots, handler, d, i, st, x', resp);
    ActionsWriteOnce(cfg, acts, x');
    KeysKept(slots, handler, d, st);
    ActionsKeep(cfg, KeysOf(st), IsForeign(Claimed(st)), acts, x');
    if slots[i].CspSlot? {
      CspCommitCall(cfg, x', resp);
    } else if CommitsKeepNonce(slots) && !HasCsp(slots, i) {
      NonceStays(cfg, acts, x');
    }
  }

  /** A CSP Commit panics exactly for a template in a flight without a nonce. */
  lemma CspCommitCall(cfg: Config, x: Flight, resp: Response)
    ensures
      var r := RunActions(cfg, CommitActions(x, resp), x);
      && (r.outcome.Panicked? <==> resp.TemplateResponse? && CspNonceKey !in x.values)
      && (r.outcome.Ok? && resp.TemplateResponse? ==> NonceSet(x, r.flight.funcs))
  {
    if resp.TemplateResponse? {
      var a := if CspNonceKey in x.values then SetFunc(NONCE_FUNC, x.values[CspNonceKey]) else Panic;
      RunCons(cfg, a, [], x);
      assert [a] + [] == CommitActions(x, resp);
    }
  }

  /** A commit phase for a template that runs past a CSP interceptor leaves the flight's
      nonce in the template functions, if no last Commit defines another; without a nonce it
      cannot get past. */
  lemma {:induction false} CommitsSetNonce(slots: seq<Slot>, handler: Flight -> seq<Action>, d: Dispatcher,
                                           i: nat, resp: Response, st: Flight, x: Flight)
    requires ForeignCode(slots, handler) && i <= |slots| && resp.TemplateResponse?
    requires x.written && SameKeys(st, x) && NoDispatch(x.log)
    requires HasCsp(slots, i) || NonceShown(slots, st, x.funcs)
    requires CommitPhase(Cfg(slots, handler, d), i, resp, x).outcome.Ok?
    ensures NonceShown(slots, st, CommitPhase(Cfg(slots, handler, d), i, resp, x).flight.funcs)
    decreases i
  {
    if i > 0 {
      var cfg, c: nat := Cfg(slots, handler, d), i - 1;
      CommitCall(slots, handler, d, c, resp, st, x);
      var x' := Log(x, CommitCalled(c));
      var r := RunActions(cfg, cfg.interceptors[c].commit(x', resp), x');
      assert HasCsp(slots, i) ==> HasCsp(slots, c) || slots[c].CspSlot?;
      if slots[c].OtherSlot? && !HasCsp(slots, c) { assert !HasCsp(slots, i); }
      assert r.outcome.Ok?;
      CommitsSetNonce(slots, handler, d, c, resp, st, r.flight);
    }
  }

  lemma LaterStep(cfg: Config, slots: seq<Slot>, st: Flight, a: Action, x: Flight)
    requires Later(slots, st, x) && IsForeign(Claimed(st))(a) && Simple(a)
    ensures Later(slots, st, RunAction(cfg, a, x).flight)
  {
    CspNamesDiffer();
  }

  lemma LaterLog(slots: seq<Slot>, st: Flight, x: Flight, e: Event)
    requires Later(slots, st, x) && !e.Dispatched?
    ensures Later(slots, st, Log(x, e))
  {
    var log := x.log + [e];
    forall i | 0 <= i < |x.log| ensures log[i] == x.log[i] {
    }
  }

  lemma LaterDispatch(cfg: Config, slots: seq<Slot>, st: Flight, x: Flight, resp: Response, isError: bool)
    requires Later(slots, st, x) && NoDispatch(x.log)
    requires HasCsp(slots, |slots|) && resp.TemplateResponse? ==> NonceShown(slots, st, x.funcs)
    ensures Later(slots, st, Dispatch(cfg, x, resp, isError))
  {
    var e := Dispatched(resp, isError, x.hdr.wrapped, x.funcs);
    assert Dispatch(cfg, x, resp, isError).log[|x.log|] == e;
  }

  lemma LaterKept(slots: seq<Slot>, handler: Flight -> seq<Action>, d: Dispatcher, st: Flight)
    requires ForeignCode(slots, handler)
    ensures Kept(Cfg(slots, handler, d), LaterThan(slots, st), IsForeign(Claimed(st)))
  {
    var cfg, inv, n := Cfg(slots, handler, d), LaterThan(slots, st), |slots|;
    forall a, x | inv(x) && IsForeign(Claimed(st))(a) && Simple(a) ensures inv(RunAction(cfg, a, x).flight) {
      LaterStep(cfg, slots, st, a, x);
    }
    forall i, x | inv(x) ensures inv(Log(x, CommitCalled(i))) {
      LaterLog(slots, st, x, CommitCalled(i));
    }
    forall x, resp, isError | inv(x) && x.written && NoDispatch(x.log)
      ensures AfterCommits(cfg, inv, resp, isError, CommitPhase(cfg, n, resp, x))
    {
      var r := CommitPhase(cfg, n, resp, x);
      if r.outcome.Ok? && inv(r.flight) && NoDispatch(r.flight.log) {
        if HasCsp(slots, n) && resp.TemplateResponse? { CommitsSetNonce(slots, handler, d, n, resp, st, x); }
        LaterDispatch(cfg, slots, st, r.flight, resp, isError);
      }
    }
    forall i, x, resp | 0 <= i < n && inv(x) ensures All(cfg.interceptors[i].commit(x, resp), IsForeign(Claimed(st))) {
      CommitsAllowed(slots, handler, d, i, st, x, resp);
    }
  }

  // ----- Between the Before calls -----

  /** Foreign code called from st leaves a later state of st. */
  lemma ForeignCall(slots: seq<Slot>, handler: Flight -> seq<Action>, d: Dispatcher,
                    st: Flight, e: Event, acts: seq<Action>)
    requires ForeignCode(slots, handler) && All(acts, IsForeign(Claimed(st)))
    requires !st.written && NoDispatch(st.log) && !e.Dispatched?
    ensures
      var r := RunActions(Cfg(slots, handler, d), acts, Log(st, e));
      Later(slots, st, r.flight) && Unsent(r.flight) && Log(st, e).log <= r.flight.log
  {
    var cfg, x := Cfg(slots, handler, d), Log(st, e);
    LaterLog(slots, st, st, e);
    assert NoDispatch(x.log) by { assert x.log[|st.log|] == e; }
    LaterKept(slots, handler, d, st);
    assert LaterThan(slots, st)(x);
    ActionsKeep(cfg, LaterThan(slots, st), IsForeign(Claimed(st)), acts, x);
    ActionsWriteOnce(cfg, acts, x);
  }

  /** The state after k interceptors, given the headers the first CSP one found. */
  ghost predicate PolicyState(slots: seq<Slot>, k: nat, base: Headers, s: Flight)
    requires k <= |slots|
  {
    if HasCsp(slots, k) then
      && Ready(s)
      && s.hdr.Values(CSP) == base.Values(CSP) + Sent(slots, k, s.values[CspNonceKey], false)
      && s.hdr.Values(CSP_REPORT_ONLY) == base.Values(CSP_REPORT_ONLY) + Sent(slots, k, s.values[CspNonceKey], true)
    else Untouched(s)
  }

  lemma CspBeforeCall(slots: seq<Slot>, cfg: Config, k: nat, base: Headers, s: Flight)
    requires k < |slots| && slots[k].CspSlot? && PolicyState(slots, k, base, s)
    requires !HasCsp(slots, k) ==> base == s.hdr
    ensures
      var s' := Log(s, BeforeCalled(k));
      var r := RunActions(cfg, BeforeActions(slots[k].it, s'), s');
      && r.flight.log == s'.log && r.flight.written == s.written
      && (r.outcome.Ok? ==> PolicyState(slots, k + 1, base, r.flight))
      && (r.outcome.Ok? && HasCsp(slots, k) ==> r.flight.values[CspNonceKey] == s.values[CspNonceKey])
  {
    var it, s' := slots[k].it, Log(s, BeforeCalled(k));
    BeforeResult(cfg, it, s');
    if NonceIn(it, s').Some? {
      var nonce := NonceIn(it, s').value;
      var st1 := s'.(values := s'.values[CspNonceKey := nonce]);
      ClaimsResult(cfg, st1);
      NoPoliciesBefore(slots, k, nonce);
      var c := RunActions(cfg, ClaimActions(st1), st1);
      if c.outcome.Ok? {
        assert c.flight.values[CspHeadersKey := ""][CspNonceKey] == nonce;
        OneMoreBefore(slots, k, nonce, base, c.flight);
      }
    }
  }

  lemma OneMoreBefore(slots: seq<Slot>, k: nat, nonce: string, base: Headers, c: Flight)
    requires k < |slots| && slots[k].CspSlot? && Ready(c) && c.values[CspNonceKey] == nonce
    requires c.hdr.Values(CSP) == base.Values(CSP) + Sent(slots, k, nonce, false)
    requires c.hdr.Values(CSP_REPORT_ONLY) == base.Values(CSP_REPORT_ONLY) + Sent(slots, k, nonce, true)
    ensures
      var (enf, ro) := ProcessOverride(slots[k].it, nonce);
      PolicyState(slots, k + 1, base, AppendTo(AppendTo(c, CSP, enf), CSP_REPORT_ONLY, ro))
  {
    var (enf, ro) := ProcessOverride(slots[k].it, nonce);
    AppendedPolicies(c, enf, ro);
    SentThus(slots[k].it, nonce);
    assert slots[k] == CspSlot(slots[k].it);
    OneMorePolicy(slots, k, nonce, base, c, AppendTo(AppendTo(c, CSP, enf), CSP_REPORT_ONLY, ro));
  }

  lemma OneMorePolicy(slots: seq<Slot>, k: nat, nonce: string, base: Headers, c: Flight, x: Flight)
    requires k < |slots| && slots[k].CspSlot?
    requires Ready(c) && c.values[CspNonceKey] == nonce && x.values == c.values && x.hdr.claimed == c.hdr.claimed
    requires c.hdr.Values(CSP) == base.Values(CSP) + Sent(slots, k, nonce, false)
    requires c.hdr.Values(CSP_REPORT_ONLY) == base.Values(CSP_REPORT_ONLY) + Sent(slots, k, nonce, true)
    requires x.hdr.Values(CSP) == c.hdr.Values(CSP) + SentBy(slots[k], nonce, false)
    requires x.hdr.Values(CSP_REPORT_ONLY) == c.hdr.Values(CSP_REPORT_ONLY) + SentBy(slots[k], nonce, true)
    ensures PolicyState(slots, k + 1, base, x)
  {
    assert HasCsp(slots, k + 1);
    AppendInTurn(base.Values(CSP), Sent(slots, k, nonce, false), SentBy(slots[k], nonce, false));
    AppendInTurn(base.Values(CSP_REPORT_ONLY), Sent(slots, k, nonce, true), SentBy(slots[k], nonce, true));
  }

  lemma AppendedPolicies(c: Flight, enf: string, ro: string)
    requires CSP in c.hdr.claimed && CSP_REPORT_ONLY in c.hdr.claimed
    ensures
      var x := AppendTo(AppendTo(c, CSP, enf), CSP_REPORT_ONLY, ro);
      && x.values == c.values && x.log == c.log && x.written == c.written && x.hdr.claimed == c.hdr.claimed
      && x.hdr.Values(CSP) == c.hdr.Values(CSP) + (if enf != "" then [enf] else [])
      && x.hdr.Values(CSP_REPORT_ONLY) == c.hdr.Values(CSP_REPORT_ONLY) + (if ro != "" then [ro] else [])
  {
    CspNamesDiffer();
  }

  lemma {:induction false} NoPoliciesBefore(slots: seq<Slot>, k: nat, nonce: string)
    requires k <= |slots|
    ensures !HasCsp(slots, k) ==> Sent(slots, k, nonce, false) == [] && Sent(slots, k, nonce, true) == []
  {
    if k > 0 && !HasCsp(slots, k) {
      assert !slots[k - 1].CspSlot?;
      NoPoliciesBefore(slots, k - 1, nonce);
    }
  }

  lemma ForeignBeforeCall(slots: seq<Slot>, k: nat, base: Headers, s: Flight, x: Flight)
    requires k < |slots| && slots[k].OtherSlot? && PolicyState(slots, k, base, s)
    requires Later(slots, s, x) && NoDispatch(x.log)
    ensures PolicyState(slots, k + 1, base, x)
    ensures HasCsp(slots, k) ==> x.values[CspNonceKey] == s.values[CspNonceKey]
  {
    assert HasCsp(slots, k + 1) <==> HasCsp(slots, k);
  }

  /** The headers found by the first CSP interceptor among the first k, which claims them. */
  function Base(slots: seq<Slot>, cfg: Config, k: nat, st: Flight): Headers
    requires k <= |slots| == |cfg.interceptors|
  {
    if k == 0 then st.hdr
    else if HasCsp(slots, k - 1) then Base(slots, cfg, k - 1, st)
    else match Entry(cfg, k - 1, st)
      case None => st.hdr
      case Some(s) => s.hdr
  }

  lemma OneMoreEntry(slots: seq<Slot>, handler: Flight -> seq<Action>, d: Dispatcher, cfg: Config, k: nat, base: Headers, s: Flight)
    requires cfg == Cfg(slots, handler, d) && ForeignCode(slots, handler) && k < |slots| == |cfg.interceptors|
    requires PolicyState(slots, k, base, s)
    requires !s.written && NoDispatch(s.log) && (!HasCsp(slots, k) ==> base == s.hdr)
    ensures
      var r := CallBefore(cfg, k, s);
      r.outcome.Ok? && !r.flight.written ==> PolicyState(slots, k + 1, base, r.flight)
  {
    if slots[k].CspSlot? {
      CspBeforeCall(slots, cfg, k, base, s);
    } else {
      var s' := Log(s, BeforeCalled(k));
      OtherBefore(slots, handler, k, s);
      ForeignCall(slots, handler, d, s, BeforeCalled(k), slots[k].other.before(s'));
      var x := CallBefore(cfg, k, s).flight;
      if !x.written { ForeignBeforeCall(slots, k, base, s, x); }
    }
  }

  lemma NextBase(slots: seq<Slot>, cfg: Config, k: nat, st: Flight, s: Flight)
    requires 0 < k <= |slots| == |cfg.interceptors| && Entry(cfg, k - 1, st) == Some(s)
    ensures Base(slots, cfg, k, st) == if HasCsp(slots, k - 1) then Base(slots, cfg, k - 1, st) else s.hdr
  {
  }

  lemma PolicyStateBase(slots: seq<Slot>, k: nat, a: Headers, b: Headers, s: Flight)
    requires k <= |slots| && PolicyState(slots, k, a, s) && (HasCsp(slots, k) ==> a == b)
    ensures PolicyState(slots, k, b, s)
  {
  }

  lemma PoliciesAtNext(slots: seq<Slot>, handler: Flight -> seq<Action>, d: Dispatcher, cfg: Config, i: nat, k: nat,
                       st: Flight, before: Flight, s: Flight, base: Headers)
    requires cfg == Cfg(slots, handler, d) && ForeignCode(slots, handler) && k == i + 1 <= |slots| == |cfg.interceptors|
    requires !before.written && NoDispatch(before.log)
    requires Entry(cfg, i, st) == Some(before) && Entry(cfg, k, st) == Some(s)
    requires base == Base(slots, cfg, i, st) && PolicyState(slots, i, base, before)
    ensures PolicyState(slots, k, Base(slots, cfg, k, st), s)
  {
    var base' := Base(slots, cfg, k, st);
    NextBase(slots, cfg, k, st, before);
    PolicyStateBase(slots, i, base, base', before);
    OneMoreEntry(slots, handler, d, cfg, i, base', before);
    EntryBefore(cfg, k, st, before, s);
  }

  lemma EntryIsQuiet(cfg: Config, k: nat, m: HeaderMap, s: Flight)
    requires k <= |cfg.interceptors| && Entry(cfg, k, Start(m)) == Some(s)
    ensures !s.written && NoDispatch(s.log)
  {
    EntryIsOnTheWay(cfg, k, Start(m));
  }

  /** After k Before calls that neither wrote nor panicked, both headers hold the value they
      had when claimed followed by the policies of the CSP interceptors among the k, in
      order and all with the flight's one nonce. */
  lemma {:induction false} PoliciesAtEntry(slots: seq<Slot>, handler: Flight -> seq<Action>, d: Dispatcher, m: HeaderMap,
                                           cfg: Config, k: nat, s: Flight)
    requires cfg == Cfg(slots, handler, d) && ForeignCode(slots, handler) && k <= |slots| == |cfg.interceptors|
    requires Entry(cfg, k, Start(m)) == Some(s)
    ensures PolicyState(slots, k, Base(slots, cfg, k, Start(m)), s)
    decreases k
  {
    if k > 0 {
      var i: nat := k - 1;
      var before := Entry(cfg, i, Start(m)).value;
      PoliciesAtEntry(slots, handler, d, m, cfg, i, before);
      EntryIsQuiet(cfg, i, m, before);
      PoliciesAtNext(slots, handler, d, cfg, i, k, Start(m), before, s, Base(slots, cfg, i, Start(m)));
    }
  }

  // ----- On the wire -----

  /** The interceptor whose Before was called last writes, or the handler does (k is then
      the number of interceptors): the log of a flight says which. */
  predicate WriterAt(n: nat, log: seq<Event>, k: nat) {
    if k == n then HandlerCalled in log
    else k < n && BeforeCalled(k) in log && BeforeCalled(k + 1) !in log && HandlerCalled !in log
  }

  /** What a response that leaves the flight shows when code of interceptor k, or of the
      handler, writes: the policies of the k Befores that are over by then. */
  ghost predicate WireAt(slots: seq<Slot>, cfg: Config, m: HeaderMap, k: nat, e: Event)
    requires k <= |slots| == |cfg.interceptors| && e.Dispatched?
  {
    && Entry(cfg, k, Start(m)).Some?
    && var s, base := Entry(cfg, k, Start(m)).value, Base(slots, cfg, k, Start(m));
    && (HasCsp(slots, k) ==>
          && CspNonceKey in s.values
          && ValuesOf(e.headers, CSP) == base.Values(CSP) + Sent(slots, k, s.values[CspNonceKey], false)
          && ValuesOf(e.headers, CSP_REPORT_ONLY)
             == base.Values(CSP_REPORT_ONLY) + Sent(slots, k, s.values[CspNonceKey], true))
    && (HasCsp(slots, |slots|) && e.resp.TemplateResponse? ==>
          HasCsp(slots, k) && NonceShown(slots, s, e.funcs))
  }

  ghost predicate AllOnTheWire(slots: seq<Slot>, cfg: Config, m: HeaderMap, k: nat, log: seq<Event>)
    requires k <= |slots| == |cfg.interceptors|
  {
    forall i :: 0 <= i < |log| && log[i].Dispatched? ==> WireAt(slots, cfg, m, k, log[i])
  }

  lemma ShownAt(slots: seq<Slot>, handler: Flight -> seq<Action>, d: Dispatcher, m: HeaderMap, k: nat, e: Event)
    requires ForeignCode(slots, handler) && k <= |slots| && e.Dispatched?
    requires Entry(Cfg(slots, handler, d), k, Start(m)).Some?
    requires Shows(slots, Entry(Cfg(slots, handler, d), k, Start(m)).value, e)
    ensures WireAt(slots, Cfg(slots, handler, d), m, k, e)
  {
    var cfg := Cfg(slots, handler, d);
    PoliciesAtEntry(slots, handler, d, m, cfg, k, Entry(cfg, k, Start(m)).value);
  }

  lemma AllShown(slots: seq<Slot>, handler: Flight -> seq<Action>, d: Dispatcher, m: HeaderMap, k: nat, log: seq<Event>)
    requires ForeignCode(slots, handler) && k <= |slots|
    requires Entry(Cfg(slots, handler, d), k, Start(m)).Some?
    requires forall i :: 0 <= i < |log| && log[i].Dispatched? ==>
               Shows(slots, Entry(Cfg(slots, handler, d), k, Start(m)).value, log[i])
    ensures AllOnTheWire(slots, Cfg(slots, handler, d), m, k, log)
  {
    forall i | 0 <= i < |log| && log[i].Dispatched? ensures WireAt(slots, Cfg(slots, handler, d), m, k, log[i]) {
      ShownAt(slots, handler, d, m, k, log[i]);
    }
  }

  lemma HandlerWire(slots: seq<Slot>, handler: Flight -> seq<Action>, d: Dispatcher, m: HeaderMap, s: Flight)
    requires ForeignCode(slots, handler) && !s.written && NoDispatch(s.log)
    requires Entry(Cfg(slots, handler, d), |slots|, Start(m)) == Some(s)
    ensures AllOnTheWire(slots, Cfg(slots, handler, d), m, |slots|, HandlerPhase(Cfg(slots, handler, d), s).flight.log)
  {
    var cfg := Cfg(slots, handler, d);
    ForeignCall(slots, handler, d, s, HandlerCalled, handler(Log(s, HandlerCalled)));
    var r := CallHandler(cfg, s);
    if r.outcome.Ok? && !r.flight.written { LaterDispatch(cfg, slots, s, r.flight, NoContentResponse, false); }
    AllShown(slots, handler, d, m, |slots|, HandlerPhase(cfg, s).flight.log);
  }

  lemma ForeignBeforeWire(slots: seq<Slot>, handler: Flight -> seq<Action>, d: Dispatcher, m: HeaderMap, k: nat, s: Flight)
    requires ForeignCode(slots, handler) && k < |slots| && slots[k].OtherSlot? && !s.written && NoDispatch(s.log)
    requires Entry(Cfg(slots, handler, d), k, Start(m)) == Some(s)
    ensures AllOnTheWire(slots, Cfg(slots, handler, d), m, k, CallBefore(Cfg(slots, handler, d), k, s).flight.log)
  {
    OtherBefore(slots, handler, k, s);
    ForeignCall(slots, handler, d, s, BeforeCalled(k), slots[k].other.before(Log(s, BeforeCalled(k))));
    AllShown(slots, handler, d, m, k, CallBefore(Cfg(slots, handler, d), k, s).flight.log);
  }

  /** A CSP Before writes nothing. */
  lemma CspBeforeWire(slots: seq<Slot>, handler: Flight -> seq<Action>, d: Dispatcher, m: HeaderMap, k: nat, s: Flight)
    requires ForeignCode(slots, handler) && k < |slots| && slots[k].CspSlot? && NoDispatch(s.log)
    requires Entry(Cfg(slots, handler, d), k, Start(m)) == Some(s)
    ensures NoDispatch(CallBefore(Cfg(slots, handler, d), k, s).flight.log)
  {
    var cfg := Cfg(slots, handler, d);
    PoliciesAtEntry(slots, handler, d, m, cfg, k, s);
    QuietCspCall(slots, cfg, k, s);
    assert CallBefore(cfg, k, s).flight.log == s.log + [BeforeCalled(k)];
  }

  lemma QuietCspCall(slots: seq<Slot>, cfg: Config, k: nat, s: Flight)
    requires k < |slots| && slots[k].CspSlot? && (Ready(s) || Untouched(s))
    ensures
      var s' := Log(s, BeforeCalled(k));
      RunActions(cfg, BeforeActions(slots[k].it, s'), s').flight.log == s'.log
  {
    var it, s' := slots[k].it, Log(s, BeforeCalled(k));
    BeforeResult(cfg, it, s');
    if NonceIn(it, s').Some? {
      ClaimsResult(cfg, s'.(values := s'.values[CspNonceKey := NonceIn(it, s').value]));
    }
  }

  lemma WriterOfHandler(cfg: Config, s: Flight)
    requires !s.written && s.log == Befores(|cfg.interceptors|)
    ensures WriterAt(|cfg.interceptors|, HandlerPhase(cfg, s).flight.log, |cfg.interceptors|)
  {
    var x := Log(s, HandlerCalled);
    ActionsWriteOnce(cfg, cfg.handler(x), x);
    assert x.log[|s.log|] == HandlerCalled;
    assert CallHandler(cfg, s).flight.log[|s.log|] == HandlerCalled;
    assert HandlerPhase(cfg, s).flight.log[|s.log|] == HandlerCalled;
  }

  lemma WriterOfBefore(cfg: Config, k: nat, s: Flight)
    requires k < |cfg.interceptors| && !s.written && s.log == Befores(k)
    ensures WriterAt(|cfg.interceptors|, CallBefore(cfg, k, s).flight.log, k)
  {
    var x := Log(s, BeforeCalled(k));
    NoHandlerInBefore(cfg, k, s);
    BeforesIn(cfg, cfg.interceptors[k].before(x), x);
    assert x.log == Befores(k + 1);
    BeforesAre(k + 1);
  }

  /** The log leaves one choice of the writer only. */
  lemma OneWriter(cfg: Config, m: HeaderMap, j: nat, k: nat)
    requires WriterAt(|cfg.interceptors|, Process(cfg, m).flight.log, j)
    requires WriterAt(|cfg.interceptors|, Process(cfg, m).flight.log, k)
    ensures j == k
  {
    var k0, handled := FlightGrammar(cfg, m);
    forall i: nat ensures BeforeCalled(i) in Process(cfg, m).flight.log <==> i < k0 {
      BeforeInLog(|cfg.interceptors|, k0, handled, Process(cfg, m), i);
    }
  }

  /** Every response that leaves a flight carries, in each CSP header, the value the header
      had when it was claimed followed by the policies of all CSP interceptors that ran
      before the writing code, in order and for one nonce. A template gets that same nonce,
      unless a Commit that runs after all CSP ones defines another; and no template leaves a
      flight in which no CSP Before ran. */
  lemma CspOnTheWire(slots: seq<Slot>, handler: Flight -> seq<Action>, d: Dispatcher, m: HeaderMap) returns (k: nat)
    requires ForeignCode(slots, handler)
    ensures
      var cfg := Cfg(slots, handler, d);
      var log := Process(cfg, m).flight.log;
      k <= |slots| && WriterAt(|slots|, log, k) && AllOnTheWire(slots, cfg, m, k, log)
  {
    var cfg := Cfg(slots, handler, d);
    var s;
    k, s := LastEntry(cfg, m);
    if k == |slots| {
      WriterOfHandler(cfg, s);
      HandlerWire(slots, handler, d, m, s);
    } else {
      WriterOfBefore(cfg, k, s);
      if slots[k].CspSlot? {
        CspBeforeWire(slots, handler, d, m, k, s);
      } else {
        ForeignBeforeWire(slots, handler, d, m, k, s);
      }
    }
  }
}
