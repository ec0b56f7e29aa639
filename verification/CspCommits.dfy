/** When a CSP Commit panics: exactly for a template written before any CSP Before is over. */
module CspCommits {
  import opened Common
  import opened HeaderModel
  import opened FlightModel
  import opened FlightTheorems
  import opened FlightInvariants
  import opened FlightOutlook
  import opened CspPlugin
  import opened CspTheorems

  /** The log stops at a CSP Commit: that call did not come back, since the next Commit or
      the dispatcher call would follow it. */
  predicate StopsInCsp(slots: seq<Slot>, log: seq<Event>) {
    && log != [] && log[|log| - 1].CommitCalled?
    && var i := log[|log| - 1].i;
    0 <= i < |slots| && slots[i].CspSlot?
  }

  /** Some CSP Commit was called. */
  predicate ReachesCsp(slots: seq<Slot>, log: seq<Event>) {
    exists i :: 0 <= i < |slots| && slots[i].CspSlot? && CommitCalled(i) in log
  }

  /** A template is written in a flight that has no nonce. */
  predicate Bad(st: Flight, resp: Response) {
    resp.TemplateResponse? && CspNonceKey !in st.values
  }

  lemma {:induction false} CommitsStop(slots: seq<Slot>, handler: Flight -> seq<Action>, d: Dispatcher,
                                       i: nat, resp: Response, st: Flight, x: Flight)
    requires ForeignCode(slots, handler) && i <= |slots|
    requires x.written && SameKeys(st, x) && NoDispatch(x.log)
    requires Bad(st, resp) ==> !ReachesCsp(slots, x.log)
    ensures
      var r := CommitPhase(Cfg(slots, handler, d), i, resp, x);
      && (r.outcome.Panicked? ==> (StopsInCsp(slots, r.flight.log) <==> Bad(st, resp) && ReachesCsp(slots, r.flight.log)))
      && (r.outcome.Ok? && Bad(st, resp) ==> !ReachesCsp(slots, r.flight.log))
    decreases i
  {
    if i > 0 {
      var cfg, c: nat := Cfg(slots, handler, d), i - 1;
      var x' := Log(x, CommitCalled(c));
      var r := RunActions(cfg, cfg.interceptors[c].commit(x', resp), x');
      OneCommit(slots, handler, d, c, resp, st, x);
      CommitLogged(slots, x, c);
      if r.outcome.Ok? { CommitsStop(slots, handler, d, c, resp, st, r.flight); }
    }
  }

  lemma CommitLogged(slots: seq<Slot>, x: Flight, c: nat)
    requires c < |slots|
    ensures ReachesCsp(slots, Log(x, CommitCalled(c)).log) <==> ReachesCsp(slots, x.log) || slots[c].CspSlot?
    ensures StopsInCsp(slots, Log(x, CommitCalled(c)).log) <==> slots[c].CspSlot?
    ensures NoDispatch(x.log) ==> NoDispatch(Log(x, CommitCalled(c)).log)
  {
    var log := Log(x, CommitCalled(c)).log;
    assert log[|x.log|] == CommitCalled(c);
    forall i: nat ensures CommitCalled(i) in log <==> CommitCalled(i) in x.log || i == c {
    }
  }

  /** One Commit keeps the keys, logs nothing but its own call, and panics if it is CSP's
      and the write is bad. */
  lemma OneCommit(slots: seq<Slot>, handler: Flight -> seq<Action>, d: Dispatcher,
                  c: nat, resp: Response, st: Flight, x: Flight)
    requires ForeignCode(slots, handler) && c < |slots|
    requires x.written && SameKeys(st, x) && NoDispatch(x.log)
    ensures
      var cfg, x' := Cfg(slots, handler, d), Log(x, CommitCalled(c));
      var r := RunActions(cfg, cfg.interceptors[c].commit(x', resp), x');
      && r.flight.log == x'.log && SameKeys(st, r.flight)
      && (slots[c].CspSlot? ==> (r.outcome.Panicked? <==> Bad(st, resp)))
  {
    var cfg, x' := Cfg(slots, handler, d), Log(x, CommitCalled(c));
    var acts := cfg.interceptors[c].commit(x', resp);
    ActionsWriteOnce(cfg, acts, x');
    KeysKept(slots, handler, d, st);
    CommitsAllowed(slots, handler, d, c, st, x', resp);
    ActionsKeep(cfg, KeysOf(st), IsForeign(Claimed(st)), acts, x');
    if slots[c].CspSlot? { CspCommitCall(cfg, x', resp); }
  }

  lemma WriteStops(slots: seq<Slot>, handler: Flight -> seq<Action>, d: Dispatcher,
                   resp: Response, isError: bool, st: Flight, x: Flight)
    requires ForeignCode(slots, handler)
    requires !x.written && SameKeys(st, x) && NoDispatch(x.log) && !ReachesCsp(slots, x.log)
    ensures
      var cfg := Cfg(slots, handler, d);
      var r := Finish(cfg, CommitPhase(cfg, |slots|, resp, x.(written := true)), resp, isError);
      StopsInCsp(slots, r.flight.log) <==> Bad(st, resp) && ReachesCsp(slots, r.flight.log)
  {
    var cfg := Cfg(slots, handler, d);
    CommitsStop(slots, handler, d, |slots|, resp, st, x.(written := true));
    var r := CommitPhase(cfg, |slots|, resp, x.(written := true));
    if r.outcome.Ok? { DispatchReachesNot(slots, cfg, r.flight, resp, isError); }
  }

  lemma DispatchReachesNot(slots: seq<Slot>, cfg: Config, x: Flight, resp: Response, isError: bool)
    ensures
      var log := Dispatch(cfg, x, resp, isError).log;
      !StopsInCsp(slots, log) && (ReachesCsp(slots, log) <==> ReachesCsp(slots, x.log))
  {
    var log := Dispatch(cfg, x, resp, isError).log;
    assert log[|x.log|].Dispatched?;
    forall i: nat ensures CommitCalled(i) in log <==> CommitCalled(i) in x.log {
    }
  }

  predicate WritesTemplate(o: Outlook) {
    o.Writes? && o.resp.TemplateResponse?
  }

  /** Code stops in a CSP Commit exactly if it reaches one with a template and no nonce. */
  ghost predicate StopsExactly(slots: seq<Slot>, st: Flight, log: seq<Event>, o: Outlook) {
    StopsInCsp(slots, log) <==> CspNonceKey !in st.values && ReachesCsp(slots, log) && WritesTemplate(o)
  }

  lemma {:induction false} ActionsStop(slots: seq<Slot>, handler: Flight -> seq<Action>, d: Dispatcher,
                                       acts: seq<Action>, st: Flight, x: Flight)
    requires ForeignCode(slots, handler) && All(acts, IsForeign(Claimed(st)))
    requires !x.written && SameKeys(st, x) && NoDispatch(x.log) && !ReachesCsp(slots, x.log)
    requires !StopsInCsp(slots, x.log)
    ensures StopsExactly(slots, st, RunActions(Cfg(slots, handler, d), acts, x).flight.log, Foresee(x.hdr, acts, false))
    decreases acts
  {
    if acts != [] {
      var cfg := Cfg(slots, handler, d);
      var r, rest := RunAction(cfg, acts[0], x), acts[1..];
      assert AllIn(acts[0], IsForeign(Claimed(st)));
      ActionStops(slots, handler, d, acts[0], st, x);
      FirstAction(slots, handler, d, acts[0], st, x);
      ActionForeseen(cfg, acts[0], x);
      assert forall i :: 0 <= i < |rest| ==> rest[i] == acts[i + 1];
      if r.flight.written {
        ActionsWriteOnce(cfg, rest, r.flight);
      } else if r.outcome.Ok? {
        ActionsStop(slots, handler, d, rest, st, r.flight);
      }
    }
  }

  /** An action that does not write logs nothing. */
  lemma FirstAction(slots: seq<Slot>, handler: Flight -> seq<Action>, d: Dispatcher, a: Action, st: Flight, x: Flight)
    requires ForeignCode(slots, handler) && AllIn(a, IsForeign(Claimed(st)))
    requires !x.written && SameKeys(st, x) && NoDispatch(x.log)
    ensures
      var r := RunAction(Cfg(slots, handler, d), a, x);
      SameKeys(st, r.flight) && (!r.flight.written ==> r.flight.log == x.log)
  {
    var cfg := Cfg(slots, handler, d);
    KeysKept(slots, handler, d, st);
    ActionKeeps(cfg, KeysOf(st), IsForeign(Claimed(st)), a, x);
    ActionWritesOnce(cfg, a, x);
  }

  lemma {:induction false} ActionStops(slots: seq<Slot>, handler: Flight -> seq<Action>, d: Dispatcher,
                                       a: Action, st: Flight, x: Flight)
    requires ForeignCode(slots, handler) && AllIn(a, IsForeign(Claimed(st)))
    requires !x.written && SameKeys(st, x) && NoDispatch(x.log) && !ReachesCsp(slots, x.log)
    requires !StopsInCsp(slots, x.log)
    ensures StopsExactly(slots, st, RunAction(Cfg(slots, handler, d), a, x).flight.log, ForeseeOne(x.hdr, a, false))
    decreases a
  {
    match a
    case Try(body) => ActionsStop(slots, handler, d, body, st, x);
    case Write(resp) => WriteStops(slots, handler, d, resp, false, st, x);
    case WriteError(resp) => WriteStops(slots, handler, d, resp, true, st, x);
    case _ =>
  }

  // ----- The whole flight -----

  lemma CallStops(slots: seq<Slot>, handler: Flight -> seq<Action>, d: Dispatcher, e: Event, acts: seq<Action>, s: Flight)
    requires ForeignCode(slots, handler) && All(acts, IsForeign(Claimed(s)))
    requires !s.written && s.log == Befores(|s.log|) && !e.Dispatched? && !e.CommitCalled?
    ensures StopsExactly(slots, s, RunActions(Cfg(slots, handler, d), acts, Log(s, e)).flight.log, Foresee(s.hdr, acts, false))
  {
    var x := Log(s, e);
    assert x.log[|s.log|] == e;
    assert NoDispatch(x.log) && !ReachesCsp(slots, x.log);
    ActionsStop(slots, handler, d, acts, s, x);
  }

  lemma HandlerStops(slots: seq<Slot>, handler: Flight -> seq<Action>, d: Dispatcher, s: Flight)
    requires ForeignCode(slots, handler) && !s.written && s.log == Befores(|s.log|)
    ensures
      var cfg := Cfg(slots, handler, d);
      StopsExactly(slots, s, HandlerPhase(cfg, s).flight.log, Foresee(s.hdr, CodeOf(cfg, |slots|, s), false))
  {
    var cfg, x := Cfg(slots, handler, d), Log(s, HandlerCalled);
    assert Claimed(x) == Claimed(s);
    CallStops(slots, handler, d, HandlerCalled, handler(x), s);
    var r := CallHandler(cfg, s);
    if r.outcome.Ok? && !r.flight.written {
      ActionsForeseen(cfg, handler(x), x);
      DispatchReachesNot(slots, cfg, r.flight, NoContentResponse, false);
    }
  }

  lemma BeforeStops(slots: seq<Slot>, handler: Flight -> seq<Action>, d: Dispatcher, k: nat, s: Flight)
    requires ForeignCode(slots, handler) && k < |slots| && !s.written && s.log == Befores(|s.log|)
    requires Ready(s) || Untouched(s)
    ensures
      var cfg := Cfg(slots, handler, d);
      StopsExactly(slots, s, CallBefore(cfg, k, s).flight.log, Foresee(s.hdr, CodeOf(cfg, k, s), false))
  {
    var cfg, x := Cfg(slots, handler, d), Log(s, BeforeCalled(k));
    if slots[k].CspSlot? {
      QuietCspCall(slots, cfg, k, s);
      assert x.log[|s.log|] == BeforeCalled(k);
      assert CallBefore(cfg, k, s).flight.log == x.log;
      assert !ReachesCsp(slots, x.log);
    } else {
      OtherBefore(slots, handler, k, s);
      CallStops(slots, handler, d, BeforeCalled(k), slots[k].other.before(x), s);
    }
  }

  /** The call in which the loop over Before is left, or the handler's, starts before any CSP
      Before is over, and the first thing its code writes is a template. */
  ghost predicate EarlyTemplateAt(slots: seq<Slot>, cfg: Config, m: HeaderMap, k: nat, s: Flight)
    requires |slots| == |cfg.interceptors|
  {
    LeavesAt(cfg, m, k, s) && !HasCsp(slots, k) && WritesTemplate(Foresee(s.hdr, CodeOf(cfg, k, s), false))
  }

  ghost predicate WritesTemplateEarly(slots: seq<Slot>, cfg: Config, m: HeaderMap)
    requires |slots| == |cfg.interceptors|
  {
    exists k, s :: EarlyTemplateAt(slots, cfg, m, k, s)
  }

  /** A flight stops inside a CSP Commit exactly if it reaches one and a template was written
      before any CSP Before was over. */
  lemma CspCommitPanics(slots: seq<Slot>, handler: Flight -> seq<Action>, d: Dispatcher, m: HeaderMap)
    requires ForeignCode(slots, handler)
    ensures
      var cfg := Cfg(slots, handler, d);
      var log := Process(cfg, m).flight.log;
      StopsInCsp(slots, log) <==> WritesTemplateEarly(slots, cfg, m) && ReachesCsp(slots, log)
  {
    var cfg := Cfg(slots, handler, d);
    var k, s := LastEntry(cfg, m);
    PoliciesAtEntry(slots, handler, d, m, cfg, k, s);
    forall j, x | LeavesAt(cfg, m, j, x) ensures j == k && x == s { LeavesOnce(cfg, m, j, x, k, s); }
    assert WritesTemplateEarly(slots, cfg, m) <==> EarlyTemplateAt(slots, cfg, m, k, s);
    if k == |slots| { HandlerStops(slots, handler, d, s); } else { BeforeStops(slots, handler, d, k, s); }
  }

  /** Some CSP Before came to its end before any code wrote or panicked. */
  ghost predicate CspHasRun(slots: seq<Slot>, cfg: Config, m: HeaderMap)
    requires |slots| == |cfg.interceptors|
  {
    exists k :: 0 <= k <= |slots| && HasCsp(slots, k) && Entry(cfg, k, Start(m)).Some?
  }

  lemma HasRunBefore(slots: seq<Slot>, cfg: Config, m: HeaderMap, k: nat, s: Flight)
    requires |slots| == |cfg.interceptors| && LeavesAt(cfg, m, k, s)
    ensures CspHasRun(slots, cfg, m) ==> HasCsp(slots, k)
  {
    if j :| 0 <= j <= |slots| && HasCsp(slots, j) && Entry(cfg, j, Start(m)).Some? {
      if k + 1 < j { EarlierEntries(cfg, k + 1, j, Start(m)); }
      var c :| 0 <= c < j && slots[c].CspSlot?;
      assert slots[c].CspSlot? && c < k;
    }
  }

  /** No flight in which a CSP Before has come to its end ever stops inside a CSP Commit. */
  lemma NoCspCommitPanics(slots: seq<Slot>, handler: Flight -> seq<Action>, d: Dispatcher, m: HeaderMap)
    requires ForeignCode(slots, handler)
    ensures
      var cfg := Cfg(slots, handler, d);
      CspHasRun(slots, cfg, m) ==> !StopsInCsp(slots, Process(cfg, m).flight.log)
  {
    CspCommitPanics(slots, handler, d, m);
    forall k, s | LeavesAt(Cfg(slots, handler, d), m, k, s)
      ensures CspHasRun(slots, Cfg(slots, handler, d), m) ==> HasCsp(slots, k)
    {
      HasRunBefore(slots, Cfg(slots, handler, d), m, k, s);
    }
  }

  // ----- When the other Commits come back -----

  /** No Commit of another interceptor stops in a written flight. */
  ghost predicate OthersReturn(slots: seq<Slot>) {
    forall i, x: Flight, resp | 0 <= i < |slots| && slots[i].OtherSlot? && x.written ::
      !Stops(x.hdr, slots[i].other.commit(x, resp))
  }

  lemma ReachesMore(slots: seq<Slot>, log: seq<Event>, more: seq<Event>)
    requires ReachesCsp(slots, log) && log <= more
    ensures ReachesCsp(slots, more)
  {
    var i :| 0 <= i < |slots| && slots[i].CspSlot? && CommitCalled(i) in log;
    var j :| 0 <= j < |log| && log[j] == CommitCalled(i);
    assert more[j] == CommitCalled(i);
  }

  lemma {:induction false} CommitsReach(slots: seq<Slot>, cfg: Config, i: nat, resp: Response, x: Flight)
    requires cfg.interceptors == Installed(slots) && OthersReturn(slots) && i <= |slots| && HasCsp(slots, i) && x.written
    ensures ReachesCsp(slots, CommitPhase(cfg, i, resp, x).flight.log)
    decreases i
  {
    var c: nat := i - 1;
    var x' := Log(x, CommitCalled(c));
    var r := RunActions(cfg, cfg.interceptors[c].commit(x', resp), x');
    if slots[c].CspSlot? {
      CommitsDescend(cfg, i, resp, x);
      var w := Added(x, CommitPhase(cfg, i, resp, x));
      assert w[0] == CommitCalled(c);
      assert CommitPhase(cfg, i, resp, x).flight.log[|x.log|] == w[0];
    } else {
      assert HasCsp(slots, c);
      ActionsForeseen(cfg, slots[c].other.commit(x', resp), x');
      WrittenCodeWritesNot(x'.hdr, slots[c].other.commit(x', resp));
      CommitsReach(slots, cfg, c, resp, r.flight);
    }
  }

  lemma WriteReaches(slots: seq<Slot>, cfg: Config, resp: Response, isError: bool, x: Flight)
    requires cfg.interceptors == Installed(slots) && OthersReturn(slots) && HasCsp(slots, |slots|) && !x.written
    ensures
      var r := Finish(cfg, CommitPhase(cfg, |slots|, resp, x.(written := true)), resp, isError);
      ReachesCsp(slots, r.flight.log)
  {
    var r := CommitPhase(cfg, |slots|, resp, x.(written := true));
    CommitsReach(slots, cfg, |slots|, resp, x.(written := true));
    ReachesMore(slots, r.flight.log, Finish(cfg, r, resp, isError).flight.log);
  }

  lemma {:induction false} ActionsReach(slots: seq<Slot>, cfg: Config, acts: seq<Action>, x: Flight)
    requires cfg.interceptors == Installed(slots) && OthersReturn(slots) && HasCsp(slots, |slots|) && !x.written
    ensures RunActions(cfg, acts, x).flight.written ==> ReachesCsp(slots, RunActions(cfg, acts, x).flight.log)
    decreases acts
  {
    if acts != [] {
      var r, rest := RunAction(cfg, acts[0], x), acts[1..];
      match acts[0] {
        case Try(body) => ActionsReach(slots, cfg, body, x);
        case Write(resp) => WriteReaches(slots, cfg, resp, false, x);
        case WriteError(resp) => WriteReaches(slots, cfg, resp, true, x);
        case _ =>
      }
      if r.outcome.Ok? {
        if r.flight.written {
          ActionsWriteOnce(cfg, rest, r.flight);
          ReachesMore(slots, r.flight.log, RunActions(cfg, rest, r.flight).flight.log);
        } else {
          ActionsReach(slots, cfg, rest, r.flight);
        }
      }
    }
  }

  /** When the Commits of the other interceptors come back, a flight with a CSP interceptor
      stops in a CSP Commit exactly if a template is written before any CSP Before is over:
      if the call that leaves the loop over Before, or the handler's, starts with no CSP
      interceptor in front of it and its code writes a template first. */
  lemma EarlyTemplatePanics(slots: seq<Slot>, handler: Flight -> seq<Action>, d: Dispatcher, m: HeaderMap)
    requires ForeignCode(slots, handler) && OthersReturn(slots) && HasCsp(slots, |slots|)
    ensures
      var cfg := Cfg(slots, handler, d);
      StopsInCsp(slots, Process(cfg, m).flight.log) <==> WritesTemplateEarly(slots, cfg, m)
  {
    var cfg := Cfg(slots, handler, d);
    CspCommitPanics(slots, handler, d, m);
    if WritesTemplateEarly(slots, cfg, m) {
      var k, s :| EarlyTemplateAt(slots, cfg, m, k, s);
      TemplateReaches(slots, cfg, m, k, s);
    }
  }

  lemma TemplateReaches(slots: seq<Slot>, cfg: Config, m: HeaderMap, k: nat, s: Flight)
    requires cfg.interceptors == Installed(slots) && OthersReturn(slots) && HasCsp(slots, |slots|)
    requires EarlyTemplateAt(slots, cfg, m, k, s)
    ensures ReachesCsp(slots, Process(cfg, m).flight.log)
  {
    var k', s' := LastEntry(cfg, m);
    LeavesOnce(cfg, m, k, s, k', s');
    var x := Log(s, if k == |slots| then HandlerCalled else BeforeCalled(k));
    ActionsForeseen(cfg, CodeOf(cfg, k, s), x);
    ActionsReach(slots, cfg, CodeOf(cfg, k, s), x);
  }

  /** An interceptor in front of a CSP one that writes a template in Before. */
  function EarlyTemplate(it: CspInterceptor): seq<Slot> {
    var writer := Interceptor((st: Flight) => [Write(TemplateResponse(0))], (st: Flight, resp: Response) => []);
    [OtherSlot(writer), CspSlot(it)]
  }

  lemma CommitWithoutNonce(it: CspInterceptor, handler: Flight -> seq<Action>, d: Dispatcher, m: HeaderMap)
    ensures
      var r := Process(Cfg(EarlyTemplate(it), handler, d), m);
      r.outcome.Panicked? && r.flight.log == [BeforeCalled(0), CommitCalled(1)] && StopsInCsp(EarlyTemplate(it), r.flight.log)
  {
    var slots, resp := EarlyTemplate(it), TemplateResponse(0);
    var cfg := Cfg(slots, handler, d);
    var x := Log(Start(m), BeforeCalled(0));
    var w := Log(x.(written := true), CommitCalled(1));
    CspCommitCall(cfg, w, resp);
    assert cfg.interceptors[1].commit(w, resp) == [Panic];
    assert RunActions(cfg, [Panic], w) == Run(w, Panicked);
    assert CommitPhase(cfg, 2, resp, x.(written := true)) == Run(w, Panicked);
    assert RunAction(cfg, Write(resp), x) == Run(w, Panicked);
    assert CallBefore(cfg, 0, Start(m)) == Run(w, Panicked);
  }
}
