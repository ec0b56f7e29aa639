/** Registering and choosing handlers (ServeMux in safehttp/mux.go). Matching a request to a
    pattern is left to net/http: a request comes with the pattern it was matched to, and
    every pattern is one that net/http accepts. */
module Mux {
  import opened Common
  import opened MuxConfig
  import F = FlightModel

  /** A configuration; interceptors tell configurations apart by kind. */
  datatype InterceptorConfig = InterceptorConfig(kind: nat, payload: nat)

  predicate Match(it: Interceptor, c: InterceptorConfig) {
    c.kind in it.accepts
  }

  datatype ConfiguredInterceptor = ConfiguredInterceptor(interceptor: Interceptor, config: Option<InterceptorConfig>)

  datatype HandlerConfig = HandlerConfig(handler: nat, interceptors: seq<ConfiguredInterceptor>)

  type Handlers = map<string, map<string, HandlerConfig>>

  /** One call of Handle. */
  datatype Registration = Registration(pattern: string, httpMethod: string, handler: nat, cfgs: seq<InterceptorConfig>)

  // ----- Pairing interceptors with configurations -----

  /** Two configurations are given for one installed interceptor. */
  ghost predicate Ambiguous(its: seq<Interceptor>, cfgs: seq<InterceptorConfig>) {
    exists i :: 0 <= i < |its| && MatchesTwo(its[i], cfgs)
  }

  ghost predicate MatchesTwo(it: Interceptor, cfgs: seq<InterceptorConfig>) {
    exists a, b :: 0 <= a < b < |cfgs| && Match(it, cfgs[a]) && Match(it, cfgs[b])
  }

  /** All installed interceptors in order, each with its single matching configuration or
      with none. */
  ghost predicate Paired(its: seq<Interceptor>, cfgs: seq<InterceptorConfig>, cis: seq<ConfiguredInterceptor>) {
    && |cis| == |its|
    && forall i :: 0 <= i < |its| ==>
         && cis[i].interceptor == its[i]
         && (cis[i].config.Some? ==> cis[i].config.value in cfgs && Match(its[i], cis[i].config.value))
         && (cis[i].config.None? ==> forall a :: 0 <= a < |cfgs| ==> !Match(its[i], cfgs[a]))
  }

  function Matching(it: Interceptor, cfgs: seq<InterceptorConfig>): seq<InterceptorConfig> {
    if cfgs == [] then []
    else Matching(it, cfgs[..|cfgs| - 1]) + (if Match(it, cfgs[|cfgs| - 1]) then [cfgs[|cfgs| - 1]] else [])
  }

  function Configure(its: seq<Interceptor>, cfgs: seq<InterceptorConfig>): Option<seq<ConfiguredInterceptor>> {
    if its == [] then Some([])
    else
      var it := its[|its| - 1];
      var ms := Matching(it, cfgs);
      match Configure(its[..|its| - 1], cfgs)
      case None => None
      case Some(cis) =>
        if |ms| > 1 then None
        else Some(cis + [ConfiguredInterceptor(it, if |ms| == 1 then Some(ms[0]) else None)])
  }

  /** The nested loops; None stands for the panic. */
  method ConfigureInterceptors(its: seq<Interceptor>, cfgs: seq<InterceptorConfig>)
    returns (r: Option<seq<ConfiguredInterceptor>>)
    ensures r == Configure(its, cfgs)
    ensures r.None? <==> Ambiguous(its, cfgs)
    ensures r.Some? ==> Paired(its, cfgs, r.value)
  {
    var out: seq<ConfiguredInterceptor> := [];
    for i := 0 to |its|
      invariant Configure(its[..i], cfgs) == Some(out)
    {
      assert its[..i + 1][..i] == its[..i];
      var matches: seq<InterceptorConfig> := [];
      for a := 0 to |cfgs|
        invariant matches == Matching(its[i], cfgs[..a])
      {
        assert cfgs[..a + 1][..a] == cfgs[..a];
        if Match(its[i], cfgs[a]) {
          matches := matches + [cfgs[a]];
        }
      }
      assert cfgs[..|cfgs|] == cfgs;
      if |matches| > 1 {
        NoneStays(its, cfgs, i + 1);
        ConfigurePairs(its, cfgs);
        return None;
      }
      out := out + [ConfiguredInterceptor(its[i], if |matches| == 1 then Some(matches[0]) else None)];
    }
    assert its[..|its|] == its;
    ConfigurePairs(its, cfgs);
    r := Some(out);
  }

  lemma {:induction false} NoneStays(its: seq<Interceptor>, cfgs: seq<InterceptorConfig>, k: nat)
    requires k <= |its| && Configure(its[..k], cfgs).None?
    ensures Configure(its, cfgs).None?
    decreases |its|
  {
    if k == |its| {
      assert its[..k] == its;
    } else {
      assert its[..|its| - 1][..k] == its[..k];
      NoneStays(its[..|its| - 1], cfgs, k);
    }
  }

  lemma {:induction false} MatchingCounts(it: Interceptor, cfgs: seq<InterceptorConfig>)
    ensures |Matching(it, cfgs)| > 1 <==> MatchesTwo(it, cfgs)
    ensures |Matching(it, cfgs)| >= 1 <==> exists a :: 0 <= a < |cfgs| && Match(it, cfgs[a])
    ensures forall i :: 0 <= i < |Matching(it, cfgs)| ==> Matching(it, cfgs)[i] in cfgs && Match(it, Matching(it, cfgs)[i])
  {
    if cfgs != [] {
      var n := |cfgs| - 1;
      MatchingCounts(it, cfgs[..n]);
      assert forall a :: 0 <= a < n ==> cfgs[..n][a] == cfgs[a];
      assert cfgs == cfgs[..n] + [cfgs[n]];
      if Match(it, cfgs[n]) && |Matching(it, cfgs[..n])| >= 1 {
        var a :| 0 <= a < n && Match(it, cfgs[..n][a]);
        assert Match(it, cfgs[a]);
      }
    }
  }

  lemma AmbiguousLast(its: seq<Interceptor>, cfgs: seq<InterceptorConfig>)
    requires its != []
    ensures Ambiguous(its, cfgs) <==> Ambiguous(its[..|its| - 1], cfgs) || |Matching(its[|its| - 1], cfgs)| > 1
  {
    var n := |its| - 1;
    MatchingCounts(its[n], cfgs);
    assert forall i :: 0 <= i < n ==> its[..n][i] == its[i];
  }

  lemma {:induction false} ConfigurePairs(its: seq<Interceptor>, cfgs: seq<InterceptorConfig>)
    ensures Configure(its, cfgs).None? <==> Ambiguous(its, cfgs)
    ensures Configure(its, cfgs).Some? ==> Paired(its, cfgs, Configure(its, cfgs).value)
  {
    if its != [] {
      var n := |its| - 1;
      ConfigurePairs(its[..n], cfgs);
      AmbiguousLast(its, cfgs);
      if Configure(its, cfgs).Some? {
        PairedLast(its, cfgs, Configure(its[..n], cfgs).value);
      }
    }
  }

  lemma PairedLast(its: seq<Interceptor>, cfgs: seq<InterceptorConfig>, cis: seq<ConfiguredInterceptor>)
    requires its != [] && Paired(its[..|its| - 1], cfgs, cis) && |Matching(its[|its| - 1], cfgs)| <= 1
    ensures
      var it := its[|its| - 1];
      var ms := Matching(it, cfgs);
      Paired(its, cfgs, cis + [ConfiguredInterceptor(it, if |ms| == 1 then Some(ms[0]) else None)])
  {
    MatchingCounts(its[|its| - 1], cfgs);
    assert forall i :: 0 <= i < |its| - 1 ==> its[..|its| - 1][i] == its[i];
  }

  // ----- The mux -----

  class ServeMux {
    const interceptors: seq<Interceptor>
    const methodNotAllowed: HandlerConfig
    var handlers: Handlers

    constructor (interceptors: seq<Interceptor>, methodNotAllowed: HandlerConfig)
      ensures this.interceptors == interceptors && this.methodNotAllowed == methodNotAllowed && handlers == map[]
    {
      this.interceptors, this.methodNotAllowed, handlers := interceptors, methodNotAllowed, map[];
    }

    /** The pattern is registered before anything can go wrong; the panics leave it with the
        methods it had. */
    method Handle(reg: Registration) returns (outcome: Outcome)
      modifies this
      ensures (handlers, outcome) == HandleStep(interceptors, old(handlers), reg)
    {
      if reg.pattern !in handlers {
        handlers := handlers[reg.pattern := map[]];
      }
      var cis := ConfigureInterceptors(interceptors, reg.cfgs);
      if cis.None? {
        return Panicked;
      }
      if reg.httpMethod in handlers[reg.pattern] {
        return Panicked;
      }
      handlers := handlers[reg.pattern := handlers[reg.pattern][reg.httpMethod := HandlerConfig(reg.handler, cis.value)]];
      outcome := Ok;
    }

    /** The configuration that runs a request matched to pattern. */
    method Route(pattern: string, httpMethod: string) returns (c: Option<HandlerConfig>)
      ensures c == RouteIn(handlers, methodNotAllowed, pattern, httpMethod)
    {
      if pattern !in handlers {
        return None;
      }
      c := Some(methodNotAllowed);
      if httpMethod in handlers[pattern] {
        c := Some(handlers[pattern][httpMethod]);
      }
    }
  }

  function RouteIn(hs: Handlers, notAllowed: HandlerConfig, pattern: string, httpMethod: string): Option<HandlerConfig> {
    if pattern !in hs then None
    else if httpMethod in hs[pattern] then Some(hs[pattern][httpMethod])
    else Some(notAllowed)
  }

  function HandleStep(its: seq<Interceptor>, hs: Handlers, reg: Registration): (Handlers, Outcome) {
    var hs1 := if reg.pattern in hs then hs else hs[reg.pattern := map[]];
    match Configure(its, reg.cfgs)
    case None => (hs1, Panicked)
    case Some(cis) =>
      if reg.httpMethod in hs1[reg.pattern] then (hs1, Panicked)
      else (hs1[reg.pattern := hs1[reg.pattern][reg.httpMethod := HandlerConfig(reg.handler, cis)]], Ok)
  }

  /** Any run of Handle calls; the program may go on after one that panics. */
  function HandleAll(its: seq<Interceptor>, regs: seq<Registration>): Handlers {
    if regs == [] then map[] else HandleStep(its, HandleAll(its, regs[..|regs| - 1]), regs[|regs| - 1]).0
  }

  // ----- What a run of calls registers -----

  /** The i-th call is the first for its pattern and method with unambiguous configurations. */
  ghost predicate Registers(its: seq<Interceptor>, regs: seq<Registration>, i: nat, pattern: string, httpMethod: string) {
    && i < |regs| && regs[i].pattern == pattern && regs[i].httpMethod == httpMethod && !Ambiguous(its, regs[i].cfgs)
    && forall j :: 0 <= j < i && regs[j].pattern == pattern && regs[j].httpMethod == httpMethod ==>
         Ambiguous(its, regs[j].cfgs)
  }

  /** The configuration a call asks for. */
  ghost predicate IsConfigOf(its: seq<Interceptor>, reg: Registration, c: HandlerConfig) {
    c.handler == reg.handler && Configure(its, reg.cfgs) == Some(c.interceptors) && Paired(its, reg.cfgs, c.interceptors)
  }

  /** The tables after a run, one pattern and method at a time. */
  ghost predicate Holds(its: seq<Interceptor>, regs: seq<Registration>, hs: Handlers, pattern: string, httpMethod: string) {
    && (pattern in hs <==> exists i :: 0 <= i < |regs| && regs[i].pattern == pattern)
    && (pattern in hs && httpMethod in hs[pattern] <==> exists i: nat :: Registers(its, regs, i, pattern, httpMethod))
    && (forall i: nat :: Registers(its, regs, i, pattern, httpMethod) ==>
          pattern in hs && httpMethod in hs[pattern] && IsConfigOf(its, regs[i], hs[pattern][httpMethod]))
  }

  lemma {:induction false} TablesHold(its: seq<Interceptor>, regs: seq<Registration>, pattern: string, httpMethod: string)
    ensures Holds(its, regs, HandleAll(its, regs), pattern, httpMethod)
  {
    if regs != [] {
      var n := |regs| - 1;
      TablesHold(its, regs[..n], pattern, httpMethod);
      TablesStep(its, regs, HandleAll(its, regs[..n]), pattern, httpMethod);
    }
  }

  lemma EarlierRegisters(its: seq<Interceptor>, regs: seq<Registration>, i: nat, pattern: string, httpMethod: string)
    requires regs != [] && i < |regs| - 1
    ensures Registers(its, regs, i, pattern, httpMethod) <==> Registers(its, regs[..|regs| - 1], i, pattern, httpMethod)
  {
    assert forall j :: 0 <= j < |regs| - 1 ==> regs[..|regs| - 1][j] == regs[j];
  }

  lemma OneRegisters(its: seq<Interceptor>, regs: seq<Registration>, i: nat, j: nat, pattern: string, httpMethod: string)
    requires Registers(its, regs, i, pattern, httpMethod) && Registers(its, regs, j, pattern, httpMethod)
    ensures i == j
  {
  }

  lemma TablesStep(its: seq<Interceptor>, regs: seq<Registration>, hs: Handlers, pattern: string, httpMethod: string)
    requires regs != [] && Holds(its, regs[..|regs| - 1], hs, pattern, httpMethod)
    ensures Holds(its, regs, HandleStep(its, hs, regs[|regs| - 1]).0, pattern, httpMethod)
  {
    var n := |regs| - 1;
    var before, reg := regs[..n], regs[n];
    var after := HandleStep(its, hs, reg).0;
    ConfigurePairs(its, reg.cfgs);
    LastRegisters(its, regs, pattern, httpMethod);
    assert pattern in after <==> pattern in hs || reg.pattern == pattern;
    if pattern in hs {
      var i :| 0 <= i < n && before[i].pattern == pattern;
      assert regs[i].pattern == pattern;
    }
    if reg.pattern != pattern {
      forall i | 0 <= i < |regs| && regs[i].pattern == pattern ensures pattern in hs { assert before[i] == regs[i]; }
    }
    if i: nat :| Registers(its, before, i, pattern, httpMethod) {
      EarlierRegisters(its, regs, i, pattern, httpMethod);
    }
    forall i: nat | Registers(its, regs, i, pattern, httpMethod)
      ensures pattern in after && httpMethod in after[pattern] && IsConfigOf(its, regs[i], after[pattern][httpMethod])
    {
      if i < n {
        EarlierRegisters(its, regs, i, pattern, httpMethod);
        assert before[i] == regs[i];
      } else {
        assert i == n;
      }
    }
  }

  /** The last call registers its handler exactly when no earlier one did and its
      configurations are not ambiguous. */
  lemma LastRegisters(its: seq<Interceptor>, regs: seq<Registration>, pattern: string, httpMethod: string)
    requires regs != []
    ensures
      var n := |regs| - 1;
      Registers(its, regs, n, pattern, httpMethod) <==>
      && regs[n].pattern == pattern && regs[n].httpMethod == httpMethod && !Ambiguous(its, regs[n].cfgs)
      && !exists i: nat :: Registers(its, regs[..n], i, pattern, httpMethod)
  {
    var n := |regs| - 1;
    if i: nat :| Registers(its, regs[..n], i, pattern, httpMethod) {
      assert regs[i] == regs[..n][i];
    }
    if regs[n].pattern == pattern && regs[n].httpMethod == httpMethod && !Registers(its, regs, n, pattern, httpMethod)
       && !Ambiguous(its, regs[n].cfgs) {
      var k := FirstClear(its, regs, n, pattern, httpMethod);
      assert Registers(its, regs[..n], k, pattern, httpMethod);
    }
  }

  lemma {:induction false} FirstClear(its: seq<Interceptor>, regs: seq<Registration>, n: nat, pattern: string, httpMethod: string)
    returns (k: nat)
    requires n <= |regs|
    requires exists j :: 0 <= j < n && regs[j].pattern == pattern && regs[j].httpMethod == httpMethod && !Ambiguous(its, regs[j].cfgs)
    ensures k < n && Registers(its, regs, k, pattern, httpMethod)
    decreases n
  {
    k :| 0 <= k < n && regs[k].pattern == pattern && regs[k].httpMethod == httpMethod && !Ambiguous(its, regs[k].cfgs);
    if !Registers(its, regs, k, pattern, httpMethod) {
      k := FirstClear(its, regs, k, pattern, httpMethod);
    }
  }

  /** After any run of Handle calls, a request on a registered pattern gets the handler of
      the one call that registered its method, with all installed interceptors in order and
      their matching configurations, and method-not-allowed if there is none; other patterns
      are not known. */
  lemma Routed(its: seq<Interceptor>, regs: seq<Registration>, notAllowed: HandlerConfig, pattern: string, httpMethod: string)
    ensures
      var c := RouteIn(HandleAll(its, regs), notAllowed, pattern, httpMethod);
      && (c.None? <==> forall i :: 0 <= i < |regs| ==> regs[i].pattern != pattern)
      && (forall i: nat :: Registers(its, regs, i, pattern, httpMethod) ==> c.Some? && IsConfigOf(its, regs[i], c.value))
      && (forall i: nat, j: nat ::
            Registers(its, regs, i, pattern, httpMethod) && Registers(its, regs, j, pattern, httpMethod) ==> i == j)
      && (c.Some? && (forall i: nat :: !Registers(its, regs, i, pattern, httpMethod)) ==> c.value == notAllowed)
  {
    forall i: nat, j: nat | Registers(its, regs, i, pattern, httpMethod) && Registers(its, regs, j, pattern, httpMethod)
      ensures i == j
    {
      OneRegisters(its, regs, i, j, pattern, httpMethod);
    }
    TablesHold(its, regs, pattern, httpMethod);
  }

  /** Handle panics exactly on a pair that an earlier call registered or when two
      configurations match one interceptor. */
  lemma HandlePanics(its: seq<Interceptor>, regs: seq<Registration>, reg: Registration)
    ensures
      HandleStep(its, HandleAll(its, regs), reg).1.Panicked? <==>
      || Ambiguous(its, reg.cfgs)
      || exists i: nat :: Registers(its, regs, i, reg.pattern, reg.httpMethod)
  {
    TablesHold(its, regs, reg.pattern, reg.httpMethod);
    ConfigurePairs(its, reg.cfgs);
  }

  /** A call that panics changes no earlier registration; all it can do is to make its own
      pattern known, with method-not-allowed for every method. */
  lemma FailedHandle(its: seq<Interceptor>, hs: Handlers, reg: Registration, notAllowed: HandlerConfig, pattern: string, httpMethod: string)
    requires HandleStep(its, hs, reg).1.Panicked?
    ensures
      var was, now := RouteIn(hs, notAllowed, pattern, httpMethod), RouteIn(HandleStep(its, hs, reg).0, notAllowed, pattern, httpMethod);
      now == if was.None? && pattern == reg.pattern then Some(notAllowed) else was
  {
  }

  // ----- The flights that a mux starts -----

  /** The flight configuration that serves a request, when code tells what each configured
      interceptor and each handler does. */
  function Served(c: HandlerConfig, code: ConfiguredInterceptor -> F.Interceptor,
                  handlers: nat -> F.Flight -> seq<F.Action>, d: F.Dispatcher): F.Config
  {
    F.Config(seq(|c.interceptors|, j requires 0 <= j < |c.interceptors| => code(c.interceptors[j])), handlers(c.handler), d)
  }

  /** A request on a registered pattern and method is one flight of the registered handler
      through all installed interceptors, in the order of their installation, each with its
      matching configuration or none. */
  lemma RoutedFlight(its: seq<Interceptor>, regs: seq<Registration>, i: nat, notAllowed: HandlerConfig,
                     code: ConfiguredInterceptor -> F.Interceptor, handlers: nat -> F.Flight -> seq<F.Action>, d: F.Dispatcher)
    returns (cis: seq<ConfiguredInterceptor>)
    requires i < |regs| && Registers(its, regs, i, regs[i].pattern, regs[i].httpMethod)
    ensures Paired(its, regs[i].cfgs, cis)
    ensures
      var c := RouteIn(HandleAll(its, regs), notAllowed, regs[i].pattern, regs[i].httpMethod);
      && c.Some?
      && var cfg := Served(c.value, code, handlers, d);
      && |cfg.interceptors| == |its| && cfg.handler == handlers(regs[i].handler)
      && forall j :: 0 <= j < |its| ==> cfg.interceptors[j] == code(cis[j])
  {
    Routed(its, regs, notAllowed, regs[i].pattern, regs[i].httpMethod);
    cis := RouteIn(HandleAll(its, regs), notAllowed, regs[i].pattern, regs[i].httpMethod).value.interceptors;
  }
}
