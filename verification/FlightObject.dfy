/** The flight as the object that safehttp/flight.go updates in place. Each method is
    proved to do to the state what FlightModel says. */
module FlightObject {
  import opened Common
  import opened HeaderModel
  import M = FlightModel

  class Flight {
    const cfg: M.Config
    /** The raw headers of the underlying http.ResponseWriter; header wraps them too. */
    const raw: HttpHeader
    const header: Header
    var written: bool
    var values: map<M.Key, string>
    var funcs: map<string, string>
    var log: seq<M.Event>

    ghost predicate Valid()
      reads this
    {
      header.wrapped == raw
    }

    function State(): M.Flight
      reads this, header, header.wrapped
    {
      M.Flight(header.Model(), written, values, funcs, log)
    }

    constructor (cfg: M.Config, raw: HttpHeader)
      ensures Valid() && this.cfg == cfg && this.raw == raw && fresh(header)
      ensures State() == M.Start(raw.m)
      ensures !written && values == map[] && funcs == map[] && log == [] && header.claimed == {}
    {
      this.cfg, this.raw := cfg, raw;
      header := new Header(raw);
      written, values, funcs, log := false, map[], map[], [];
    }

    /** Runs the code of one call. */
    method Perform(acts: seq<M.Action>) returns (outcome: Outcome)
      requires Valid()
      modifies this, header, raw
      ensures Valid() && M.Run(State(), outcome) == M.RunActions(cfg, acts, old(State()))
      decreases !written, 1, acts
    {
      if acts == [] {
        return Ok;
      }
      outcome := PerformOne(acts[0]);
      if outcome.Ok? {
        outcome := Perform(acts[1..]);
      }
    }

    method PerformOne(a: M.Action) returns (outcome: Outcome)
      requires Valid()
      modifies this, header, raw
      ensures Valid() && M.Run(State(), outcome) == M.RunAction(cfg, a, old(State()))
      decreases !written, 1, a
    {
      outcome := Ok;
      match a
      case HeaderAction(op) => outcome := PerformHeader(op);
      case Put(key, value) => values := values[key := value];
      case SetFunc(name, value) => funcs := funcs[name := value];
      case Outside(_, _) =>
      case Panic => outcome := Panicked;
      case Try(body) => var recovered := Perform(body);
      case Write(resp) => outcome := Write(resp);
      case WriteError(resp) => outcome := WriteError(resp);
    }

    method PerformHeader(op: HeaderOp) returns (outcome: Outcome)
      requires Valid()
      modifies header, raw
      ensures Valid() && (header.Model(), outcome) == Apply(old(header.Model()), op)
    {
      outcome := Ok;
      match op
      case SetOp(name, value) => outcome := header.Set(name, value);
      case AddOp(name, value) => outcome := header.Add(name, value);
      case DelOp(name) => outcome := header.Del(name);
      case ClaimOp(name) => var key; outcome, key := header.Claim(name);
      case SetterOp(key, v) => if key in header.claimed { header.CallSetter(key, v); }
      case CookieOp(line) => var added := header.AddCookie(line);
    }

    method Write(resp: M.Response) returns (outcome: Outcome)
      requires Valid()
      modifies this, header, raw
      ensures Valid() && M.Run(State(), outcome) == M.RunAction(cfg, M.Write(resp), old(State()))
      ensures old(written) ==> outcome.Panicked? && State() == old(State())
      ensures !old(written) ==>
                var behind := M.CommitPhase(cfg, |cfg.interceptors|, resp, old(State()).(written := true));
                && (behind.outcome.Panicked? ==> outcome.Panicked? && State() == behind.flight)
                && (behind.outcome.Ok? ==>
                      && State() == M.Dispatch(cfg, behind.flight, resp, false)
                      && (outcome.Ok? <==> cfg.dispatcher.accepts(behind.flight, resp)))
      decreases !written, 0
    {
      if written {
        return Panicked;
      }
      written := true;
      outcome := CommitPhase(resp);
      if outcome.Ok? {
        outcome := CallDispatcher(resp, false);
      }
    }

    method WriteError(resp: M.Response) returns (outcome: Outcome)
      requires Valid()
      modifies this, header, raw
      ensures Valid() && M.Run(State(), outcome) == M.RunAction(cfg, M.WriteError(resp), old(State()))
      ensures old(written) ==> outcome.Panicked? && State() == old(State())
      ensures !old(written) ==>
                var behind := M.CommitPhase(cfg, |cfg.interceptors|, resp, old(State()).(written := true));
                && (behind.outcome.Panicked? ==> outcome.Panicked? && State() == behind.flight)
                && (behind.outcome.Ok? ==>
                      && State() == M.Dispatch(cfg, behind.flight, resp, true)
                      && (outcome.Ok? <==> cfg.dispatcher.accepts(behind.flight, resp)))
      decreases !written, 0
    {
      if written {
        return Panicked;
      }
      written := true;
      outcome := CommitPhase(resp);
      if outcome.Ok? {
        outcome := CallDispatcher(resp, true);
      }
    }

    method CommitPhase(resp: M.Response) returns (outcome: Outcome)
      requires Valid() && written
      modifies this, header, raw
      ensures Valid() && M.Run(State(), outcome) == M.CommitPhase(cfg, |cfg.interceptors|, resp, old(State()))
      decreases !written, 2
    {
      for i := |cfg.interceptors| downto 0
        invariant Valid() && written
        invariant M.CommitPhase(cfg, i, resp, State()) ==
                  M.CommitPhase(cfg, |cfg.interceptors|, resp, old(State()))
      {
        log := log + [M.CommitCalled(i)];
        outcome := Perform(cfg.interceptors[i].commit(State(), resp));
        if outcome.Panicked? {
          return;
        }
      }
      outcome := Ok;
    }

    method CallDispatcher(resp: M.Response, isError: bool) returns (outcome: Outcome)
      requires Valid()
      modifies this, raw
      ensures Valid() && State() == M.Dispatch(cfg, old(State()), resp, isError)
      ensures raw.m == cfg.dispatcher.headersAfter(old(State()), resp)
      ensures log == old(log) + [M.Dispatched(resp, isError, old(raw.m), funcs)]
      ensures written == old(written) && values == old(values) && funcs == old(funcs)
      ensures outcome.Ok? <==> cfg.dispatcher.accepts(old(State()), resp)
    {
      outcome := if cfg.dispatcher.accepts(State(), resp) then Ok else Panicked;
      var after := cfg.dispatcher.headersAfter(State(), resp);
      log := log + [M.Dispatched(resp, isError, raw.m, funcs)];
      raw.m := after;
    }

    /** The loop over Before, then the handler: processRequest without its deferred part. */
    method RunPhases() returns (outcome: Outcome)
      requires Valid() && !written
      modifies this, header, raw
      ensures Valid() && M.Run(State(), outcome) == M.FromBefore(cfg, 0, old(State()))
    {
      for i := 0 to |cfg.interceptors|
        invariant Valid() && !written
        invariant M.FromBefore(cfg, i, State()) == M.FromBefore(cfg, 0, old(State()))
      {
        log := log + [M.BeforeCalled(i)];
        outcome := Perform(cfg.interceptors[i].before(State()));
        if outcome.Panicked? || written {
          return;
        }
      }
      log := log + [M.HandlerCalled];
      outcome := Perform(cfg.handler(State()));
      if outcome.Ok? && !written {
        var dropped := CallDispatcher(M.NoContentResponse, false);
      }
    }
  }

  /** The deferred function of processRequest: delete every raw header, one at a time. */
  method ClearHeaders(raw: HttpHeader)
    modifies raw
    ensures raw.m == map[]
  {
    var todo := raw.m.Keys;
    while todo != {}
      invariant raw.m.Keys == todo
      decreases todo
    {
      var k :| k in todo;
      raw.m := raw.m - {k};
      todo := todo - {k};
    }
  }

  method ProcessRequest(cfg: M.Config, raw: HttpHeader) returns (f: Flight, outcome: Outcome)
    modifies raw
    ensures f.raw == raw && f.Valid() && fresh(f)
    ensures M.Run(f.State(), outcome) == M.Process(cfg, old(raw.m))
    ensures outcome.Panicked? ==> raw.m == map[]
  {
    f := new Flight(cfg, raw);
    outcome := f.RunPhases();
    if outcome.Panicked? {
      ClearHeaders(raw);
    }
  }
}
