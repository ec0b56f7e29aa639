/** One request flight (safehttp/flight.go) as a function of the code that runs in it.

    Interceptors and handlers are arbitrary code. What such code does to the flight in
    one call is a finite list of actions, so a call is modelled as a function from the
    flight it starts in to the list of actions it performs. Try is a stretch of code whose
    panics are recovered by the code itself. Outside is a call to something that the flight
    does not hold, such as a database; what it answers is part of the code. */
module FlightModel {
  import opened Common
  import opened HeaderModel

  /** Keys of the flight values. Go keys of different packages are never equal. */
  datatype Key = CspNonceKey | CspHeadersKey | NamedKey(pkg: string, name: string)

  datatype Response =
    | TemplateResponse(id: nat)
    | ErrorResponse(code: nat)
    | FileServerResponse(contentType: string)
    | NoContentResponse
    | OtherResponse(id: nat)

  /** Calls that leave the framework, in the order they happen. A dispatcher call records
      the raw headers and the template functions that the dispatcher is given. */
  datatype Event =
    | BeforeCalled(i: nat)
    | HandlerCalled
    | CommitCalled(i: nat)
    | Dispatched(resp: Response, isError: bool, headers: HeaderMap, funcs: map<string, string>)

  datatype Flight = Flight(
    hdr: Headers,
    written: bool,
    values: map<Key, string>,
    funcs: map<string, string>,
    log: seq<Event>)

  datatype Action =
    | HeaderAction(op: HeaderOp)
    | Put(key: Key, value: string)
    | SetFunc(name: string, value: string)
    | Outside(call: string, arg: string)
    | Write(resp: Response)
    | WriteError(resp: Response)
    | Panic
    | Try(body: seq<Action>)

  datatype Interceptor = Interceptor(
    before: Flight -> seq<Action>,
    commit: (Flight, Response) -> seq<Action>)

  /** The dispatcher sees the flight and the response; it may edit the raw headers and may
      return an error. */
  datatype Dispatcher = Dispatcher(
    headersAfter: (Flight, Response) -> HeaderMap,
    accepts: (Flight, Response) -> bool)

  datatype Config = Config(
    interceptors: seq<Interceptor>,
    handler: Flight -> seq<Action>,
    dispatcher: Dispatcher)

  datatype Run = Run(flight: Flight, outcome: Outcome)

  function Log(st: Flight, e: Event): Flight {
    st.(log := st.log + [e])
  }

  function Dispatch(cfg: Config, st: Flight, resp: Response, isError: bool): Flight {
    Log(st, Dispatched(resp, isError, st.hdr.wrapped, st.funcs))
      .(hdr := st.hdr.(wrapped := cfg.dispatcher.headersAfter(st, resp)))
  }

  // ----- Running code in a flight -----

  function RunActions(cfg: Config, acts: seq<Action>, st: Flight): (r: Run)
    ensures st.written ==> r.flight.written
    decreases !st.written, 0, acts
  {
    if acts == [] then Run(st, Ok)
    else
      var r := RunAction(cfg, acts[0], st);
      if r.outcome.Panicked? then r else RunActions(cfg, acts[1..], r.flight)
  }

  function RunAction(cfg: Config, a: Action, st: Flight): (r: Run)
    ensures st.written ==> r.flight.written
    decreases !st.written, 0, a
  {
    match a
    case HeaderAction(op) =>
      var (h, outcome) := Apply(st.hdr, op);
      Run(st.(hdr := h), outcome)
    case Put(key, value) => Run(st.(values := st.values[key := value]), Ok)
    case SetFunc(name, value) => Run(st.(funcs := st.funcs[name := value]), Ok)
    case Outside(_, _) => Run(st, Ok)
    case Panic => Run(st, Panicked)
    case Try(body) => Run(RunActions(cfg, body, st).flight, Ok)
    case Write(resp) =>
      if st.written then Run(st, Panicked)
      else Finish(cfg, CommitPhase(cfg, |cfg.interceptors|, resp, st.(written := true)), resp, false)
    case WriteError(resp) =>
      if st.written then Run(st, Panicked)
      else Finish(cfg, CommitPhase(cfg, |cfg.interceptors|, resp, st.(written := true)), resp, true)
  }

  /** The Commit phases of interceptors i-1 down to 0, stopped by a panic. */
  function CommitPhase(cfg: Config, i: nat, resp: Response, st: Flight): (r: Run)
    requires st.written && i <= |cfg.interceptors|
    ensures r.flight.written
    decreases !st.written, 1, i
  {
    if i == 0 then Run(st, Ok)
    else
      var st' := Log(st, CommitCalled(i - 1));
      var r := RunActions(cfg, cfg.interceptors[i - 1].commit(st', resp), st');
      if r.outcome.Panicked? then r else CommitPhase(cfg, i - 1, resp, r.flight)
  }

  /** After the commit phase: the dispatcher call; an error it returns becomes a panic. */
  function Finish(cfg: Config, r: Run, resp: Response, isError: bool): Run {
    if r.outcome.Panicked? then r
    else
      Run(Dispatch(cfg, r.flight, resp, isError),
          if cfg.dispatcher.accepts(r.flight, resp) then Ok else Panicked)
  }

  // ----- The whole flight -----

  function CallBefore(cfg: Config, i: nat, st: Flight): Run
    requires i < |cfg.interceptors|
  {
    var st' := Log(st, BeforeCalled(i));
    RunActions(cfg, cfg.interceptors[i].before(st'), st')
  }

  function CallHandler(cfg: Config, st: Flight): Run {
    var st' := Log(st, HandlerCalled);
    RunActions(cfg, cfg.handler(st'), st')
  }

  /** The handler, then NoContent if nothing was written. That dispatcher call has no
      commit phase before it and its error is dropped. */
  function HandlerPhase(cfg: Config, st: Flight): Run {
    var r := CallHandler(cfg, st);
    if r.outcome.Panicked? || r.flight.written then r
    else Run(Dispatch(cfg, r.flight, NoContentResponse, false), Ok)
  }

  function FromBefore(cfg: Config, i: nat, st: Flight): Run
    requires i <= |cfg.interceptors|
    decreases |cfg.interceptors| - i
  {
    if i == |cfg.interceptors| then HandlerPhase(cfg, st)
    else
      var r := CallBefore(cfg, i, st);
      if r.outcome.Panicked? || r.flight.written then r else FromBefore(cfg, i + 1, r.flight)
  }

  function Start(m: HeaderMap): Flight {
    Flight(Headers(m, {}), false, map[], map[], [])
  }

  /** An escaping panic wipes the raw headers. */
  function Wipe(r: Run): Run {
    if r.outcome.Panicked?
    then r.(flight := r.flight.(hdr := r.flight.hdr.(wrapped := map[])))
    else r
  }

  function Process(cfg: Config, m: HeaderMap): Run {
    Wipe(FromBefore(cfg, 0, Start(m)))
  }
}
