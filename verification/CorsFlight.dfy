/** The CORS interceptor in a flight. */
module CorsFlight {
  import opened Common
  import opened HeaderModel
  import opened FlightModel
  import opened FlightTheorems
  import Object = FlightObject
  import C = Cors

  /** What a CORS Before does to a flight: mid are the headers after the claims and values it
      makes, run what comes out when it has also written its response, if any. */
  ghost predicate Intercepted(it: C.Interceptor, cfg: Config, r: C.Request, st: Flight, mid: Headers, run: Run)
    reads it
  {
    var x := st.(hdr := mid);
    match it.Decide(st.hdr, r)
    case Rejected(status) => mid.wrapped == st.hdr.wrapped && run == RunAction(cfg, WriteError(ErrorResponse(status)), x)
    case Aborted => mid.wrapped == st.hdr.wrapped && run == Run(x, Panicked)
    case Answered => it.Answers(st.hdr, mid, r) && run == RunAction(cfg, Write(NoContentResponse), x)
    case Continue => it.Answers(st.hdr, mid, r) && run == Run(x, Ok)
  }

  method Before(it: C.Interceptor, f: Object.Flight, r: C.Request) returns (outcome: Outcome, ghost mid: Headers)
    requires f.Valid()
    modifies f, f.header, f.raw
    ensures f.Valid() && Intercepted(it, f.cfg, r, old(f.State()), mid, Run(f.State(), outcome))
  {
    var d := it.Before(f.header, r);
    mid := f.header.Model();
    match d
    case Rejected(status) => outcome := f.WriteError(ErrorResponse(status));
    case Aborted => outcome := Panicked;
    case Answered => outcome := f.Write(NoContentResponse);
    case Continue => outcome := Ok;
  }

  ghost predicate IsCors(it: C.Interceptor, cfg: Config, i: nat, r: C.Request)
    requires i < |cfg.interceptors|
    reads it
  {
    forall s: Flight :: !s.written ==> exists mid :: Intercepted(it, cfg, r, Log(s, BeforeCalled(i)), mid, CallBefore(cfg, i, s))
  }

  lemma NotAdmittedEnds(it: C.Interceptor, cfg: Config, r: C.Request, st: Flight, mid: Headers, run: Run)
    requires Intercepted(it, cfg, r, st, mid, run) && (!it.Admitted(r) || r.httpMethod == "OPTIONS")
    ensures Ends(run)
  {
    it.LetThrough(st.hdr, r);
    it.PreflightNeverContinues(st.hdr, r);
  }

  /** A flight with a CORS interceptor never calls the handler for a request that is not
      admitted, nor for a preflight, whatever the other interceptors do. */
  lemma RejectedNeverHandled(it: C.Interceptor, cfg: Config, i: nat, r: C.Request, m: HeaderMap)
    requires i < |cfg.interceptors| && IsCors(it, cfg, i, r)
    requires !it.Admitted(r) || r.httpMethod == "OPTIONS"
    ensures HandlerCalled !in Process(cfg, m).flight.log
  {
    forall s: Flight | !s.written ensures Ends(CallBefore(cfg, i, s)) {
      var st := Log(s, BeforeCalled(i));
      var mid :| Intercepted(it, cfg, r, st, mid, CallBefore(cfg, i, s));
      NotAdmittedEnds(it, cfg, r, st, mid, CallBefore(cfg, i, s));
    }
    NoHandlerBehind(cfg, i, m);
  }
}
