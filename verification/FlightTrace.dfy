/** Everything that happens in a flight, in order: not only the calls that the log shows, but
    also what the code of each call does. */
module FlightTrace {
  import opened HeaderModel
  import opened FlightModel

  /** Did is an action that took effect, Refused one that panicked; DispatchFailed is the
      panic of a write whose dispatcher call returned an error. */
  datatype Step =
    | Did(a: Action)
    | Refused(a: Action)
    | WriteBegan(resp: Response, isError: bool)
    | Called(e: Event)
    | DispatchFailed

  // ----- The steps of a flight -----

  function StepsOf(cfg: Config, acts: seq<Action>, st: Flight): seq<Step>
    decreases !st.written, 0, acts
  {
    if acts == [] then []
    else
      var r := RunAction(cfg, acts[0], st);
      StepsOfOne(cfg, acts[0], st) + if r.outcome.Panicked? then [] else StepsOf(cfg, acts[1..], r.flight)
  }

  function StepsOfOne(cfg: Config, a: Action, st: Flight): seq<Step>
    decreases !st.written, 0, a
  {
    match a
    case HeaderAction(op) => [if Apply(st.hdr, op).1.Ok? then Did(a) else Refused(a)]
    case Panic => [Refused(a)]
    case Try(body) => StepsOf(cfg, body, st)
    case Write(resp) => if st.written then [Refused(a)] else StepsOfWrite(cfg, resp, false, st.(written := true))
    case WriteError(resp) => if st.written then [Refused(a)] else StepsOfWrite(cfg, resp, true, st.(written := true))
    case _ => [Did(a)]
  }

  function StepsOfWrite(cfg: Config, resp: Response, isError: bool, st: Flight): seq<Step>
    requires st.written
    decreases !st.written, 2
  {
    var r := CommitPhase(cfg, |cfg.interceptors|, resp, st);
    [WriteBegan(resp, isError)] + StepsOfCommits(cfg, |cfg.interceptors|, resp, st) +
    if r.outcome.Panicked? then []
    else [Called(DispatchOf(r.flight, resp, isError))] + if cfg.dispatcher.accepts(r.flight, resp) then [] else [DispatchFailed]
  }

  function DispatchOf(st: Flight, resp: Response, isError: bool): Event {
    Dispatched(resp, isError, st.hdr.wrapped, st.funcs)
  }

  function StepsOfCommits(cfg: Config, i: nat, resp: Response, st: Flight): seq<Step>
    requires st.written && i <= |cfg.interceptors|
    decreases !st.written, 1, i
  {
    if i == 0 then []
    else
      var st' := Log(st, CommitCalled(i - 1));
      var acts := cfg.interceptors[i - 1].commit(st', resp);
      var r := RunActions(cfg, acts, st');
      [Called(CommitCalled(i - 1))] + StepsOf(cfg, acts, st') +
      if r.outcome.Panicked? then [] else StepsOfCommits(cfg, i - 1, resp, r.flight)
  }

  function StepsOfHandler(cfg: Config, st: Flight): seq<Step> {
    var st' := Log(st, HandlerCalled);
    var r := CallHandler(cfg, st);
    [Called(HandlerCalled)] + StepsOf(cfg, cfg.handler(st'), st') +
    if r.outcome.Panicked? || r.flight.written then [] else [Called(DispatchOf(r.flight, NoContentResponse, false))]
  }

  function StepsOfBefore(cfg: Config, i: nat, st: Flight): seq<Step>
    requires i < |cfg.interceptors|
  {
    var st' := Log(st, BeforeCalled(i));
    [Called(BeforeCalled(i))] + StepsOf(cfg, cfg.interceptors[i].before(st'), st')
  }

  function StepsFrom(cfg: Config, i: nat, st: Flight): seq<Step>
    requires i <= |cfg.interceptors|
    decreases |cfg.interceptors| - i
  {
    if i == |cfg.interceptors| then StepsOfHandler(cfg, st)
    else
      var r := CallBefore(cfg, i, st);
      StepsOfBefore(cfg, i, st) +
      if r.outcome.Panicked? || r.flight.written then [] else StepsFrom(cfg, i + 1, r.flight)
  }

  function Trace(cfg: Config, m: HeaderMap): seq<Step> {
    StepsFrom(cfg, 0, Start(m))
  }

  // ----- Replaying the steps -----

  /** What one step does to a flight. */
  function Redo(cfg: Config, st: Flight, s: Step): Flight {
    match s
    case Did(HeaderAction(op)) => st.(hdr := Apply(st.hdr, op).0)
    case Did(Put(key, value)) => st.(values := st.values[key := value])
    case Did(SetFunc(name, value)) => st.(funcs := st.funcs[name := value])
    case WriteBegan(_, _) => st.(written := true)
    case Called(e) => if e.Dispatched? then Dispatch(cfg, st, e.resp, e.isError) else Log(st, e)
    case _ => st
  }

  function Replay(cfg: Config, st: Flight, steps: seq<Step>): Flight {
    if steps == [] then st else Redo(cfg, Replay(cfg, st, steps[..|steps| - 1]), steps[|steps| - 1])
  }

  lemma {:induction false} ReplayAppend(cfg: Config, st: Flight, a: seq<Step>, b: seq<Step>)
    ensures Replay(cfg, st, a + b) == Replay(cfg, Replay(cfg, st, a), b)
  {
    if b == [] {
      assert a + b == a;
    } else {
      ReplayAppend(cfg, st, a, b[..|b| - 1]);
      assert (a + b)[..|a + b| - 1] == a + b[..|b| - 1];
    }
  }

  lemma ReplayOneStep(cfg: Config, st: Flight, s: Step)
    ensures Replay(cfg, st, [s]) == Redo(cfg, st, s)
  {
    assert [s][..0] == [];
  }

  lemma {:induction false} ReplayActions(cfg: Config, acts: seq<Action>, st: Flight)
    ensures Replay(cfg, st, StepsOf(cfg, acts, st)) == RunActions(cfg, acts, st).flight
    decreases !st.written, 0, acts
  {
    if acts != [] {
      var r := RunAction(cfg, acts[0], st);
      ReplayAction(cfg, acts[0], st);
      if r.outcome.Panicked? {
        assert StepsOf(cfg, acts, st) == StepsOfOne(cfg, acts[0], st);
      } else {
        ReplayActions(cfg, acts[1..], r.flight);
        ReplayAppend(cfg, st, StepsOfOne(cfg, acts[0], st), StepsOf(cfg, acts[1..], r.flight));
      }
    }
  }

  lemma {:induction false} ReplayAction(cfg: Config, a: Action, st: Flight)
    ensures Replay(cfg, st, StepsOfOne(cfg, a, st)) == RunAction(cfg, a, st).flight
    decreases !st.written, 0, a
  {
    match a
    case Try(body) => ReplayActions(cfg, body, st);
    case Write(resp) => if !st.written { ReplayWrite(cfg, resp, false, st); } else { ReplayOneStep(cfg, st, Refused(a)); }
    case WriteError(resp) => if !st.written { ReplayWrite(cfg, resp, true, st); } else { ReplayOneStep(cfg, st, Refused(a)); }
    case HeaderAction(op) => ReplayOneStep(cfg, st, if Apply(st.hdr, op).1.Ok? then Did(a) else Refused(a));
    case Panic => ReplayOneStep(cfg, st, Refused(a));
    case _ => ReplayOneStep(cfg, st, Did(a));
  }

  lemma {:induction false} ReplayWrite(cfg: Config, resp: Response, isError: bool, st: Flight)
    requires !st.written
    ensures
      var w := st.(written := true);
      Replay(cfg, st, StepsOfWrite(cfg, resp, isError, w))
      == Finish(cfg, CommitPhase(cfg, |cfg.interceptors|, resp, w), resp, isError).flight
    decreases false, 2
  {
    var n, w := |cfg.interceptors|, st.(written := true);
    var first, commits, r := [WriteBegan(resp, isError)], StepsOfCommits(cfg, n, resp, w), CommitPhase(cfg, n, resp, w);
    ReplayOneStep(cfg, st, first[0]);
    ReplayCommits(cfg, n, resp, w);
    ReplayAppend(cfg, st, first, commits);
    if r.outcome.Panicked? {
      assert StepsOfWrite(cfg, resp, isError, w) == first + commits;
    } else {
      ReplayDispatch(cfg, st, first + commits, r.flight, resp, isError);
    }
  }

  lemma ReplayDispatch(cfg: Config, st: Flight, steps: seq<Step>, x: Flight, resp: Response, isError: bool)
    requires Replay(cfg, st, steps) == x
    ensures Replay(cfg, st, steps + ([Called(DispatchOf(x, resp, isError))] + [])) == Dispatch(cfg, x, resp, isError)
    ensures Replay(cfg, st, steps + ([Called(DispatchOf(x, resp, isError))] + [DispatchFailed])) == Dispatch(cfg, x, resp, isError)
  {
    var d := Called(DispatchOf(x, resp, isError));
    ReplayOneStep(cfg, x, d);
    ReplayAppend(cfg, st, steps, [d]);
    ReplayAppend(cfg, st, steps + [d], [DispatchFailed]);
    ReplayOneStep(cfg, Dispatch(cfg, x, resp, isError), DispatchFailed);
    assert steps + ([d] + []) == steps + [d];
    assert steps + ([d] + [DispatchFailed]) == steps + [d] + [DispatchFailed];
  }

  lemma {:induction false} ReplayCommits(cfg: Config, i: nat, resp: Response, st: Flight)
    requires st.written && i <= |cfg.interceptors|
    ensures Replay(cfg, st, StepsOfCommits(cfg, i, resp, st)) == CommitPhase(cfg, i, resp, st).flight
    decreases !st.written, 1, i
  {
    if i > 0 {
      var st' := Log(st, CommitCalled(i - 1));
      var acts := cfg.interceptors[i - 1].commit(st', resp);
      var r := RunActions(cfg, acts, st');
      ReplayCall(cfg, st, CommitCalled(i - 1), acts);
      var steps := [Called(CommitCalled(i - 1))] + StepsOf(cfg, acts, st');
      if r.outcome.Panicked? {
        assert StepsOfCommits(cfg, i, resp, st) == steps;
      } else {
        ReplayCommits(cfg, i - 1, resp, r.flight);
        ReplayAppend(cfg, st, steps, StepsOfCommits(cfg, i - 1, resp, r.flight));
      }
    }
  }

  lemma {:induction false} ReplayCall(cfg: Config, st: Flight, e: Event, acts: seq<Action>)
    requires !e.Dispatched?
    ensures Replay(cfg, st, [Called(e)] + StepsOf(cfg, acts, Log(st, e))) == RunActions(cfg, acts, Log(st, e)).flight
    decreases !st.written, 1, 0
  {
    ReplayOneStep(cfg, st, Called(e));
    ReplayActions(cfg, acts, Log(st, e));
    ReplayAppend(cfg, st, [Called(e)], StepsOf(cfg, acts, Log(st, e)));
  }

  lemma ReplayHandler(cfg: Config, st: Flight)
    ensures Replay(cfg, st, StepsOfHandler(cfg, st)) == HandlerPhase(cfg, st).flight
  {
    var st' := Log(st, HandlerCalled);
    var r := CallHandler(cfg, st);
    var steps := [Called(HandlerCalled)] + StepsOf(cfg, cfg.handler(st'), st');
    ReplayCall(cfg, st, HandlerCalled, cfg.handler(st'));
    if r.outcome.Panicked? || r.flight.written {
      assert StepsOfHandler(cfg, st) == steps;
    } else {
      ReplayDispatch(cfg, st, steps, r.flight, NoContentResponse, false);
      assert StepsOfHandler(cfg, st) == steps + ([Called(DispatchOf(r.flight, NoContentResponse, false))] + []);
    }
  }

  lemma {:induction false} ReplayFrom(cfg: Config, i: nat, st: Flight)
    requires i <= |cfg.interceptors|
    ensures Replay(cfg, st, StepsFrom(cfg, i, st)) == FromBefore(cfg, i, st).flight
    decreases |cfg.interceptors| - i
  {
    if i == |cfg.interceptors| {
      ReplayHandler(cfg, st);
    } else {
      var r := CallBefore(cfg, i, st);
      var steps := StepsOfBefore(cfg, i, st);
      ReplayCall(cfg, st, BeforeCalled(i), cfg.interceptors[i].before(Log(st, BeforeCalled(i))));
      if r.outcome.Panicked? || r.flight.written {
        assert StepsFrom(cfg, i, st) == steps;
      } else {
        ReplayFrom(cfg, i + 1, r.flight);
        ReplayAppend(cfg, st, steps, StepsFrom(cfg, i + 1, r.flight));
      }
    }
  }

  /** The trace leaves nothing out: redoing its steps one by one is the whole flight. */
  lemma TraceIsTheFlight(cfg: Config, m: HeaderMap)
    ensures Replay(cfg, Start(m), Trace(cfg, m)) == FromBefore(cfg, 0, Start(m)).flight
  {
    ReplayFrom(cfg, 0, Start(m));
  }
}
