/** What a call will do, read off its actions and the headers it starts with: nothing has to
    be run to tell whether the call panics and what it writes first. */
module FlightOutlook {
  import opened Common
  import opened HeaderModel
  import opened FlightModel
  import opened FlightTheorems
  import opened FlightTrace
  import opened TraceTheorems

  /** The call comes back or panics, with these headers, or writes a response first. */
  datatype Outlook =
    | Returns(hdr: Headers)
    | Fails(hdr: Headers)
    | Writes(resp: Response, isError: bool)

  /** written tells whether the flight was written before the call. */
  function Foresee(h: Headers, acts: seq<Action>, written: bool): Outlook
    decreases acts
  {
    if acts == [] then Returns(h)
    else
      match ForeseeOne(h, acts[0], written)
      case Returns(h1) => Foresee(h1, acts[1..], written)
      case o => o
  }

  function ForeseeOne(h: Headers, a: Action, written: bool): Outlook
    decreases a
  {
    match a
    case HeaderAction(op) => if Apply(h, op).1.Ok? then Returns(Apply(h, op).0) else Fails(h)
    case Panic => Fails(h)
    case Try(body) =>
      var o := Foresee(h, body, written);
      if o.Fails? then Returns(o.hdr) else o
    case Write(resp) => if written then Fails(h) else Writes(resp, false)
    case WriteError(resp) => if written then Fails(h) else Writes(resp, true)
    case _ => Returns(h)
  }

  /** One write begins, and it is this one. */
  ghost predicate OnlyWrite(steps: seq<Step>, resp: Response, isError: bool) {
    && WriteBegan(resp, isError) in steps
    && forall p :: 0 <= p < |steps| && steps[p].WriteBegan? ==> steps[p] == WriteBegan(resp, isError)
  }

  ghost predicate Foreseen(o: Outlook, st: Flight, r: Run, steps: seq<Step>) {
    match o
    case Returns(h) => r.outcome.Ok? && r.flight.hdr == h && r.flight.written == st.written && !Begins(steps)
    case Fails(h) => r.outcome.Panicked? && r.flight.hdr == h && r.flight.written == st.written && !Begins(steps)
    case Writes(resp, isError) => !st.written && r.flight.written && OnlyWrite(steps, resp, isError)
  }

  /** The outlook is what happens. */
  lemma {:induction false} ActionsForeseen(cfg: Config, acts: seq<Action>, st: Flight)
    ensures Foreseen(Foresee(st.hdr, acts, st.written), st, RunActions(cfg, acts, st), StepsOf(cfg, acts, st))
    decreases acts
  {
    if acts != [] {
      var r, one := RunAction(cfg, acts[0], st), StepsOfOne(cfg, acts[0], st);
      var rest := if r.outcome.Panicked? then [] else StepsOf(cfg, acts[1..], r.flight);
      ActionForeseen(cfg, acts[0], st);
      ActionsForeseen(cfg, acts[1..], r.flight);
      if r.flight.written { WrittenBeginsNot(cfg, acts[1..], r.flight); }
      assert StepsOf(cfg, acts, st) == one + rest;
      BeginsParts(one, rest);
      OnlyWriteParts(one, rest);
      ActionsWriteOnce(cfg, acts[1..], r.flight);
    }
  }

  lemma OnlyWriteParts(a: seq<Step>, b: seq<Step>)
    ensures forall resp, isError :: OnlyWrite(a, resp, isError) && !Begins(b) ==> OnlyWrite(a + b, resp, isError)
    ensures forall resp, isError :: !Begins(a) && OnlyWrite(b, resp, isError) ==> OnlyWrite(a + b, resp, isError)
  {
  }

  lemma {:induction false} ActionForeseen(cfg: Config, a: Action, st: Flight)
    ensures Foreseen(ForeseeOne(st.hdr, a, st.written), st, RunAction(cfg, a, st), StepsOfOne(cfg, a, st))
    decreases a
  {
    match a
    case Try(body) => ActionsForeseen(cfg, body, st);
    case Write(resp) => if !st.written { WriteForeseen(cfg, resp, false, st); }
    case WriteError(resp) => if !st.written { WriteForeseen(cfg, resp, true, st); }
    case _ =>
  }

  lemma WriteForeseen(cfg: Config, resp: Response, isError: bool, st: Flight)
    requires !st.written
    ensures
      var n, w := |cfg.interceptors|, st.(written := true);
      && OnlyWrite(StepsOfWrite(cfg, resp, isError, w), resp, isError)
      && Finish(cfg, CommitPhase(cfg, n, resp, w), resp, isError).flight.written
  {
    var n, w := |cfg.interceptors|, st.(written := true);
    var steps := StepsOfWrite(cfg, resp, isError, w);
    CommitsBeginNot(cfg, n, resp, w);
    assert steps[0] == WriteBegan(resp, isError);
  }

  // ----- Writing in a Commit -----

  /** Code that runs after the write panics, seen from the headers it starts with. */
  predicate Stops(h: Headers, acts: seq<Action>) {
    Foresee(h, acts, true).Fails?
  }

  /** Whoever writes outside a recovered stretch panics, at that write or before it. */
  lemma {:induction false} UnrecoveredWriteStops(h: Headers, acts: seq<Action>, j: nat)
    requires j < |acts| && IsWrite(acts[j])
    ensures Stops(h, acts)
    decreases acts
  {
    if j > 0 {
      var o := ForeseeOne(h, acts[0], true);
      WrittenWritesNot(h, acts[0]);
      if o.Returns? { UnrecoveredWriteStops(o.hdr, acts[1..], j - 1); }
    }
  }

  lemma {:induction false} WrittenWritesNot(h: Headers, a: Action)
    ensures !ForeseeOne(h, a, true).Writes?
    decreases a, 0
  {
    if a.Try? { WrittenCodeWritesNot(h, a.body); }
  }

  lemma {:induction false} WrittenCodeWritesNot(h: Headers, acts: seq<Action>)
    ensures !Foresee(h, acts, true).Writes?
    decreases acts, 1
  {
    if acts != [] {
      var o := ForeseeOne(h, acts[0], true);
      WrittenWritesNot(h, acts[0]);
      if o.Returns? { WrittenCodeWritesNot(o.hdr, acts[1..]); }
    }
  }

  /** The comment on commitPhase says that a response written in a Commit keeps the
      remaining Commits from running. They run exactly when the code of that Commit, started
      with the headers of the flight, does not stop: see UnrecoveredWriteStops for the writes
      that the comment is right about. */
  lemma WriteInCommit(cfg: Config, i: nat, resp: Response, st: Flight)
    requires st.written && 1 < i <= |cfg.interceptors|
    ensures
      var acts := cfg.interceptors[i - 1].commit(Log(st, CommitCalled(i - 1)), resp);
      CommitCalled(i - 2) in Added(st, CommitPhase(cfg, i, resp, st)) <==> !Stops(st.hdr, acts)
  {
    var x := Log(st, CommitCalled(i - 1));
    var acts := cfg.interceptors[i - 1].commit(x, resp);
    var r := RunActions(cfg, acts, x);
    ActionsForeseen(cfg, acts, x);
    ActionsWriteOnce(cfg, acts, x);
    assert r.flight.log == x.log;
    if r.outcome.Panicked? {
      assert Added(st, r) == [CommitCalled(i - 1)];
    } else {
      var rest := CommitPhase(cfg, i - 1, resp, r.flight);
      CommitsDescend(cfg, i - 1, resp, r.flight);
      assert Added(st, rest) == [CommitCalled(i - 1)] + Added(r.flight, rest);
      assert Added(st, rest)[1] == CommitCalled(i - 2);
    }
  }

  /** Two interceptors, the last of which writes in Commit and recovers. */
  function RecoveringCommit(): Config {
    var silent := Interceptor((st: Flight) => [], (st: Flight, resp: Response) => []);
    var writer := Interceptor((st: Flight) => [], (st: Flight, resp: Response) => [Try([Write(OtherResponse(0))])]);
    var dispatcher := Dispatcher((st: Flight, resp: Response) => st.hdr.wrapped, (st: Flight, resp: Response) => true);
    Config([silent, writer], (st: Flight) => [Write(OtherResponse(1))], dispatcher)
  }

  /** A flight in which a Commit writes and the next Commit runs nevertheless. */
  lemma CommitAfterWriteInCommit(m: HeaderMap)
    ensures CommitCalled(1) in Process(RecoveringCommit(), m).flight.log
    ensures CommitCalled(0) in Process(RecoveringCommit(), m).flight.log
  {
    var cfg, resp := RecoveringCommit(), OtherResponse(1);
    var s1 := Log(Start(m), BeforeCalled(0));
    var s2 := Log(s1, BeforeCalled(1));
    assert CallBefore(cfg, 0, Start(m)) == Run(s1, Ok);
    assert CallBefore(cfg, 1, s1) == Run(s2, Ok);
    var x := Log(s2, HandlerCalled);
    var w := x.(written := true);
    var c1 := Log(w, CommitCalled(1));
    var acts := [Try([Write(OtherResponse(0))])];
    assert cfg.interceptors[1].commit(c1, resp) == acts;
    assert RunActions(cfg, [Write(OtherResponse(0))], c1) == Run(c1, Panicked);
    assert acts[1..] == [];
    assert RunActions(cfg, acts, c1) == Run(c1, Ok);
    var c0 := Log(c1, CommitCalled(0));
    assert CommitPhase(cfg, 1, resp, c1) == Run(c0, Ok);
    assert CommitPhase(cfg, 2, resp, w) == Run(c0, Ok);
    assert RunAction(cfg, Write(resp), x) == Run(Dispatch(cfg, c0, resp, false), Ok);
    assert [Write(resp)][1..] == [];
    assert RunActions(cfg, [Write(resp)], x) == Run(Dispatch(cfg, c0, resp, false), Ok);
    assert CallHandler(cfg, s2) == Run(Dispatch(cfg, c0, resp, false), Ok);
    assert FromBefore(cfg, 2, s2) == CallHandler(cfg, s2);
    var log := Process(cfg, m).flight.log;
    assert log == Dispatch(cfg, c0, resp, false).log;
    assert log[3] == CommitCalled(1) && log[4] == CommitCalled(0);
  }
}
