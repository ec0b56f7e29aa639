/** An induction principle for properties that hold throughout a flight. */
module FlightInvariants {
  import opened FlightModel
  import opened FlightTheorems

  /** Every action of the code, recovered stretches included, is allowed. */
  ghost predicate All(acts: seq<Action>, allowed: Action -> bool)
    decreases acts
  {
    forall i :: 0 <= i < |acts| ==> AllIn(acts[i], allowed)
  }

  ghost predicate AllIn(a: Action, allowed: Action -> bool)
    decreases a
  {
    allowed(a) && (a.Try? ==> All(a.body, allowed))
  }

  /** The actions that change the flight without running other code. */
  predicate Simple(a: Action) {
    !a.Try? && !a.Write? && !a.WriteError?
  }

  predicate NoDispatch(log: seq<Event>) {
    forall i :: 0 <= i < |log| ==> !log[i].Dispatched?
  }

  /** inv is kept by each step a flight can take. A write dispatches once, after all its
      Commits have run. */
  ghost predicate Kept(cfg: Config, inv: Flight -> bool, allowed: Action -> bool) {
    && (forall a, st :: inv(st) && allowed(a) && Simple(a) ==> inv(RunAction(cfg, a, st).flight))
    && (forall i, st :: inv(st) ==> inv(Log(st, CommitCalled(i))))
    && (forall st :: inv(st) ==> inv(st.(written := true)))
    && (forall st, resp, isError :: inv(st) && st.written && NoDispatch(st.log) ==>
          AfterCommits(cfg, inv, resp, isError, CommitPhase(cfg, |cfg.interceptors|, resp, st)))
    && (forall i, st, resp :: 0 <= i < |cfg.interceptors| && inv(st) ==>
          All(cfg.interceptors[i].commit(st, resp), allowed))
  }

  ghost predicate AfterCommits(cfg: Config, inv: Flight -> bool, resp: Response, isError: bool, r: Run) {
    r.outcome.Ok? && inv(r.flight) && NoDispatch(r.flight.log) ==> inv(Dispatch(cfg, r.flight, resp, isError))
  }

  ghost predicate Unsent(st: Flight) {
    !st.written ==> NoDispatch(st.log)
  }

  lemma {:induction false} ActionsKeep(cfg: Config, inv: Flight -> bool, allowed: Action -> bool,
                                       acts: seq<Action>, st: Flight)
    requires Kept(cfg, inv, allowed) && inv(st) && Unsent(st) && All(acts, allowed)
    ensures inv(RunActions(cfg, acts, st).flight)
    ensures Unsent(RunActions(cfg, acts, st).flight)
    decreases !st.written, 0, acts
  {
    if acts != [] {
      assert AllIn(acts[0], allowed);
      ActionKeeps(cfg, inv, allowed, acts[0], st);
      var r := RunAction(cfg, acts[0], st);
      if r.outcome.Ok? {
        var rest := acts[1..];
        assert forall i :: 0 <= i < |rest| ==> rest[i] == acts[i + 1];
        ActionsKeep(cfg, inv, allowed, rest, r.flight);
      }
    }
  }

  lemma {:induction false} ActionKeeps(cfg: Config, inv: Flight -> bool, allowed: Action -> bool,
                                       a: Action, st: Flight)
    requires Kept(cfg, inv, allowed) && inv(st) && Unsent(st) && AllIn(a, allowed)
    ensures inv(RunAction(cfg, a, st).flight)
    ensures Unsent(RunAction(cfg, a, st).flight)
    decreases !st.written, 0, a
  {
    match a
    case Try(body) => ActionsKeep(cfg, inv, allowed, body, st);
    case Write(resp) => if !st.written { WriteKeeps(cfg, inv, allowed, resp, false, st); }
    case WriteError(resp) => if !st.written { WriteKeeps(cfg, inv, allowed, resp, true, st); }
    case _ => assert Simple(a);
  }

  lemma {:induction false} WriteKeeps(cfg: Config, inv: Flight -> bool, allowed: Action -> bool,
                                      resp: Response, isError: bool, st: Flight)
    requires Kept(cfg, inv, allowed) && inv(st) && !st.written && NoDispatch(st.log)
    ensures
      var r := Finish(cfg, CommitPhase(cfg, |cfg.interceptors|, resp, st.(written := true)), resp, isError);
      inv(r.flight) && r.flight.written
    decreases false, 2
  {
    var n, w := |cfg.interceptors|, st.(written := true);
    CommitsKeep(cfg, inv, allowed, n, resp, w);
    assert AfterCommits(cfg, inv, resp, isError, CommitPhase(cfg, n, resp, w));
  }

  lemma {:induction false} CommitsKeep(cfg: Config, inv: Flight -> bool, allowed: Action -> bool,
                                       i: nat, resp: Response, st: Flight)
    requires Kept(cfg, inv, allowed) && inv(st) && st.written && i <= |cfg.interceptors|
    requires NoDispatch(st.log)
    ensures inv(CommitPhase(cfg, i, resp, st).flight)
    ensures NoDispatch(CommitPhase(cfg, i, resp, st).flight.log)
    decreases !st.written, 1, i
  {
    if i > 0 {
      var st' := Log(st, CommitCalled(i - 1));
      var acts := cfg.interceptors[i - 1].commit(st', resp);
      ActionsKeep(cfg, inv, allowed, acts, st');
      ActionsWriteOnce(cfg, acts, st');
      var r := RunActions(cfg, acts, st');
      assert r.flight.log == st'.log;
      if r.outcome.Ok? { CommitsKeep(cfg, inv, allowed, i - 1, resp, r.flight); }
    }
  }
}
