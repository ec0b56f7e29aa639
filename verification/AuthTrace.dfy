/** Where in a flight the session tables are called, and with what. */
module AuthTrace {
  import opened HeaderModel
  import opened FlightModel
  import opened FlightTheorems
  import opened FlightInvariants
  import opened FlightTrace
  import opened TraceTheorems
  import opened Auth

  /** A request: the flight's configuration, in which interceptor i is auth's, the cookie,
      and what the session tables answer to the two questions auth may ask. gen is the token
      that generating one would return. */
  datatype Request = Request(
    cfg: Config, m: HeaderMap, i: nat, cookie: string, skip: bool, found: string, token: string, gen: string)

  function Steps(q: Request): seq<Step> {
    Trace(q.cfg, q.m)
  }

  predicate SessionCall(a: Action) {
    a.Outside? && a.call in {GET_USER, GET_TOKEN, DEL_SESSION}
  }

  function NoSessionCall(): Action -> bool {
    a => !SessionCall(a)
  }

  /** Interceptor i is auth's; no other code calls the session tables. */
  ghost predicate WithAuth(q: Request) {
    && q.i < |q.cfg.interceptors|
    && (q.cookie == "" ==> q.found == "")
    && (forall st :: q.cfg.interceptors[q.i].before(st) == BeforeActions(q.cookie, q.found, q.skip))
    && (forall st, resp :: q.cfg.interceptors[q.i].commit(st, resp) == CommitActions(st.values, q.token))
    && OthersKeepOut(q)
  }

  ghost predicate OthersKeepOut(q: Request) {
    && (forall st :: All(q.cfg.handler(st), NoSessionCall()))
    && (forall j, st | 0 <= j < |q.cfg.interceptors| && j != q.i :: All(q.cfg.interceptors[j].before(st), NoSessionCall()))
    && (forall j, st, resp | 0 <= j < |q.cfg.interceptors| && j != q.i ::
          All(q.cfg.interceptors[j].commit(st, resp), NoSessionCall()))
  }

  // ----- What explains a call -----

  /** The last user stored by the code of a flight. */
  function LastUser(steps: seq<Step>): string {
    match LastPut(steps, USER_KEY)
    case None => ""
    case Some(user) => user
  }

  /** The last session action asked for by the code of a flight. */
  function LastAction(steps: seq<Step>): SessionAction {
    match LastPut(steps, CHANGE_KEY)
    case None => NoChange
    case Some(v) => if v == "clear" then ClearSess else if v == "set" then SetSess else NoChange
  }

  /** The session call at p opens auth's Before and looks the cookie up. */
  predicate LooksUp(q: Request, t: seq<Step>, p: nat)
    requires p < |t|
  {
    p > 0 && t[p - 1] == Called(BeforeCalled(q.i)) && t[p] == Did(Outside(GET_USER, q.cookie)) && q.cookie != ""
  }

  lemma BeginsBefore(t: seq<Step>, more: seq<Step>)
    requires Begins(t)
    ensures Begins(t + more)
  {
    var w :| 0 <= w < |t| && t[w].WriteBegan?;
    assert (t + more)[w].WriteBegan?;
  }

  /** The session call at p opens auth's Commit, after a write began, and does what the code
      of the flight asked for last, for the user it stored last. */
  ghost predicate Changes(q: Request, t: seq<Step>, p: nat)
    requires p < |t|
  {
    && p > 0 && t[p - 1] == Called(CommitCalled(q.i)) && Begins(t[..p])
    && match LastAction(t[..p])
       case NoChange => false
       case ClearSess => t[p] == Did(Outside(DEL_SESSION, LastUser(t[..p])))
       case SetSess => t[p] == Did(Outside(GET_TOKEN, LastUser(t[..p])))
  }

  ghost predicate Explained(q: Request, t: seq<Step>) {
    forall p :: 0 <= p < |t| && t[p].Did? && SessionCall(t[p].a) ==> LooksUp(q, t, p) || Changes(q, t, p)
  }

  lemma ExplainedStep(q: Request, t: seq<Step>, s: Step)
    requires Explained(q, t)
    requires s.Did? && SessionCall(s.a) ==> LooksUp(q, t + [s], |t|) || Changes(q, t + [s], |t|)
    ensures Explained(q, t + [s])
  {
    var t' := t + [s];
    forall p | 0 <= p < |t'| && t'[p].Did? && SessionCall(t'[p].a) ensures LooksUp(q, t', p) || Changes(q, t', p) {
      if p < |t| {
        assert t'[..p] == t[..p];
      }
    }
  }

  /** t is a history of q's flight that ends at st. */
  ghost predicate History(q: Request, t: seq<Step>, st: Flight) {
    Explained(q, t) && Replay(q.cfg, Start(q.m), t) == st
  }

  lemma HistoryStep(q: Request, t: seq<Step>, st: Flight, s: Step)
    requires History(q, t, st) && !(s.Did? && SessionCall(s.a))
    ensures History(q, t + [s], Redo(q.cfg, st, s))
  {
    ExplainedStep(q, t, s);
    assert (t + [s])[..|t|] == t;
  }

  // ----- Code that does not call the session tables -----

  lemma ActionsInTurn(cfg: Config, t: seq<Step>, acts: seq<Action>, st: Flight)
    requires acts != []
    ensures
      var r := RunAction(cfg, acts[0], st);
      t + StepsOf(cfg, acts, st) ==
      t + StepsOfOne(cfg, acts[0], st) + if r.outcome.Panicked? then [] else StepsOf(cfg, acts[1..], r.flight)
  {
    var r, one := RunAction(cfg, acts[0], st), StepsOfOne(cfg, acts[0], st);
    var rest := if r.outcome.Panicked? then [] else StepsOf(cfg, acts[1..], r.flight);
    assert StepsOf(cfg, acts, st) == one + rest;
    assert t + (one + rest) == t + one + rest;
  }

  lemma {:induction false} OtherActions(q: Request, t: seq<Step>, acts: seq<Action>, st: Flight)
    requires WithAuth(q) && History(q, t, st) && All(acts, NoSessionCall())
    ensures History(q, t + StepsOf(q.cfg, acts, st), RunActions(q.cfg, acts, st).flight)
    decreases !st.written, 0, acts
  {
    if acts == [] {
      assert t + [] == t;
    } else {
      assert AllIn(acts[0], NoSessionCall());
      OtherAction(q, t, acts[0], st);
      var r, one, rest := RunAction(q.cfg, acts[0], st), StepsOfOne(q.cfg, acts[0], st), acts[1..];
      ActionsInTurn(q.cfg, t, acts, st);
      if r.outcome.Ok? {
        assert forall j :: 0 <= j < |rest| ==> rest[j] == acts[j + 1];
        OtherActions(q, t + one, rest, r.flight);
      } else {
        assert t + one + [] == t + one;
      }
    }
  }

  lemma {:induction false} OtherAction(q: Request, t: seq<Step>, a: Action, st: Flight)
    requires WithAuth(q) && History(q, t, st) && AllIn(a, NoSessionCall())
    ensures History(q, t + StepsOfOne(q.cfg, a, st), RunAction(q.cfg, a, st).flight)
    decreases !st.written, 0, a
  {
    match a
    case Try(body) => OtherActions(q, t, body, st);
    case Write(resp) => if !st.written { AnyWrite(q, t, resp, false, st); } else { HistoryStep(q, t, st, Refused(a)); }
    case WriteError(resp) => if !st.written { AnyWrite(q, t, resp, true, st); } else { HistoryStep(q, t, st, Refused(a)); }
    case HeaderAction(op) => HistoryStep(q, t, st, if Apply(st.hdr, op).1.Ok? then Did(a) else Refused(a));
    case Panic => HistoryStep(q, t, st, Refused(a));
    case _ => HistoryStep(q, t, st, Did(a));
  }

  lemma {:induction false} AnyWrite(q: Request, t: seq<Step>, resp: Response, isError: bool, st: Flight)
    requires WithAuth(q) && History(q, t, st) && !st.written
    ensures
      var n, w := |q.cfg.interceptors|, st.(written := true);
      History(q, t + StepsOfWrite(q.cfg, resp, isError, w), Finish(q.cfg, CommitPhase(q.cfg, n, resp, w), resp, isError).flight)
    decreases false, 2
  {
    var n, w := |q.cfg.interceptors|, st.(written := true);
    var first, commits, r := WriteBegan(resp, isError), StepsOfCommits(q.cfg, n, resp, w), CommitPhase(q.cfg, n, resp, w);
    HistoryStep(q, t, st, first);
    assert Begins(t + [first]) by { assert (t + [first])[|t|].WriteBegan?; }
    AnyCommits(q, t + [first], n, resp, w);
    var t1 := t + [first] + commits;
    if r.outcome.Panicked? {
      assert t + StepsOfWrite(q.cfg, resp, isError, w) == t1;
    } else {
      var d := Called(DispatchOf(r.flight, resp, isError));
      HistoryStep(q, t1, r.flight, d);
      HistoryStep(q, t1 + [d], Dispatch(q.cfg, r.flight, resp, isError), DispatchFailed);
      assert t + StepsOfWrite(q.cfg, resp, isError, w) ==
             if q.cfg.dispatcher.accepts(r.flight, resp) then t1 + [d] else t1 + [d] + [DispatchFailed];
    }
  }

  lemma {:induction false} AnyCommits(q: Request, t: seq<Step>, j: nat, resp: Response, st: Flight)
    requires WithAuth(q) && History(q, t, st) && st.written && j <= |q.cfg.interceptors| && Begins(t)
    ensures History(q, t + StepsOfCommits(q.cfg, j, resp, st), CommitPhase(q.cfg, j, resp, st).flight)
    decreases !st.written, 1, j
  {
    if j == 0 {
      assert t + [] == t;
    } else {
      var r, own := CommitRun(q.cfg, j, resp, st), CommitSteps(q.cfg, j, resp, st);
      OneCommit(q, t, j, resp, st);
      if r.outcome.Ok? {
        BeginsBefore(t, own);
        AnyCommits(q, t + own, j - 1, resp, r.flight);
      }
      CommitsJoin(q, t, j, resp, st);
    }
  }

  lemma CommitsJoin(q: Request, t: seq<Step>, j: nat, resp: Response, st: Flight)
    requires st.written && 0 < j <= |q.cfg.interceptors|
    requires
      var r, own := CommitRun(q.cfg, j, resp, st), CommitSteps(q.cfg, j, resp, st);
      if r.outcome.Panicked? then History(q, t + own, r.flight)
      else r.flight.written && History(q, t + own + StepsOfCommits(q.cfg, j - 1, resp, r.flight),
                                       CommitPhase(q.cfg, j - 1, resp, r.flight).flight)
    ensures History(q, t + StepsOfCommits(q.cfg, j, resp, st), CommitPhase(q.cfg, j, resp, st).flight)
  {
    CommitsInTurn(q.cfg, t, j, resp, st);
  }

  function CommitRun(cfg: Config, j: nat, resp: Response, st: Flight): Run
    requires 0 < j <= |cfg.interceptors|
  {
    var x := Log(st, CommitCalled(j - 1));
    RunActions(cfg, cfg.interceptors[j - 1].commit(x, resp), x)
  }

  function CommitSteps(cfg: Config, j: nat, resp: Response, st: Flight): seq<Step>
    requires 0 < j <= |cfg.interceptors|
  {
    var x := Log(st, CommitCalled(j - 1));
    [Called(CommitCalled(j - 1))] + StepsOf(cfg, cfg.interceptors[j - 1].commit(x, resp), x)
  }

  lemma CommitsInTurn(cfg: Config, t: seq<Step>, j: nat, resp: Response, st: Flight)
    requires st.written && 0 < j <= |cfg.interceptors|
    ensures
      var r, own := CommitRun(cfg, j, resp, st), CommitSteps(cfg, j, resp, st);
      && CommitPhase(cfg, j, resp, st) == (if r.outcome.Panicked? then r else CommitPhase(cfg, j - 1, resp, r.flight))
      && t + StepsOfCommits(cfg, j, resp, st)
         == if r.outcome.Panicked? then t + own else t + own + StepsOfCommits(cfg, j - 1, resp, r.flight)
  {
  }

  lemma {:induction false} OneCommit(q: Request, t: seq<Step>, j: nat, resp: Response, st: Flight)
    requires WithAuth(q) && History(q, t, st) && st.written && 0 < j <= |q.cfg.interceptors| && Begins(t)
    ensures History(q, t + CommitSteps(q.cfg, j, resp, st), CommitRun(q.cfg, j, resp, st).flight)
    ensures CommitRun(q.cfg, j, resp, st).flight.written
    decreases !st.written, 1, j, 0
  {
    var c, x := Called(CommitCalled(j - 1)), Log(st, CommitCalled(j - 1));
    var acts := q.cfg.interceptors[j - 1].commit(x, resp);
    HistoryStep(q, t, st, c);
    BeginsBefore(t, [c]);
    if j - 1 == q.i { AuthCommit(q, t + [c], resp, x); } else { OtherActions(q, t + [c], acts, x); }
    assert t + ([c] + StepsOf(q.cfg, acts, x)) == t + [c] + StepsOf(q.cfg, acts, x);
  }

  // ----- Auth's own code -----

  /** A session call followed by code that makes none. */
  lemma {:induction false} CallThenOthers(q: Request, t: seq<Step>, o: Action, rest: seq<Action>, st: Flight)
    requires WithAuth(q) && History(q, t, st) && SessionCall(o) && All(rest, NoSessionCall())
    requires LooksUp(q, t + [Did(o)], |t|) || Changes(q, t + [Did(o)], |t|)
    ensures History(q, t + StepsOf(q.cfg, [o] + rest, st), RunActions(q.cfg, [o] + rest, st).flight)
    decreases !st.written, 1, 0, 0
  {
    var s := Did(o);
    ExplainedStep(q, t, s);
    assert (t + [s])[..|t|] == t;
    OtherActions(q, t + [s], rest, st);
    assert ([o] + rest)[1..] == rest;
    assert t + StepsOf(q.cfg, [o] + rest, st) == t + [s] + StepsOf(q.cfg, rest, st);
  }

  lemma {:induction false} AuthCommit(q: Request, t: seq<Step>, resp: Response, x: Flight)
    requires WithAuth(q) && History(q, t, x) && x.written
    requires t != [] && t[|t| - 1] == Called(CommitCalled(q.i)) && Begins(t)
    ensures
      var acts := q.cfg.interceptors[q.i].commit(x, resp);
      History(q, t + StepsOf(q.cfg, acts, x), RunActions(q.cfg, acts, x).flight)
    decreases !x.written, 1, 0
  {
    ValuesReplayed(q.cfg, Start(q.m), t, USER_KEY);
    ValuesReplayed(q.cfg, Start(q.m), t, CHANGE_KEY);
    var acts := q.cfg.interceptors[q.i].commit(x, resp);
    if acts == [] {
      assert t + [] == t;
    } else {
      var o, rest := acts[0], [acts[1]];
      assert acts == [o] + rest;
      CommitChanges(q, t, o);
      CallThenOthers(q, t, o, rest, x);
    }
  }

  lemma CommitChanges(q: Request, t: seq<Step>, o: Action)
    requires t != [] && t[|t| - 1] == Called(CommitCalled(q.i)) && Begins(t)
    requires match LastAction(t)
             case NoChange => false
             case ClearSess => o == Outside(DEL_SESSION, LastUser(t))
             case SetSess => o == Outside(GET_TOKEN, LastUser(t))
    ensures Changes(q, t + [Did(o)], |t|)
  {
    assert (t + [Did(o)])[..|t|] == t;
  }

  lemma AuthBefore(q: Request, t: seq<Step>, st: Flight)
    requires WithAuth(q) && History(q, t, st)
    ensures
      var x := Log(st, BeforeCalled(q.i));
      var acts := BeforeActions(q.cookie, q.found, q.skip);
      History(q, t + [Called(BeforeCalled(q.i))] + StepsOf(q.cfg, acts, x), RunActions(q.cfg, acts, x).flight)
  {
    var c, x := Called(BeforeCalled(q.i)), Log(st, BeforeCalled(q.i));
    var rest := AfterLookup(q.found, q.skip);
    HistoryStep(q, t, st, c);
    assert All(rest, NoSessionCall());
    if q.cookie != "" {
      CallThenOthers(q, t + [c], Outside(GET_USER, q.cookie), rest, x);
    } else {
      assert BeforeActions(q.cookie, q.found, q.skip) == rest;
      OtherActions(q, t + [c], rest, x);
    }
  }

  // ----- The whole flight -----

  lemma HandlerExplained(q: Request, t: seq<Step>, st: Flight)
    requires WithAuth(q) && History(q, t, st)
    ensures Explained(q, t + StepsOfHandler(q.cfg, st))
  {
    var c, x := Called(HandlerCalled), Log(st, HandlerCalled);
    var r, own := CallHandler(q.cfg, st), StepsOf(q.cfg, q.cfg.handler(x), x);
    HistoryStep(q, t, st, c);
    OtherActions(q, t + [c], q.cfg.handler(x), x);
    var t1 := t + [c] + own;
    if r.outcome.Panicked? || r.flight.written {
      assert t + StepsOfHandler(q.cfg, st) == t1;
    } else {
      var d := Called(DispatchOf(r.flight, NoContentResponse, false));
      HistoryStep(q, t1, r.flight, d);
      assert t + StepsOfHandler(q.cfg, st) == t1 + [d];
    }
  }

  lemma BeforeExplained(q: Request, t: seq<Step>, j: nat, st: Flight)
    requires WithAuth(q) && History(q, t, st) && j < |q.cfg.interceptors|
    ensures History(q, t + StepsOfBefore(q.cfg, j, st), CallBefore(q.cfg, j, st).flight)
  {
    var c, x := Called(BeforeCalled(j)), Log(st, BeforeCalled(j));
    var acts := q.cfg.interceptors[j].before(x);
    if j == q.i {
      AuthBefore(q, t, st);
    } else {
      HistoryStep(q, t, st, c);
      OtherActions(q, t + [c], acts, x);
    }
    assert t + StepsOfBefore(q.cfg, j, st) == t + [c] + StepsOf(q.cfg, acts, x);
  }

  lemma {:induction false} ExplainedFrom(q: Request, t: seq<Step>, j: nat, st: Flight)
    requires WithAuth(q) && History(q, t, st) && j <= |q.cfg.interceptors|
    ensures Explained(q, t + StepsFrom(q.cfg, j, st))
    decreases |q.cfg.interceptors| - j
  {
    if j == |q.cfg.interceptors| {
      HandlerExplained(q, t, st);
    } else {
      var r, t1 := CallBefore(q.cfg, j, st), t + StepsOfBefore(q.cfg, j, st);
      BeforeExplained(q, t, j, st);
      StepsInTurn(q.cfg, t, j, st);
      if r.outcome.Panicked? || r.flight.written {
        assert t1 + [] == t1;
      } else {
        ExplainedFrom(q, t1, j + 1, r.flight);
      }
    }
  }

  /** In every flight each call to the session tables either looks up the request's cookie
      at the start of auth's Before, or is made at the start of auth's Commit after a write
      began, for the session action asked for last and the user stored last. */
  lemma SessionCallsExplained(q: Request)
    requires WithAuth(q)
    ensures Explained(q, Steps(q))
  {
    ExplainedFrom(q, [], 0, Start(q.m));
    assert [] + Steps(q) == Steps(q);
  }

  predicate Mutates(s: Step) {
    s.Did? && SessionCall(s.a) && s.a.call != GET_USER
  }

  /** No flight changes the session tables twice. */
  lemma ChangesOnce(q: Request, p: nat, p': nat)
    requires WithAuth(q) && p < p' < |Steps(q)|
    ensures !(Mutates(Steps(q)[p]) && Mutates(Steps(q)[p']))
  {
    SessionCallsExplained(q);
    if Mutates(Steps(q)[p]) && Mutates(Steps(q)[p']) {
      CalledOnce(q.cfg, q.m, p - 1, p' - 1);
    }
  }

  lemma HandledMeansFound(q: Request, p: nat)
    requires WithAuth(q) && !q.skip && p < |Steps(q)| && Steps(q)[p] == Called(HandlerCalled)
    ensures q.found != "" && Entry(q.cfg, q.i, Start(q.m)).Some?
  {
    TraceIsTheFlight(q.cfg, q.m);
    CalledIsLogged(q.cfg, Start(q.m), Steps(q), p);
    if q.found == "" { NoHandlerWithoutUser(q.cfg, q.i, q.cookie, q.m); }
    HandledIsEntry(q.cfg, q.m);
    EarlierEntries(q.cfg, q.i, |q.cfg.interceptors|, Start(q.m));
  }

  /** Where auth's Before starts. */
  lemma AuthStarts(q: Request) returns (before: seq<Step>)
    requires WithAuth(q) && q.cookie != "" && Entry(q.cfg, q.i, Start(q.m)).Some?
    ensures Replay(q.cfg, Start(q.m), before).log == Befores(q.i) && |before| + 1 < |Steps(q)|
    ensures before == Steps(q)[..|before|] && Steps(q)[|before|] == Called(BeforeCalled(q.i))
    ensures Steps(q)[|before| + 1] == Did(Outside(GET_USER, q.cookie))
  {
    var s := Entry(q.cfg, q.i, Start(q.m)).value;
    before := EntrySteps(q.cfg, q.m, q.i, s);
    EntryIsOnTheWay(q.cfg, q.i, Start(q.m));
    LookupComes(q, s);
  }

  /** Without Skip, the handler is called only for a request with a user, and only after the
      lookup that found that user. */
  lemma HandlerHasLookup(q: Request, p: nat) returns (p0: nat)
    requires WithAuth(q) && !q.skip && p < |Steps(q)| && Steps(q)[p] == Called(HandlerCalled)
    ensures q.found != "" && p0 < p && Steps(q)[p0] == Did(Outside(GET_USER, q.cookie))
  {
    HandledMeansFound(q, p);
    var before := AuthStarts(q);
    p0 := |before| + 1;
    if p < |before| { NotYetHandled(q, before, p); }
  }

  lemma NotYetHandled(q: Request, before: seq<Step>, p: nat)
    requires p < |before| && Replay(q.cfg, Start(q.m), before).log == Befores(q.i)
    ensures before[p] != Called(HandlerCalled)
  {
    if before[p] == Called(HandlerCalled) { CalledIsLogged(q.cfg, Start(q.m), before, p); }
  }

  lemma LookupComes(q: Request, s: Flight)
    requires WithAuth(q) && q.cookie != ""
    ensures
      var steps := StepsFrom(q.cfg, q.i, s);
      |steps| > 1 && steps[0] == Called(BeforeCalled(q.i)) && steps[1] == Did(Outside(GET_USER, q.cookie))
  {
    var x, acts := Log(s, BeforeCalled(q.i)), BeforeActions(q.cookie, q.found, q.skip);
    assert acts[0] == Outside(GET_USER, q.cookie);
    assert StepsOf(q.cfg, acts, x)[0] == Did(acts[0]);
  }
}
