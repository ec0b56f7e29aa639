/** An execution to which the theorems about interleavings apply: one request logs a user in
    and the next one presents the cookie. */
module AuthExample {
  import opened Common
  import opened HeaderModel
  import opened FlightModel
  import opened FlightInvariants
  import opened FlightTrace
  import opened Auth
  import opened AuthTrace
  import opened AuthConcurrency
  import S = Sessions

  /** A flight with auth alone. */
  function AuthOnly(cookie: string, found: string, skip: bool, token: string, handler: seq<Action>): Config {
    var auth := Interceptor((st: Flight) => BeforeActions(cookie, found, skip),
                            (st: Flight, resp: Response) => CommitActions(st.values, token));
    var dispatcher := Dispatcher((st: Flight, resp: Response) => st.hdr.wrapped, (st: Flight, resp: Response) => true);
    Config([auth], (st: Flight) => handler, dispatcher)
  }

  /** What the login handler does: CreateSession, then a response. */
  function LoginActions(user: string): seq<Action> {
    [Put(CHANGE_KEY, "set"), Put(USER_KEY, user), Write(OtherResponse(0))]
  }

  function Login(user: string, token: string): Request {
    Request(AuthOnly("", "", true, token, LoginActions(user)), map[], 0, "", true, "", token, token)
  }

  function Visit(user: string, token: string): Request {
    Request(AuthOnly(token, user, false, "", []), map[], 0, token, false, user, "", "")
  }

  lemma LoginHasAuth(user: string, token: string)
    ensures WithAuth(Login(user, token))
  {
    assert All(LoginActions(user), NoSessionCall());
  }

  lemma VisitHasAuth(user: string, token: string)
    requires token != ""
    ensures WithAuth(Visit(user, token))
  {
    assert All([], NoSessionCall());
  }

  /** The steps of the login up to the session call. */
  function LoginSteps(user: string): seq<Step> {
    [Called(BeforeCalled(0)), Called(HandlerCalled), Did(Put(CHANGE_KEY, "set")), Did(Put(USER_KEY, user)),
     WriteBegan(OtherResponse(0), false), Called(CommitCalled(0)), Did(Outside(GET_TOKEN, user))]
  }

  lemma LoginTrace(user: string, token: string)
    ensures LoginSteps(user) <= Steps(Login(user, token))
  {
    var q, resp := Login(user, token), OtherResponse(0);
    var cfg, s := q.cfg, Log(Start(q.m), BeforeCalled(0));
    assert BeforeActions("", "", true) == [];
    assert CallBefore(cfg, 0, Start(q.m)) == Run(s, Ok);
    assert StepsOfBefore(cfg, 0, Start(q.m)) == [Called(BeforeCalled(0))];
    var x := Log(s, HandlerCalled);
    var x1 := x.(values := x.values[CHANGE_KEY := "set"]);
    var x2 := x1.(values := x1.values[USER_KEY := user]);
    LoginWrites(user, token, x2);
    var acts := LoginActions(user);
    assert acts[1..] == [Put(USER_KEY, user), Write(resp)] && acts[1..][1..] == [Write(resp)];
    assert StepsOf(cfg, [Write(resp)], x2)[..3] == LoginSteps(user)[4..];
    assert StepsOf(cfg, acts[1..], x1) == [Did(Put(USER_KEY, user))] + StepsOf(cfg, [Write(resp)], x2);
    assert StepsOf(cfg, acts, x) == [Did(Put(CHANGE_KEY, "set"))] + StepsOf(cfg, acts[1..], x1);
    assert StepsOfHandler(cfg, s)[..6] == LoginSteps(user)[1..];
    assert Steps(q) == [Called(BeforeCalled(0))] + StepsOfHandler(cfg, s);
  }

  /** The write that ends the login. */
  lemma LoginWrites(user: string, token: string, x: Flight)
    requires !x.written && CtxUser(x.values) == user && CtxSessionAction(x.values) == SetSess
    ensures
      var steps := StepsOf(Login(user, token).cfg, [Write(OtherResponse(0))], x);
      |steps| >= 3 && steps[..3] == LoginSteps(user)[4..]
  {
    var cfg, resp := Login(user, token).cfg, OtherResponse(0);
    var w := x.(written := true);
    var c := Log(w, CommitCalled(0));
    var acts := cfg.interceptors[0].commit(c, resp);
    assert acts == [Outside(GET_TOKEN, user), HeaderAction(CookieOp(SessionCookie(token)))];
    ActionsInTurn(cfg, [], acts, c);
    assert StepsOfOne(cfg, acts[0], c) == [Did(Outside(GET_TOKEN, user))];
    assert StepsOf(cfg, acts, c)[0] == Did(Outside(GET_TOKEN, user));
    var commits := StepsOfCommits(cfg, 1, resp, w);
    assert commits[0] == Called(CommitCalled(0)) && commits[1] == Did(Outside(GET_TOKEN, user));
    var steps := StepsOfWrite(cfg, resp, false, w);
    assert steps[0] == WriteBegan(resp, false) && steps[1] == commits[0] && steps[2] == commits[1];
    ActionsInTurn(cfg, [], [Write(resp)], x);
    assert StepsOfOne(cfg, Write(resp), x) == steps;
    assert StepsOf(cfg, [Write(resp)], x)[..3] == steps[..3];
  }

  function Times(n: nat, r: nat): seq<nat> {
    if n == 0 then [] else Times(n - 1, r) + [r]
  }

  lemma {:induction false} TimesIs(n: nat, r: nat, k: nat)
    requires k <= n
    ensures |Times(n, r)| == n && Times(n, r)[..k] == Times(k, r)
    ensures forall x :: multiset(Times(n, r))[x] == if x == r then n else 0
    decreases n
  {
    if k < n {
      TimesIs(n - 1, r, k);
    } else if n > 0 {
      TimesIs(n - 1, r, n - 1);
      assert Times(n, r)[..n] == Times(n, r);
    }
  }

  /** Seven steps of the login, then two of the visit. */
  function Schedule(): seq<nat> {
    Times(7, 0) + [1, 1]
  }

  ghost predicate SevenThenTwo(sch: seq<nat>) {
    && |sch| == 9 && (forall k: nat :: k < 7 ==> sch[k] == 0 && Place(sch, k) == k)
    && sch[7] == sch[8] == 1 && Place(sch, 7) == 0 && Place(sch, 8) == 1
  }

  lemma Places()
    ensures SevenThenTwo(Schedule())
  {
    TimesIs(7, 0, 7);
    forall k: nat | k < 7 ensures Schedule()[k] == 0 && Place(Schedule(), k) == k {
      TimesIs(7, 0, k);
      TimesIs(7, 0, k + 1);
      TimesIs(k, 0, k);
      assert Schedule()[..k] == Times(k, 0);
      assert Times(7, 0)[k] == Times(7, 0)[..k + 1][k];
    }
    assert Schedule()[..7] == Times(7, 0);
    assert Schedule()[..8] == Times(7, 0) + [1];
  }

  /** What the first nine steps ask of the session tables. */
  ghost predicate NineSteps(reqs: seq<Request>, sch: seq<nat>, user: string, token: string) {
    && Scheduled(reqs, sch) && |reqs| == 2 && |sch| == 9 && sch[6] == 0 && sch[8] == 1
    && (forall k :: 0 <= k < 9 && k != 6 && k != 8 ==> OpOf(StepAt(reqs, sch, k), reqs[sch[k]].gen) == None)
    && OpOf(StepAt(reqs, sch, 6), reqs[0].gen) == Some(S.GetToken(user, token))
    && OpOf(StepAt(reqs, sch, 8), reqs[1].gen) == Some(S.GetUser(token))
    && reqs[0].token == token && reqs[1].found == user
  }

  lemma StepsLong(user: string, token: string)
    requires token != ""
    ensures LoginSteps(user) <= Steps(Login(user, token)) && |Steps(Visit(user, token))| > 1
    ensures Steps(Visit(user, token))[0] == Called(BeforeCalled(0))
    ensures Steps(Visit(user, token))[1] == Did(Outside(GET_USER, token))
  {
    LoginTrace(user, token);
    VisitHasAuth(user, token);
    LookupComes(Visit(user, token), Start(map[]));
  }

  /** A session is asked for in the seventh step, and no call made before. */
  ghost predicate AsksSeventh(steps: seq<Step>, user: string, gen: string) {
    && |steps| > 6 && (forall k :: 0 <= k < 6 ==> OpOf(steps[k], gen) == None)
    && OpOf(steps[6], gen) == Some(S.GetToken(user, gen))
  }

  /** The cookie is looked up in the second step. */
  ghost predicate LooksSecond(steps: seq<Step>, token: string) {
    |steps| > 1 && OpOf(steps[0], "") == None && OpOf(steps[1], "") == Some(S.GetUser(token))
  }

  lemma LoginAsks(steps: seq<Step>, user: string, gen: string)
    requires LoginSteps(user) <= steps
    ensures AsksSeventh(steps, user, gen)
  {
    forall k | 0 <= k < 7 ensures steps[k] == LoginSteps(user)[k] {
    }
  }

  lemma TheyTakeThem(reqs: seq<Request>, sch: seq<nat>, user: string, token: string)
    requires SevenThenTwo(sch) && |reqs| == 2
    requires AsksSeventh(Steps(reqs[0]), user, token) && LooksSecond(Steps(reqs[1]), token)
    requires reqs[0].gen == reqs[0].token == token && reqs[1].found == user && reqs[1].gen == ""
    ensures NineSteps(reqs, sch, user, token)
  {
    forall k | 0 <= k < 9 ensures sch[k] < 2 && Place(sch, k) < |Steps(reqs[sch[k]])| {
      if k < 7 { assert Place(sch, k) == k; } else { assert Place(sch, k) == k - 7; }
    }
    assert Place(sch, 6) == 6;
    forall k | 0 <= k < 9 && k != 6 && k != 8 ensures OpOf(StepAt(reqs, sch, k), reqs[sch[k]].gen) == None {
      if k < 6 { assert Place(sch, k) == k; }
    }
  }

  lemma {:induction false} NoCallsYet(reqs: seq<Request>, sch: seq<nat>, k: nat)
    requires Scheduled(reqs, sch) && k <= |sch|
    requires forall j :: 0 <= j < k ==> OpOf(StepAt(reqs, sch, j), reqs[sch[j]].gen) == None
    ensures Calls(reqs, sch, k) == []
  {
    if k > 0 { NoCallsYet(reqs, sch, k - 1); }
  }

  lemma CallsMade(reqs: seq<Request>, sch: seq<nat>, user: string, token: string)
    requires NineSteps(reqs, sch, user, token)
    ensures Calls(reqs, sch, 6) == [] && Calls(reqs, sch, 8) == [Entry(0, S.GetToken(user, token))]
  {
    NoCallsYet(reqs, sch, 6);
    assert Calls(reqs, sch, 7) == [Entry(0, S.GetToken(user, token))];
  }

  lemma LiveAfter(user: string, token: string)
    ensures
      var e := Entry(0, S.GetToken(user, token));
      && S.UserOf(S.After(Ops([e])), token) == Some(user) && S.NeverReused(Ops([e]))
      && S.TokenOf(S.Step(S.After(Ops([])), e.op), user) == Some(token)
  {
    var h := Ops([Entry(0, S.GetToken(user, token))]);
    assert h == [S.GetToken(user, token)] && h[..0] == [] && Ops([]) == [];
  }

  lemma AllAnswered(reqs: seq<Request>, sch: seq<nat>, user: string, token: string, k: nat)
    requires NineSteps(reqs, sch, user, token) && token != "" && k < 9
    ensures Answered(reqs, sch, k)
  {
    CallsMade(reqs, sch, user, token);
    LiveAfter(user, token);
  }

  /** An execution of two requests in which the second is identified as user at step 8. */
  ghost predicate Identifies(reqs: seq<Request>, sch: seq<nat>, user: string) {
    && Execution(reqs, sch) && |reqs| == 2 && |sch| == 9 && sch[8] == 1 && Asks(StepAt(reqs, sch, 8))
    && reqs[1].found == user && S.NeverReused(Ops(Calls(reqs, sch, 8)))
  }

  lemma TwoExecute(reqs: seq<Request>, sch: seq<nat>)
    requires |reqs| == 2 && WithAuth(reqs[0]) && WithAuth(reqs[1]) && Scheduled(reqs, sch)
    requires forall k :: 0 <= k < |sch| ==> Answered(reqs, sch, k)
    ensures Execution(reqs, sch)
  {
    forall r | 0 <= r < 2 ensures WithAuth(reqs[r]) {
      assert r == 0 || r == 1;
    }
  }

  lemma SecondAsks(reqs: seq<Request>, sch: seq<nat>, user: string, token: string)
    requires NineSteps(reqs, sch, user, token)
    ensures Asks(StepAt(reqs, sch, 8)) && S.NeverReused(Ops(Calls(reqs, sch, 8)))
  {
    CallsMade(reqs, sch, user, token);
    LiveAfter(user, token);
  }

  /** For every user and token there is a login and a visit that the theorem
      AuthConcurrency.IdentifiedWasLoggedIn is about. */
  lemma VisitIsIdentified(user: string, token: string) returns (reqs: seq<Request>, sch: seq<nat>)
    requires user != "" && token != ""
    ensures Identifies(reqs, sch, user)
  {
    var login, visit := Login(user, token), Visit(user, token);
    reqs, sch := [login, visit], Schedule();
    LoginHasAuth(user, token);
    VisitHasAuth(user, token);
    StepsLong(user, token);
    LoginAsks(Steps(login), user, token);
    Places();
    TheyTakeThem(reqs, sch, user, token);
    forall k | 0 <= k < 9 ensures Answered(reqs, sch, k) { AllAnswered(reqs, sch, user, token, k); }
    TwoExecute(reqs, sch);
    SecondAsks(reqs, sch, user, token);
  }
}
