/** The access control interceptor of the sample application
    (examples/sample-application/secure/auth), first as code in one flight. */
module Auth {
  import opened Common
  import opened HeaderModel
  import opened FlightModel
  import opened FlightTheorems
  import Object = FlightObject
  import Sessions

  const USER_KEY := NamedKey("auth", "user")
  const CHANGE_KEY := NamedKey("auth", "change")
  const UNAUTHORIZED_RESPONSE := ErrorResponse(401)

  /** The calls to the session tables. */
  const GET_USER := "GetUser"
  const GET_TOKEN := "GetToken"
  const DEL_SESSION := "DelSession"

  datatype SessionAction = NoChange | ClearSess | SetSess

  /** The session cookie's Set-Cookie line; its fixed attributes are left out. */
  function SessionCookie(token: string): string {
    "SESSION=" + token
  }

  function CtxUser(values: map<Key, string>): string {
    if USER_KEY in values then values[USER_KEY] else ""
  }

  function CtxSessionAction(values: map<Key, string>): SessionAction {
    if CHANGE_KEY !in values then NoChange
    else if values[CHANGE_KEY] == "clear" then ClearSess
    else if values[CHANGE_KEY] == "set" then SetSess
    else NoChange
  }

  /** The user behind the session cookie; an absent cookie reads as empty. */
  function UserFromCookie(db: Sessions.Tables, cookie: string): string {
    if cookie == "" then ""
    else
      match Sessions.UserOf(db, cookie)
      case None => ""
      case Some(user) => user
  }

  /** Before, when looking up the cookie answers with user. */
  function BeforeActions(cookie: string, user: string, skip: bool): seq<Action> {
    (if cookie != "" then [Outside(GET_USER, cookie)] else []) + AfterLookup(user, skip)
  }

  function AfterLookup(user: string, skip: bool): seq<Action> {
    (if user != "" then [Put(USER_KEY, user)] else [])
    + (if !skip && user == "" then [WriteError(UNAUTHORIZED_RESPONSE)] else [])
  }

  /** Commit in a flight with these values, when asking for a token answers with token. */
  function CommitActions(values: map<Key, string>, token: string): seq<Action> {
    var user := CtxUser(values);
    match CtxSessionAction(values)
    case NoChange => []
    case ClearSess => [Outside(DEL_SESSION, user), HeaderAction(CookieOp(SessionCookie("")))]
    case SetSess => [Outside(GET_TOKEN, user), HeaderAction(CookieOp(SessionCookie(token)))]
  }

  /** The call of the session tables that an action stands for. gen is the token that
      generating one would return. */
  function SessionOp(a: Action, gen: string): Option<Sessions.Op> {
    if !a.Outside? then None
    else if a.call == GET_USER then Some(Sessions.GetUser(a.arg))
    else if a.call == GET_TOKEN then Some(Sessions.GetToken(a.arg, gen))
    else if a.call == DEL_SESSION then Some(Sessions.DelSession(a.arg))
    else None
  }

  /** The session tables after the calls among these actions, in order. */
  function Played(db: Sessions.Tables, acts: seq<Action>, gen: string): Sessions.Tables
    decreases acts
  {
    if acts == [] then db
    else
      match SessionOp(acts[0], gen)
      case None => Played(db, acts[1..], gen)
      case Some(op) => Played(Sessions.Step(db, op), acts[1..], gen)
  }

  method CookieUser(db: Sessions.DB, cookie: string) returns (user: string)
    ensures user == UserFromCookie(db.State(), cookie)
    ensures user == if cookie == "" then "" else
              match Sessions.UserOf(db.State(), cookie) case None => "" case Some(u) => u
  {
    if cookie == "" {
      return "";
    }
    var found, ok := db.GetUser(cookie);
    if !ok {
      return "";
    }
    user := found;
  }

  method Before(db: Sessions.DB, f: Object.Flight, cookie: string, skip: bool) returns (outcome: Outcome)
    requires f.Valid()
    modifies f, f.header, f.raw
    ensures f.Valid()
    ensures Run(f.State(), outcome) ==
            RunActions(f.cfg, BeforeActions(cookie, UserFromCookie(old(db.State()), cookie), skip), old(f.State()))
    ensures !skip && (cookie == "" || Sessions.UserOf(old(db.State()), cookie) == None) ==> outcome.Panicked? || f.written
    ensures skip ==> outcome.Ok? && f.written == old(f.written) && f.log == old(f.log)
    ensures
      match Sessions.UserOf(old(db.State()), cookie)
      case Some(user) =>
        if cookie != "" && user != "" then outcome.Ok? && f.values == old(f.values)[USER_KEY := user] && f.log == old(f.log)
        else skip ==> f.values == old(f.values)
      case None => skip ==> f.values == old(f.values)
  {
    outcome := Ok;
    ghost var st := f.State();
    var user := CookieUser(db, cookie);
    BeforeRuns(f.cfg, cookie, user, skip, st);
    if user != "" {
      f.values := f.values[USER_KEY := user];
    }
    if skip {
      return;
    }
    if user == "" {
      outcome := f.WriteError(UNAUTHORIZED_RESPONSE);
    }
  }

  lemma BeforeRuns(cfg: Config, cookie: string, user: string, skip: bool, st: Flight)
    ensures
      RunActions(cfg, BeforeActions(cookie, user, skip), st) ==
      if user != "" then Run(st.(values := st.values[USER_KEY := user]), Ok)
      else if skip then Run(st, Ok)
      else RunAction(cfg, WriteError(UNAUTHORIZED_RESPONSE), st)
  {
    var acts, rest := BeforeActions(cookie, user, skip), AfterLookup(user, skip);
    AfterLookupRuns(cfg, user, skip, st);
    if cookie != "" {
      assert acts[1..] == rest;
    } else {
      assert acts == rest;
    }
  }

  lemma AfterLookupRuns(cfg: Config, user: string, skip: bool, st: Flight)
    ensures
      RunActions(cfg, AfterLookup(user, skip), st) ==
      if user != "" then Run(st.(values := st.values[USER_KEY := user]), Ok)
      else if skip then Run(st, Ok)
      else RunAction(cfg, WriteError(UNAUTHORIZED_RESPONSE), st)
  {
    var acts := AfterLookup(user, skip);
    if user != "" {
      assert acts == [Put(USER_KEY, user)] && acts[1..] == [];
    } else if !skip {
      assert acts == [WriteError(UNAUTHORIZED_RESPONSE)] && acts[1..] == [];
    }
  }

  lemma CommitRuns(cfg: Config, user: string, call: string, line: string, st: Flight)
    ensures
      var acts := [Outside(call, user), HeaderAction(CookieOp(line))];
      RunActions(cfg, acts, st) == Run(st.(hdr := Apply(st.hdr, CookieOp(line)).0), Ok)
  {
    var acts := [Outside(call, user), HeaderAction(CookieOp(line))];
    var x := st.(hdr := Apply(st.hdr, CookieOp(line)).0);
    assert acts[1..] == [HeaderAction(CookieOp(line))];
    assert acts[1..][1..] == [];
    assert RunActions(cfg, acts[1..], st) == Run(x, Ok) by { assert RunActions(cfg, [], x) == Run(x, Ok); }
  }

  lemma PlayedOne(db: Sessions.Tables, call: string, user: string, line: string, gen: string)
    ensures
      var o := Outside(call, user);
      Played(db, [o, HeaderAction(CookieOp(line))], gen) ==
      match SessionOp(o, gen)
      case None => db
      case Some(op) => Sessions.Step(db, op)
  {
    var o, c := Outside(call, user), HeaderAction(CookieOp(line));
    assert [o, c][1..] == [c] && [c][1..] == [];
    assert SessionOp(c, gen) == None;
    assert forall t :: Played(t, [c], gen) == Played(t, [], gen) == t;
  }

  /** token is what the tables answer to GetToken, if asked. The tables are left as the calls
      among the recorded actions leave them; a logout ends the user's session, and the token
      it had is nobody's. */
  method Commit(db: Sessions.DB, f: Object.Flight, gen: string) returns (token: string)
    requires f.Valid()
    modifies db, f.raw
    ensures f.Valid()
    ensures Run(f.State(), Ok) == RunActions(f.cfg, CommitActions(old(f.values), token), old(f.State()))
    ensures db.State() == Played(old(db.State()), CommitActions(old(f.values), token), gen)
    ensures
      var user, action, cookies := CtxUser(old(f.values)), CtxSessionAction(old(f.values)), old(ValuesOf(f.raw.m, "Set-Cookie"));
      && (action == NoChange ==> db.State() == old(db.State()) && f.State() == old(f.State()))
      && (action == ClearSess ==>
            && Sessions.TokenOf(db.State(), user) == None
            && (forall t :: Sessions.TokenOf(old(db.State()), user) == Some(t) ==> Sessions.UserOf(db.State(), t) == None)
            && ValuesOf(f.raw.m, "Set-Cookie") == cookies + ["SESSION="])
      && (action == SetSess ==>
            && Sessions.TokenOf(db.State(), user) == Some(token)
            && token == (match Sessions.TokenOf(old(db.State()), user) case None => gen case Some(t) => t)
            && ValuesOf(f.raw.m, "Set-Cookie") == cookies + ["SESSION=" + token])
  {
    token := "";
    ghost var st, tables := f.State(), db.State();
    var user := CtxUser(f.values);
    match CtxSessionAction(f.values)
    case ClearSess =>
      db.DelSession(user);
      var added := f.header.AddCookie(SessionCookie(""));
      assert SessionCookie("") == "SESSION=";
      CommitRuns(f.cfg, user, DEL_SESSION, SessionCookie(""), st);
      PlayedOne(tables, DEL_SESSION, user, SessionCookie(""), gen);
    case SetSess =>
      token := db.GetToken(user, gen);
      var added := f.header.AddCookie(SessionCookie(token));
      CommitRuns(f.cfg, user, GET_TOKEN, SessionCookie(token), st);
      PlayedOne(tables, GET_TOKEN, user, SessionCookie(token), gen);
    case NoChange =>
  }

  method ClearSession(f: Object.Flight)
    modifies f
    ensures f.values == old(f.values)[CHANGE_KEY := "clear"]
    ensures CtxSessionAction(f.values) == ClearSess && CtxUser(f.values) == CtxUser(old(f.values))
  {
    f.values := f.values[CHANGE_KEY := "clear"];
  }

  method CreateSession(f: Object.Flight, user: string)
    modifies f
    ensures f.values == old(f.values)[CHANGE_KEY := "set"][USER_KEY := user]
    ensures CtxSessionAction(f.values) == SetSess && CtxUser(f.values) == user
  {
    f.values := f.values[CHANGE_KEY := "set"];
    f.values := f.values[USER_KEY := user];
  }

  // ----- The handler is out of reach without a user -----

  lemma UnauthorizedEnds(cfg: Config, i: nat, cookie: string, s: Flight)
    requires i < |cfg.interceptors| && !s.written
    requires cfg.interceptors[i].before(Log(s, BeforeCalled(i))) == BeforeActions(cookie, "", false)
    ensures Ends(CallBefore(cfg, i, s))
  {
    BeforeRuns(cfg, cookie, "", false, Log(s, BeforeCalled(i)));
  }

  /** In a flight whose auth interceptor found no user and has no Skip config, the handler
      is never called, wherever that interceptor stands and whatever the others do. */
  lemma NoHandlerWithoutUser(cfg: Config, i: nat, cookie: string, m: HeaderMap)
    requires i < |cfg.interceptors|
    requires forall x :: cfg.interceptors[i].before(x) == BeforeActions(cookie, "", false)
    ensures HandlerCalled !in Process(cfg, m).flight.log
  {
    forall s: Flight | !s.written ensures Ends(CallBefore(cfg, i, s)) {
      UnauthorizedEnds(cfg, i, cookie, s);
    }
    NoHandlerBehind(cfg, i, m);
  }
}
