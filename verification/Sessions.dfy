/** The session tables of the sample application's storage
    (examples/sample-application/storage/fakedb.go). By use, and against the comments on
    the fields, sessionTokens maps a token to its user and userSessions a user to its
    token. */
module Sessions {
  import opened Common

  /** One call of the database, made under its lock. gen is the token that generating one
      would return at that moment. */
  datatype Op =
    | GetUser(token: string)
    | GetToken(user: string, gen: string)
    | DelSession(user: string)

  datatype Tables = Tables(sessionTokens: map<string, string>, userSessions: map<string, string>)

  function Step(s: Tables, op: Op): Tables {
    match op
    case GetUser(_) => s
    case GetToken(user, gen) =>
      if user in s.userSessions then s
      else Tables(s.sessionTokens[gen := user], s.userSessions[user := gen])
    case DelSession(user) =>
      if user !in s.userSessions then s
      else Tables(s.sessionTokens - {s.userSessions[user]}, s.userSessions - {user})
  }

  function UserOf(s: Tables, token: string): Option<string> {
    if token in s.sessionTokens then Some(s.sessionTokens[token]) else None
  }

  function TokenOf(s: Tables, user: string): Option<string> {
    if user in s.userSessions then Some(s.userSessions[user]) else None
  }

  function After(h: seq<Op>): Tables {
    if h == [] then Tables(map[], map[]) else Step(After(h[..|h| - 1]), h[|h| - 1])
  }

  class DB {
    var sessionTokens: map<string, string>
    var userSessions: map<string, string>

    function State(): Tables
      reads this
    {
      Tables(sessionTokens, userSessions)
    }

    constructor ()
      ensures State() == After([])
    {
      sessionTokens, userSessions := map[], map[];
    }

    method GetUser(token: string) returns (user: string, valid: bool)
      ensures valid <==> UserOf(State(), token).Some?
      ensures user == if valid then UserOf(State(), token).value else ""
    {
      valid := token in sessionTokens;
      user := if valid then sessionTokens[token] else "";
    }

    method GetToken(user: string, gen: string) returns (token: string)
      modifies this
      ensures State() == Step(old(State()), Op.GetToken(user, gen))
      ensures TokenOf(State(), user) == Some(token)
    {
      if user in userSessions {
        return userSessions[user];
      }
      token := gen;
      userSessions := userSessions[user := token];
      sessionTokens := sessionTokens[token := user];
    }

    method DelSession(user: string)
      modifies this
      ensures State() == Step(old(State()), Op.DelSession(user))
      ensures TokenOf(State(), user) == None
    {
      if user !in userSessions {
        return;
      }
      var token := userSessions[user];
      userSessions := userSessions - {user};
      sessionTokens := sessionTokens - {token};
    }
  }

  // ----- The two tables as one relation -----

  ghost predicate Inverse(s: Tables) {
    forall t, u :: UserOf(s, t) == Some(u) <==> TokenOf(s, u) == Some(t)
  }

  /** The tables stay inverse to each other exactly when a token made for a user is not one
      that is live for somebody else. */
  lemma InverseKept(s: Tables, op: Op)
    requires Inverse(s)
    ensures Inverse(Step(s, op)) <==>
            !(op.GetToken? && op.user !in s.userSessions && op.gen in s.sessionTokens)
  {
    if op.GetToken? && op.user !in s.userSessions {
      var s' := Step(s, op);
      if op.gen in s.sessionTokens {
        var other := s.sessionTokens[op.gen];
        assert UserOf(s, op.gen) == Some(other);
        assert TokenOf(s', other) == Some(op.gen) && UserOf(s', op.gen) == Some(op.user);
      } else {
        forall t, u ensures UserOf(s', t) == Some(u) <==> TokenOf(s', u) == Some(t) {
          assert UserOf(s, t) == Some(u) <==> TokenOf(s, u) == Some(t);
          assert UserOf(s, op.gen) == Some(u) <==> TokenOf(s, u) == Some(op.gen);
        }
      }
    } else if op.DelSession? && op.user in s.userSessions {
      var s', token := Step(s, op), s.userSessions[op.user];
      forall t, u ensures UserOf(s', t) == Some(u) <==> TokenOf(s', u) == Some(t) {
        assert UserOf(s, t) == Some(u) <==> TokenOf(s, u) == Some(t);
        assert UserOf(s, token) == Some(op.user) <==> TokenOf(s, op.user) == Some(token);
      }
    }
  }

  // ----- The tables against the history, one user at a time -----

  /** The session of one user, from the calls that name that user alone. */
  function Live(h: seq<Op>, user: string): Option<string> {
    if h == [] then None
    else
      var before, op := Live(h[..|h| - 1], user), h[|h| - 1];
      if op.GetToken? && op.user == user && before.None? then Some(op.gen)
      else if op.DelSession? && op.user == user then None
      else before
  }

  /** The call at i makes a new token. */
  predicate Creates(h: seq<Op>, i: nat)
    requires i < |h|
  {
    h[i].GetToken? && Live(h[..i], h[i].user).None?
  }

  /** Tokens are random and long: no two made in one history are equal. */
  ghost predicate NeverReused(h: seq<Op>) {
    forall i, j :: 0 <= i < j < |h| && Creates(h, i) && Creates(h, j) ==> h[i].gen != h[j].gen
  }

  /** The call at i made token for user and user's session was not deleted since. */
  predicate MadeAt(h: seq<Op>, i: nat, user: string, token: string) {
    && i < |h| && Creates(h, i) && h[i].user == user && h[i].gen == token
    && forall j :: i < j < |h| ==> h[j] != DelSession(user)
  }

  lemma CreatesInPrefix(h: seq<Op>, k: nat, i: nat)
    requires i < k <= |h|
    ensures Creates(h[..k], i) <==> Creates(h, i)
  {
    assert h[..k][..i] == h[..i];
  }

  /** A token is live for a user exactly from the call that made it for that user until the
      user's next DelSession. */
  lemma {:induction false} LiveSinceMade(h: seq<Op>, user: string, token: string)
    ensures Live(h, user) == Some(token) <==> exists i :: MadeAt(h, i, user, token)
  {
    if h != [] {
      var n := |h| - 1;
      var init, op := h[..n], h[n];
      LiveSinceMade(init, user, token);
      MadeInTurn(h, user, token);
      assert MadeAt(h, n, user, token) <==> op.GetToken? && op.user == user && op.gen == token && Live(init, user).None?;
    }
  }

  lemma MadeEarlier(h: seq<Op>, i: nat, user: string, token: string)
    requires h != [] && i < |h| - 1
    ensures MadeAt(h, i, user, token) <==> MadeAt(h[..|h| - 1], i, user, token) && h[|h| - 1] != DelSession(user)
  {
    var n := |h| - 1;
    CreatesInPrefix(h, n, i);
    assert forall j :: 0 <= j < n ==> h[j] == h[..n][j];
  }

  /** The session was made by the last call, or by an earlier one and not deleted by it. */
  lemma MadeInTurn(h: seq<Op>, user: string, token: string)
    requires h != []
    ensures
      var n := |h| - 1;
      (exists i :: MadeAt(h, i, user, token)) <==>
      MadeAt(h, n, user, token) || (h[n] != DelSession(user) && exists i :: MadeAt(h[..n], i, user, token))
  {
    var n := |h| - 1;
    if i: nat :| MadeAt(h, i, user, token) && i < n { MadeEarlier(h, i, user, token); }
    if i: nat :| MadeAt(h[..n], i, user, token) { MadeEarlier(h, i, user, token); }
  }

  lemma {:induction false} NeverReusedPrefix(h: seq<Op>, k: nat)
    requires NeverReused(h) && k <= |h|
    ensures NeverReused(h[..k])
  {
    forall i, j | 0 <= i < j < k && Creates(h[..k], i) && Creates(h[..k], j) ensures h[i].gen != h[j].gen {
      CreatesInPrefix(h, k, i);
      CreatesInPrefix(h, k, j);
    }
  }

  /** A token being made was never live before. */
  lemma NewTokenIsUnused(h: seq<Op>, user: string)
    requires h != [] && NeverReused(h) && Creates(h, |h| - 1)
    ensures Live(h[..|h| - 1], user) != Some(h[|h| - 1].gen)
  {
    var n := |h| - 1;
    LiveSinceMade(h[..n], user, h[n].gen);
    if i: nat :| MadeAt(h[..n], i, user, h[n].gen) {
      CreatesInPrefix(h, n, i);
      assert false;
    }
  }

  /** In every reachable state the tables say what the histories of the users say, and so
      are inverse to each other. */
  lemma {:induction false} TablesAgree(h: seq<Op>)
    requires NeverReused(h)
    ensures forall user :: TokenOf(After(h), user) == Live(h, user)
    ensures forall user, token :: UserOf(After(h), token) == Some(user) <==> Live(h, user) == Some(token)
    ensures Inverse(After(h))
  {
    if h != [] {
      var n := |h| - 1;
      var init, op, s := h[..n], h[n], After(h[..n]);
      NeverReusedPrefix(h, n);
      TablesAgree(init);
      if op.GetToken? && op.user !in s.userSessions {
        assert TokenOf(s, op.user) == Live(init, op.user);
        assert Creates(h, n);
        if op.gen in s.sessionTokens {
          assert UserOf(s, op.gen) == Some(s.sessionTokens[op.gen]);
          NewTokenIsUnused(h, s.sessionTokens[op.gen]);
          assert false;
        }
      }
      InverseKept(s, op);
      forall user ensures TokenOf(After(h), user) == Live(h, user) {
        assert TokenOf(s, user) == Live(init, user);
      }
    }
  }

  /** GetUser answers with a user exactly when that user made the token and has not been
      logged out since. */
  lemma GetUserAgrees(h: seq<Op>, token: string, user: string)
    requires NeverReused(h)
    ensures UserOf(After(h), token) == Some(user) <==> exists i :: MadeAt(h, i, user, token)
  {
    TablesAgree(h);
    LiveSinceMade(h, user, token);
  }

  /** Once made for one user, a token never belongs to another, at any time. */
  lemma NeverAnotherUser(h: seq<Op>, i: nat, k: nat, other: string)
    requires NeverReused(h) && i < |h| && Creates(h, i) && other != h[i].user && k <= |h|
    ensures UserOf(After(h[..k]), h[i].gen) != Some(other)
  {
    NeverReusedPrefix(h, k);
    GetUserAgrees(h[..k], h[i].gen, other);
    if j: nat :| MadeAt(h[..k], j, other, h[i].gen) {
      CreatesInPrefix(h, k, j);
      assert false;
    }
  }

  /** After its user is logged out, a token is never valid again. */
  lemma NeverAgain(h: seq<Op>, i: nat, j: nat, k: nat)
    requires NeverReused(h) && i < j < k <= |h| && Creates(h, i) && h[j] == DelSession(h[i].user)
    ensures UserOf(After(h[..k]), h[i].gen) == None
  {
    NeverReusedPrefix(h, k);
    var token := h[i].gen;
    if UserOf(After(h[..k]), token).Some? {
      var user := UserOf(After(h[..k]), token).value;
      GetUserAgrees(h[..k], token, user);
      var l: nat :| MadeAt(h[..k], l, user, token);
      CreatesInPrefix(h, k, l);
      assert false;
    }
  }

  /** While the session lasts, asking for the user's token again returns the same one. */
  lemma SameTokenAgain(h: seq<Op>, i: nat, gen: string)
    requires NeverReused(h) && i < |h| && Creates(h, i)
    requires forall j :: i < j < |h| ==> h[j] != DelSession(h[i].user)
    ensures TokenOf(Step(After(h), GetToken(h[i].user, gen)), h[i].user) == Some(h[i].gen)
  {
    LiveSinceMade(h, h[i].user, h[i].gen);
    assert MadeAt(h, i, h[i].user, h[i].gen);
    TablesAgree(h);
  }
}
