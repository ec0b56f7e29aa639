/** Many requests at once: every interleaving of the steps of their flights. A schedule says
    whose flight takes its next step; only the session tables are shared. */
module AuthConcurrency {
  import opened Common
  import opened FlightModel
  import opened FlightTrace
  import opened Auth
  import opened AuthTrace
  import S = Sessions

  /** A call of the session tables and the request that made it. */
  datatype Entry = Entry(req: nat, op: S.Op)

  function Ops(calls: seq<Entry>): seq<S.Op> {
    seq(|calls|, i requires 0 <= i < |calls| => calls[i].op)
  }

  /** How many steps request r has taken. */
  function Taken(schedule: seq<nat>, r: nat): nat {
    multiset(schedule)[r]
  }

  /** A request is scheduled only while its flight has steps left. */
  ghost predicate Scheduled(reqs: seq<Request>, schedule: seq<nat>) {
    forall k :: 0 <= k < |schedule| ==>
      schedule[k] < |reqs| && Taken(schedule[..k], schedule[k]) < |Steps(reqs[schedule[k]])|
  }

  /** Where in its own trace the request scheduled at k then is. */
  function Place(schedule: seq<nat>, k: nat): nat
    requires k < |schedule|
  {
    Taken(schedule[..k], schedule[k])
  }

  function StepAt(reqs: seq<Request>, schedule: seq<nat>, k: nat): Step
    requires Scheduled(reqs, schedule) && k < |schedule|
  {
    Steps(reqs[schedule[k]])[Place(schedule, k)]
  }

  /** The call of the session tables that a step makes. */
  function OpOf(s: Step, gen: string): Option<S.Op> {
    if s.Did? then SessionOp(s.a, gen) else None
  }

  function CallAt(reqs: seq<Request>, schedule: seq<nat>, k: nat): seq<Entry>
    requires Scheduled(reqs, schedule) && k < |schedule|
  {
    match OpOf(StepAt(reqs, schedule, k), reqs[schedule[k]].gen)
    case None => []
    case Some(op) => [Entry(schedule[k], op)]
  }

  /** The calls made by the first k steps, in order. */
  function Calls(reqs: seq<Request>, schedule: seq<nat>, k: nat): seq<Entry>
    requires Scheduled(reqs, schedule) && k <= |schedule|
  {
    if k == 0 then [] else Calls(reqs, schedule, k - 1) + CallAt(reqs, schedule, k - 1)
  }

  /** The session tables after the first k steps. */
  function Tables(reqs: seq<Request>, schedule: seq<nat>, k: nat): S.Tables
    requires Scheduled(reqs, schedule) && k <= |schedule|
  {
    S.After(Ops(Calls(reqs, schedule, k)))
  }

  /** What auth was told is what the tables said at that step. */
  ghost predicate Answered(reqs: seq<Request>, schedule: seq<nat>, k: nat)
    requires Scheduled(reqs, schedule) && k < |schedule|
  {
    var q, tables := reqs[schedule[k]], Tables(reqs, schedule, k);
    match OpOf(StepAt(reqs, schedule, k), q.gen)
    case Some(GetUser(cookie)) => q.found == UserFromCookie(tables, cookie)
    case Some(GetToken(user, gen)) => S.TokenOf(S.Step(tables, S.GetToken(user, gen)), user) == Some(q.token)
    case _ => true
  }

  /** Any number of flights with auth, interleaved in any way. */
  ghost predicate Execution(reqs: seq<Request>, schedule: seq<nat>) {
    && (forall r :: 0 <= r < |reqs| ==> WithAuth(reqs[r]))
    && Scheduled(reqs, schedule)
    && (forall k :: 0 <= k < |schedule| ==> Answered(reqs, schedule, k))
  }

  // ----- Who changes the tables -----

  lemma OpsAppend(calls: seq<Entry>, e: Entry)
    ensures Ops(calls + [e]) == Ops(calls) + [e.op]
    ensures S.After(Ops(calls + [e])) == S.Step(S.After(Ops(calls)), e.op)
  {
    assert Ops(calls + [e])[..|calls|] == Ops(calls);
  }

  lemma TablesInTurn(reqs: seq<Request>, schedule: seq<nat>, k: nat)
    requires Scheduled(reqs, schedule) && k < |schedule|
    ensures
      Tables(reqs, schedule, k + 1) ==
      match OpOf(StepAt(reqs, schedule, k), reqs[schedule[k]].gen)
      case None => Tables(reqs, schedule, k)
      case Some(op) => S.Step(Tables(reqs, schedule, k), op)
  {
    var before := Calls(reqs, schedule, k);
    match OpOf(StepAt(reqs, schedule, k), reqs[schedule[k]].gen)
    case None => assert before + [] == before;
    case Some(op) => OpsAppend(before, Entry(schedule[k], op));
  }

  /** In every interleaving the session tables change only in the step that opens auth's
      Commit, after a write of that flight began, and as the flight's code asked for: by the
      session action asked for last, for the user stored last. */
  lemma OnlyCommitChangesTables(reqs: seq<Request>, schedule: seq<nat>, k: nat)
    requires Execution(reqs, schedule) && k < |schedule|
    requires Tables(reqs, schedule, k + 1) != Tables(reqs, schedule, k)
    ensures
      var q, p := reqs[schedule[k]], Place(schedule, k);
      Mutates(Steps(q)[p]) && Changes(q, Steps(q), p)
  {
    TablesInTurn(reqs, schedule, k);
    SessionCallsExplained(reqs[schedule[k]]);
  }

  lemma PlacesDiffer(schedule: seq<nat>, j: nat, k: nat)
    requires j < k < |schedule| && schedule[j] == schedule[k]
    ensures Place(schedule, j) < Place(schedule, k)
  {
    var r := schedule[k];
    assert schedule[..k] == schedule[..j] + [r] + schedule[j + 1..k];
    assert multiset(schedule[..k]) == multiset(schedule[..j]) + multiset{r} + multiset(schedule[j + 1..k]);
  }

  /** No request changes the tables twice. */
  lemma ChangesAtMostOnce(reqs: seq<Request>, schedule: seq<nat>, j: nat, k: nat)
    requires Execution(reqs, schedule) && j < k < |schedule| && schedule[j] == schedule[k]
    ensures Tables(reqs, schedule, j + 1) == Tables(reqs, schedule, j)
            || Tables(reqs, schedule, k + 1) == Tables(reqs, schedule, k)
  {
    PlacesDiffer(schedule, j, k);
    ChangesOnce(reqs[schedule[k]], Place(schedule, j), Place(schedule, k));
    TablesInTurn(reqs, schedule, j);
    TablesInTurn(reqs, schedule, k);
  }

  // ----- Who a request is taken for -----

  /** Every call was made by an earlier step. */
  lemma {:induction false} CallWasMade(reqs: seq<Request>, schedule: seq<nat>, k: nat, c: nat) returns (j: nat)
    requires Scheduled(reqs, schedule) && k <= |schedule| && c < |Calls(reqs, schedule, k)|
    ensures j < k && CallAt(reqs, schedule, j) == [Calls(reqs, schedule, k)[c]]
    decreases k
  {
    var i: nat := k - 1;
    var most, last := Calls(reqs, schedule, i), CallAt(reqs, schedule, i);
    if c < |most| {
      j := CallWasMade(reqs, schedule, i, c);
    } else {
      assert Calls(reqs, schedule, k) == most + last;
      j := i;
    }
  }

  /** Step j logged user in with token: it is the Commit of a flight whose code asked last
      for a session of that very user. */
  ghost predicate LogsIn(reqs: seq<Request>, schedule: seq<nat>, j: nat, user: string, token: string)
    requires Scheduled(reqs, schedule) && j < |schedule|
  {
    var q, p := reqs[schedule[j]], Place(schedule, j);
    && q.gen == token && Changes(q, Steps(q), p)
    && LastAction(Steps(q)[..p]) == SetSess && LastUser(Steps(q)[..p]) == user
  }

  /** The step is auth's lookup of the cookie presented. */
  predicate Asks(s: Step) {
    s.Did? && s.a.Outside? && s.a.call == GET_USER
  }

  /** Authenticity over all interleavings: when auth's lookup at step k names a user, an
      earlier step, of some flight whose code asked last for a session of that very user,
      made the cookie presented, and no logout of that user came in between. */
  lemma IdentifiedWasLoggedIn(reqs: seq<Request>, schedule: seq<nat>, k: nat) returns (j: nat, c: nat)
    requires Execution(reqs, schedule) && k < |schedule| && Asks(StepAt(reqs, schedule, k))
    requires reqs[schedule[k]].found != "" && S.NeverReused(Ops(Calls(reqs, schedule, k)))
    ensures
      var q := reqs[schedule[k]];
      && j < k && LogsIn(reqs, schedule, j, q.found, q.cookie)
      && S.MadeAt(Ops(Calls(reqs, schedule, k)), c, q.found, q.cookie)
      && CallAt(reqs, schedule, j) == [Calls(reqs, schedule, k)[c]]
  {
    var q, calls := reqs[schedule[k]], Calls(reqs, schedule, k);
    LookupAnswered(reqs, schedule, k);
    S.GetUserAgrees(Ops(calls), q.cookie, q.found);
    c :| S.MadeAt(Ops(calls), c, q.found, q.cookie);
    j := CallWasMade(reqs, schedule, k, c);
    MakerLogsIn(reqs, schedule, j, calls[c]);
  }

  lemma LookupAnswered(reqs: seq<Request>, schedule: seq<nat>, k: nat)
    requires Execution(reqs, schedule) && k < |schedule| && Asks(StepAt(reqs, schedule, k))
    ensures
      var q := reqs[schedule[k]];
      q.found != "" ==> S.UserOf(Tables(reqs, schedule, k), q.cookie) == Some(q.found)
  {
    var q := reqs[schedule[k]];
    SessionCallsExplained(q);
    assert LooksUp(q, Steps(q), Place(schedule, k));
    assert Answered(reqs, schedule, k);
  }

  lemma MakerLogsIn(reqs: seq<Request>, schedule: seq<nat>, j: nat, e: Entry)
    requires Execution(reqs, schedule) && j < |schedule| && CallAt(reqs, schedule, j) == [e] && e.op.GetToken?
    ensures LogsIn(reqs, schedule, j, e.op.user, e.op.gen)
  {
    SessionCallsExplained(reqs[schedule[j]]);
  }

  /** The step a request took when it had taken p before. */
  lemma {:induction false} StepTaken(schedule: seq<nat>, r: nat, k: nat, p: nat) returns (j: nat)
    requires k <= |schedule| && p < Taken(schedule[..k], r)
    ensures j < k && schedule[j] == r && Place(schedule, j) == p
    decreases k
  {
    var most := schedule[..k - 1];
    assert schedule[..k] == most + [schedule[k - 1]];
    if p < Taken(most, r) {
      j := StepTaken(schedule, r, k - 1, p);
    } else {
      j := k - 1;
    }
  }

  /** In every interleaving, without Skip the handler of a request starts only after auth
      found a user whose session was live when it looked. */
  lemma RunningHasUser(reqs: seq<Request>, schedule: seq<nat>, k: nat) returns (j: nat)
    requires Execution(reqs, schedule) && k < |schedule|
    requires StepAt(reqs, schedule, k) == Called(HandlerCalled) && !reqs[schedule[k]].skip
    ensures
      var q := reqs[schedule[k]];
      && j < k && schedule[j] == schedule[k] && Asks(StepAt(reqs, schedule, j))
      && q.found != "" && S.UserOf(Tables(reqs, schedule, j), q.cookie) == Some(q.found)
  {
    var q := reqs[schedule[k]];
    var p0 := HandlerHasLookup(q, Place(schedule, k));
    j := StepTaken(schedule, schedule[k], k, p0);
    LookupAnswered(reqs, schedule, j);
  }
}
