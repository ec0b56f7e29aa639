/** What every flight does, whatever its interceptors, handler and dispatcher do. */
module FlightTheorems {
  import opened Common
  import opened HeaderModel
  import opened FlightModel

  /** Code that recovers no panic of its own. */
  predicate NoTry(acts: seq<Action>) {
    forall i :: 0 <= i < |acts| ==> !acts[i].Try?
  }

  ghost predicate NoTryConfig(cfg: Config) {
    && (forall st :: NoTry(cfg.handler(st)))
    && (forall i, st | 0 <= i < |cfg.interceptors| :: NoTry(cfg.interceptors[i].before(st)))
    && (forall i, st, resp | 0 <= i < |cfg.interceptors| :: NoTry(cfg.interceptors[i].commit(st, resp)))
  }

  /** The calls made by the one write of a flight with n interceptors: Commit n-1 down to 0,
      perhaps cut short, and one dispatcher call only if all of them were made. */
  ghost predicate WriteTrace(n: nat, w: seq<Event>) {
    && 1 <= |w| <= n + 1
    && (forall j :: 0 <= j < |w| && j < n ==> w[j] == CommitCalled(n - 1 - j))
    && (|w| == n + 1 ==> w[n].Dispatched?)
  }

  ghost function Added(st: Flight, r: Run): seq<Event> {
    if |st.log| <= |r.flight.log| then r.flight.log[|st.log|..] else []
  }

  /** A stretch of code adds nothing to the log, or is the first to write. */
  ghost predicate WritesOnce(n: nat, st: Flight, r: Run) {
    && st.log <= r.flight.log
    && if st.written || !r.flight.written then Added(st, r) == [] else WriteTrace(n, Added(st, r))
  }

  lemma {:induction false} ActionsWriteOnce(cfg: Config, acts: seq<Action>, st: Flight)
    ensures
      var r, n := RunActions(cfg, acts, st), |cfg.interceptors|;
      && WritesOnce(n, st, r)
      && (NoTry(acts) && r.outcome.Ok? && !st.written && r.flight.written ==> |Added(st, r)| == n + 1)
    decreases !st.written, 0, acts
  {
    if acts != [] {
      ActionWritesOnce(cfg, acts[0], st);
      var r := RunAction(cfg, acts[0], st);
      if r.outcome.Ok? { ActionsWriteOnce(cfg, acts[1..], r.flight); }
    }
  }

  lemma {:induction false} ActionWritesOnce(cfg: Config, a: Action, st: Flight)
    ensures
      var r, n := RunAction(cfg, a, st), |cfg.interceptors|;
      && WritesOnce(n, st, r)
      && (!a.Try? && r.outcome.Ok? && !st.written && r.flight.written ==> |Added(st, r)| == n + 1)
    decreases !st.written, 0, a
  {
    match a
    case Try(body) => ActionsWriteOnce(cfg, body, st);
    case Write(resp) => if !st.written { WriteAddsOneTrace(cfg, resp, false, st); }
    case WriteError(resp) => if !st.written { WriteAddsOneTrace(cfg, resp, true, st); }
    case _ =>
  }

  lemma {:induction false} WriteAddsOneTrace(cfg: Config, resp: Response, isError: bool, st: Flight)
    requires !st.written
    ensures
      var n := |cfg.interceptors|;
      var r := Finish(cfg, CommitPhase(cfg, n, resp, st.(written := true)), resp, isError);
      && WritesOnce(n, st, r)
      && (r.outcome.Ok? ==> |Added(st, r)| == n + 1)
    decreases false, 2
  {
    CommitsDescend(cfg, |cfg.interceptors|, resp, st.(written := true));
  }

  lemma {:induction false} CommitsDescend(cfg: Config, i: nat, resp: Response, st: Flight)
    requires st.written && i <= |cfg.interceptors|
    ensures
      var r := CommitPhase(cfg, i, resp, st);
      && st.log <= r.flight.log
      && |Added(st, r)| <= i && (i > 0 ==> Added(st, r) != [])
      && (forall j :: 0 <= j < |Added(st, r)| ==> Added(st, r)[j] == CommitCalled(i - 1 - j))
      && (r.outcome.Ok? ==> |Added(st, r)| == i)
    decreases !st.written, 1, i
  {
    if i > 0 {
      var st' := Log(st, CommitCalled(i - 1));
      var acts := cfg.interceptors[i - 1].commit(st', resp);
      ActionsWriteOnce(cfg, acts, st');
      var r := RunActions(cfg, acts, st');
      assert r.flight.log == st'.log;
      if r.outcome.Ok? { CommitsDescend(cfg, i - 1, resp, r.flight); }
    }
  }

  // ----- The grammar of a flight -----

  function Befores(k: nat): seq<Event> {
    seq(k, i requires 0 <= i < k => BeforeCalled(i))
  }

  function CallsBeforeWrite(k: nat, handled: bool): seq<Event> {
    Befores(k) + (if handled then [HandlerCalled] else [])
  }

  /** k Before calls in order, the handler only after all n of them, and then: nothing, if
      the flight ended in a panic without writing; one NoContent dispatch and no Commit, if
      the handler ended without writing; the trace of one write otherwise. */
  ghost predicate FlightShape(n: nat, k: nat, handled: bool, r: Run) {
    && k <= n && (handled ==> k == n) && (handled || k > 0)
    && CallsBeforeWrite(k, handled) <= r.flight.log
    && var w := r.flight.log[|CallsBeforeWrite(k, handled)|..];
      if r.flight.written then WriteTrace(n, w)
      else if r.outcome.Panicked? then w == []
      else handled && |w| == 1 && w[0].Dispatched? && w[0].resp == NoContentResponse && !w[0].isError
  }

  /** Nothing panicked on the way: the write ran to its end. */
  ghost predicate Complete(n: nat, k: nat, handled: bool, r: Run) {
    r.outcome.Ok? && r.flight.written ==> |r.flight.log| == |CallsBeforeWrite(k, handled)| + n + 1
  }

  lemma {:induction false} ShapeFrom(cfg: Config, i: nat, st: Flight) returns (k: nat, handled: bool)
    requires i <= |cfg.interceptors| && !st.written && st.log == Befores(i)
    ensures FlightShape(|cfg.interceptors|, k, handled, FromBefore(cfg, i, st))
    ensures NoTryConfig(cfg) ==> Complete(|cfg.interceptors|, k, handled, FromBefore(cfg, i, st))
    decreases |cfg.interceptors| - i
  {
    if i == |cfg.interceptors| {
      k, handled := i, true;
      var st' := Log(st, HandlerCalled);
      assert st'.log == CallsBeforeWrite(k, handled);
      ActionsWriteOnce(cfg, cfg.handler(st'), st');
    } else {
      var st' := Log(st, BeforeCalled(i));
      var r := CallBefore(cfg, i, st);
      assert st'.log == Befores(i + 1);
      ActionsWriteOnce(cfg, cfg.interceptors[i].before(st'), st');
      if r.outcome.Panicked? || r.flight.written {
        k, handled := i + 1, false;
        assert CallsBeforeWrite(k, handled) == st'.log;
      } else {
        assert r.flight.log == st'.log;
        k, handled := ShapeFrom(cfg, i + 1, r.flight);
      }
    }
  }

  /** Every flight fits the grammar; without recovery in the code it runs, a flight that
      ends normally after a write has run every Commit and called the dispatcher. */
  lemma FlightGrammar(cfg: Config, m: HeaderMap) returns (k: nat, handled: bool)
    ensures FlightShape(|cfg.interceptors|, k, handled, Process(cfg, m))
    ensures NoTryConfig(cfg) ==> Complete(|cfg.interceptors|, k, handled, Process(cfg, m))
  {
    assert Befores(0) == [];
    k, handled := ShapeFrom(cfg, 0, Start(m));
  }

  function Dispatches(log: seq<Event>): nat {
    |set i | 0 <= i < |log| && log[i].Dispatched?|
  }

  lemma OnlyLastDispatched(log: seq<Event>)
    requires forall i :: 0 <= i < |log| - 1 ==> !log[i].Dispatched?
    ensures Dispatches(log) == if log != [] && log[|log| - 1].Dispatched? then 1 else 0
  {
    var s := set i | 0 <= i < |log| && log[i].Dispatched?;
    if log != [] && log[|log| - 1].Dispatched? {
      assert s == {|log| - 1};
    } else {
      assert s == {};
    }
  }

  /** The dispatcher is called at most once, even if code recovers from panics, and exactly
      once when no panic occurs. */
  lemma DispatchedOnce(cfg: Config, m: HeaderMap)
    ensures Dispatches(Process(cfg, m).flight.log) <= 1
    ensures NoTryConfig(cfg) && Process(cfg, m).outcome.Ok? ==> Dispatches(Process(cfg, m).flight.log) == 1
  {
    var k, handled := FlightGrammar(cfg, m);
    var r, n, p := Process(cfg, m), |cfg.interceptors|, CallsBeforeWrite(k, handled);
    var log := r.flight.log;
    assert log == p + log[|p|..];
    forall i | 0 <= i < |log| - 1 ensures !log[i].Dispatched? {
      if i >= |p| { assert log[|p|..][i - |p|] == log[i]; }
    }
    OnlyLastDispatched(log);
    if NoTryConfig(cfg) && r.outcome.Ok? {
      assert log[|log| - 1] == log[|p|..][|log| - 1 - |p|];
    }
  }

  lemma CallAt(n: nat, k: nat, handled: bool, r: Run, j: nat)
    requires FlightShape(n, k, handled, r) && j < |r.flight.log|
    ensures
      var e, p := r.flight.log[j], |CallsBeforeWrite(k, handled)|;
      if j < k then e == BeforeCalled(j)
      else if j < p then e == HandlerCalled
      else (e.CommitCalled? && e.i == n - 1 - (j - p)) || (e.Dispatched? && j == |r.flight.log| - 1)
  {
    var p := CallsBeforeWrite(k, handled);
    assert r.flight.log == p + r.flight.log[|p|..];
  }

  lemma BeforeInLog(n: nat, k: nat, handled: bool, r: Run, i: nat)
    requires FlightShape(n, k, handled, r)
    ensures BeforeCalled(i) in r.flight.log <==> i < k
  {
    var log := r.flight.log;
    if i < k { CallAt(n, k, handled, r, i); }
    if BeforeCalled(i) in log {
      var j :| 0 <= j < |log| && log[j] == BeforeCalled(i);
      CallAt(n, k, handled, r, j);
    }
  }

  /** No call is made twice, and once a Commit has been called only lower Commits and the
      dispatcher are: each Before and each Commit runs at most once in a flight, in order. */
  lemma CallsOnce(cfg: Config, m: HeaderMap, a: nat, b: nat)
    requires a < b < |Process(cfg, m).flight.log|
    ensures
      var log := Process(cfg, m).flight.log;
      && log[a] != log[b] && !log[a].Dispatched?
      && (log[a].CommitCalled? ==> log[b].Dispatched? || (log[b].CommitCalled? && log[b].i < log[a].i))
  {
    var k, handled := FlightGrammar(cfg, m);
    CallAt(|cfg.interceptors|, k, handled, Process(cfg, m), a);
    CallAt(|cfg.interceptors|, k, handled, Process(cfg, m), b);
  }

  predicate IsWrite(a: Action) { a.Write? || a.WriteError? }

  lemma {:induction false} WriteAfterWrite(cfg: Config, acts: seq<Action>, j: nat, st: Flight)
    requires NoTry(acts) && j < |acts| && IsWrite(acts[j]) && st.written
    ensures RunActions(cfg, acts, st).outcome.Panicked?
    ensures RunActions(cfg, acts, st).flight.log == st.log
    decreases acts
  {
    ActionsWriteOnce(cfg, acts, st);
    if j > 0 {
      WriteAfterWrite(cfg, acts[1..], j - 1, RunAction(cfg, acts[0], st).flight);
    }
  }

  /** Code that writes twice panics, and the second write reaches neither a Commit nor the
      dispatcher: the log shows the calls of one write at most. */
  lemma {:induction false} SecondWritePanics(cfg: Config, acts: seq<Action>, i: nat, j: nat, st: Flight)
    requires NoTry(acts) && i < j < |acts| && IsWrite(acts[i]) && IsWrite(acts[j])
    ensures RunActions(cfg, acts, st).outcome.Panicked?
    ensures |Added(st, RunActions(cfg, acts, st))| <= |cfg.interceptors| + 1
    decreases acts
  {
    ActionsWriteOnce(cfg, acts, st);
    var r := RunAction(cfg, acts[0], st);
    if r.outcome.Ok? {
      if i == 0 {
        WriteAfterWrite(cfg, acts[1..], j - 1, r.flight);
      } else {
        SecondWritePanics(cfg, acts[1..], i - 1, j - 1, r.flight);
      }
    }
  }

  // ----- Where a flight stands between two Before calls -----

  /** The flight when the first k Before calls are over and none wrote or panicked. */
  function Entry(cfg: Config, k: nat, st: Flight): Option<Flight>
    requires k <= |cfg.interceptors|
  {
    if k == 0 then Some(st)
    else
      match Entry(cfg, k - 1, st)
      case None => None
      case Some(s) =>
        var r := CallBefore(cfg, k - 1, s);
        if r.outcome.Ok? && !r.flight.written then Some(r.flight) else None
  }

  lemma EntryBefore(cfg: Config, k: nat, st: Flight, before: Flight, s: Flight)
    requires 0 < k <= |cfg.interceptors| && Entry(cfg, k - 1, st) == Some(before) && Entry(cfg, k, st) == Some(s)
    ensures CallBefore(cfg, k - 1, before) == Run(s, Ok) && !s.written
  {
  }

  lemma EntryNext(cfg: Config, k: nat, st: Flight)
    requires k < |cfg.interceptors| && Entry(cfg, k, st).Some?
    ensures
      var s := Entry(cfg, k, st).value;
      var r := CallBefore(cfg, k, s);
      if r.outcome.Ok? && !r.flight.written
      then Entry(cfg, k + 1, st) == Some(r.flight) && FromBefore(cfg, k, s) == FromBefore(cfg, k + 1, r.flight)
      else FromBefore(cfg, k, s) == r
  {
  }

  lemma {:induction false} EntryIsOnTheWay(cfg: Config, k: nat, st: Flight)
    requires k <= |cfg.interceptors| && !st.written && st.log == [] && Entry(cfg, k, st).Some?
    ensures
      var s := Entry(cfg, k, st).value;
      !s.written && s.log == Befores(k) && FromBefore(cfg, 0, st) == FromBefore(cfg, k, s)
  {
    if k > 0 {
      EntryIsOnTheWay(cfg, k - 1, st);
      var s := Entry(cfg, k - 1, st).value;
      var s' := Log(s, BeforeCalled(k - 1));
      ActionsWriteOnce(cfg, cfg.interceptors[k - 1].before(s'), s');
      assert CallBefore(cfg, k - 1, s).flight.log == s'.log;
    }
  }

  lemma {:induction false} EarlierEntries(cfg: Config, j: nat, k: nat, st: Flight)
    requires j < k <= |cfg.interceptors| && Entry(cfg, k, st).Some?
    ensures Entry(cfg, j, st).Some? && !CallBefore(cfg, j, Entry(cfg, j, st).value).flight.written
    decreases k
  {
    if j < k - 1 { EarlierEntries(cfg, j, k - 1, st); }
  }

  /** Where a flight leaves the loop over Before: in the call of Before k, or behind it when
      k is the number of interceptors. */
  ghost predicate LeavesAt(cfg: Config, m: HeaderMap, k: nat, s: Flight) {
    && k <= |cfg.interceptors| && Entry(cfg, k, Start(m)) == Some(s)
    && (k < |cfg.interceptors| ==> Entry(cfg, k + 1, Start(m)) == None)
  }

  /** The code of the call in which the loop over Before is left, or of the handler. */
  function CodeOf(cfg: Config, k: nat, s: Flight): seq<Action>
    requires k <= |cfg.interceptors|
  {
    if k == |cfg.interceptors| then cfg.handler(Log(s, HandlerCalled))
    else cfg.interceptors[k].before(Log(s, BeforeCalled(k)))
  }

  /** Every flight leaves the loop somewhere, and from there on it is one call. */
  lemma LastEntry(cfg: Config, m: HeaderMap) returns (k: nat, s: Flight)
    ensures LeavesAt(cfg, m, k, s) && !s.written && s.log == Befores(k)
    ensures Process(cfg, m) == Wipe(if k == |cfg.interceptors| then HandlerPhase(cfg, s) else CallBefore(cfg, k, s))
  {
    k, s := 0, Start(m);
    while k < |cfg.interceptors| && Entry(cfg, k + 1, Start(m)).Some?
      invariant k <= |cfg.interceptors| && Entry(cfg, k, Start(m)) == Some(s)
    {
      k, s := k + 1, Entry(cfg, k + 1, Start(m)).value;
    }
    EntryIsOnTheWay(cfg, k, Start(m));
    if k < |cfg.interceptors| { EntryNext(cfg, k, Start(m)); }
  }

  /** The handler is called only when all Befores came to their end. */
  lemma HandledIsEntry(cfg: Config, m: HeaderMap)
    requires HandlerCalled in Process(cfg, m).flight.log
    ensures Entry(cfg, |cfg.interceptors|, Start(m)).Some?
  {
    var k, s := LastEntry(cfg, m);
    if k < |cfg.interceptors| { NoHandlerInBefore(cfg, k, s); }
  }

  lemma NoHandlerInBefore(cfg: Config, k: nat, s: Flight)
    requires k < |cfg.interceptors| && s.log == Befores(k)
    ensures HandlerCalled !in CallBefore(cfg, k, s).flight.log
  {
    var x, r := Log(s, BeforeCalled(k)), CallBefore(cfg, k, s);
    ActionsWriteOnce(cfg, cfg.interceptors[k].before(x), x);
    assert r.flight.log == x.log + Added(x, r);
  }

  /** The call wrote or panicked. */
  predicate Ends(r: Run) {
    r.outcome.Panicked? || r.flight.written
  }

  /** An interceptor whose Before always writes or panics keeps the handler from being called,
      wherever it stands and whatever the others do. */
  lemma NoHandlerBehind(cfg: Config, i: nat, m: HeaderMap)
    requires i < |cfg.interceptors| && forall s: Flight :: !s.written ==> Ends(CallBefore(cfg, i, s))
    ensures HandlerCalled !in Process(cfg, m).flight.log
  {
    if HandlerCalled in Process(cfg, m).flight.log {
      HandledIsEntry(cfg, m);
      if i + 1 < |cfg.interceptors| { EarlierEntries(cfg, i + 1, |cfg.interceptors|, Start(m)); }
      EarlierEntries(cfg, i, i + 1, Start(m));
      EntryIsOnTheWay(cfg, i, Start(m));
      EntryNext(cfg, i, Start(m));
    }
  }

  /** The loop is left once only. */
  lemma LeavesOnce(cfg: Config, m: HeaderMap, j: nat, x: Flight, k: nat, s: Flight)
    requires LeavesAt(cfg, m, j, x) && LeavesAt(cfg, m, k, s)
    ensures j == k && x == s
  {
    if j < k {
      if j + 1 < k { EarlierEntries(cfg, j + 1, k, Start(m)); }
    } else if k < j {
      if k + 1 < j { EarlierEntries(cfg, k + 1, j, Start(m)); }
    }
  }

  // ----- Commit phases of interceptors whose Before never ran -----

  /** Some interceptor other than the last writes in its Before: the loop is left while
      Before methods are still to be called. */
  ghost predicate WritesEarly(cfg: Config, m: HeaderMap) {
    exists k: nat, s :: k + 1 < |cfg.interceptors| && LeavesAt(cfg, m, k, s) && CallBefore(cfg, k, s).flight.written
  }

  lemma CommitsIn(cfg: Config, acts: seq<Action>, x: Flight, i: nat)
    requires !x.written && CommitCalled(i) !in x.log
    ensures
      var r := RunActions(cfg, acts, x);
      && (CommitCalled(i) in r.flight.log ==> r.flight.written && i < |cfg.interceptors|)
      && (r.flight.written && |cfg.interceptors| > 0 ==> CommitCalled(|cfg.interceptors| - 1) in r.flight.log)
  {
    var r := RunActions(cfg, acts, x);
    ActionsWriteOnce(cfg, acts, x);
    var w := Added(x, r);
    assert r.flight.log == x.log + w;
    if r.flight.written && |cfg.interceptors| > 0 { assert r.flight.log[|x.log|] == w[0]; }
  }

  lemma BeforesIn(cfg: Config, acts: seq<Action>, x: Flight)
    ensures forall j: nat :: BeforeCalled(j) in RunActions(cfg, acts, x).flight.log <==> BeforeCalled(j) in x.log
  {
    var r := RunActions(cfg, acts, x);
    ActionsWriteOnce(cfg, acts, x);
    assert r.flight.log == x.log + Added(x, r);
  }

  /** The documentation of ServeMux.ServeHTTP says that only interceptors whose Before was
      called are committed. That is so exactly when no interceptor but the last writes in
      its Before. */
  lemma CommitsHadTheirBefore(cfg: Config, m: HeaderMap)
    ensures
      var log := Process(cfg, m).flight.log;
      (forall i :: CommitCalled(i) in log ==> BeforeCalled(i) in log) <==> !WritesEarly(cfg, m)
  {
    var k, s := LastEntry(cfg, m);
    var log, n := Process(cfg, m).flight.log, |cfg.interceptors|;
    forall j, x | LeavesAt(cfg, m, j, x) ensures j == k && x == s { LeavesOnce(cfg, m, j, x, k, s); }
    if k == n {
      HandlerCommits(cfg, s, n);
    } else {
      BeforeCommits(cfg, k, s);
    }
  }

  lemma BeforesAre(k: nat)
    ensures forall j: nat :: BeforeCalled(j) in Befores(k) <==> j < k
  {
    forall j: nat | j < k ensures BeforeCalled(j) in Befores(k) { assert Befores(k)[j] == BeforeCalled(j); }
  }

  lemma HandlerCommits(cfg: Config, s: Flight, n: nat)
    requires n == |cfg.interceptors| && !s.written && s.log == Befores(n)
    ensures forall i :: CommitCalled(i) in HandlerPhase(cfg, s).flight.log ==> BeforeCalled(i) in HandlerPhase(cfg, s).flight.log
  {
    var x := Log(s, HandlerCalled);
    forall i: nat { CommitsIn(cfg, cfg.handler(x), x, i); }
    BeforesIn(cfg, cfg.handler(x), x);
    BeforesAre(n);
    assert forall j: nat :: BeforeCalled(j) in s.log ==> BeforeCalled(j) in x.log;
  }

  lemma BeforeCommits(cfg: Config, k: nat, s: Flight)
    requires k < |cfg.interceptors| && !s.written && s.log == Befores(k)
    ensures
      var r := CallBefore(cfg, k, s);
      (forall i :: CommitCalled(i) in r.flight.log ==> BeforeCalled(i) in r.flight.log)
      <==> !(r.flight.written && k + 1 < |cfg.interceptors|)
  {
    var x := Log(s, BeforeCalled(k));
    var r := CallBefore(cfg, k, s);
    forall i: nat { CommitsIn(cfg, cfg.interceptors[k].before(x), x, i); }
    BeforesIn(cfg, cfg.interceptors[k].before(x), x);
    assert x.log == Befores(k + 1);
    BeforesAre(k + 1);
    assert forall j: nat :: BeforeCalled(j) in r.flight.log <==> j <= k;
    if r.flight.written && k + 1 < |cfg.interceptors| {
      var last: nat := |cfg.interceptors| - 1;
      assert CommitCalled(last) in r.flight.log && BeforeCalled(last) !in r.flight.log;
    }
  }

  /** Two interceptors, the first of which writes in Before. */
  function EarlyWriter(): Config {
    var writer := Interceptor((st: Flight) => [Write(OtherResponse(0))], (st: Flight, resp: Response) => []);
    var silent := Interceptor((st: Flight) => [], (st: Flight, resp: Response) => []);
    var dispatcher := Dispatcher((st: Flight, resp: Response) => st.hdr.wrapped, (st: Flight, resp: Response) => true);
    Config([writer, silent], (st: Flight) => [], dispatcher)
  }

  lemma CommitWithoutBefore(m: HeaderMap)
    ensures
      var log := Process(EarlyWriter(), m).flight.log;
      CommitCalled(1) in log && BeforeCalled(1) !in log
  {
    var cfg := EarlyWriter();
    var st := Log(Start(m), BeforeCalled(0));
    var w := st.(written := true);
    var w1 := Log(w, CommitCalled(1));
    assert RunActions(cfg, [], w1) == Run(w1, Ok);
    var w0 := Log(w1, CommitCalled(0));
    assert CommitPhase(cfg, 1, OtherResponse(0), w1) == Run(w0, Ok);
    assert CommitPhase(cfg, 2, OtherResponse(0), w) == Run(w0, Ok);
    var done := Run(Dispatch(cfg, w0, OtherResponse(0), false), Ok);
    assert RunAction(cfg, Write(OtherResponse(0)), st) == done;
    assert CallBefore(cfg, 0, Start(m)) == done;
    assert Process(cfg, m).flight.log[1] == CommitCalled(1);
  }
}
