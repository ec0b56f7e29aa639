/** What the trace of a flight says about the responses that leave it. */
module TraceTheorems {
  import opened Common
  import opened HeaderModel
  import opened FlightModel
  import opened FlightTheorems
  import opened FlightInvariants
  import opened FlightTrace

  // ----- The log is what the trace calls -----

  lemma {:induction false} LogGrows(cfg: Config, st: Flight, steps: seq<Step>, p: nat)
    requires p <= |steps|
    ensures Replay(cfg, st, steps[..p]).log <= Replay(cfg, st, steps).log
    decreases |steps|
  {
    if p < |steps| {
      var most := steps[..|steps| - 1];
      LogGrows(cfg, st, most, p);
      assert most[..p] == steps[..p];
    } else {
      assert steps[..p] == steps;
    }
  }

  function EventOf(x: Flight, e: Event): Event {
    if e.Dispatched? then DispatchOf(x, e.resp, e.isError) else e
  }

  /** A call in the trace is logged behind the calls before it. */
  lemma CalledIsLogged(cfg: Config, st: Flight, steps: seq<Step>, p: nat)
    requires p < |steps| && steps[p].Called?
    ensures
      var x, log := Replay(cfg, st, steps[..p]), Replay(cfg, st, steps).log;
      |x.log| < |log| && log[..|x.log|] == x.log && log[|x.log|] == EventOf(x, steps[p].e)
  {
    assert steps[..p + 1][..p] == steps[..p];
    LogGrows(cfg, st, steps, p + 1);
  }

  /** A logged event was called in the trace. */
  lemma {:induction false} LoggedIsCalled(cfg: Config, st: Flight, steps: seq<Step>, j: nat) returns (p: nat)
    requires |st.log| <= j < |Replay(cfg, st, steps).log|
    ensures p < |steps| && steps[p].Called?
    ensures
      var x, log := Replay(cfg, st, steps[..p]), Replay(cfg, st, steps).log;
      x.log == log[..j] && log[j] == EventOf(x, steps[p].e)
    decreases |steps|
  {
    var n := |steps| - 1;
    var most := steps[..n];
    if j < |Replay(cfg, st, most).log| {
      p := LoggedIsCalled(cfg, st, most, j);
      assert most[..p] == steps[..p];
    } else {
      p := n;
    }
  }

  /** No call is in the trace twice. */
  lemma CalledOnce(cfg: Config, m: HeaderMap, p: nat, q: nat)
    requires p < q < |Trace(cfg, m)| && Trace(cfg, m)[p].Called? && Trace(cfg, m)[q].Called?
    ensures Trace(cfg, m)[p].e != Trace(cfg, m)[q].e
  {
    var t, st := Trace(cfg, m), Start(m);
    TraceIsTheFlight(cfg, m);
    CalledIsLogged(cfg, st, t, p);
    CalledIsLogged(cfg, st, t, q);
    CalledIsLogged(cfg, st, t[..q], p);
    assert t[..q][..p] == t[..p];
    CallsOnce(cfg, m, |Replay(cfg, st, t[..p]).log|, |Replay(cfg, st, t[..q]).log|);
  }

  lemma StepsInTurn(cfg: Config, t: seq<Step>, j: nat, st: Flight)
    requires j < |cfg.interceptors|
    ensures
      var r := CallBefore(cfg, j, st);
      t + StepsFrom(cfg, j, st) ==
      t + StepsOfBefore(cfg, j, st) + if r.outcome.Panicked? || r.flight.written then [] else StepsFrom(cfg, j + 1, r.flight)
  {
  }

  /** The part of the trace that belongs to the first k Befores. */
  lemma {:induction false} EntrySteps(cfg: Config, m: HeaderMap, k: nat, s: Flight) returns (t: seq<Step>)
    requires k <= |cfg.interceptors| && Entry(cfg, k, Start(m)) == Some(s)
    ensures Trace(cfg, m) == t + StepsFrom(cfg, k, s) && Replay(cfg, Start(m), t) == s
    decreases k
  {
    if k == 0 {
      t := [];
    } else {
      var i: nat := k - 1;
      var before := Entry(cfg, i, Start(m)).value;
      t := EntrySteps(cfg, m, i, before);
      EntryBefore(cfg, k, Start(m), before, s);
      OneEntry(cfg, m, i, t, before, s);
      t := t + StepsOfBefore(cfg, i, before);
    }
  }

  lemma OneEntry(cfg: Config, m: HeaderMap, i: nat, t: seq<Step>, before: Flight, s: Flight)
    requires i < |cfg.interceptors| && Replay(cfg, Start(m), t) == before
    requires CallBefore(cfg, i, before) == Run(s, Ok) && !s.written
    ensures t + StepsFrom(cfg, i, before) == t + StepsOfBefore(cfg, i, before) + StepsFrom(cfg, i + 1, s)
    ensures Replay(cfg, Start(m), t + StepsOfBefore(cfg, i, before)) == s
  {
    var x := Log(before, BeforeCalled(i));
    ReplayCall(cfg, before, BeforeCalled(i), cfg.interceptors[i].before(x));
    ReplayAppend(cfg, Start(m), t, StepsOfBefore(cfg, i, before));
    StepsInTurn(cfg, t, i, before);
  }

  // ----- Where writes begin -----

  predicate Begins(steps: seq<Step>) {
    exists p :: 0 <= p < |steps| && steps[p].WriteBegan?
  }

  lemma BeginsParts(a: seq<Step>, b: seq<Step>)
    ensures Begins(a + b) <==> Begins(a) || Begins(b)
  {
    if p :| 0 <= p < |a| && a[p].WriteBegan? { assert (a + b)[p] == a[p]; }
    if p :| 0 <= p < |b| && b[p].WriteBegan? { assert (a + b)[|a| + p] == b[p]; }
  }

  /** No write begins and no dispatch fails. */
  predicate Quiet(steps: seq<Step>) {
    !Begins(steps) && DispatchFailed !in steps
  }

  lemma QuietParts(a: seq<Step>, b: seq<Step>)
    ensures Quiet(a + b) <==> Quiet(a) && Quiet(b)
  {
    BeginsParts(a, b);
  }

  /** A flight that was written is not written again, and dispatches nothing more. */
  lemma {:induction false} WrittenBeginsNot(cfg: Config, acts: seq<Action>, st: Flight)
    requires st.written
    ensures Quiet(StepsOf(cfg, acts, st))
    decreases acts
  {
    if acts != [] {
      var r := RunAction(cfg, acts[0], st);
      if acts[0].Try? { WrittenBeginsNot(cfg, acts[0].body, st); }
      if r.outcome.Ok? { WrittenBeginsNot(cfg, acts[1..], r.flight); }
      QuietParts(StepsOfOne(cfg, acts[0], st), if r.outcome.Ok? then StepsOf(cfg, acts[1..], r.flight) else []);
    }
  }

  lemma {:induction false} CommitsBeginNot(cfg: Config, i: nat, resp: Response, st: Flight)
    requires st.written && i <= |cfg.interceptors|
    ensures Quiet(StepsOfCommits(cfg, i, resp, st))
    decreases i
  {
    if i > 0 {
      var x := Log(st, CommitCalled(i - 1));
      var acts := cfg.interceptors[i - 1].commit(x, resp);
      var r, first, own := RunActions(cfg, acts, x), [Called(CommitCalled(i - 1))], StepsOf(cfg, acts, x);
      var rest := if r.outcome.Panicked? then [] else StepsOfCommits(cfg, i - 1, resp, r.flight);
      WrittenBeginsNot(cfg, acts, x);
      if r.outcome.Ok? { CommitsBeginNot(cfg, i - 1, resp, r.flight); }
      assert StepsOfCommits(cfg, i, resp, st) == first + own + rest;
      QuietParts(first + own, rest);
      QuietParts(first, own);
    }
  }

  // ----- The headers the dispatcher gets -----

  function HeaderOpsOf(s: Step): seq<HeaderOp> {
    if s.Did? && s.a.HeaderAction? then [s.a.op] else []
  }

  /** The header operations that took effect, in order. */
  function HeaderOps(steps: seq<Step>): seq<HeaderOp> {
    if steps == [] then [] else HeaderOps(steps[..|steps| - 1]) + HeaderOpsOf(steps[|steps| - 1])
  }

  lemma {:induction false} HeaderOpsAppend(a: seq<Step>, b: seq<Step>)
    ensures HeaderOps(a + b) == HeaderOps(a) + HeaderOps(b)
  {
    if b == [] {
      assert a + b == a;
    } else {
      var c, last := HeaderOps(b[..|b| - 1]), HeaderOpsOf(b[|b| - 1]);
      HeaderOpsAppend(a, b[..|b| - 1]);
      assert (a + b)[..|a + b| - 1] == a + b[..|b| - 1];
      assert HeaderOps(a) + c + last == HeaderOps(a) + (c + last);
    }
  }

  lemma HeadersRedone(cfg: Config, h: Headers, ops: seq<HeaderOp>, x: Flight, s: Step)
    requires x.hdr == RunOps(h, ops) && !(s.Called? && s.e.Dispatched?)
    ensures Redo(cfg, x, s).hdr == RunOps(h, ops + HeaderOpsOf(s))
  {
    if s.Did? && s.a.HeaderAction? {
      RunOpsSnoc(h, ops, s.a.op);
    } else {
      assert ops + [] == ops;
    }
  }

  /** Before the dispatcher is called the headers are what those operations made of them. */
  lemma {:induction false} HeadersReplayed(cfg: Config, st: Flight, steps: seq<Step>)
    requires NoDispatch(Replay(cfg, st, steps).log)
    ensures Replay(cfg, st, steps).hdr == RunOps(st.hdr, HeaderOps(steps))
  {
    if steps != [] {
      var n := |steps| - 1;
      LogGrows(cfg, st, steps, n);
      HeadersReplayed(cfg, st, steps[..n]);
      if steps[n].Called? { CalledIsLogged(cfg, st, steps, n); }
      HeadersRedone(cfg, st.hdr, HeaderOps(steps[..n]), Replay(cfg, st, steps[..n]), steps[n]);
    }
  }

  lemma OnlyLastLeaves(cfg: Config, m: HeaderMap, j: nat)
    requires j < |Process(cfg, m).flight.log|
    ensures NoDispatch(Process(cfg, m).flight.log[..j])
  {
    forall i | 0 <= i < j ensures !Process(cfg, m).flight.log[i].Dispatched? { CallsOnce(cfg, m, i, j); }
  }

  /** The step of the trace at p is the dispatcher call that e logs. */
  ghost predicate DispatchedAt(cfg: Config, m: HeaderMap, p: nat, e: Event) {
    && p < |Trace(cfg, m)| && Trace(cfg, m)[p].Called? && Trace(cfg, m)[p].e.Dispatched?
    && e == EventOf(Replay(cfg, Start(m), Trace(cfg, m)[..p]), Trace(cfg, m)[p].e)
    && NoDispatch(Replay(cfg, Start(m), Trace(cfg, m)[..p]).log)
  }

  lemma DispatchedBefore(cfg: Config, m: HeaderMap, p: nat, q: nat)
    requires p < q <= |Trace(cfg, m)| && Trace(cfg, m)[p].Called? && Trace(cfg, m)[p].e.Dispatched?
    ensures !NoDispatch(Replay(cfg, Start(m), Trace(cfg, m)[..q]).log)
  {
    var t := Trace(cfg, m)[..q];
    CalledIsLogged(cfg, Start(m), t, p);
  }

  /** A flight dispatches at one step only. */
  lemma DispatchedAtOnce(cfg: Config, m: HeaderMap, p: nat, q: nat, e: Event, e': Event)
    requires DispatchedAt(cfg, m, p, e) && DispatchedAt(cfg, m, q, e')
    ensures p == q
  {
    if p < q { DispatchedBefore(cfg, m, p, q); }
    if q < p { DispatchedBefore(cfg, m, q, p); }
  }

  /** Whatever runs in a flight, the headers the dispatcher is given are the result of the
      header operations that took effect in the flight before that call. */
  lemma DispatchedHeadersEarned(cfg: Config, m: HeaderMap, e: Event) returns (p: nat)
    requires e in Process(cfg, m).flight.log && e.Dispatched?
    ensures DispatchedAt(cfg, m, p, e)
    ensures e.headers == RunOps(Headers(m, {}), HeaderOps(Trace(cfg, m)[..p])).wrapped
  {
    var log := Process(cfg, m).flight.log;
    var j :| 0 <= j < |log| && log[j] == e;
    TraceIsTheFlight(cfg, m);
    p := LoggedIsCalled(cfg, Start(m), Trace(cfg, m), j);
    OnlyLastLeaves(cfg, m, j);
    HeadersReplayed(cfg, Start(m), Trace(cfg, m)[..p]);
  }

  /** A response that leaves a flight shows each header claimed before as the last non-nil
      argument of its setter since any moment q at which it was claimed, or else as its value
      at that moment. */
  lemma DispatchedClaims(cfg: Config, m: HeaderMap, e: Event) returns (p: nat)
    requires e in Process(cfg, m).flight.log && e.Dispatched?
    ensures DispatchedAt(cfg, m, p, e)
    ensures
      var t, st := Trace(cfg, m), Start(m);
      forall q: nat, key :: q <= p && key in Replay(cfg, st, t[..q]).hdr.claimed ==>
        Headers(e.headers, {}).Lookup(key) == LastSet(HeaderOps(t[q..p]), key, Replay(cfg, st, t[..q]).hdr.Lookup(key))
  {
    p := DispatchedHeadersEarned(cfg, m, e);
    forall q: nat, key | q <= p && key in Replay(cfg, Start(m), Trace(cfg, m)[..q]).hdr.claimed
      ensures Headers(e.headers, {}).Lookup(key) ==
              LastSet(HeaderOps(Trace(cfg, m)[q..p]), key, Replay(cfg, Start(m), Trace(cfg, m)[..q]).hdr.Lookup(key))
    {
      ClaimedUntil(cfg, m, p, q, key);
    }
  }

  lemma ClaimedUntil(cfg: Config, m: HeaderMap, p: nat, q: nat, key: string)
    requires q <= p <= |Trace(cfg, m)| && NoDispatch(Replay(cfg, Start(m), Trace(cfg, m)[..p]).log)
    requires key in Replay(cfg, Start(m), Trace(cfg, m)[..q]).hdr.claimed
    ensures
      var t, st := Trace(cfg, m), Start(m);
      Replay(cfg, st, t[..p]).hdr.Lookup(key) == LastSet(HeaderOps(t[q..p]), key, Replay(cfg, st, t[..q]).hdr.Lookup(key))
  {
    var t, st := Trace(cfg, m), Start(m);
    var a, b, x := t[..q], t[q..p], Replay(cfg, st, t[..q]);
    assert t[..p] == a + b && (a + b)[..q] == a;
    LogGrows(cfg, st, t[..p], q);
    HeadersReplayed(cfg, st, a);
    HeadersReplayed(cfg, st, t[..p]);
    HeaderOpsAppend(a, b);
    RunOpsAppend(st.hdr, HeaderOps(a), HeaderOps(b));
    ClaimedAfter(st.hdr, HeaderOps(a));
    OwnedByItsSetter(x.hdr, HeaderOps(b), key);
  }

  /** No cookie the response already carried is lost or changed before it is sent, and the
      cookies behind it are exactly those the flight's code added. */
  lemma DispatchedCookiesKept(cfg: Config, m: HeaderMap, e: Event) returns (p: nat)
    requires e in Process(cfg, m).flight.log && e.Dispatched?
    ensures DispatchedAt(cfg, m, p, e)
    ensures ValuesOf(e.headers, SET_COOKIE) == ValuesOf(m, SET_COOKIE) + CookieLines(HeaderOps(Trace(cfg, m)[..p]))
  {
    p := DispatchedHeadersEarned(cfg, m, e);
    CookiesOnlyAppended(Headers(m, {}), HeaderOps(Trace(cfg, m)[..p]));
  }

  // ----- The flight values -----

  /** The last value put under key. */
  function LastPut(steps: seq<Step>, key: Key): Option<string> {
    if steps == [] then None
    else
      var s := steps[|steps| - 1];
      if s.Did? && s.a.Put? && s.a.key == key then Some(s.a.value) else LastPut(steps[..|steps| - 1], key)
  }

  function ValueIn(st: Flight, key: Key): Option<string> {
    if key in st.values then Some(st.values[key]) else None
  }

  lemma {:induction false} ValuesReplayed(cfg: Config, st: Flight, steps: seq<Step>, key: Key)
    requires st.values == map[]
    ensures ValueIn(Replay(cfg, st, steps), key) == LastPut(steps, key)
  {
    if steps != [] { ValuesReplayed(cfg, st, steps[..|steps| - 1], key); }
  }

  // ----- Flights without trouble -----

  /** No panic happened, recovered or not. */
  ghost predicate Calm(steps: seq<Step>) {
    forall i :: 0 <= i < |steps| ==> !steps[i].Refused? && !steps[i].DispatchFailed?
  }

  lemma CalmParts(a: seq<Step>, b: seq<Step>)
    ensures Calm(a + b) <==> Calm(a) && Calm(b)
  {
    if Calm(a + b) {
      assert forall i :: 0 <= i < |a| ==> a[i] == (a + b)[i];
      assert forall i :: 0 <= i < |b| ==> b[i] == (a + b)[|a| + i];
    }
  }

  lemma {:induction false} CalmActions(cfg: Config, acts: seq<Action>, st: Flight)
    requires Calm(StepsOf(cfg, acts, st))
    ensures
      var r := RunActions(cfg, acts, st);
      r.outcome.Ok? && (!st.written && r.flight.written ==> |Added(st, r)| == |cfg.interceptors| + 1)
    decreases !st.written, 0, acts
  {
    if acts != [] {
      var r := RunAction(cfg, acts[0], st);
      CalmParts(StepsOfOne(cfg, acts[0], st), if r.outcome.Panicked? then [] else StepsOf(cfg, acts[1..], r.flight));
      CalmAction(cfg, acts[0], st);
      CalmActions(cfg, acts[1..], r.flight);
      ActionWritesOnce(cfg, acts[0], st);
      ActionsWriteOnce(cfg, acts[1..], r.flight);
    }
  }

  lemma {:induction false} CalmAction(cfg: Config, a: Action, st: Flight)
    requires Calm(StepsOfOne(cfg, a, st))
    ensures
      var r := RunAction(cfg, a, st);
      r.outcome.Ok? && (!st.written && r.flight.written ==> |Added(st, r)| == |cfg.interceptors| + 1)
    decreases !st.written, 0, a
  {
    var steps := StepsOfOne(cfg, a, st);
    assert steps != [] ==> !steps[0].Refused?;
    match a
    case Try(body) => CalmActions(cfg, body, st);
    case Write(resp) =>
      CalmWrite(cfg, resp, false, st);
      WriteAddsOneTrace(cfg, resp, false, st);
    case WriteError(resp) =>
      CalmWrite(cfg, resp, true, st);
      WriteAddsOneTrace(cfg, resp, true, st);
    case _ =>
  }

  lemma {:induction false} CalmWrite(cfg: Config, resp: Response, isError: bool, st: Flight)
    requires !st.written && Calm(StepsOfWrite(cfg, resp, isError, st.(written := true)))
    ensures Finish(cfg, CommitPhase(cfg, |cfg.interceptors|, resp, st.(written := true)), resp, isError).outcome.Ok?
    decreases false, 2
  {
    var n, w := |cfg.interceptors|, st.(written := true);
    var r, a := CommitPhase(cfg, n, resp, w), [WriteBegan(resp, isError)] + StepsOfCommits(cfg, n, resp, w);
    CalmParts([WriteBegan(resp, isError)], StepsOfCommits(cfg, n, resp, w));
    if r.outcome.Panicked? {
      assert StepsOfWrite(cfg, resp, isError, w) == a;
    } else {
      var b := [Called(DispatchOf(r.flight, resp, isError))] + if cfg.dispatcher.accepts(r.flight, resp) then [] else [DispatchFailed];
      assert StepsOfWrite(cfg, resp, isError, w) == a + b;
      CalmParts(a, b);
      assert DispatchFailed !in b;
    }
    CalmCommits(cfg, n, resp, w);
  }

  lemma CalmCommit(cfg: Config, i: nat, resp: Response, st: Flight)
    requires st.written && 0 < i <= |cfg.interceptors| && Calm(StepsOfCommits(cfg, i, resp, st))
    ensures
      var x := Log(st, CommitCalled(i - 1));
      var acts := cfg.interceptors[i - 1].commit(x, resp);
      var r := RunActions(cfg, acts, x);
      Calm(StepsOf(cfg, acts, x)) && (r.outcome.Ok? ==> Calm(StepsOfCommits(cfg, i - 1, resp, r.flight)))
  {
    var x := Log(st, CommitCalled(i - 1));
    var acts := cfg.interceptors[i - 1].commit(x, resp);
    var r := RunActions(cfg, acts, x);
    var first, own := [Called(CommitCalled(i - 1))], StepsOf(cfg, acts, x);
    CalmParts(first + own, if r.outcome.Panicked? then [] else StepsOfCommits(cfg, i - 1, resp, r.flight));
    CalmParts(first, own);
  }

  lemma {:induction false} CalmCommits(cfg: Config, i: nat, resp: Response, st: Flight)
    requires st.written && i <= |cfg.interceptors| && Calm(StepsOfCommits(cfg, i, resp, st))
    ensures CommitPhase(cfg, i, resp, st).outcome.Ok?
    decreases !st.written, 1, i
  {
    if i > 0 {
      var x := Log(st, CommitCalled(i - 1));
      var acts := cfg.interceptors[i - 1].commit(x, resp);
      CalmCommit(cfg, i, resp, st);
      CalmActions(cfg, acts, x);
      CalmCommits(cfg, i - 1, resp, RunActions(cfg, acts, x).flight);
    }
  }

  lemma {:induction false} CalmFrom(cfg: Config, i: nat, st: Flight)
    requires i <= |cfg.interceptors| && !st.written && Calm(StepsFrom(cfg, i, st))
    ensures
      var r := FromBefore(cfg, i, st);
      r.outcome.Ok? && r.flight.log != [] && r.flight.log[|r.flight.log| - 1].Dispatched?
    decreases |cfg.interceptors| - i
  {
    if i == |cfg.interceptors| {
      var st' := Log(st, HandlerCalled);
      var r, own := CallHandler(cfg, st), StepsOf(cfg, cfg.handler(st'), st');
      CalmParts([Called(HandlerCalled)] + own,
                if r.outcome.Panicked? || r.flight.written then [] else [Called(DispatchOf(r.flight, NoContentResponse, false))]);
      CalmCall(cfg, HandlerCalled, cfg.handler(st'), st');
    } else {
      var st' := Log(st, BeforeCalled(i));
      var r := CallBefore(cfg, i, st);
      CalmParts(StepsOfBefore(cfg, i, st),
                if r.outcome.Panicked? || r.flight.written then [] else StepsFrom(cfg, i + 1, r.flight));
      CalmCall(cfg, BeforeCalled(i), cfg.interceptors[i].before(st'), st');
      if !r.flight.written { CalmFrom(cfg, i + 1, r.flight); }
    }
  }

  lemma CalmCall(cfg: Config, e: Event, acts: seq<Action>, st: Flight)
    requires !st.written && Calm([Called(e)] + StepsOf(cfg, acts, st))
    ensures
      var r := RunActions(cfg, acts, st);
      r.outcome.Ok? && (r.flight.written ==> r.flight.log != [] && r.flight.log[|r.flight.log| - 1].Dispatched?)
  {
    var r := RunActions(cfg, acts, st);
    CalmParts([Called(e)], StepsOf(cfg, acts, st));
    CalmActions(cfg, acts, st);
    ActionsWriteOnce(cfg, acts, st);
    if r.flight.written { assert r.flight.log[|r.flight.log| - 1] == Added(st, r)[|cfg.interceptors|]; }
  }

  /** A flight in which nothing panics, recovered or not, calls the dispatcher exactly once. */
  lemma DispatchedWhenCalm(cfg: Config, m: HeaderMap)
    requires Calm(Trace(cfg, m))
    ensures Process(cfg, m).outcome.Ok? && Dispatches(Process(cfg, m).flight.log) == 1
  {
    CalmFrom(cfg, 0, Start(m));
    var log := Process(cfg, m).flight.log;
    OnlyLastLeaves(cfg, m, |log| - 1);
    forall i | 0 <= i < |log| - 1 ensures !log[i].Dispatched? { assert log[..|log| - 1][i] == log[i]; }
    OnlyLastDispatched(log);
  }

  // ----- What becomes of a dispatcher error -----

  /** The step at q calls the dispatcher, and it accepts. */
  ghost predicate AcceptedAt(cfg: Config, st: Flight, steps: seq<Step>, q: nat) {
    && q < |steps| && steps[q].Called? && steps[q].e.Dispatched?
    && cfg.dispatcher.accepts(Replay(cfg, st, steps[..q]), steps[q].e.resp)
  }

  /** A write that comes back was accepted by the dispatcher. */
  lemma WriteAccepted(cfg: Config, a: Action, st: Flight) returns (q: nat)
    requires IsWrite(a) && RunAction(cfg, a, st).outcome.Ok?
    ensures !st.written && AcceptedAt(cfg, st, StepsOfOne(cfg, a, st), q)
  {
    var n, w, steps := |cfg.interceptors|, st.(written := true), StepsOfOne(cfg, a, st);
    var first, commits := [WriteBegan(a.resp, a.WriteError?)], StepsOfCommits(cfg, n, a.resp, w);
    q := |first + commits|;
    ReplayOneStep(cfg, st, first[0]);
    ReplayCommits(cfg, n, a.resp, w);
    ReplayAppend(cfg, st, first, commits);
    var c := CommitPhase(cfg, n, a.resp, w);
    var last := [Called(DispatchOf(c.flight, a.resp, a.WriteError?))] +
      if cfg.dispatcher.accepts(c.flight, a.resp) then [] else [DispatchFailed];
    assert RunAction(cfg, a, st) == Finish(cfg, c, a.resp, a.WriteError?);
    assert steps == StepsOfWrite(cfg, a.resp, a.WriteError?, w) == first + commits + last;
    assert steps[..q] == first + commits && steps[q] == last[0];
  }

  /** No stretch whose panics the code recovers is the one that writes. */
  predicate WritesOpenly(cfg: Config, acts: seq<Action>, st: Flight)
    decreases acts
  {
    acts != [] ==>
      var r := RunAction(cfg, acts[0], st);
      && (acts[0].Try? ==> r.flight.written == st.written)
      && (r.outcome.Ok? ==> WritesOpenly(cfg, acts[1..], r.flight))
  }

  lemma {:induction false} NoTryWritesOpenly(cfg: Config, acts: seq<Action>, st: Flight)
    requires NoTry(acts)
    ensures WritesOpenly(cfg, acts, st)
    decreases acts
  {
    if acts != [] { NoTryWritesOpenly(cfg, acts[1..], RunAction(cfg, acts[0], st).flight); }
  }

  /** Code that does not write does not fail to dispatch either. */
  lemma {:induction false} UnwrittenIsQuiet(cfg: Config, acts: seq<Action>, st: Flight)
    requires RunActions(cfg, acts, st).flight.written == st.written
    ensures Quiet(StepsOf(cfg, acts, st))
    decreases acts
  {
    if st.written {
      WrittenBeginsNot(cfg, acts, st);
    } else if acts != [] {
      var r := RunAction(cfg, acts[0], st);
      if r.outcome.Ok? {
        UnwrittenIsQuiet(cfg, acts[1..], r.flight);
      }
      if acts[0].Try? { UnwrittenIsQuiet(cfg, acts[0].body, st); }
      QuietParts(StepsOfOne(cfg, acts[0], st), if r.outcome.Ok? then StepsOf(cfg, acts[1..], r.flight) else []);
    }
  }

  /** Code that writes in no stretch it recovers panics when the dispatcher fails. */
  lemma {:induction false} FailedDispatchPanics(cfg: Config, acts: seq<Action>, st: Flight)
    requires WritesOpenly(cfg, acts, st) && DispatchFailed in StepsOf(cfg, acts, st)
    ensures RunActions(cfg, acts, st).outcome.Panicked?
    decreases acts
  {
    var a, r := acts[0], RunAction(cfg, acts[0], st);
    if r.outcome.Ok? {
      if IsWrite(a) {
        WriteFailsNot(cfg, a, st);
        WrittenBeginsNot(cfg, acts[1..], r.flight);
      } else {
        if a.Try? { UnwrittenIsQuiet(cfg, a.body, st); }
        FailedDispatchPanics(cfg, acts[1..], r.flight);
      }
    }
  }

  lemma WriteFailsNot(cfg: Config, a: Action, st: Flight)
    requires IsWrite(a) && RunAction(cfg, a, st).outcome.Ok?
    ensures RunAction(cfg, a, st).flight.written && DispatchFailed !in StepsOfOne(cfg, a, st)
  {
    CommitsBeginNot(cfg, |cfg.interceptors|, a.resp, st.(written := true));
    var q := WriteAccepted(cfg, a, st);
  }

  lemma AcceptedLater(cfg: Config, st: Flight, a: seq<Step>, b: seq<Step>, q: nat)
    requires AcceptedAt(cfg, Replay(cfg, st, a), b, q)
    ensures AcceptedAt(cfg, st, a + b, |a| + q)
  {
    TakeBehind(a, b, q);
    ReplayAppend(cfg, st, a, b[..q]);
  }

  lemma TakeBehind<T>(a: seq<T>, b: seq<T>, q: nat)
    requires q < |b|
    ensures (a + b)[..|a| + q] == a + b[..q] && (a + b)[|a| + q] == b[q]
  {
  }

  lemma AcceptedEarlier(cfg: Config, st: Flight, a: seq<Step>, b: seq<Step>, q: nat)
    requires AcceptedAt(cfg, st, a, q)
    ensures AcceptedAt(cfg, st, a + b, q)
  {
    assert (a + b)[..q] == a[..q];
  }

  /** Code that comes back, and writes in no stretch it recovers, had its response accepted. */
  lemma {:induction false} CallAccepted(cfg: Config, acts: seq<Action>, st: Flight) returns (q: nat)
    requires WritesOpenly(cfg, acts, st) && !st.written
    requires RunActions(cfg, acts, st).outcome.Ok? && RunActions(cfg, acts, st).flight.written
    ensures AcceptedAt(cfg, st, StepsOf(cfg, acts, st), q)
    decreases acts
  {
    var r, one, rest := RunAction(cfg, acts[0], st), StepsOfOne(cfg, acts[0], st), acts[1..];
    if IsWrite(acts[0]) {
      q := WriteAccepted(cfg, acts[0], st);
      AcceptedEarlier(cfg, st, one, StepsOf(cfg, rest, r.flight), q);
    } else {
      ReplayAction(cfg, acts[0], st);
      var q1 := CallAccepted(cfg, rest, r.flight);
      AcceptedLater(cfg, st, one, StepsOf(cfg, rest, r.flight), q1);
      q := |one| + q1;
    }
  }

  /** How a flight that leaves the loop over Before at k goes on from there. */
  function LastCall(cfg: Config, k: nat): Event {
    if k == |cfg.interceptors| then HandlerCalled else BeforeCalled(k)
  }

  lemma LastSteps(cfg: Config, m: HeaderMap, k: nat, s: Flight) returns (more: seq<Step>)
    requires LeavesAt(cfg, m, k, s)
    ensures StepsFrom(cfg, k, s) == [Called(LastCall(cfg, k))] + StepsOf(cfg, CodeOf(cfg, k, s), Log(s, LastCall(cfg, k))) + more
  {
    more := [];
    if k == |cfg.interceptors| {
      var r := CallHandler(cfg, s);
      if r.outcome.Ok? && !r.flight.written { more := [Called(DispatchOf(r.flight, NoContentResponse, false))]; }
      assert StepsFrom(cfg, k, s) == StepsOfHandler(cfg, s);
    } else {
      EntryNext(cfg, k, Start(m));
      assert StepsFrom(cfg, k, s) == StepsOfBefore(cfg, k, s) + [];
    }
  }

  /** The steps of the call in which the loop over Before is left, or of the handler. */
  lemma CallSteps(cfg: Config, m: HeaderMap, k: nat, s: Flight) returns (t: seq<Step>, more: seq<Step>)
    requires LeavesAt(cfg, m, k, s)
    ensures Trace(cfg, m) == t + StepsOf(cfg, CodeOf(cfg, k, s), Log(s, LastCall(cfg, k))) + more
    ensures Replay(cfg, Start(m), t) == Log(s, LastCall(cfg, k))
  {
    var before := EntrySteps(cfg, m, k, s);
    more := LastSteps(cfg, m, k, s);
    var first, own := [Called(LastCall(cfg, k))], StepsOf(cfg, CodeOf(cfg, k, s), Log(s, LastCall(cfg, k)));
    t := before + first;
    ReplayOneStep(cfg, s, first[0]);
    ReplayAppend(cfg, Start(m), before, first);
    assert before + (first + own + more) == t + own + more;
  }

  /** When the flight writes in no stretch that its code recovers and ends without a panic,
      the dispatcher accepted the response; so a dispatcher error in such a flight is a panic
      that leaves no header behind. A NoContent response is different: its error is lost. */
  lemma RefusedDispatchPanics(cfg: Config, m: HeaderMap, k: nat, s: Flight, p: nat, e: Event)
    requires LeavesAt(cfg, m, k, s) && WritesOpenly(cfg, CodeOf(cfg, k, s), Log(s, LastCall(cfg, k))) && DispatchedAt(cfg, m, p, e)
    ensures
      var r, refused := Process(cfg, m), !cfg.dispatcher.accepts(Replay(cfg, Start(m), Trace(cfg, m)[..p]), e.resp);
      && (r.flight.written && refused ==> r.outcome.Panicked? && r.flight.hdr.wrapped == map[])
      && (!r.flight.written ==> e.resp == NoContentResponse && r.outcome.Ok?)
  {
    var k', s' := LastEntry(cfg, m);
    LeavesOnce(cfg, m, k, s, k', s');
    if Process(cfg, m).flight.written {
      if Process(cfg, m).outcome.Ok? { WrittenMeansAccepted(cfg, m, k, s, p, e); }
    } else {
      DispatchIsLogged(cfg, m, p, e);
      UnwrittenDispatch(cfg, m, e);
    }
  }

  lemma DispatchIsLogged(cfg: Config, m: HeaderMap, p: nat, e: Event)
    requires DispatchedAt(cfg, m, p, e)
    ensures e in Process(cfg, m).flight.log && e.Dispatched?
  {
    TraceIsTheFlight(cfg, m);
    CalledIsLogged(cfg, Start(m), Trace(cfg, m), p);
  }

  lemma FlightAccepted(cfg: Config, m: HeaderMap, k: nat, s: Flight) returns (q: nat)
    requires LeavesAt(cfg, m, k, s) && !s.written && WritesOpenly(cfg, CodeOf(cfg, k, s), Log(s, LastCall(cfg, k)))
    requires
      var r := RunActions(cfg, CodeOf(cfg, k, s), Log(s, LastCall(cfg, k)));
      r.outcome.Ok? && r.flight.written
    ensures AcceptedAt(cfg, Start(m), Trace(cfg, m), q)
  {
    var x := Log(s, LastCall(cfg, k));
    var own := StepsOf(cfg, CodeOf(cfg, k, s), x);
    var t, more := CallSteps(cfg, m, k, s);
    q := CallAccepted(cfg, CodeOf(cfg, k, s), x);
    AcceptedLater(cfg, Start(m), t, own, q);
    q := |t| + q;
    AcceptedEarlier(cfg, Start(m), t + own, more, q);
  }

  lemma WrittenMeansAccepted(cfg: Config, m: HeaderMap, k: nat, s: Flight, p: nat, e: Event)
    requires LeavesAt(cfg, m, k, s) && !s.written && WritesOpenly(cfg, CodeOf(cfg, k, s), Log(s, LastCall(cfg, k))) && DispatchedAt(cfg, m, p, e)
    requires Process(cfg, m) == Wipe(if k == |cfg.interceptors| then HandlerPhase(cfg, s) else CallBefore(cfg, k, s))
    requires Process(cfg, m).outcome.Ok? && Process(cfg, m).flight.written
    ensures cfg.dispatcher.accepts(Replay(cfg, Start(m), Trace(cfg, m)[..p]), e.resp)
  {
    var q := FlightAccepted(cfg, m, k, s);
    SameDispatch(cfg, m, p, q, e);
  }

  lemma SameDispatch(cfg: Config, m: HeaderMap, p: nat, q: nat, e: Event)
    requires DispatchedAt(cfg, m, p, e) && q < |Trace(cfg, m)| && Trace(cfg, m)[q].Called? && Trace(cfg, m)[q].e.Dispatched?
    ensures p == q && Trace(cfg, m)[q].e.resp == e.resp
  {
    var t, st := Trace(cfg, m), Start(m);
    TraceIsTheFlight(cfg, m);
    CalledIsLogged(cfg, st, t, q);
    var j := |Replay(cfg, st, t[..q]).log|;
    OnlyLastLeaves(cfg, m, j);
    DispatchedAtOnce(cfg, m, p, q, e, Process(cfg, m).flight.log[j]);
  }

  /** What a flight that was never written dispatches. */
  lemma UnwrittenDispatch(cfg: Config, m: HeaderMap, e: Event)
    requires !Process(cfg, m).flight.written && e in Process(cfg, m).flight.log && e.Dispatched?
    ensures e.resp == NoContentResponse && Process(cfg, m).outcome.Ok?
  {
    var k, handled := FlightGrammar(cfg, m);
    var log := Process(cfg, m).flight.log;
    var j :| 0 <= j < |log| && log[j] == e;
    CallAt(|cfg.interceptors|, k, handled, Process(cfg, m), j);
    var p := |CallsBeforeWrite(k, handled)|;
    assert log[p..][j - p] == log[j];
  }

  // ----- Where a call panics -----

  /** The action at j is the first whose panic nothing in the code recovers. */
  ghost predicate PanicsAt(cfg: Config, acts: seq<Action>, st: Flight, j: nat) {
    && j < |acts| && !acts[j].Try?
    && var before := RunActions(cfg, acts[..j], st);
    before.outcome.Ok? && RunAction(cfg, acts[j], before.flight).outcome.Panicked?
  }

  ghost predicate Panics(cfg: Config, acts: seq<Action>, st: Flight) {
    exists j :: PanicsAt(cfg, acts, st, j)
  }

  /** A call panics exactly when some action outside every recovered stretch does. */
  lemma {:induction false} PanicsAtTopLevel(cfg: Config, acts: seq<Action>, st: Flight)
    ensures RunActions(cfg, acts, st).outcome.Panicked? <==> Panics(cfg, acts, st)
    decreases acts
  {
    if acts != [] {
      var r, rest := RunAction(cfg, acts[0], st), acts[1..];
      if r.outcome.Panicked? {
        assert PanicsAt(cfg, acts, st, 0);
      } else {
        PanicsAtTopLevel(cfg, rest, r.flight);
        forall j: nat | j < |rest| ensures PanicsAt(cfg, acts, st, j + 1) <==> PanicsAt(cfg, rest, r.flight, j) {
          assert acts[..j + 1][1..] == rest[..j];
        }
        if j: nat :| PanicsAt(cfg, acts, st, j) { assert PanicsAt(cfg, rest, r.flight, j - 1); }
        if j: nat :| PanicsAt(cfg, rest, r.flight, j) { assert PanicsAt(cfg, acts, st, j + 1); }
      }
    }
  }
}
