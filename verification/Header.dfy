/** The response headers and who may change them (safehttp/header.go). */
module HeaderModel {
  import opened Common
  import opened Canonical

  const SET_COOKIE := "Set-Cookie"

  type HeaderMap = map<string, seq<string>>

  function ValuesOf(m: HeaderMap, key: string): seq<string> {
    if key in m then m[key] else []
  }

  /** The state behind a Header value: the map it wraps and the names claimed so far. */
  datatype Headers = Headers(wrapped: HeaderMap, claimed: set<string>) {

    predicate Writable(key: string) {
      key != SET_COOKIE && key !in claimed
    }

    function Lookup(key: string): Option<seq<string>> {
      if key in wrapped then Some(wrapped[key]) else None
    }

    function Values(key: string): seq<string> {
      ValuesOf(wrapped, key)
    }

    /** Set-Cookie is never claimed and only canonical names are. */
    ghost predicate WellFormed() {
      SET_COOKIE !in claimed && forall k :: k in claimed ==> CanonicalKey(k) == k
    }
  }

  /** One operation on a header. A setter is the function Claim returned; it is named by
      the canonical name it captured. Its argument None is Go's nil slice. A cookie is
      given by the line it prints, empty when its name is not valid. */
  datatype HeaderOp =
    | SetOp(name: string, value: string)
    | AddOp(name: string, value: string)
    | DelOp(name: string)
    | ClaimOp(name: string)
    | SetterOp(key: string, values: Option<seq<string>>)
    | CookieOp(line: string)

  function Apply(h: Headers, op: HeaderOp): (Headers, Outcome) {
    match op
    case SetOp(name, value) =>
      var key := CanonicalKey(name);
      if h.Writable(key) then (h.(wrapped := h.wrapped[key := [value]]), Ok) else (h, Panicked)
    case AddOp(name, value) =>
      var key := CanonicalKey(name);
      if h.Writable(key) then (h.(wrapped := h.wrapped[key := h.Values(key) + [value]]), Ok)
      else (h, Panicked)
    case DelOp(name) =>
      var key := CanonicalKey(name);
      if h.Writable(key) then (h.(wrapped := h.wrapped - {key}), Ok) else (h, Panicked)
    case ClaimOp(name) =>
      var key := CanonicalKey(name);
      if h.Writable(key) then (h.(claimed := h.claimed + {key}), Ok) else (h, Panicked)
    case SetterOp(key, values) =>
      // Only a claimed name has a setter at all.
      if key in h.claimed && values.Some? then (h.(wrapped := h.wrapped[key := values.value]), Ok)
      else (h, Ok)
    case CookieOp(line) =>
      if line == "" then (h, Ok)
      else (h.(wrapped := h.wrapped[SET_COOKIE := h.Values(SET_COOKIE) + [line]]), Ok)
  }

  /** Any sequence of operations. An operation that panics changes nothing, and the code
      that issued it may recover, so the run goes on. */
  function RunOps(h: Headers, ops: seq<HeaderOp>): Headers
    decreases ops
  {
    if ops == [] then h else RunOps(Apply(h, ops[0]).0, ops[1..])
  }

  lemma {:induction false} RunOpsAppend(h: Headers, a: seq<HeaderOp>, b: seq<HeaderOp>)
    ensures RunOps(h, a + b) == RunOps(RunOps(h, a), b)
    decreases a
  {
    if a == [] {
      assert a + b == b;
    } else {
      assert (a + b)[1..] == a[1..] + b;
      RunOpsAppend(Apply(h, a[0]).0, a[1..], b);
    }
  }

  lemma RunOpsSnoc(h: Headers, ops: seq<HeaderOp>, op: HeaderOp)
    ensures RunOps(h, ops + [op]) == Apply(RunOps(h, ops), op).0
  {
    RunOpsAppend(h, ops, [op]);
    assert [op][1..] == [];
  }

  // ----- Reference definitions that do not mention the header state -----

  /** The names a run asks to claim, without Set-Cookie. */
  function ClaimedBy(ops: seq<HeaderOp>): set<string> {
    set i | 0 <= i < |ops| && ops[i].ClaimOp? && CanonicalKey(ops[i].name) != SET_COOKIE ::
      CanonicalKey(ops[i].name)
  }

  /** The argument of the last call of key's setter with a non-nil slice, or init. */
  function LastSet(ops: seq<HeaderOp>, key: string, init: Option<seq<string>>): Option<seq<string>> {
    if ops == [] then init
    else
      var last := ops[|ops| - 1];
      if last.SetterOp? && last.key == key && last.values.Some? then last.values
      else LastSet(ops[..|ops| - 1], key, init)
  }

  function CookieLine(op: HeaderOp): seq<string> {
    if op.CookieOp? && op.line != "" then [op.line] else []
  }

  /** The lines of the valid cookies, in the order they were added. */
  function CookieLines(ops: seq<HeaderOp>): seq<string> {
    if ops == [] then [] else CookieLines(ops[..|ops| - 1]) + CookieLine(ops[|ops| - 1])
  }

  // ----- What every run keeps -----

  lemma ApplyKeepsWellFormed(h: Headers, op: HeaderOp)
    requires h.WellFormed()
    ensures Apply(h, op).0.WellFormed()
  {
    if op.ClaimOp? { CanonicalIdempotent(op.name); }
  }

  lemma OneOpOnClaims(h: Headers, op: HeaderOp)
    ensures Apply(h, op).0.claimed == h.claimed + ClaimedBy([op])
  {
    assert [op][0] == op;
  }

  lemma ClaimedByCons(ops: seq<HeaderOp>)
    requires ops != []
    ensures ClaimedBy(ops) == ClaimedBy([ops[0]]) + ClaimedBy(ops[1..])
  {
    var one, rest := [ops[0]], ops[1..];
    assert ops == one + rest;
    forall k | k in ClaimedBy(rest) ensures k in ClaimedBy(ops) {
      var i :| 0 <= i < |rest| && rest[i].ClaimOp? && CanonicalKey(rest[i].name) == k;
      assert ops[i + 1] == rest[i];
    }
    forall k | k in ClaimedBy(one) ensures k in ClaimedBy(ops) {
      assert one[0] == ops[0];
    }
    forall k | k in ClaimedBy(ops) ensures k in ClaimedBy(one) + ClaimedBy(rest) {
      var i :| 0 <= i < |ops| && ops[i].ClaimOp? && CanonicalKey(ops[i].name) == k;
      if i == 0 { assert one[0] == ops[0]; } else { assert rest[i - 1] == ops[i]; }
    }
  }

  /** The claimed set only grows, by exactly the names the run asked for. */
  lemma {:induction false} ClaimedAfter(h: Headers, ops: seq<HeaderOp>)
    requires h.WellFormed()
    ensures RunOps(h, ops).WellFormed()
    ensures RunOps(h, ops).claimed == h.claimed + ClaimedBy(ops)
    decreases ops
  {
    if ops != [] {
      ApplyKeepsWellFormed(h, ops[0]);
      ClaimedAfter(Apply(h, ops[0]).0, ops[1..]);
      ClaimedByCons(ops);
      OneOpOnClaims(h, ops[0]);
    }
  }

  lemma ClaimsStay(h: Headers, ops: seq<HeaderOp>)
    requires h.WellFormed()
    ensures RunOps(h, ops).WellFormed() && h.claimed <= RunOps(h, ops).claimed
  {
    ClaimedAfter(h, ops);
  }

  /** Claim succeeds exactly when the name is not Set-Cookie and no name with the same
      canonical form was claimed before, whatever else happened in between. */
  lemma ClaimSucceedsOnce(h: Headers, ops: seq<HeaderOp>, name: string)
    requires h.WellFormed()
    ensures Apply(RunOps(h, ops), ClaimOp(name)).1.Ok? <==>
            && CanonicalKey(name) != SET_COOKIE
            && CanonicalKey(name) !in h.claimed
            && forall i :: 0 <= i < |ops| && ops[i].ClaimOp? ==> CanonicalKey(ops[i].name) != CanonicalKey(name)
  {
    ClaimedAfter(h, ops);
  }

  lemma OneOpOnClaimed(h: Headers, op: HeaderOp, key: string)
    requires h.WellFormed() && key in h.claimed
    ensures Apply(h, op).0.Lookup(key) ==
            if op.SetterOp? && op.key == key && op.values.Some? then op.values else h.Lookup(key)
  {
  }

  lemma {:induction false} OwnedByItsSetter(h: Headers, ops: seq<HeaderOp>, key: string)
    requires h.WellFormed() && key in h.claimed
    ensures RunOps(h, ops).Lookup(key) == LastSet(ops, key, h.Lookup(key))
  {
    if ops != [] {
      var init, last := ops[..|ops| - 1], ops[|ops| - 1];
      OwnedByItsSetter(h, init, key);
      RunOpsSnoc(h, init, last);
      assert ops == init + [last];
      ClaimsStay(h, init);
      OneOpOnClaimed(RunOps(h, init), last, key);
    }
  }

  /** Once a claim succeeds, the header's value is the last non-nil setter argument, or
      the value it had when it was claimed; no other operation can change it. */
  lemma ClaimedValue(h: Headers, before: seq<HeaderOp>, name: string, after: seq<HeaderOp>)
    requires h.WellFormed()
    requires Apply(RunOps(h, before), ClaimOp(name)).1.Ok?
    ensures
      var key := CanonicalKey(name);
      RunOps(h, before + [ClaimOp(name)] + after).Lookup(key)
      == LastSet(after, key, RunOps(h, before).Lookup(key))
  {
    var mid := RunOps(h, before + [ClaimOp(name)]);
    RunOpsAppend(h, before + [ClaimOp(name)], after);
    RunOpsAppend(h, before, [ClaimOp(name)]);
    assert mid == Apply(RunOps(h, before), ClaimOp(name)).0;
    ClaimedAfter(h, before + [ClaimOp(name)]);
    OwnedByItsSetter(mid, after, CanonicalKey(name));
  }

  lemma OneOpOnCookies(h: Headers, op: HeaderOp)
    requires h.WellFormed()
    ensures Apply(h, op).0.Values(SET_COOKIE) == h.Values(SET_COOKIE) + CookieLine(op)
  {
  }

  lemma AppendInTurn(a: seq<string>, b: seq<string>, c: seq<string>)
    ensures a + b + c == a + (b + c)
  {
  }

  /** Set-Cookie is append-only and holds exactly the valid cookies, in order. */
  lemma {:induction false} CookiesOnlyAppended(h: Headers, ops: seq<HeaderOp>)
    requires h.WellFormed()
    ensures RunOps(h, ops).Values(SET_COOKIE) == h.Values(SET_COOKIE) + CookieLines(ops)
  {
    if ops != [] {
      var init, last := ops[..|ops| - 1], ops[|ops| - 1];
      CookiesOnlyAppended(h, init);
      RunOpsSnoc(h, init, last);
      assert ops == init + [last];
      ClaimsStay(h, init);
      OneOpOnCookies(RunOps(h, init), last);
      AppendInTurn(h.Values(SET_COOKIE), CookieLines(init), CookieLine(last));
    }
  }

  // ----- The objects -----

  /** net/http.Header: a map shared by everything that holds it. */
  class HttpHeader {
    var m: HeaderMap

    constructor ()
      ensures m == map[]
    {
      m := map[];
    }

    method Set(name: string, value: string)
      modifies this
      ensures m == old(m)[CanonicalKey(name) := [value]]
    {
      m := m[CanonicalKey(name) := [value]];
    }

    method Add(name: string, value: string)
      modifies this
      ensures m == old(m)[CanonicalKey(name) := ValuesOf(old(m), CanonicalKey(name)) + [value]]
    {
      var key := CanonicalKey(name);
      m := m[key := ValuesOf(m, key) + [value]];
    }

    method Del(name: string)
      modifies this
      ensures m == old(m) - {CanonicalKey(name)}
    {
      m := m - {CanonicalKey(name)};
    }
  }

  /** safehttp.Header. Each method does to the state what Apply says. */
  class Header {
    const wrapped: HttpHeader
    var claimed: set<string>

    function Model(): Headers
      reads this, wrapped
    {
      Headers(wrapped.m, claimed)
    }

    constructor (h: HttpHeader)
      ensures wrapped == h && claimed == {}
    {
      wrapped := h;
      claimed := {};
    }

    predicate IsClaimed(name: string)
      reads this, wrapped
      ensures IsClaimed(name) <==> Apply(Model(), ClaimOp(name)).1.Panicked?
      ensures IsClaimed(name) <==> CanonicalKey(name) == "Set-Cookie" || CanonicalKey(name) in claimed
    {
      !Model().Writable(CanonicalKey(name))
    }

    method Claim(name: string) returns (outcome: Outcome, key: string)
      modifies this
      ensures (Model(), outcome) == Apply(old(Model()), ClaimOp(name))
      ensures key == CanonicalKey(name)
      ensures outcome.Panicked? <==> key == "Set-Cookie" || key in old(claimed)
      ensures claimed == old(claimed) + if outcome.Ok? then {key} else {}
    {
      key := CanonicalKey(name);
      if !Model().Writable(key) {
        return Panicked, key;
      }
      claimed := claimed + {key};
      outcome := Ok;
    }

    /** The function Claim returned for key. */
    method CallSetter(key: string, values: Option<seq<string>>)
      requires key in claimed
      modifies wrapped
      ensures (Model(), Ok) == Apply(old(Model()), SetterOp(key, values))
      ensures wrapped.m == if values.Some? then old(wrapped.m)[key := values.value] else old(wrapped.m)
    {
      if values.None? {
        return;
      }
      wrapped.m := wrapped.m[key := values.value];
    }

    method Set(name: string, value: string) returns (outcome: Outcome)
      modifies wrapped
      ensures (Model(), outcome) == Apply(old(Model()), SetOp(name, value))
      ensures outcome.Panicked? <==> CanonicalKey(name) == "Set-Cookie" || CanonicalKey(name) in claimed
      ensures wrapped.m == if outcome.Panicked? then old(wrapped.m) else old(wrapped.m)[CanonicalKey(name) := [value]]
    {
      var key := CanonicalKey(name);
      if !Model().Writable(key) {
        return Panicked;
      }
      CanonicalIdempotent(name);
      wrapped.Set(key, value);
      outcome := Ok;
    }

    method Add(name: string, value: string) returns (outcome: Outcome)
      modifies wrapped
      ensures (Model(), outcome) == Apply(old(Model()), AddOp(name, value))
      ensures outcome.Panicked? <==> CanonicalKey(name) == "Set-Cookie" || CanonicalKey(name) in claimed
      ensures wrapped.m == if outcome.Panicked? then old(wrapped.m) else old(wrapped.m)[CanonicalKey(name) := ValuesOf(old(wrapped.m), CanonicalKey(name)) + [value]]
    {
      var key := CanonicalKey(name);
      if !Model().Writable(key) {
        return Panicked;
      }
      CanonicalIdempotent(name);
      wrapped.Add(key, value);
      outcome := Ok;
    }

    method Del(name: string) returns (outcome: Outcome)
      modifies wrapped
      ensures (Model(), outcome) == Apply(old(Model()), DelOp(name))
      ensures outcome.Panicked? <==> CanonicalKey(name) == "Set-Cookie" || CanonicalKey(name) in claimed
      ensures wrapped.m == if outcome.Panicked? then old(wrapped.m) else old(wrapped.m) - {CanonicalKey(name)}
    {
      var key := CanonicalKey(name);
      if !Model().Writable(key) {
        return Panicked;
      }
      CanonicalIdempotent(name);
      wrapped.Del(key);
      outcome := Ok;
    }

    /** AddCookie reports an invalid cookie by returning false; it never panics. */
    method AddCookie(line: string) returns (added: bool)
      modifies wrapped
      ensures (Model(), Ok) == Apply(old(Model()), CookieOp(line))
      ensures added <==> line != ""
      ensures wrapped.m == if line == "" then old(wrapped.m)
                           else old(wrapped.m)["Set-Cookie" := ValuesOf(old(wrapped.m), "Set-Cookie") + [line]]
    {
      if line == "" {
        return false;
      }
      assert CanonicalKey(SET_COOKIE) == SET_COOKIE by { SetCookieIsCanonical(); }
      wrapped.Add(SET_COOKIE, line);
      added := true;
    }
  }

  lemma SetCookieIsToken()
    ensures IsToken(SET_COOKIE)
  {
  }

  lemma SetCookieIsSpelled()
    ensures Spelled(SET_COOKIE, true)
  {
  }

  lemma SetCookieIsCanonical()
    ensures CanonicalKey(SET_COOKIE) == SET_COOKIE
  {
    SetCookieIsToken();
    SetCookieIsSpelled();
    SpelledIsFixed(SET_COOKIE, true);
  }
}
