/** The adapter between net/http's file server and a flight (safehttp/fileserver.go). */
module FileServer {
  import opened Common
  import opened Canonical
  import opened HeaderModel
  import M = FlightModel
  import Object = FlightObject

  const CONTENT_TYPE := "Content-Type"
  const DEFAULT_TYPE := "application/octet-stream; charset=utf-8"

  /** What the file server does with the writer it is given. SetHeaders stands for any
      editing of the map that Header() hands out. */
  datatype Call = SetHeaders(m: HeaderMap) | WriteHeader(status: int) | Write(chunk: string)

  // ----- Reference definitions over whole call sequences -----

  /** The status of the first call that commits the response; a Write commits to 200. */
  function FirstStatus(calls: seq<Call>): Option<int> {
    if calls == [] then None
    else if FirstStatus(calls[..|calls| - 1]).Some? then FirstStatus(calls[..|calls| - 1])
    else match calls[|calls| - 1]
      case SetHeaders(_) => None
      case WriteHeader(status) => Some(status)
      case Write(_) => Some(200)
  }

  function Chunks(calls: seq<Call>): seq<string> {
    if calls == [] then []
    else Chunks(calls[..|calls| - 1]) +
         (if calls[|calls| - 1].Write? then [calls[|calls| - 1].chunk] else [])
  }

  /** The file server's headers when the first committing call is made. */
  function HeadersAtCommit(calls: seq<Call>): HeaderMap {
    if calls == [] then map[]
    else if FirstStatus(calls[..|calls| - 1]).None? && calls[|calls| - 1].SetHeaders? then calls[|calls| - 1].m
    else HeadersAtCommit(calls[..|calls| - 1])
  }

  function TypeOf(m: HeaderMap): string {
    if ValuesOf(m, CONTENT_TYPE) != [] then m[CONTENT_TYPE][0] else DEFAULT_TYPE
  }

  /** The one response a flight gets for a first status. */
  function ResponseFor(status: int, m: HeaderMap): M.Action {
    if status == 200 then M.Write(M.FileServerResponse(TypeOf(m))) else M.WriteError(M.ErrorResponse(404))
  }

  /** The file server's first Content-Type, or the default one, for a 200; 404 for anything
      else. */
  lemma ResponseThus(status: int, m: HeaderMap)
    ensures status != 200 ==> ResponseFor(status, m) == M.WriteError(M.ErrorResponse(404))
    ensures "Content-Type" in m && |m["Content-Type"]| > 0 ==>
              ResponseFor(200, m) == M.Write(M.FileServerResponse(m["Content-Type"][0]))
    ensures "Content-Type" !in m || m["Content-Type"] == [] ==>
              ResponseFor(200, m) == M.Write(M.FileServerResponse("application/octet-stream; charset=utf-8"))
  {
  }

  // ----- Copying the headers -----

  /** The file server's headers that are to be copied to key. */
  ghost predicate IsSource(fs: HeaderMap, h: Headers, key: string, k: string) {
    k in fs && fs[k] != [] && k != CONTENT_TYPE && CanonicalKey(k) == key && h.Writable(key)
  }

  /** Every header of after is one of its sources if it has any, and as before otherwise:
      claimed headers, Set-Cookie and Content-Type among them are untouched. */
  ghost predicate Copied(fs: HeaderMap, from: set<string>, before: Headers, after: Headers) {
    && after.claimed == before.claimed
    && forall key ::
         if exists k :: k in from && IsSource(fs, before, key, k)
         then exists k :: k in from && IsSource(fs, before, key, k) && after.Lookup(key) == Some(fs[k])
         else after.Lookup(key) == before.Lookup(key)
  }

  /** A canonical, unclaimed, non-empty header that no other spelling collides with arrives
      exactly as the file server set it, whatever the order in which the map was visited. */
  lemma CopiedExactly(fs: HeaderMap, before: Headers, after: Headers, key: string)
    requires Copied(fs, fs.Keys, before, after)
    requires IsSource(fs, before, key, key)
    requires forall k :: k in fs && CanonicalKey(k) == key && fs[k] != [] ==> k == key
    ensures after.Lookup(key) == Some(fs[key])
  {
    var k :| k in fs.Keys && IsSource(fs, before, key, k) && after.Lookup(key) == Some(fs[k]);
  }

  /** What the file server did not set, or may not set, is untouched. */
  lemma CopiedNothingElse(fs: HeaderMap, before: Headers, after: Headers, key: string)
    requires Copied(fs, fs.Keys, before, after)
    requires !before.Writable(key) || forall k :: k in fs && CanonicalKey(k) == key ==> fs[k] == [] || k == CONTENT_TYPE
    ensures after.Lookup(key) == before.Lookup(key)
  {
    assert !exists k :: k in fs.Keys && IsSource(fs, before, key, k);
  }

  lemma CopyStep(fs: HeaderMap, from: set<string>, before: Headers, mid: Headers, k: string, after: Headers)
    requires Copied(fs, from, before, mid) && k in fs && k !in from
    requires if IsSource(fs, before, CanonicalKey(k), k)
             then after == mid.(wrapped := mid.wrapped[CanonicalKey(k) := fs[k]]) else after == mid
    ensures Copied(fs, from + {k}, before, after)
  {
    var now := from + {k};
    forall key
      ensures if exists x :: x in now && IsSource(fs, before, key, x)
              then exists x :: x in now && IsSource(fs, before, key, x) && after.Lookup(key) == Some(fs[x])
              else after.Lookup(key) == before.Lookup(key)
    {
      if IsSource(fs, before, key, k) {
        assert after.Lookup(key) == Some(fs[k]);
      } else {
        assert after.Lookup(key) == mid.Lookup(key);
        if x :| x in now && IsSource(fs, before, key, x) {
          assert x in from;
        }
      }
    }
  }

  // ----- The adapter -----

  class FileServerResponseWriter {
    const flight: Object.Flight
    var header: HeaderMap
    var committed: bool
    var errored: bool
    /** The chunks passed on to the client. */
    var body: seq<string>
    /** How often the flight was written. */
    ghost var writes: nat

    ghost predicate Valid()
      reads this, flight
    {
      flight.Valid() && writes == (if committed then 1 else 0)
    }

    constructor (flight: Object.Flight)
      requires flight.Valid()
      ensures this.flight == flight && Valid() && !committed && header == map[] && body == []
    {
      this.flight := flight;
      header, committed, errored, body, writes := map[], false, false, [], 0;
    }

    /** Del, then Add for each value. */
    method CopyOne(k: string, v: seq<string>)
      requires flight.Valid() && v != [] && flight.header.Model().Writable(CanonicalKey(k))
      modifies flight.raw
      ensures var h := old(flight.header.Model());
              flight.header.Model() == h.(wrapped := h.wrapped[CanonicalKey(k) := v])
    {
      var ok := flight.header.Del(k);
      for i := 0 to |v|
        invariant flight.header.Model().claimed == old(flight.header.Model().claimed)
        invariant flight.raw.m - {CanonicalKey(k)} == old(flight.raw.m) - {CanonicalKey(k)}
        invariant ValuesOf(flight.raw.m, CanonicalKey(k)) == v[..i]
        invariant i > 0 ==> CanonicalKey(k) in flight.raw.m
      {
        ok := flight.header.Add(k, v[i]);
      }
      assert v[..|v|] == v;
      MapUpdate(old(flight.raw.m), flight.raw.m, CanonicalKey(k));
    }

    method CopyHeaders()
      requires flight.Valid()
      modifies flight.raw
      ensures Copied(header, header.Keys, old(flight.header.Model()), flight.header.Model())
    {
      var todo := header.Keys;
      while todo != {}
        invariant todo <= header.Keys
        invariant Copied(header, header.Keys - todo, old(flight.header.Model()), flight.header.Model())
        decreases todo
      {
        var k :| k in todo;
        ghost var mid := flight.header.Model();
        if |header[k]| > 0 && k != CONTENT_TYPE && !flight.header.IsClaimed(k) {
          CopyOne(k, header[k]);
        }
        CopyStep(header, header.Keys - todo, old(flight.header.Model()), mid, k, flight.header.Model());
        assert header.Keys - todo + {k} == header.Keys - (todo - {k});
        todo := todo - {k};
      }
      assert header.Keys - {} == header.Keys;
    }

    /** The first call copies the headers and writes the flight; later ones do nothing. */
    method WriteHeader(status: int) returns (outcome: Outcome, ghost copied: Headers)
      requires Valid()
      modifies this`committed, this`errored, this`writes, flight, flight.header, flight.raw
      ensures Valid() && committed
      ensures old(committed) ==> outcome.Ok? && errored == old(errored) && flight.State() == old(flight.State())
      ensures !old(committed) ==>
                && Copied(header, header.Keys, old(flight.header.Model()), copied)
                && M.Run(flight.State(), outcome) ==
                   M.RunAction(flight.cfg, ResponseFor(status, header), old(flight.State()).(hdr := copied))
                && (status != 200 ==> errored) && (status == 200 ==> errored == old(errored))
    {
      copied := flight.header.Model();
      if committed {
        return Ok, copied;
      }
      committed := true;
      var ct := DEFAULT_TYPE;
      if CONTENT_TYPE in header && |header[CONTENT_TYPE]| > 0 {
        ct := header[CONTENT_TYPE][0];
      }
      CopyHeaders();
      copied := flight.header.Model();
      writes := writes + 1;
      if status != 200 {
        errored := true;
        outcome := flight.WriteError(M.ErrorResponse(404));
        return;
      }
      outcome := flight.Write(M.FileServerResponse(ct));
    }

    /** A chunk commits to 200 if nothing did before, and is discarded after an error. */
    method Write(b: string) returns (outcome: Outcome, ghost copied: Headers)
      requires Valid()
      modifies this`committed, this`errored, this`writes, this`body, flight, flight.header, flight.raw
      ensures Valid() && committed
      ensures old(committed) ==> outcome.Ok? && errored == old(errored) && flight.State() == old(flight.State())
      ensures !old(committed) ==>
                && Copied(header, header.Keys, old(flight.header.Model()), copied)
                && M.Run(flight.State(), outcome) ==
                   M.RunAction(flight.cfg, ResponseFor(200, header), old(flight.State()).(hdr := copied))
                && errored == old(errored)
      ensures body == if outcome.Panicked? || errored then old(body) else old(body) + [b]
    {
      outcome, copied := Ok, flight.header.Model();
      if !committed {
        outcome, copied := WriteHeader(200);
        if outcome.Panicked? { return; }
      }
      if errored {
        return;
      }
      body := body + [b];
    }

    /** What the adapter remembers after the calls so far. */
    ghost predicate Remembers(calls: seq<Call>)
      reads this
    {
      && (committed <==> FirstStatus(calls).Some?)
      && (errored <==> FirstStatus(calls).Some? && FirstStatus(calls) != Some(200))
      && (!committed ==> header == HeadersAtCommit(calls))
      && body == Delivered(calls)
    }

    /** One more call. */
    method Receive(c: Call, ghost calls: seq<Call>, ghost start: M.Flight, ghost before: Headers)
      returns (outcome: Outcome, ghost copied: Headers)
      requires Valid() && Remembers(calls) && Served(flight.cfg, calls, start, before, M.Run(flight.State(), Ok))
      modifies this, flight, flight.header, flight.raw
      ensures Valid() && Served(flight.cfg, calls + [c], start, copied, M.Run(flight.State(), outcome))
      ensures outcome.Ok? ==> Remembers(calls + [c])
      ensures outcome.Panicked? ==> FirstStatus(calls).None? && FirstStatus(calls + [c]).Some? && body == []
    {
      assert (calls + [c])[..|calls|] == calls;
      NoChunksYet(calls);
      outcome, copied := Ok, before;
      ghost var c0, was := copied, committed;
      match c {
        case SetHeaders(m) => header := m;
        case WriteHeader(status) => outcome, c0 := WriteHeader(status);
        case Write(chunk) => outcome, c0 := Write(chunk);
      }
      if !was && committed { copied := c0; }
    }

    /** Any sequence of calls by the file server, cut short by a panic. The flight is
        written at most once, with the response its first status calls for and the file
        server's headers of that moment; the chunks reach the client, in order, exactly when
        that status is 200, and none of them after a panic. */
    method Serve(calls: seq<Call>) returns (outcome: Outcome, ghost copied: Headers)
      requires Valid() && !committed && !errored && header == map[] && body == []
      modifies this, flight, flight.header, flight.raw
      ensures Valid() && writes <= 1
      ensures Served(flight.cfg, calls, old(flight.State()), copied, M.Run(flight.State(), outcome))
      ensures body == if outcome.Panicked? then [] else Delivered(calls)
    {
      outcome, copied := Ok, flight.header.Model();
      for i := 0 to |calls|
        invariant Valid() && Remembers(calls[..i])
        invariant outcome.Ok? && Served(flight.cfg, calls[..i], old(flight.State()), copied, M.Run(flight.State(), outcome))
      {
        assert calls[..i + 1] == calls[..i] + [calls[i]];
        outcome, copied := Receive(calls[i], calls[..i], old(flight.State()), copied);
        if outcome.Panicked? {
          FirstStatusStays(calls, i + 1);
          return;
        }
      }
      assert calls[..|calls|] == calls;
    }
  }

  function Delivered(calls: seq<Call>): seq<string> {
    if FirstStatus(calls) == Some(200) then Chunks(calls) else []
  }

  lemma {:induction false} NothingCommitted(calls: seq<Call>)
    requires forall i :: 0 <= i < |calls| ==> calls[i].SetHeaders?
    ensures FirstStatus(calls) == None
    ensures HeadersAtCommit(calls) == if calls == [] then map[] else calls[|calls| - 1].m
  {
    if calls != [] { NothingCommitted(calls[..|calls| - 1]); }
  }

  /** The first call that is not an edit of the headers commits: a WriteHeader to its status,
      a Write to 200, and in either case with the headers as last edited before. */
  lemma CommitThus(edits: seq<Call>, c: Call, rest: seq<Call>)
    requires !c.SetHeaders? && forall i :: 0 <= i < |edits| ==> edits[i].SetHeaders?
    ensures FirstStatus(edits + [c] + rest) == Some(if c.WriteHeader? then c.status else 200)
    ensures HeadersAtCommit(edits + [c] + rest) == if edits == [] then map[] else edits[|edits| - 1].m
  {
    NothingCommitted(edits);
    var calls := edits + [c] + rest;
    assert calls[..|edits| + 1] == edits + [c] && (edits + [c])[..|edits|] == edits;
    FirstStatusStays(calls, |edits| + 1);
  }

  lemma ChunksOfOne(c: Call)
    ensures Chunks([]) == [] && Chunks([c]) == if c.Write? then [c.chunk] else []
  {
    assert [c][..0] == [];
  }

  /** The chunks are those of the Write calls, in order. */
  lemma {:induction false} ChunksInOrder(calls: seq<Call>, more: seq<Call>)
    ensures Chunks(calls + more) == Chunks(calls) + Chunks(more)
  {
    if more == [] {
      assert calls + more == calls;
    } else {
      var n := |more| - 1;
      ChunksInOrder(calls, more[..n]);
      assert (calls + more)[..|calls + more| - 1] == calls + more[..n];
      var last := if more[n].Write? then [more[n].chunk] else [];
      assert Chunks(calls) + Chunks(more[..n]) + last == Chunks(calls) + (Chunks(more[..n]) + last);
    }
  }

  /** The chunks of all calls are passed on if the first committing call is a Write or a
      WriteHeader of 200, and none is otherwise. */
  lemma DeliveredThus(edits: seq<Call>, c: Call, rest: seq<Call>)
    requires !c.SetHeaders? && forall i :: 0 <= i < |edits| ==> edits[i].SetHeaders?
    ensures Delivered(edits + [c] + rest) ==
            if c.Write? then [c.chunk] + Chunks(rest) else if c.status == 200 then Chunks(rest) else []
  {
    CommitThus(edits, c, rest);
    NothingCommitted(edits);
    NoChunksYet(edits);
    ChunksInOrder(edits, [c]);
    ChunksInOrder(edits + [c], rest);
    ChunksOfOne(c);
  }

  /** How a flight that was at start stands after the calls: untouched, or given one response
      after the headers were copied. */
  ghost predicate Served(cfg: M.Config, calls: seq<Call>, start: M.Flight, copied: Headers, r: M.Run) {
    match FirstStatus(calls)
    case None => r == M.Run(start, Ok)
    case Some(status) =>
      var fs := HeadersAtCommit(calls);
      && Copied(fs, fs.Keys, start.hdr, copied)
      && r == M.RunAction(cfg, ResponseFor(status, fs), start.(hdr := copied))
  }

  lemma MapUpdate(a: HeaderMap, b: HeaderMap, key: string)
    requires key in b && a - {key} == b - {key}
    ensures b == a[key := b[key]]
  {
    assert b == (b - {key})[key := b[key]];
    assert a[key := b[key]] == (a - {key})[key := b[key]];
  }

  lemma {:induction false} NoChunksYet(calls: seq<Call>)
    ensures FirstStatus(calls).None? ==> Chunks(calls) == []
  {
    if calls != [] { NoChunksYet(calls[..|calls| - 1]); }
  }

  lemma {:induction false} FirstStatusStays(calls: seq<Call>, k: nat)
    requires k <= |calls| && FirstStatus(calls[..k]).Some?
    ensures FirstStatus(calls) == FirstStatus(calls[..k])
    ensures HeadersAtCommit(calls) == HeadersAtCommit(calls[..k])
    decreases |calls|
  {
    if k == |calls| {
      assert calls[..k] == calls;
    } else {
      assert calls[..|calls| - 1][..k] == calls[..k];
      FirstStatusStays(calls[..|calls| - 1], k);
    }
  }
}
