/** The banned API checker (cmd/bancheck/bannedapi/banned_api.go): an index over the
    configured entries against a scan of all of them. filepath.Match is a parameter. */
module BanCheck {

  datatype BannedAPI = BannedAPI(name: string, msg: string, exemptions: seq<string>)

  /** A place in the checked code; identifiers are told apart by it. */
  datatype Pos = Pos(file: nat, offset: nat)

  datatype Diagnostic = Diagnostic(pos: Pos, api: string, msg: string)

  /** What matching a pattern against a package path gives. */
  datatype MatchResult = Matches | Differs | BadPattern

  /** filepath.Match with the package path fixed. */
  type Glob = string -> MatchResult

  datatype Exempt = Allowed | Banned | Malformed

  /** An API used somewhere. */
  datatype Use = Use(pos: Pos, api: string)

  // ----- The flat scan -----

  /** The first pattern that matches exempts the package; a malformed one found before that
      is an error. */
  function ExemptBy(glob: Glob, patterns: seq<string>): Exempt {
    if patterns == [] then Banned
    else match glob(patterns[0])
      case Matches => Allowed
      case BadPattern => Malformed
      case Differs => ExemptBy(glob, patterns[1..])
  }

  /** The first pattern that does not differ from the package decides, and nothing behind it. */
  lemma {:induction false} ExemptThus(glob: Glob, patterns: seq<string>, j: nat)
    requires j <= |patterns| && forall i :: 0 <= i < j ==> glob(patterns[i]) == Differs
    ensures j == |patterns| ==> ExemptBy(glob, patterns) == Banned
    ensures j < |patterns| && glob(patterns[j]) == Matches ==> ExemptBy(glob, patterns) == Allowed
    ensures j < |patterns| && glob(patterns[j]) == BadPattern ==> ExemptBy(glob, patterns) == Malformed
    decreases j
  {
    if j > 0 { ExemptThus(glob, patterns[1..], j - 1); }
  }

  /** An entry speaks about the uses of its own name only: nothing for an exempt package, an
      error for a malformed exemption, and one diagnostic at the use otherwise. */
  lemma ReportThus(glob: Glob, e: BannedAPI, u: Use)
    ensures e.name != u.api ==> Report(glob, e, u) == ([], true)
    ensures e.name == u.api ==>
              && (ExemptBy(glob, e.exemptions) == Allowed ==> Report(glob, e, u) == ([], true))
              && (ExemptBy(glob, e.exemptions) == Malformed ==> Report(glob, e, u) == ([], false))
              && (ExemptBy(glob, e.exemptions) == Banned ==> Report(glob, e, u) == ([Diagnostic(u.pos, e.name, e.msg)], true))
  {
  }

  /** A use is scanned up to the first entry with its name and a malformed exemption; what
      the entries before it report stays reported. */
  lemma {:induction false} MalformedStops(glob: Glob, entries: seq<BannedAPI>, u: Use, j: nat)
    requires j < |entries| && entries[j].name == u.api && ExemptBy(glob, entries[j].exemptions) == Malformed
    requires forall i :: 0 <= i < j && entries[i].name == u.api ==> ExemptBy(glob, entries[i].exemptions) != Malformed
    ensures Scan(glob, entries[..j], u).1 && Scan(glob, entries, u) == (Scan(glob, entries[..j], u).0, false)
  {
    ScansFine(glob, entries[..j], u);
    assert entries[..j + 1][..j] == entries[..j];
    var ds := Scan(glob, entries[..j], u).0;
    assert ds + [] == ds;
    ScanStops(glob, entries, u, j + 1);
  }

  lemma {:induction false} ScansFine(glob: Glob, entries: seq<BannedAPI>, u: Use)
    requires forall i :: 0 <= i < |entries| && entries[i].name == u.api ==> ExemptBy(glob, entries[i].exemptions) != Malformed
    ensures Scan(glob, entries, u).1
  {
    if entries != [] { ScansFine(glob, entries[..|entries| - 1], u); }
  }

  /** What one entry has to say about a use; false for a malformed exemption. */
  function Report(glob: Glob, e: BannedAPI, u: Use): (seq<Diagnostic>, bool) {
    if e.name != u.api then ([], true)
    else match ExemptBy(glob, e.exemptions)
      case Allowed => ([], true)
      case Malformed => ([], false)
      case Banned => ([Diagnostic(u.pos, u.api, e.msg)], true)
  }

  /** The diagnostics for one use, from every entry in configuration order, up to the first
      malformed exemption; false if there is one. */
  function Scan(glob: Glob, entries: seq<BannedAPI>, u: Use): (seq<Diagnostic>, bool) {
    if entries == [] then ([], true)
    else
      var (ds, ok) := Scan(glob, entries[..|entries| - 1], u);
      if !ok then (ds, false)
      else
        var (more, ok') := Report(glob, entries[|entries| - 1], u);
        (ds + more, ok')
  }

  function ScanAll(glob: Glob, entries: seq<BannedAPI>, uses: seq<Use>): (seq<Diagnostic>, bool) {
    if uses == [] then ([], true)
    else
      var (ds, ok) := ScanAll(glob, entries, uses[..|uses| - 1]);
      if !ok then (ds, false)
      else
        var (more, ok') := Scan(glob, entries, uses[|uses| - 1]);
        (ds + more, ok')
  }

  /** No exemption is malformed. */
  ghost predicate WellFormed(glob: Glob, entries: seq<BannedAPI>) {
    forall i, j :: 0 <= i < |entries| && 0 <= j < |entries[i].exemptions| ==> glob(entries[i].exemptions[j]) != BadPattern
  }

  // ----- The index -----

  type Index = map<string, seq<BannedAPI>>

  function Named(entries: seq<BannedAPI>, name: string): seq<BannedAPI> {
    if entries == [] then []
    else Named(entries[..|entries| - 1], name) +
         (if entries[|entries| - 1].name == name then [entries[|entries| - 1]] else [])
  }

  function EntriesFor(m: Index, name: string): seq<BannedAPI> {
    if name in m then m[name] else []
  }

  ghost predicate Indexes(m: Index, entries: seq<BannedAPI>) {
    forall name :: EntriesFor(m, name) == Named(entries, name)
  }

  method BannedAPIMap(entries: seq<BannedAPI>) returns (m: Index)
    ensures Indexes(m, entries)
  {
    m := map[];
    for i := 0 to |entries|
      invariant Indexes(m, entries[..i])
    {
      var e := entries[i];
      ghost var m0 := m;
      assert entries[..i + 1][..i] == entries[..i];
      m := m[e.name := EntriesFor(m, e.name) + [e]];
      forall name ensures EntriesFor(m, name) == Named(entries[..i + 1], name) {
        assert EntriesFor(m0, name) == Named(entries[..i], name);
      }
    }
    assert entries[..|entries|] == entries;
  }

  /** Everything filed under a name has that name. */
  lemma {:induction false} NamedHasName(entries: seq<BannedAPI>, name: string)
    ensures forall i :: 0 <= i < |Named(entries, name)| ==> Named(entries, name)[i].name == name
  {
    if entries != [] { NamedHasName(entries[..|entries| - 1], name); }
  }

  /** Scanning the entries filed under the name is scanning all of them. */
  lemma {:induction false} ScanOfNamed(glob: Glob, entries: seq<BannedAPI>, u: Use)
    ensures Scan(glob, Named(entries, u.api), u) == Scan(glob, entries, u)
  {
    if entries != [] {
      var init, e := entries[..|entries| - 1], entries[|entries| - 1];
      ScanOfNamed(glob, init, u);
      var named := Named(init, u.api);
      if e.name == u.api {
        assert (named + [e])[..|named|] == named;
      } else {
        assert Named(entries, u.api) == named;
        assert Scan(glob, init, u).0 + [] == Scan(glob, init, u).0;
      }
    }
  }

  // ----- The checker -----

  class Pass {
    const glob: Glob
    var reported: seq<Diagnostic>

    constructor (glob: Glob)
      ensures this.glob == glob && reported == []
    {
      this.glob, reported := glob, [];
    }

    method IsPkgAllowed(e: BannedAPI) returns (r: Exempt)
      ensures r == ExemptBy(glob, e.exemptions)
    {
      var ps := e.exemptions;
      for i := 0 to |ps|
        invariant ExemptBy(glob, ps) == ExemptBy(glob, ps[i..])
      {
        assert ps[i..][1..] == ps[i + 1..];
        match glob(ps[i]) {
          case BadPattern => return Malformed;
          case Matches => return Allowed;
          case Differs =>
        }
      }
      assert ps[|ps|..] == [];
      r := Banned;
    }

    method ReportEntry(u: Use, e: BannedAPI) returns (ok: bool)
      requires e.name == u.api
      modifies this
      ensures reported == old(reported) + Report(glob, e, u).0 && ok == Report(glob, e, u).1
    {
      var x := IsPkgAllowed(e);
      if x.Malformed? {
        return false;
      }
      if x.Banned? {
        reported := reported + [Diagnostic(u.pos, u.api, e.msg)];
      }
      ok := true;
    }

    /** entries is the configuration that the index was built from. The early return for an
        entry with another name is in the source; no index that BannedAPIMap builds takes it. */
    method ReportIfBanned(u: Use, m: Index, ghost entries: seq<BannedAPI>) returns (ok: bool)
      requires Indexes(m, entries)
      modifies this
      ensures (reported, ok) == (old(reported) + Scan(glob, entries, u).0, Scan(glob, entries, u).1)
    {
      var found := EntriesFor(m, u.api);
      NamedHasName(entries, u.api);
      ScanOfNamed(glob, entries, u);
      for i := 0 to |found|
        invariant Scan(glob, found[..i], u).1 && reported == old(reported) + Scan(glob, found[..i], u).0
      {
        assert found[..i + 1][..i] == found[..i];
        if u.api != found[i].name {
          assert false;
          return true;
        }
        ghost var more := Report(glob, found[i], u).0;
        assert old(reported) + Scan(glob, found[..i], u).0 + more == old(reported) + (Scan(glob, found[..i], u).0 + more);
        ok := ReportEntry(u, found[i]);
        if !ok {
          ScanStops(glob, found, u, i + 1);
          return;
        }
      }
      assert found[..|found|] == found;
      ok := true;
    }

    method CheckFile(imports: seq<Use>, m: Index, ghost entries: seq<BannedAPI>) returns (ok: bool)
      requires Indexes(m, entries)
      modifies this
      ensures var all := ScanAll(glob, entries, imports);
              (reported, ok) == (old(reported) + all.0, all.1)
    {
      for i := 0 to |imports|
        invariant ScanAll(glob, entries, imports[..i]).1
        invariant reported == old(reported) + ScanAll(glob, entries, imports[..i]).0
      {
        assert imports[..i + 1][..i] == imports[..i];
        ok := ReportIfBanned(imports[i], m, entries);
        assert reported == old(reported) + ScanAll(glob, entries, imports[..i + 1]).0;
        if !ok {
          ScanAllStops(glob, entries, imports, i + 1);
          return;
        }
      }
      assert imports[..|imports|] == imports;
      ok := true;
    }

    /** All imports of all files, in order, up to the first malformed exemption. */
    method CheckBannedImports(files: seq<seq<Use>>, m: Index, ghost entries: seq<BannedAPI>) returns (ok: bool)
      requires Indexes(m, entries)
      modifies this
      ensures var all := ScanAll(glob, entries, Flatten(files));
              (reported, ok) == (old(reported) + all.0, all.1)
    {
      for f := 0 to |files|
        invariant ScanAll(glob, entries, Flatten(files[..f])).1
        invariant reported == old(reported) + ScanAll(glob, entries, Flatten(files[..f])).0
      {
        assert files[..f + 1][..f] == files[..f];
        ScanAllAppend(glob, entries, Flatten(files[..f]), files[f]);
        ok := CheckFile(files[f], m, entries);
        assert reported == old(reported) + ScanAll(glob, entries, Flatten(files[..f + 1])).0;
        if !ok {
          FlattenPrefix(files, f + 1);
          assert Flatten(files)[..|Flatten(files[..f + 1])|] == Flatten(files[..f + 1]);
          ScanAllStops(glob, entries, Flatten(files), |Flatten(files[..f + 1])|);
          return;
        }
      }
      assert files[..|files|] == files;
      ok := true;
    }

    /** All uses of functions, in whatever order the map of uses is visited. */
    method CheckBannedFunctions(uses: map<Pos, string>, m: Index, ghost entries: seq<BannedAPI>) returns (ok: bool, ghost order: seq<Use>)
      requires Indexes(m, entries)
      modifies this
      ensures forall i, j :: 0 <= i < j < |order| ==> order[i] != order[j]
      ensures forall u :: u in order ==> u.pos in uses && uses[u.pos] == u.api
      ensures var all := ScanAll(glob, entries, order);
              (reported, ok) == (old(reported) + all.0, all.1)
      ensures ok ==> forall p :: p in uses ==> Use(p, uses[p]) in order
    {
      var todo := uses.Keys;
      order := [];
      while todo != {}
        invariant todo <= uses.Keys
        invariant forall i, j :: 0 <= i < j < |order| ==> order[i] != order[j]
        invariant forall u :: u in order ==> u.pos in uses && u.pos !in todo && uses[u.pos] == u.api
        invariant forall p :: p in uses && p !in todo ==> Use(p, uses[p]) in order
        invariant ScanAll(glob, entries, order).1 && reported == old(reported) + ScanAll(glob, entries, order).0
        decreases todo
      {
        var p :| p in todo;
        todo := todo - {p};
        ScanAllSnoc(glob, entries, order, Use(p, uses[p]), old(reported));
        order := order + [Use(p, uses[p])];
        ok := ReportIfBanned(Use(p, uses[p]), m, entries);
        if !ok {
          return;
        }
      }
      ok := true;
    }
  }

  lemma ScanAllSnoc(glob: Glob, entries: seq<BannedAPI>, uses: seq<Use>, u: Use, start: seq<Diagnostic>)
    requires ScanAll(glob, entries, uses).1
    ensures ScanAll(glob, entries, uses + [u]).1 == Scan(glob, entries, u).1
    ensures start + ScanAll(glob, entries, uses + [u]).0 == start + ScanAll(glob, entries, uses).0 + Scan(glob, entries, u).0
  {
    assert (uses + [u])[..|uses|] == uses;
  }

  function Flatten(files: seq<seq<Use>>): seq<Use> {
    if files == [] then [] else Flatten(files[..|files| - 1]) + files[|files| - 1]
  }

  /** The imports of one more file come behind all others. */
  lemma FlattenThus(files: seq<seq<Use>>, f: seq<Use>)
    ensures Flatten([]) == [] && Flatten(files + [f]) == Flatten(files) + f
  {
    assert (files + [f])[..|files|] == files;
  }

  lemma {:induction false} FlattenPrefix(files: seq<seq<Use>>, k: nat)
    requires k <= |files|
    ensures Flatten(files[..k]) <= Flatten(files)
  {
    if k == |files| {
      assert files[..k] == files;
    } else {
      assert files[..|files| - 1][..k] == files[..k];
      FlattenPrefix(files[..|files| - 1], k);
    }
  }

  lemma {:induction false} ScanStops(glob: Glob, entries: seq<BannedAPI>, u: Use, k: nat)
    requires k <= |entries| && !Scan(glob, entries[..k], u).1
    ensures Scan(glob, entries, u) == Scan(glob, entries[..k], u)
  {
    if k == |entries| {
      assert entries[..k] == entries;
    } else {
      assert entries[..|entries| - 1][..k] == entries[..k];
      ScanStops(glob, entries[..|entries| - 1], u, k);
    }
  }

  lemma {:induction false} ScanAllStops(glob: Glob, entries: seq<BannedAPI>, uses: seq<Use>, k: nat)
    requires k <= |uses| && !ScanAll(glob, entries, uses[..k]).1
    ensures ScanAll(glob, entries, uses) == ScanAll(glob, entries, uses[..k])
  {
    if k == |uses| {
      assert uses[..k] == uses;
    } else {
      assert uses[..|uses| - 1][..k] == uses[..k];
      ScanAllStops(glob, entries, uses[..|uses| - 1], k);
    }
  }

  // ----- Properties of the scan -----

  lemma {:induction false} NoMalformed(glob: Glob, patterns: seq<string>)
    requires forall j :: 0 <= j < |patterns| ==> glob(patterns[j]) != BadPattern
    ensures ExemptBy(glob, patterns) != Malformed
    ensures ExemptBy(glob, patterns) == Allowed <==> exists j :: 0 <= j < |patterns| && glob(patterns[j]) == Matches
  {
    if patterns != [] {
      NoMalformed(glob, patterns[1..]);
      assert forall j :: 1 <= j < |patterns| ==> patterns[j] == patterns[1..][j - 1];
    }
  }

  /** Entry i calls for diagnostic d: it has the name used and no exemption matches. */
  predicate CallsFor(glob: Glob, entries: seq<BannedAPI>, u: Use, d: Diagnostic, i: nat) {
    && i < |entries| && entries[i].name == u.api && d == Diagnostic(u.pos, u.api, entries[i].msg)
    && (forall j :: 0 <= j < |entries[i].exemptions| ==> glob(entries[i].exemptions[j]) != Matches)
  }

  function Callers(glob: Glob, entries: seq<BannedAPI>, u: Use, d: Diagnostic): set<int> {
    set i | 0 <= i < |entries| && CallsFor(glob, entries, u, d, i)
  }

  lemma CallersLast(glob: Glob, entries: seq<BannedAPI>, u: Use, d: Diagnostic)
    requires entries != []
    ensures
      var n := |entries| - 1;
      |Callers(glob, entries, u, d)| ==
      |Callers(glob, entries[..n], u, d)| + (if CallsFor(glob, entries, u, d, n) then 1 else 0)
  {
    var n := |entries| - 1;
    var hits, before := Callers(glob, entries, u, d), Callers(glob, entries[..n], u, d);
    assert forall i: nat :: i < n ==> (CallsFor(glob, entries[..n], u, d, i) <==> CallsFor(glob, entries, u, d, i));
    assert hits == if CallsFor(glob, entries, u, d, n) then before + {n} else before;
  }

  /** Without malformed patterns a use is reported once for each entry with its name whose
      exemptions do not cover the package, and for nothing else. */
  lemma {:induction false} ReportedExactly(glob: Glob, entries: seq<BannedAPI>, u: Use, d: Diagnostic)
    requires WellFormed(glob, entries)
    ensures Scan(glob, entries, u).1
    ensures multiset(Scan(glob, entries, u).0)[d] == |Callers(glob, entries, u, d)|
  {
    if entries != [] {
      var n := |entries| - 1;
      ReportedExactly(glob, entries[..n], u, d);
      NoMalformed(glob, entries[n].exemptions);
      CallersLast(glob, entries, u, d);
    }
  }

  /** Appending entries never removes a diagnostic. */
  lemma {:induction false} ScanGrows(glob: Glob, entries: seq<BannedAPI>, more: seq<BannedAPI>, u: Use)
    ensures Scan(glob, entries, u).0 <= Scan(glob, entries + more, u).0
  {
    if more == [] {
      assert entries + more == entries;
    } else {
      var all := entries + more;
      assert all[..|all| - 1] == entries + more[..|more| - 1];
      ScanGrows(glob, entries, more[..|more| - 1], u);
    }
  }

  lemma {:induction false} AllScanned(glob: Glob, entries: seq<BannedAPI>, uses: seq<Use>)
    requires WellFormed(glob, entries)
    ensures ScanAll(glob, entries, uses).1
  {
    if uses != [] {
      var u := uses[|uses| - 1];
      AllScanned(glob, entries, uses[..|uses| - 1]);
      ReportedExactly(glob, entries, u, Diagnostic(u.pos, u.api, ""));
    }
  }

  lemma WellFormedPrefix(glob: Glob, entries: seq<BannedAPI>, more: seq<BannedAPI>)
    requires WellFormed(glob, entries + more)
    ensures WellFormed(glob, entries)
  {
    assert forall i :: 0 <= i < |entries| ==> entries[i] == (entries + more)[i];
  }

  lemma AddedDiagnostics(a: seq<Diagnostic>, b: seq<Diagnostic>, c: seq<Diagnostic>, d: seq<Diagnostic>)
    requires multiset(a) <= multiset(b) && c <= d
    ensures multiset(a + c) <= multiset(b + d)
  {
    assert d == c + d[|c|..];
  }

  /** Appending entries never removes a diagnostic of the whole check. */
  lemma {:induction false} ScanAllGrows(glob: Glob, entries: seq<BannedAPI>, more: seq<BannedAPI>, uses: seq<Use>)
    requires WellFormed(glob, entries + more)
    ensures multiset(ScanAll(glob, entries, uses).0) <= multiset(ScanAll(glob, entries + more, uses).0)
  {
    if uses != [] {
      var init, u, all := uses[..|uses| - 1], uses[|uses| - 1], entries + more;
      ScanAllGrows(glob, entries, more, init);
      WellFormedPrefix(glob, entries, more);
      AllScanned(glob, entries, init);
      AllScanned(glob, all, init);
      ScanGrows(glob, entries, more, u);
      AddedDiagnostics(ScanAll(glob, entries, init).0, ScanAll(glob, all, init).0,
                       Scan(glob, entries, u).0, Scan(glob, all, u).0);
    }
  }

  lemma {:induction false} ScanAllAppend(glob: Glob, entries: seq<BannedAPI>, a: seq<Use>, b: seq<Use>)
    ensures
      var (as', ok) := ScanAll(glob, entries, a);
      var (bs, ok') := ScanAll(glob, entries, b);
      ScanAll(glob, entries, a + b) == if ok then (as' + bs, ok') else (as', false)
  {
    if b == [] {
      assert a + b == a;
      assert ScanAll(glob, entries, a).0 + [] == ScanAll(glob, entries, a).0;
    } else {
      var init := b[..|b| - 1];
      assert (a + b)[..|a + b| - 1] == a + init;
      ScanAllAppend(glob, entries, a, init);
      var as', mid, more := ScanAll(glob, entries, a).0, ScanAll(glob, entries, init).0, Scan(glob, entries, b[|b| - 1]).0;
      assert as' + mid + more == as' + (mid + more);
    }
  }

  lemma WithoutOne(a: seq<Use>, l: seq<Use>, u: Use, r: seq<Use>)
    requires multiset(a + [u]) == multiset(l + ([u] + r))
    ensures multiset(a) == multiset(l + r)
  {
    assert multiset(a + [u]) == multiset(a) + multiset{u};
    assert multiset(l + ([u] + r)) == multiset(l) + multiset{u} + multiset(r);
    assert multiset(l + r) == multiset(l) + multiset(r);
    forall x ensures multiset(a)[x] == multiset(l + r)[x] {
      assert (multiset(a) + multiset{u})[x] == (multiset(l) + multiset{u} + multiset(r))[x];
    }
  }

  /** Two orders of the same uses give the same diagnostics, as a multiset. */
  lemma {:induction false} OrderDoesNotMatter(glob: Glob, entries: seq<BannedAPI>, a: seq<Use>, b: seq<Use>)
    requires WellFormed(glob, entries) && multiset(a) == multiset(b)
    ensures multiset(ScanAll(glob, entries, a).0) == multiset(ScanAll(glob, entries, b).0)
    decreases |a|
  {
    if a == [] {
      assert |b| == |multiset(b)| == |multiset(a)| == 0;
    } else {
      var init, u := a[..|a| - 1], a[|a| - 1];
      assert a == init + [u];
      assert u in multiset(b);
      var k :| 0 <= k < |b| && b[k] == u;
      var l, r := b[..k], b[k + 1..];
      assert b == l + ([u] + r);
      WithoutOne(init, l, u, r);
      OrderDoesNotMatter(glob, entries, init, l + r);
      MovedUse(glob, entries, init, l, u, r);
    }
  }

  lemma MovedUse(glob: Glob, entries: seq<BannedAPI>, a: seq<Use>, l: seq<Use>, u: Use, r: seq<Use>)
    requires WellFormed(glob, entries)
    requires multiset(ScanAll(glob, entries, a).0) == multiset(ScanAll(glob, entries, l + r).0)
    ensures multiset(ScanAll(glob, entries, a + [u]).0) == multiset(ScanAll(glob, entries, l + ([u] + r)).0)
  {
    AllScanned(glob, entries, a);
    AllScanned(glob, entries, l);
    AllScanned(glob, entries, [u]);
    ScanAllAppend(glob, entries, a, [u]);
    ScanAllAppend(glob, entries, l, [u] + r);
    ScanAllAppend(glob, entries, [u], r);
    ScanAllAppend(glob, entries, l, r);
  }

  /** A list without repetitions that holds the same uses is a reordering. */
  lemma {:induction false} SameUses(a: seq<Use>, b: seq<Use>)
    requires forall i, j :: 0 <= i < j < |a| ==> a[i] != a[j]
    requires forall i, j :: 0 <= i < j < |b| ==> b[i] != b[j]
    requires forall u :: u in a <==> u in b
    ensures multiset(a) == multiset(b)
  {
    forall u ensures multiset(a)[u] == multiset(b)[u] {
      OnceAtMost(a, u);
      OnceAtMost(b, u);
    }
  }

  lemma {:induction false} OnceAtMost(a: seq<Use>, u: Use)
    requires forall i, j :: 0 <= i < j < |a| ==> a[i] != a[j]
    ensures multiset(a)[u] == if u in a then 1 else 0
  {
    if a != [] {
      OnceAtMost(a[..|a| - 1], u);
      assert a == a[..|a| - 1] + [a[|a| - 1]];
    }
  }

  /** The functions check reports, as a multiset, what scanning all uses in any fixed order
      reports. */
  method FunctionsAgree(p: Pass, uses: map<Pos, string>, entries: seq<BannedAPI>, fixed: seq<Use>) returns (ok: bool)
    requires WellFormed(p.glob, entries) && p.reported == []
    requires forall i, j :: 0 <= i < j < |fixed| ==> fixed[i] != fixed[j]
    requires forall u :: u in fixed <==> u.pos in uses && uses[u.pos] == u.api
    modifies p
    ensures ok && multiset(p.reported) == multiset(ScanAll(p.glob, entries, fixed).0)
  {
    var m := BannedAPIMap(entries);
    ghost var order;
    ok, order := p.CheckBannedFunctions(uses, m, entries);
    AllScanned(p.glob, entries, order);
    forall u ensures u in order <==> u in fixed {
      if u in fixed { assert Use(u.pos, uses[u.pos]) == u; }
    }
    SameUses(order, fixed);
    OrderDoesNotMatter(p.glob, entries, order, fixed);
  }
}
