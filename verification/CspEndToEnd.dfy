/** From the configured policies to what a browser reads out of the response. */
module CspEndToEnd {
  import opened GoStrings
  import opened HeaderModel
  import opened FlightModel
  import opened CspGrammar
  import opened CspPolicies
  import opened CspPlugin
  import opened FlightTheorems
  import opened CspTheorems

  // ----- No commas -----

  /** The strings put into a policy have no comma, which would end the policy early. */
  ghost predicate CommaFree(p: Policy, nonce: string, cfg: InterceptorConfig) {
    && ',' !in p.reportURI
    && (p.StrictPolicy? ==> ',' !in nonce && ',' !in p.baseURI && forall i :: 0 <= i < |p.hashes| ==> ',' !in p.hashes[i])
    && (p.FramingPolicy? && cfg.FramingAllowList? ==> forall i :: 0 <= i < |cfg.hostnames| ==> ',' !in cfg.hostnames[i])
  }

  ghost predicate Without(c: char, ds: seq<Directive>) {
    forall i :: 0 <= i < |ds| ==> c !in ds[i].name && forall j :: 0 <= j < |ds[i].value| ==> c !in ds[i].value[j]
  }

  lemma {:induction false} ValuesWithout(c: char, vs: seq<string>)
    requires c != ' ' && forall j :: 0 <= j < |vs| ==> c !in vs[j]
    ensures c !in PrintValues(vs)
  {
    if vs != [] { ValuesWithout(c, vs[..|vs| - 1]); }
  }

  lemma {:induction false} JoinWithout(c: char, xs: seq<string>, sep: string)
    requires c !in sep && forall j :: 0 <= j < |xs| ==> c !in xs[j]
    ensures c !in Join(xs, sep)
  {
    if |xs| > 1 { JoinWithout(c, xs[1..], sep); }
  }

  /** Printing brings in no characters but spaces and semicolons. */
  lemma PrintWithout(c: char, ds: seq<Directive>)
    requires c != ' ' && c != ';' && Without(c, ds)
    ensures c !in Print(ds)
  {
    forall i | 0 <= i < |ds| ensures c !in Tokens(ds)[i] {
      ValuesWithout(c, ds[i].value);
    }
    JoinWithout(c, Tokens(ds), ";");
  }

  lemma NamesWithoutComma()
    ensures ',' !in "object-src" && ',' !in "script-src" && ',' !in "base-uri" && ',' !in "report-uri"
  {
  }

  lemma MoreNamesWithoutComma()
    ensures ',' !in "frame-ancestors" && ',' !in "require-trusted-types-for"
  {
  }

  lemma SourcesWithoutComma(p: Policy, nonce: string)
    requires p.StrictPolicy? && ',' !in nonce && forall i :: 0 <= i < |p.hashes| ==> ',' !in p.hashes[i]
    ensures forall i :: 0 <= i < |ScriptSources(p, nonce)| ==> ',' !in ScriptSources(p, nonce)[i]
  {
    var ss, n := ScriptSources(p, nonce), |FixedSources(p, nonce)|;
    forall i | n <= i < |ss| ensures ',' !in ss[i] {
      assert ss[i] == Quoted(p.hashes[i - n]);
    }
  }

  lemma ReportWithoutComma(uri: string)
    requires ',' !in uri
    ensures Without(',', ReportTo(uri))
  {
    NamesWithoutComma();
  }

  lemma IntendedWithoutComma(p: Policy, nonce: string, cfg: InterceptorConfig)
    requires CommaFree(p, nonce, cfg)
    ensures Without(',', Intended(p, nonce, cfg))
  {
    NamesWithoutComma();
    MoreNamesWithoutComma();
    ReportWithoutComma(p.reportURI);
    if p.StrictPolicy? { SourcesWithoutComma(p, nonce); }
  }

  lemma TextWithoutComma(p: Policy, nonce: string, cfg: InterceptorConfig)
    requires CommaFree(p, nonce, cfg)
    ensures ',' !in Text(p, nonce, cfg)
  {
    IntendedWithoutComma(p, nonce, cfg);
    PrintWithout(',', Intended(p, nonce, cfg));
  }

  // ----- Policies as a browser reads them -----

  /** What one interceptor adds to a header. */
  function MeantBy(slot: Slot, nonce: string, ro: bool): seq<seq<Directive>> {
    if slot.CspSlot? && FateOf(slot.it) == FateFor(ro) then [Intended(slot.it.policy, nonce, slot.it.cfg)] else []
  }

  /** What the policies of the first k interceptors mean, in order. */
  function Meant(slots: seq<Slot>, k: nat, nonce: string, ro: bool): seq<seq<Directive>>
    requires k <= |slots|
  {
    if k == 0 then [] else Meant(slots, k - 1, nonce, ro) + MeantBy(slots[k - 1], nonce, ro)
  }

  ghost predicate CleanSlot(slot: Slot, nonce: string) {
    slot.CspSlot? ==> FieldsOf(slot.it.policy, nonce, slot.it.cfg) && CommaFree(slot.it.policy, nonce, slot.it.cfg)
  }

  ghost predicate CleanSlots(slots: seq<Slot>, n: nat, nonce: string)
    requires n <= |slots|
  {
    forall i :: 0 <= i < n ==> CleanSlot(slots[i], nonce)
  }

  lemma {:induction false} ParseHeaderAppend(a: seq<string>, b: seq<string>)
    ensures ParseHeader(a + b) == ParseHeader(a) + ParseHeader(b)
  {
    if a == [] {
      assert a + b == b;
    } else {
      assert (a + b)[1..] == a[1..] + b;
      ParseHeaderAppend(a[1..], b);
    }
  }

  lemma OneText(p: Policy, nonce: string, cfg: InterceptorConfig)
    requires FieldsOf(p, nonce, cfg) && CommaFree(p, nonce, cfg)
    ensures ParseHeader([Text(p, nonce, cfg)]) == [Intended(p, nonce, cfg)]
  {
    TextWithoutComma(p, nonce, cfg);
    SerializedPolicyParses(p, nonce, cfg);
    OnePolicyPerValue([Text(p, nonce, cfg)]);
  }

  lemma OneMoreText(before: seq<string>, it: CspInterceptor, nonce: string, text: string)
    requires FieldsOf(it.policy, nonce, it.cfg) && CommaFree(it.policy, nonce, it.cfg)
    requires text == Text(it.policy, nonce, it.cfg)
    ensures ParseHeader(before + [text]) == ParseHeader(before) + [Intended(it.policy, nonce, it.cfg)]
  {
    OneText(it.policy, nonce, it.cfg);
    ParseHeaderAppend(before, [text]);
  }

  lemma NextParse(slots: seq<Slot>, k: nat, nonce: string, ro: bool)
    requires k < |slots| && CleanSlot(slots[k], nonce)
    requires ParseHeader(Sent(slots, k, nonce, ro)) == Meant(slots, k, nonce, ro)
    ensures ParseHeader(Sent(slots, k + 1, nonce, ro)) == Meant(slots, k + 1, nonce, ro)
  {
    var slot, before := slots[k], Sent(slots, k, nonce, ro);
    if slot.CspSlot? && FateOf(slot.it) == FateFor(ro) {
      OneMoreText(before, slot.it, nonce, Text(slot.it.policy, nonce, slot.it.cfg));
    } else {
      assert before + [] == before;
    }
  }

  lemma {:induction false} SentParse(slots: seq<Slot>, k: nat, n: nat, nonce: string, ro: bool)
    requires k <= n <= |slots| && CleanSlots(slots, n, nonce)
    ensures ParseHeader(Sent(slots, k, nonce, ro)) == Meant(slots, k, nonce, ro)
  {
    if k > 0 {
      var i: nat := k - 1;
      SentParse(slots, i, n, nonce, ro);
      NextParse(slots, i, nonce, ro);
    }
  }

  /** What a browser reads when code of interceptor k, or of the handler, writes. */
  ghost predicate ReadsAt(slots: seq<Slot>, cfg: Config, m: HeaderMap, k: nat, e: Event)
    requires k <= |slots| == |cfg.interceptors| && e.Dispatched? && Entry(cfg, k, Start(m)).Some?
  {
    var s, base := Entry(cfg, k, Start(m)).value, Base(slots, cfg, k, Start(m));
    CspNonceKey in s.values && (CleanSlots(slots, k, s.values[CspNonceKey]) ==>
      && ParseHeader(ValuesOf(e.headers, CSP))
         == ParseHeader(base.Values(CSP)) + Meant(slots, k, s.values[CspNonceKey], false)
      && ParseHeader(ValuesOf(e.headers, CSP_REPORT_ONLY))
         == ParseHeader(base.Values(CSP_REPORT_ONLY)) + Meant(slots, k, s.values[CspNonceKey], true))
  }

  lemma WireIsRead(slots: seq<Slot>, cfg: Config, m: HeaderMap, k: nat, e: Event)
    requires k <= |slots| == |cfg.interceptors| && e.Dispatched? && WireAt(slots, cfg, m, k, e) && HasCsp(slots, k)
    ensures ReadsAt(slots, cfg, m, k, e)
  {
    var nonce, base := Entry(cfg, k, Start(m)).value.values[CspNonceKey], Base(slots, cfg, k, Start(m));
    if CleanSlots(slots, k, nonce) {
      SentParse(slots, k, k, nonce, false);
      SentParse(slots, k, k, nonce, true);
      ParseHeaderAppend(base.Values(CSP), Sent(slots, k, nonce, false));
      ParseHeaderAppend(base.Values(CSP_REPORT_ONLY), Sent(slots, k, nonce, true));
    }
  }

  /** A browser that parses the CSP headers of any response that leaves a flight reads the
      policies that were there when the headers were claimed, then exactly the directives
      and source lists meant by each CSP interceptor that ran before the writing code, in
      order, if the strings put into those policies are clean. */
  lemma BrowserReads(slots: seq<Slot>, handler: Flight -> seq<Action>, d: Dispatcher, m: HeaderMap, e: Event) returns (k: nat)
    requires ForeignCode(slots, handler)
    requires e in Process(Cfg(slots, handler, d), m).flight.log && e.Dispatched?
    ensures
      var cfg := Cfg(slots, handler, d);
      && k <= |slots| && WriterAt(|slots|, Process(cfg, m).flight.log, k) && Entry(cfg, k, Start(m)).Some?
      && (HasCsp(slots, k) ==> ReadsAt(slots, cfg, m, k, e))
  {
    var cfg := Cfg(slots, handler, d);
    k := CspOnTheWire(slots, handler, d, m);
    var log := Process(cfg, m).flight.log;
    var i :| 0 <= i < |log| && log[i] == e;
    assert WireAt(slots, cfg, m, k, log[i]);
    if HasCsp(slots, k) { WireIsRead(slots, cfg, m, k, e); }
  }
}
