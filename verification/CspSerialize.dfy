/** The policies of safehttp/plugins/csp and the strings they serialize to. */
module CspPolicies {
  import opened GoStrings
  import opened CspGrammar

  /** The interceptor configurations that some policy reacts to. */
  datatype InterceptorConfig =
    | NoConfig
    | DisableStrict(skipReports: bool)
    | DisableTrustedTypes(skipReports: bool)
    | FramingDisable(skipReports: bool)
    | FramingAllowList(reportOnly: bool, hostnames: seq<string>)
    | OtherConfig(id: nat)

  datatype Policy =
    | StrictPolicy(noStrictDynamic: bool, unsafeEval: bool, baseURI: string, reportURI: string, hashes: seq<string>)
    | FramingPolicy(reportURI: string)
    | TrustedTypesPolicy(reportURI: string)
  {
    predicate Match(cfg: InterceptorConfig) {
      match this
      case StrictPolicy(_, _, _, _, _) => cfg.DisableStrict?
      case FramingPolicy(_) => cfg.FramingDisable? || cfg.FramingAllowList?
      case TrustedTypesPolicy(_) => cfg.DisableTrustedTypes?
    }

    /** (disabled, report only) */
    function Overridden(cfg: InterceptorConfig): (bool, bool)
      requires Match(cfg)
    {
      match cfg
      case FramingAllowList(reportOnly, _) => (false, reportOnly)
      case _ => (cfg.skipReports, true)
    }
  }

  // ----- What each policy is meant to say -----

  function Quoted(s: string): string {
    "'" + s + "'"
  }

  function QuotedAll(hs: seq<string>): seq<string> {
    seq(|hs|, i requires 0 <= i < |hs| => Quoted(hs[i]))
  }

  function ReportTo(uri: string): seq<Directive> {
    if uri == "" then [] else [Directive("report-uri", [uri])]
  }

  function FixedSources(p: Policy, nonce: string): seq<string>
    requires p.StrictPolicy?
  {
    ["'unsafe-inline'", "'nonce-" + nonce + "'"]
    + (if p.noStrictDynamic then [] else ["'strict-dynamic'", "https:", "http:"])
    + (if p.unsafeEval then ["'unsafe-eval'"] else [])
  }

  function ScriptSources(p: Policy, nonce: string): seq<string>
    requires p.StrictPolicy?
  {
    FixedSources(p, nonce) + QuotedAll(p.hashes)
  }

  function Ancestors(cfg: InterceptorConfig): seq<string> {
    ["'self'"] + (if cfg.FramingAllowList? then cfg.hostnames else [])
  }

  /** The directives a browser should read out of the header. */
  function Intended(p: Policy, nonce: string, cfg: InterceptorConfig): seq<Directive> {
    match p
    case StrictPolicy(_, _, baseURI, reportURI, _) =>
      [Directive("object-src", ["'none'"]),
       Directive("script-src", ScriptSources(p, nonce)),
       Directive("base-uri", [if baseURI == "" then "'none'" else baseURI])]
      + ReportTo(reportURI)
    case FramingPolicy(reportURI) =>
      [Directive("frame-ancestors", Ancestors(cfg))] + ReportTo(reportURI)
    case TrustedTypesPolicy(reportURI) =>
      [Directive("require-trusted-types-for", ["'script'"])] + ReportTo(reportURI)
  }

  /** The serialized policy: its directives printed; framing leaves a semicolon behind. */
  function Text(p: Policy, nonce: string, cfg: InterceptorConfig): string {
    Print(Intended(p, nonce, cfg)) + (if p.FramingPolicy? then ";" else "")
  }

  /** The directives of each policy, one option after the other. */
  lemma StrictThus(p: Policy, nonce: string, cfg: InterceptorConfig)
    requires p.StrictPolicy?
    ensures
      var ds, n := Intended(p, nonce, cfg), if p.reportURI == "" then 3 else 4;
      && |ds| == n && ds[0] == Directive("object-src", ["'none'"])
      && ds[1].name == "script-src"
      && ds[2] == Directive("base-uri", [if p.baseURI == "" then "'none'" else p.baseURI])
      && (p.reportURI != "" ==> ds[3] == Directive("report-uri", [p.reportURI]))
    ensures
      var start := ["'unsafe-inline'", "'nonce-" + nonce + "'"];
      Intended(p, nonce, cfg)[1].value ==
      (match (p.noStrictDynamic, p.unsafeEval)
       case (false, false) => start + ["'strict-dynamic'", "https:", "http:"]
       case (false, true) => start + ["'strict-dynamic'", "https:", "http:", "'unsafe-eval'"]
       case (true, false) => start
       case (true, true) => start + ["'unsafe-eval'"])
      + seq(|p.hashes|, i requires 0 <= i < |p.hashes| => "'" + p.hashes[i] + "'")
  {
    var quoted := seq(|p.hashes|, i requires 0 <= i < |p.hashes| => "'" + p.hashes[i] + "'");
    assert QuotedAll(p.hashes) == quoted;
  }

  lemma FramingThus(p: Policy, nonce: string, cfg: InterceptorConfig)
    requires p.FramingPolicy?
    ensures
      Intended(p, nonce, cfg) ==
      [Directive("frame-ancestors", ["'self'"] + if cfg.FramingAllowList? then cfg.hostnames else [])]
      + if p.reportURI == "" then [] else [Directive("report-uri", [p.reportURI])]
  {
  }

  lemma TrustedTypesThus(p: Policy, nonce: string, cfg: InterceptorConfig)
    requires p.TrustedTypesPolicy?
    ensures
      Intended(p, nonce, cfg) ==
      [Directive("require-trusted-types-for", ["'script'"])]
      + if p.reportURI == "" then [] else [Directive("report-uri", [p.reportURI])]
  {
  }

  lemma PrintNotEmpty(ds: seq<Directive>)
    requires ds != [] && ds[0].name != ""
    ensures Print(ds) != ""
  {
    assert Tokens(ds)[0] != "";
  }

  lemma TextNotEmpty(p: Policy, nonce: string, cfg: InterceptorConfig)
    ensures Text(p, nonce, cfg) != ""
  {
    PrintNotEmpty(Intended(p, nonce, cfg));
  }

  // ----- The serializers -----
  //
  // The source writes some neighbouring pieces below as one literal. They are kept apart
  // here so that each piece is visible as a name, a separator or a value.

  /** The values of a directive printed after what is already there. */
  function PrintOnto(b: string, vs: seq<string>): string {
    if vs == [] then b else PrintOnto(b, vs[..|vs| - 1]) + " " + vs[|vs| - 1]
  }

  lemma OntoSnoc(b: string, vs: seq<string>, v: string)
    ensures PrintOnto(b, vs + [v]) == PrintOnto(b, vs) + " " + v
  {
    assert (vs + [v])[..|vs|] == vs;
  }

  lemma {:induction false} OntoIs(b: string, vs: seq<string>)
    ensures PrintOnto(b, vs) == b + PrintValues(vs)
  {
    if vs == [] {
      assert b + "" == b;
    } else {
      var init, v := PrintValues(vs[..|vs| - 1]), vs[|vs| - 1];
      OntoIs(b, vs[..|vs| - 1]);
      Regroup(b, init, " ", v);
    }
  }

  lemma PrintOne(name: string, vs: seq<string>)
    ensures Print([Directive(name, vs)]) == PrintOnto(name, vs)
  {
    var d := Directive(name, vs);
    assert Tokens([d]) == ["" + PrintDirective(d)];
    OntoIs(name, vs);
  }

  lemma SemicolonSpace(p: string, name: string, values: string)
    ensures p + ";" + (" " + (name + values)) == p + "; " + name + values
  {
    Assoc(p, ";", " " + (name + values));
    assert ";" + (" " + (name + values)) == "; " + (name + values);
    Assoc(p, "; ", name + values);
    Assoc(p + "; ", name, values);
  }

  lemma PrintSnoc(ds: seq<Directive>, name: string, vs: seq<string>)
    requires ds != []
    ensures Print(ds + [Directive(name, vs)]) == PrintOnto(Print(ds) + "; " + name, vs)
  {
    var d := Directive(name, vs);
    assert Tokens(ds + [d]) == Tokens(ds) + [" " + PrintDirective(d)];
    JoinSnoc(Tokens(ds), " " + PrintDirective(d), ";");
    OntoIs(Print(ds) + "; " + name, vs);
    SemicolonSpace(Print(ds), name, PrintValues(vs));
  }

  lemma OntoOne(b: string, v: string)
    ensures PrintOnto(b, [v]) == b + " " + v
  {
    assert [v][..0] == [];
  }

  lemma PrintWithReport(ds: seq<Directive>, uri: string)
    requires ds != []
    ensures Print(ds + ReportTo(uri)) == if uri == "" then Print(ds) else Print(ds) + "; " + "report-uri" + " " + uri
  {
    if uri == "" {
      assert ds + [] == ds;
    } else {
      PrintSnoc(ds, "report-uri", [uri]);
      OntoOne(Print(ds) + "; " + "report-uri", uri);
    }
  }

  method SerializeStrict(p: Policy, nonce: string) returns (b: string)
    requires p.StrictPolicy?
    ensures forall cfg :: b == Text(p, nonce, cfg)
  {
    b := "object-src" + " " + "'none'" + "; " + "script-src";
    b := WriteScriptSources(p, nonce, b);
    ghost var uri := if p.baseURI == "" then "'none'" else p.baseURI;
    b := b + "; " + "base-uri" + " ";
    if p.baseURI == "" {
      b := b + "'none'";
    } else {
      b := b + p.baseURI;
    }
    ghost var three := StrictThree(ScriptSources(p, nonce), uri);
    assert b == Print(three);
    PrintWithReport(three, p.reportURI);
    if p.reportURI != "" {
      b := b + "; " + "report-uri" + " ";
      b := b + p.reportURI;
    }
    assert Intended(p, nonce, NoConfig) == three + ReportTo(p.reportURI);
    assert b + "" == b;
  }

  /** The three directives every strict policy prints. */
  lemma StrictThree(vs: seq<string>, uri: string) returns (three: seq<Directive>)
    ensures three == [Directive("object-src", ["'none'"]), Directive("script-src", vs), Directive("base-uri", [uri])]
    ensures Print(three) ==
            PrintOnto("object-src" + " " + "'none'" + "; " + "script-src", vs) + "; " + "base-uri" + " " + uri
  {
    var d0, d1, d2 := Directive("object-src", ["'none'"]), Directive("script-src", vs), Directive("base-uri", [uri]);
    PrintOne("object-src", ["'none'"]);
    OntoOne("object-src", "'none'");
    PrintSnoc([d0], "script-src", vs);
    PrintSnoc([d0] + [d1], "base-uri", [uri]);
    OntoOne(Print([d0] + [d1]) + "; " + "base-uri", uri);
    three := [d0] + [d1] + [d2];
  }

  lemma OntoAppend(b: string, vs: seq<string>, ws: seq<string>)
    ensures PrintOnto(b, vs + ws) == PrintOnto(PrintOnto(b, vs), ws)
  {
    if ws == [] {
      assert vs + ws == vs;
    } else {
      var init, v := ws[..|ws| - 1], ws[|ws| - 1];
      assert vs + ws == (vs + init) + [v];
      OntoSnoc(b, vs + init, v);
      OntoAppend(b, vs, init);
    }
  }

  lemma OntoTwo(b: string, u: string, v: string)
    ensures PrintOnto(b, [u, v]) == b + " " + u + " " + v
  {
    OntoOne(b, u);
    assert [u, v] == [u] + [v];
    OntoSnoc(b, [u], v);
  }

  lemma OntoThree(b: string, u: string, v: string, w: string)
    ensures PrintOnto(b, [u, v, w]) == b + " " + u + " " + v + " " + w
  {
    OntoTwo(b, u, v);
    assert [u, v, w] == [u, v] + [w];
    OntoSnoc(b, [u, v], w);
  }

  method WriteFixedSources(p: Policy, nonce: string, start: string) returns (b: string)
    requires p.StrictPolicy?
    ensures b == PrintOnto(start, FixedSources(p, nonce))
  {
    ghost var first := ["'unsafe-inline'", "'nonce-" + nonce + "'"];
    OntoTwo(start, "'unsafe-inline'", "'nonce-" + nonce + "'");
    Regroup(start + " " + "'unsafe-inline'" + " ", "'nonce-", nonce, "'");
    b := start + " " + "'unsafe-inline'" + " " + "'nonce-";
    b := b + nonce;
    b := b + "'";

    ghost var dynamic := if p.noStrictDynamic then [] else ["'strict-dynamic'", "https:", "http:"];
    OntoAppend(start, first, dynamic);
    if !p.noStrictDynamic {
      OntoThree(b, "'strict-dynamic'", "https:", "http:");
      b := b + " " + "'strict-dynamic'" + " " + "https:" + " " + "http:";
    }
    assert b == PrintOnto(start, first + dynamic);

    ghost var eval := if p.unsafeEval then ["'unsafe-eval'"] else [];
    OntoAppend(start, first + dynamic, eval);
    if p.unsafeEval {
      OntoOne(b, "'unsafe-eval'");
      b := b + " " + "'unsafe-eval'";
    }
  }

  method WriteScriptSources(p: Policy, nonce: string, start: string) returns (b: string)
    requires p.StrictPolicy?
    ensures b == PrintOnto(start, ScriptSources(p, nonce))
  {
    b := WriteFixedSources(p, nonce, start);
    ghost var fixed := FixedSources(p, nonce);
    assert fixed + [] == fixed;
    for i := 0 to |p.hashes|
      invariant b == PrintOnto(start, fixed + QuotedAll(p.hashes[..i]))
    {
      ghost var vs := fixed + QuotedAll(p.hashes[..i]);
      OntoSnoc(start, vs, Quoted(p.hashes[i]));
      Regroup(b + " ", "'", p.hashes[i], "'");
      b := b + " " + "'";
      b := b + p.hashes[i];
      b := b + "'";
      assert vs + [Quoted(p.hashes[i])] == fixed + QuotedAll(p.hashes[..i + 1]);
    }
    assert p.hashes[..|p.hashes|] == p.hashes;
  }

  method SerializeTrustedTypes(p: Policy) returns (b: string)
    requires p.TrustedTypesPolicy?
    ensures forall nonce, cfg :: b == Text(p, nonce, cfg)
  {
    PrintOne("require-trusted-types-for", ["'script'"]);
    OntoOne("require-trusted-types-for", "'script'");
    ghost var ds := [Directive("require-trusted-types-for", ["'script'"])];
    PrintWithReport(ds, p.reportURI);
    b := "require-trusted-types-for" + " " + "'script'";
    if p.reportURI != "" {
      b := b + "; " + "report-uri" + " ";
      b := b + p.reportURI;
    }
    assert b + "" == b;
  }

  method FrameAncestors(sources: seq<string>) returns (b: string)
    ensures b == Print([Directive("frame-ancestors", ["'self'"] + sources)]) + "; "
  {
    ghost var vs := ["'self'"];
    OntoOne("frame-ancestors", "'self'");
    b := "frame-ancestors" + " " + "'self'";
    for i := 0 to |sources|
      invariant vs == ["'self'"] + sources[..i]
      invariant b == PrintOnto("frame-ancestors", vs)
    {
      b := b + " ";
      b := b + sources[i];
      OntoSnoc("frame-ancestors", vs, sources[i]);
      vs := vs + [sources[i]];
    }
    assert sources[..|sources|] == sources;
    PrintOne("frame-ancestors", vs);
    b := b + "; ";
  }

  method Report(reportURI: string) returns (b: string)
    ensures b == if reportURI == "" then "" else "report-uri" + " " + reportURI + "; "
  {
    b := "";
    if reportURI != "" {
      b := b + "report-uri" + " ";
      b := b + reportURI;
      b := b + "; ";
    }
  }

  /** unicode.IsSpace */
  predicate IsSpace(c: char) {
    || '\t' <= c <= '\r' || c == ' ' || c == '\U{85}' || c == '\U{A0}' || c == '\U{1680}'
    || '\U{2000}' <= c <= '\U{200a}' || c == '\U{2028}' || c == '\U{2029}' || c == '\U{202f}'
    || c == '\U{205f}' || c == '\U{3000}'
  }

  /** strings.TrimSpace */
  function TrimSpace(s: string): string
    decreases |s|
  {
    if s == "" then ""
    else if IsSpace(s[0]) then TrimSpace(s[1..])
    else if IsSpace(s[|s| - 1]) then TrimSpace(s[..|s| - 1])
    else s
  }

  lemma TrimLastSpace(s: string)
    requires s != "" && !IsSpace(s[0])
    ensures TrimSpace(s + "; ") == s + ";"
  {
    var t := s + "; ";
    assert t[..|t| - 1] == s + ";";
  }

  lemma FramingText(ds: seq<Directive>, uri: string, fa: string, rep: string)
    requires |ds| == 1 && ds[0].name == "frame-ancestors"
    requires fa == Print(ds) + "; "
    requires rep == if uri == "" then "" else "report-uri" + " " + uri + "; "
    ensures TrimSpace(fa + rep) == Print(ds + ReportTo(uri)) + ";"
  {
    var printed := Print(ds + ReportTo(uri));
    PrintWithReport(ds, uri);
    if uri == "" {
      assert fa + rep == fa;
    } else {
      Assoc(fa, "report-uri" + " " + uri, "; ");
      Regroup(fa, "report-uri", " ", uri);
    }
    assert fa + rep == printed + "; ";
    assert ds == [Directive("frame-ancestors", ds[0].value)];
    PrintOne("frame-ancestors", ds[0].value);
    OntoIs("frame-ancestors", ds[0].value);
    assert printed[0] == 'f';
    TrimLastSpace(printed);
  }

  method SerializeFraming(p: Policy, cfg: InterceptorConfig) returns (b: string)
    requires p.FramingPolicy?
    ensures forall nonce :: b == Text(p, nonce, cfg)
  {
    var allow := if cfg.FramingAllowList? then cfg.hostnames else [];
    var fa := FrameAncestors(allow);
    var rep := Report(p.reportURI);
    b := fa + rep;
    FramingText([Directive("frame-ancestors", ["'self'"] + allow)], p.reportURI, fa, rep);
    b := TrimSpace(b);
  }

  method Serialize(p: Policy, nonce: string, cfg: InterceptorConfig) returns (b: string)
    ensures b == Text(p, nonce, cfg)
  {
    match p
    case StrictPolicy(_, _, _, _, _) => b := SerializeStrict(p, nonce);
    case FramingPolicy(_) => b := SerializeFraming(p, cfg);
    case TrustedTypesPolicy(_) => b := SerializeTrustedTypes(p);
  }

  // ----- The round trip -----

  predicate EmptyOrField(s: string) {
    s == "" || IsField(s)
  }

  /** The hostnames are fields; the nonce, the URIs and the hashes may also be empty. */
  ghost predicate FieldsOf(p: Policy, nonce: string, cfg: InterceptorConfig) {
    && EmptyOrField(p.reportURI)
    && (p.StrictPolicy? ==>
          && EmptyOrField(nonce) && EmptyOrField(p.baseURI)
          && forall i :: 0 <= i < |p.hashes| ==> EmptyOrField(p.hashes[i]))
    && (p.FramingPolicy? && cfg.FramingAllowList? ==>
          forall i :: 0 <= i < |cfg.hostnames| ==> IsField(cfg.hostnames[i]))
  }

  predicate IsName(s: string) {
    IsField(s) && Lowercase(s) == s
  }

  lemma DirectiveNames()
    ensures IsName("object-src") && IsName("script-src") && IsName("base-uri") && IsName("report-uri")
  {
  }

  lemma MoreDirectiveNames()
    ensures IsName("frame-ancestors") && IsName("require-trusted-types-for")
  {
  }

  lemma SourceWords()
    ensures IsField("'unsafe-inline'") && IsField("'strict-dynamic'") && IsField("https:") && IsField("http:")
    ensures IsField("'unsafe-eval'")
  {
  }

  lemma QuotedWords()
    ensures IsField("'none'") && IsField("'self'") && IsField("'script'")
  {
  }

  /** A string between two fixed ones makes a field when it has no forbidden character. */
  lemma Enclosed(l: string, s: string, r: string)
    requires IsField(l) && IsField(r)
    ensures IsField(l + s + r) <==> EmptyOrField(s)
  {
    var n := l + s + r;
    if EmptyOrField(s) {
      forall i | 0 <= i < |n| ensures n[i] < '\U{80}' && n[i] != ';' && !IsWhitespace(n[i]) {
        if |l| <= i < |l| + |s| { assert n[i] == s[i - |l|]; }
      }
    } else if IsField(n) {
      forall i | 0 <= i < |s| ensures s[i] == n[i + |l|] {
      }
      assert false;
    }
  }

  lemma ScriptSourcesAreFields(p: Policy, nonce: string)
    requires p.StrictPolicy?
    ensures (forall i :: 0 <= i < |ScriptSources(p, nonce)| ==> IsField(ScriptSources(p, nonce)[i]))
            <==> EmptyOrField(nonce) && forall i :: 0 <= i < |p.hashes| ==> EmptyOrField(p.hashes[i])
  {
    var ss, n := ScriptSources(p, nonce), |FixedSources(p, nonce)|;
    assert IsField("'nonce-") && IsField("'");
    Enclosed("'nonce-", nonce, "'");
    assert ss[1] == "'nonce-" + nonce + "'";
    forall i | 0 <= i < |p.hashes| ensures ss[n + i] == Quoted(p.hashes[i]) && (IsField(ss[n + i]) <==> EmptyOrField(p.hashes[i])) {
      Enclosed("'", p.hashes[i], "'");
    }
    SourceWords();
  }

  lemma OneThenReport(d: Directive, uri: string)
    requires Printable(d) && d.name != "report-uri" && EmptyOrField(uri)
    ensures PrintablePolicy([d] + ReportTo(uri))
  {
    DirectiveNames();
  }

  lemma IntendedIsPrintable(p: Policy, nonce: string, cfg: InterceptorConfig)
    requires FieldsOf(p, nonce, cfg)
    ensures PrintablePolicy(Intended(p, nonce, cfg))
  {
    QuotedWords();
    match p
    case StrictPolicy(_, _, baseURI, reportURI, _) =>
      ScriptSourcesAreFields(p, nonce);
      DirectiveNames();
      var d0, d1 := Directive("object-src", ["'none'"]), Directive("script-src", ScriptSources(p, nonce));
      var d2 := Directive("base-uri", [if baseURI == "" then "'none'" else baseURI]);
      assert d0.name[0] == 'o' && d1.name[0] == 's' && d2.name[0] == 'b' && "report-uri"[0] == 'r';
      assert Intended(p, nonce, cfg) == [d0, d1, d2] + ReportTo(reportURI);
      assert Printable(d0) && Printable(d1) && Printable(d2);
    case FramingPolicy(reportURI) =>
      MoreDirectiveNames();
      assert "frame-ancestors"[0] == 'f' && "report-uri"[0] == 'r';
      OneThenReport(Directive("frame-ancestors", Ancestors(cfg)), reportURI);
    case TrustedTypesPolicy(reportURI) =>
      MoreDirectiveNames();
      assert "require-trusted-types-for"[2] == 'q' && "report-uri"[2] == 'p';
      OneThenReport(Directive("require-trusted-types-for", ["'script'"]), reportURI);
  }

  lemma ReportFieldNeeded(ds: seq<Directive>, uri: string)
    requires FieldsOnly(ds + ReportTo(uri))
    ensures EmptyOrField(uri)
  {
    if uri != "" {
      assert (ds + ReportTo(uri))[|ds|].value[0] == uri;
    }
  }

  lemma FieldsNeeded(p: Policy, nonce: string, cfg: InterceptorConfig)
    requires FieldsOnly(Intended(p, nonce, cfg))
    ensures FieldsOf(p, nonce, cfg)
  {
    var ds := Intended(p, nonce, cfg);
    match p
    case StrictPolicy(_, _, baseURI, reportURI, _) =>
      ReportFieldNeeded(ds[..3], reportURI);
      assert ds[2].value[0] == if baseURI == "" then "'none'" else baseURI;
      assert ds[1].value == ScriptSources(p, nonce);
      ScriptSourcesAreFields(p, nonce);
    case FramingPolicy(reportURI) =>
      ReportFieldNeeded(ds[..1], reportURI);
      if cfg.FramingAllowList? {
        forall i | 0 <= i < |cfg.hostnames| ensures IsField(cfg.hostnames[i]) {
          assert ds[0].value[i + 1] == cfg.hostnames[i];
        }
      }
    case TrustedTypesPolicy(reportURI) =>
      ReportFieldNeeded(ds[..1], reportURI);
  }

  /** Parsing what a policy serializes gives back the intended directives and source lists,
      for any number of hashes or hostnames, exactly when the strings put into it are
      ASCII without whitespace or ';'. */
  lemma SerializedPolicyParses(p: Policy, nonce: string, cfg: InterceptorConfig)
    ensures ParsePolicy(Text(p, nonce, cfg)) == Intended(p, nonce, cfg) <==> FieldsOf(p, nonce, cfg)
  {
    var ds := Intended(p, nonce, cfg);
    if FieldsOf(p, nonce, cfg) {
      IntendedIsPrintable(p, nonce, cfg);
      ParseOfPrint(ds);
      ParseOfPrintSemicolon(ds);
      if !p.FramingPolicy? {
        assert Text(p, nonce, cfg) == Print(ds);
      }
    }
    ParsedFields(Text(p, nonce, cfg));
    if ParsePolicy(Text(p, nonce, cfg)) == ds {
      FieldsNeeded(p, nonce, cfg);
    }
  }
}
