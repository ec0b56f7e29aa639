/** Parsing a serialized policy, after section 2.2.1 of Content Security Policy Level 3. */
module CspGrammar {
  import opened Common
  import opened GoStrings

  datatype Directive = Directive(name: string, value: seq<string>)

  predicate IsWhitespace(c: char) {
    c == '\t' || c == '\n' || c == '\U{0C}' || c == '\r' || c == ' '
  }

  predicate IsAscii(s: string) {
    forall i :: 0 <= i < |s| ==> s[i] < '\U{80}'
  }

  function Lowercase(s: string): string {
    seq(|s|, i requires 0 <= i < |s| =>
      if 'A' <= s[i] <= 'Z' then (s[i] as int + 32) as char else s[i])
  }

  /** The longest prefix without whitespace. */
  function Word(s: string): (w: string)
    ensures w <= s
  {
    if s == [] || IsWhitespace(s[0]) then [] else [s[0]] + Word(s[1..])
  }

  /** Splitting on ASCII whitespace. */
  function Words(s: string): seq<string>
    decreases |s|
  {
    if s == [] then []
    else if IsWhitespace(s[0]) then Words(s[1..])
    else [Word(s)] + Words(s[|Word(s)|..])
  }

  function StripStart(s: string): string {
    if s != [] && IsWhitespace(s[0]) then StripStart(s[1..]) else s
  }

  function StripEnd(s: string): string {
    if s != [] && IsWhitespace(s[|s| - 1]) then StripEnd(s[..|s| - 1]) else s
  }

  function ParseDirective(token: string): Option<Directive> {
    var t := StripEnd(StripStart(token));
    if t == "" || !IsAscii(t) then None
    else Some(Directive(Lowercase(Word(t)), Words(t[|Word(t)|..])))
  }

  function Names(ds: seq<Directive>): set<string> {
    set i | 0 <= i < |ds| :: ds[i].name
  }

  /** Later directives with a name already seen are ignored. */
  function Collect(tokens: seq<string>, acc: seq<Directive>): seq<Directive>
    decreases tokens
  {
    if tokens == [] then acc
    else
      match ParseDirective(tokens[0])
      case None => Collect(tokens[1..], acc)
      case Some(d) => Collect(tokens[1..], if d.name in Names(acc) then acc else acc + [d])
  }

  function ParsePolicy(s: string): seq<Directive> {
    Collect(Split(s, ";"), [])
  }

  // ----- Printing directives -----

  /** A field that may stand in a policy: not empty, ASCII, no whitespace and no ';'. */
  predicate IsField(s: string) {
    s != "" && forall i :: 0 <= i < |s| ==> s[i] < '\U{80}' && s[i] != ';' && !IsWhitespace(s[i])
  }

  ghost predicate Printable(d: Directive) {
    IsField(d.name) && Lowercase(d.name) == d.name && forall i :: 0 <= i < |d.value| ==> IsField(d.value[i])
  }

  ghost predicate PrintablePolicy(ds: seq<Directive>) {
    && ds != []
    && (forall i :: 0 <= i < |ds| ==> Printable(ds[i]))
    && (forall i, j :: 0 <= i < j < |ds| ==> ds[i].name != ds[j].name)
  }

  function PrintValues(vs: seq<string>): string {
    if vs == [] then "" else PrintValues(vs[..|vs| - 1]) + " " + vs[|vs| - 1]
  }

  function PrintDirective(d: Directive): string {
    d.name + PrintValues(d.value)
  }

  /** The pieces between the semicolons of a printed policy. */
  function Tokens(ds: seq<Directive>): seq<string> {
    seq(|ds|, i requires 0 <= i < |ds| => (if i == 0 then "" else " ") + PrintDirective(ds[i]))
  }

  function Print(ds: seq<Directive>): string {
    Join(Tokens(ds), ";")
  }

  // ----- Parsing undoes printing -----

  lemma {:induction false} WordOf(a: string, b: string)
    requires forall i :: 0 <= i < |a| ==> !IsWhitespace(a[i])
    requires b == "" || IsWhitespace(b[0])
    ensures Word(a + b) == a
  {
    if a == [] {
      assert a + b == b;
    } else {
      assert (a + b)[1..] == a[1..] + b;
      WordOf(a[1..], b);
      assert a == [a[0]] + a[1..];
    }
  }

  lemma {:induction false} WordsAppend(s: string, v: string)
    requires IsField(v)
    ensures Words(s + " " + v) == Words(s) + [v]
    decreases |s|
  {
    var t := s + " " + v;
    if s == [] {
      assert t == [' '] + v;
      assert t[1..] == v;
      WordOf(v, "");
      assert v + "" == v;
    } else if IsWhitespace(s[0]) {
      assert t[1..] == s[1..] + " " + v;
      WordsAppend(s[1..], v);
    } else {
      var w := Word(s);
      WordEnds(s);
      assert t == w + (s[|w|..] + " " + v);
      WordOf(w, s[|w|..] + " " + v);
      assert t[|w|..] == s[|w|..] + " " + v;
      WordsAppend(s[|w|..], v);
    }
  }

  lemma {:induction false} WordEnds(s: string)
    ensures forall i :: 0 <= i < |Word(s)| ==> !IsWhitespace(s[i])
    ensures |Word(s)| < |s| ==> IsWhitespace(s[|Word(s)|])
  {
    if s != [] && !IsWhitespace(s[0]) { WordEnds(s[1..]); }
  }

  lemma {:induction false} PrintedValues(vs: seq<string>)
    requires forall i :: 0 <= i < |vs| ==> IsField(vs[i])
    ensures
      var p := PrintValues(vs);
      && Words(p) == vs
      && (forall i :: 0 <= i < |p| ==> p[i] < '\U{80}' && p[i] != ';')
      && (vs != [] ==> p != "" && p[0] == ' ' && !IsWhitespace(p[|p| - 1]))
      && (vs == [] ==> p == "")
  {
    if vs != [] {
      var init, v := vs[..|vs| - 1], vs[|vs| - 1];
      PrintedValues(init);
      WordsAppend(PrintValues(init), v);
      assert vs == init + [v];
    }
  }

  lemma PrintedDirective(d: Directive)
    requires Printable(d)
    ensures
      var p := PrintDirective(d);
      && ParseDirective(p) == ParseDirective(" " + p) == Some(d)
      && (forall i :: 0 <= i < |p| ==> p[i] < '\U{80}' && p[i] != ';')
  {
    var p, vs := PrintDirective(d), PrintValues(d.value);
    PrintedValues(d.value);
    WordOf(d.name, vs);
    assert p[|d.name|..] == vs;
    assert p[0] == d.name[0];
    assert StripStart(p) == p && StripEnd(p) == p;
    assert (" " + p)[1..] == p;
  }

  lemma TokenParses(ds: seq<Directive>, i: nat)
    requires PrintablePolicy(ds) && i < |ds|
    ensures ParseDirective(Tokens(ds)[i]) == Some(ds[i])
  {
    PrintedDirective(ds[i]);
    assert "" + PrintDirective(ds[i]) == PrintDirective(ds[i]);
  }

  lemma CollectOne(token: string, d: Directive, rest: seq<string>, acc: seq<Directive>)
    requires ParseDirective(token) == Some(d)
    requires forall i :: 0 <= i < |acc| ==> acc[i].name != d.name
    ensures Collect([token] + rest, acc) == Collect(rest, acc + [d])
  {
    assert ([token] + rest)[1..] == rest;
    assert d.name !in Names(acc);
  }

  lemma {:induction false} CollectPrinted(ds: seq<Directive>, i: nat, rest: seq<string>)
    requires PrintablePolicy(ds) && i <= |ds|
    ensures Collect(Tokens(ds)[i..] + rest, ds[..i]) == Collect(rest, ds)
    decreases |ds| - i
  {
    var toks := Tokens(ds);
    var here := toks[i..] + rest;
    if i == |ds| {
      assert ds[..i] == ds;
      assert here == rest;
    } else {
      CollectPrinted(ds, i + 1, rest);
      TokenParses(ds, i);
      assert here == [toks[i]] + (toks[i + 1..] + rest);
      CollectOne(toks[i], ds[i], toks[i + 1..] + rest, ds[..i]);
      assert ds[..i] + [ds[i]] == ds[..i + 1];
    }
  }

  lemma TokensHaveNoSemicolon(ds: seq<Directive>)
    requires PrintablePolicy(ds)
    ensures forall i :: 0 <= i < |ds| ==> Index(Tokens(ds)[i] + ";", ";") == |Tokens(ds)[i]| && Index(Tokens(ds)[i], ";") == -1
  {
    forall i | 0 <= i < |ds|
      ensures Index(Tokens(ds)[i] + ";", ";") == |Tokens(ds)[i]| && Index(Tokens(ds)[i], ";") == -1
    {
      var t := Tokens(ds)[i];
      PrintedDirective(ds[i]);
      NoSeparator(t, ';');
    }
  }

  lemma NoSeparator(t: string, c: char)
    requires c !in t
    ensures Index(t + [c], [c]) == |t| && Index(t, [c]) == -1
  {
    var s := t + [c];
    assert s[|t|..|t| + 1] == [c];
    forall j | 0 <= j < |t| ensures !At(s, [c], j) && !At(t, [c], j) {
      assert s[j] == t[j] && t[j] in t;
      assert s[j..j + 1][0] == s[j] && t[j..j + 1][0] == t[j];
    }
    IndexIs(s, [c], |t|);
  }

  /** Parsing a printed policy gives back exactly its directives and source lists. */
  lemma ParseOfPrint(ds: seq<Directive>)
    requires PrintablePolicy(ds)
    ensures ParsePolicy(Print(ds)) == ds
  {
    var toks := Tokens(ds);
    TokensHaveNoSemicolon(ds);
    SplitOfJoin(toks, ";");
    CollectPrinted(ds, 0, []);
    assert toks[0..] + [] == toks && ds[..0] == [];
  }

  /** So does parsing it with a semicolon left at the end. */
  lemma ParseOfPrintSemicolon(ds: seq<Directive>)
    requires PrintablePolicy(ds)
    ensures ParsePolicy(Print(ds) + ";") == ds
  {
    var toks := Tokens(ds);
    var all := toks + [""];
    TokensHaveNoSemicolon(ds);
    JoinSnoc(toks, "", ";");
    assert Print(ds) + ";" + "" == Print(ds) + ";";
    assert Splittable(all, ";") by {
      forall i | 0 <= i < |all| - 1 ensures Index(all[i] + ";", ";") == |all[i]| { assert all[i] == toks[i]; }
    }
    SplitOfJoin(all, ";");
    CollectPrinted(ds, 0, [""]);
    assert toks[0..] == toks && ds[..0] == [];
    assert ParseDirective("") == None;
    assert Collect([""], ds) == Collect([""][1..], ds) == ds;
  }

  // ----- Only fields come out of the parser -----

  ghost predicate FieldsOnly(ds: seq<Directive>) {
    forall i, j :: 0 <= i < |ds| && 0 <= j < |ds[i].value| ==> IsField(ds[i].value[j])
  }

  predicate Clean(s: string) {
    forall i :: 0 <= i < |s| ==> s[i] < '\U{80}' && s[i] != ';'
  }

  lemma {:induction false} WordsAreFields(s: string)
    requires Clean(s)
    ensures forall i :: 0 <= i < |Words(s)| ==> IsField(Words(s)[i])
    decreases |s|
  {
    if s == [] {
    } else if IsWhitespace(s[0]) {
      WordsAreFields(s[1..]);
    } else {
      var w := Word(s);
      WordEnds(s);
      assert IsField(w) by { assert forall i :: 0 <= i < |w| ==> w[i] == s[i]; }
      WordsAreFields(s[|w|..]);
    }
  }

  lemma {:induction false} StripStartKeeps(s: string)
    ensures forall c :: c in StripStart(s) ==> c in s
  {
    if s != [] && IsWhitespace(s[0]) { StripStartKeeps(s[1..]); }
  }

  lemma {:induction false} StripEndKeeps(s: string)
    ensures forall c :: c in StripEnd(s) ==> c in s
  {
    if s != [] && IsWhitespace(s[|s| - 1]) { StripEndKeeps(s[..|s| - 1]); }
  }

  lemma {:induction false} CollectFields(tokens: seq<string>, acc: seq<Directive>)
    requires FieldsOnly(acc) && forall i :: 0 <= i < |tokens| ==> ';' !in tokens[i]
    ensures FieldsOnly(Collect(tokens, acc))
    decreases tokens
  {
    if tokens != [] {
      StripStartKeeps(tokens[0]);
      StripEndKeeps(StripStart(tokens[0]));
      var t := StripEnd(StripStart(tokens[0]));
      if t != "" && IsAscii(t) {
        var rest := t[|Word(t)|..];
        assert Clean(rest) by { assert forall i :: 0 <= i < |t| ==> t[i] in t; }
        WordsAreFields(rest);
      }
      var next := match ParseDirective(tokens[0])
        case None => acc
        case Some(d) => if d.name in Names(acc) then acc else acc + [d];
      assert FieldsOnly(next);
      CollectFields(tokens[1..], next);
    }
  }

  lemma ParsedFields(s: string)
    ensures FieldsOnly(ParsePolicy(s))
  {
    var tokens := Split(s, ";");
    SplitIsSplittable(s, ";");
    forall i | 0 <= i < |tokens| ensures ';' !in tokens[i] {
      var t := tokens[i];
      if ';' in t {
        var j :| 0 <= j < |t| && t[j] == ';';
        assert t[j..j + 1] == ";" && (t + ";")[j..j + 1] == ";";
        assert At(t, ";", j) && At(t + ";", ";", j);
        assert false;
      }
    }
    CollectFields(tokens, []);
  }

  // ----- Several policies in one header -----

  /** Section 2.2.2: each value of the header may hold several policies, cut at commas. A
      policy without directives is dropped. */
  function ParseHeader(values: seq<string>): seq<seq<Directive>> {
    if values == [] then [] else ParsePieces(Split(values[0], ",")) + ParseHeader(values[1..])
  }

  function ParsePieces(pieces: seq<string>): seq<seq<Directive>> {
    if pieces == [] then []
    else (if ParsePolicy(pieces[0]) == [] then [] else [ParsePolicy(pieces[0])]) + ParsePieces(pieces[1..])
  }

  /** Without commas, each value of the header is one policy, if it has a directive. */
  lemma {:induction false} OnePolicyPerValue(values: seq<string>)
    requires forall i :: 0 <= i < |values| ==> ',' !in values[i] && ParsePolicy(values[i]) != []
    ensures |ParseHeader(values)| == |values|
    ensures forall i :: 0 <= i < |values| ==> ParseHeader(values)[i] == ParsePolicy(values[i])
  {
    if values != [] {
      NoSeparator(values[0], ',');
      assert Split(values[0], ",") == [values[0]];
      OnePolicy(values[0]);
      OnePolicyPerValue(values[1..]);
    }
  }

  lemma OnePolicy(value: string)
    requires ParsePolicy(value) != []
    ensures ParsePieces([value]) == [ParsePolicy(value)]
  {
    assert [value][1..] == [];
  }
}
