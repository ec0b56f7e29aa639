/** The template rewriter (safehttp/plugins/htmlinject/htmlinject.go). The HTML tokenizer
    is not part of this model: its output is a sequence of tokens. */
module HtmlInject {
  import opened Common
  import opened GoStrings

  datatype Rule = Rule(
    name: string,
    onTag: string,
    withAttributes: map<string, string>,
    addAttributes: seq<string>,
    addNodes: seq<string>)

  type TransformConfig = seq<Rule>

  /** A tag is a start tag or a self-closing tag; everything else is copied. */
  datatype Token =
    | Tag(raw: string, name: string, attrs: seq<(string, string)>)
    | Other(raw: string)
  {
    /** A tag begins with "<" and its name. */
    predicate Valid() {
      Tag? ==> |raw| > |name|
    }
  }

  /** How the token stream ends: at the end of the input, with some raw text left, or by a
      read error. */
  datatype End = Eof(raw: string) | Failed

  datatype Stream = Stream(tokens: seq<Token>, end: End) {
    predicate Valid() {
      forall i :: 0 <= i < |tokens| ==> tokens[i].Valid()
    }
  }

  function Concat(ss: seq<string>): string {
    if ss == [] then "" else Concat(ss[..|ss| - 1]) + ss[|ss| - 1]
  }

  // ----- The flat specification -----

  /** What an attribute reads as: the last duplicate wins, a missing one is empty. */
  function Attr(attrs: seq<(string, string)>, key: string): string {
    if attrs == [] then ""
    else if attrs[|attrs| - 1].0 == key then attrs[|attrs| - 1].1
    else Attr(attrs[..|attrs| - 1], key)
  }

  /** An attribute that comes again overwrites what was read for its name, and only that. */
  lemma AttrThus(attrs: seq<(string, string)>, name: string, value: string, key: string)
    ensures Attr([], key) == ""
    ensures Attr(attrs + [(name, value)], key) == if key == name then value else Attr(attrs, key)
  {
    assert (attrs + [(name, value)])[..|attrs|] == attrs;
  }

  /** A rule is triggered by a tag of its name on which each attribute it asks for was last
      given the value it asks for, or not given if that value is empty. */
  lemma TriggersThus(r: Rule, t: Token)
    requires t.Tag?
    ensures Triggers(r, t) <==>
            r.onTag == t.name && forall k :: k in r.withAttributes ==> ReadsAs(t.attrs, k, r.withAttributes[k])
  {
    forall k | k in r.withAttributes ensures ReadsAs(t.attrs, k, r.withAttributes[k]) <==> Attr(t.attrs, k) == r.withAttributes[k] {
      LastIsRead(t.attrs, k, r.withAttributes[k]);
    }
  }

  ghost predicate ReadsAs(attrs: seq<(string, string)>, key: string, value: string) {
    || (value == "" && forall i :: 0 <= i < |attrs| ==> attrs[i].0 != key)
    || exists i :: 0 <= i < |attrs| && attrs[i] == (key, value) && forall j :: i < j < |attrs| ==> attrs[j].0 != key
  }

  lemma {:induction false} LastIsRead(attrs: seq<(string, string)>, key: string, value: string)
    ensures ReadsAs(attrs, key, value) <==> Attr(attrs, key) == value
  {
    if attrs != [] {
      var n := |attrs| - 1;
      LastIsRead(attrs[..n], key, value);
      if attrs[n].0 == key {
        OwnIsRead(attrs, key, value);
      } else {
        EarlierIsRead(attrs, key, value);
      }
    }
  }

  lemma OwnIsRead(attrs: seq<(string, string)>, key: string, value: string)
    requires attrs != [] && attrs[|attrs| - 1].0 == key
    ensures ReadsAs(attrs, key, value) <==> attrs[|attrs| - 1].1 == value
  {
    if attrs[|attrs| - 1].1 == value { assert attrs[|attrs| - 1] == (key, value); }
  }

  lemma EarlierIsRead(attrs: seq<(string, string)>, key: string, value: string)
    requires attrs != [] && attrs[|attrs| - 1].0 != key
    ensures ReadsAs(attrs, key, value) <==> ReadsAs(attrs[..|attrs| - 1], key, value)
  {
    var n := |attrs| - 1;
    var front := attrs[..n];
    assert forall i :: 0 <= i < n ==> front[i] == attrs[i];
    if ReadsAs(attrs, key, value) {
      if i :| 0 <= i < |attrs| && attrs[i] == (key, value) && forall j :: i < j < |attrs| ==> attrs[j].0 != key {
        assert i < n && front[i] == (key, value);
      }
    }
    if ReadsAs(front, key, value) {
      if i :| 0 <= i < n && front[i] == (key, value) && forall j :: i < j < n ==> front[j].0 != key {
        assert attrs[i] == (key, value);
      }
    }
  }

  predicate Triggers(r: Rule, t: Token)
    requires t.Tag?
  {
    r.onTag == t.name && forall k :: k in r.withAttributes ==> Attr(t.attrs, k) == r.withAttributes[k]
  }

  /** The rules a tag triggers, in the order they are configured. */
  function Triggered(rules: seq<Rule>, t: Token): seq<Rule>
    requires t.Tag?
  {
    if rules == [] then []
    else Triggered(rules[..|rules| - 1], t) +
         (if Triggers(rules[|rules| - 1], t) then [rules[|rules| - 1]] else [])
  }

  function Flatten(cfgs: seq<TransformConfig>): seq<Rule> {
    if cfgs == [] then [] else Flatten(cfgs[..|cfgs| - 1]) + cfgs[|cfgs| - 1]
  }

  function Attributes(rules: seq<Rule>): string {
    if rules == [] then "" else Attributes(rules[..|rules| - 1]) + Concat(rules[|rules| - 1].addAttributes)
  }

  function Nodes(rules: seq<Rule>): string {
    if rules == [] then "" else Nodes(rules[..|rules| - 1]) + Concat(rules[|rules| - 1].addNodes)
  }

  /** Text kept from the input, or text put in. */
  datatype Piece = Keep(s: string) | Insert(s: string)

  function TagPieces(t: Token, triggered: seq<Rule>): seq<Piece>
    requires t.Tag? && t.Valid()
  {
    [Keep(t.raw[..|t.name| + 1]), Insert(Attributes(triggered)),
     Keep(t.raw[|t.name| + 1..]), Insert(Nodes(triggered))]
  }

  function TokenPieces(rules: seq<Rule>, t: Token): seq<Piece>
    requires t.Valid()
  {
    if t.Tag? then TagPieces(t, Triggered(rules, t)) else [Keep(t.raw)]
  }

  function Pieces(rules: seq<Rule>, tokens: seq<Token>): seq<Piece>
    requires forall i :: 0 <= i < |tokens| ==> tokens[i].Valid()
  {
    if tokens == [] then []
    else Pieces(rules, tokens[..|tokens| - 1]) + TokenPieces(rules, tokens[|tokens| - 1])
  }

  function AllText(ps: seq<Piece>): string {
    if ps == [] then "" else AllText(ps[..|ps| - 1]) + ps[|ps| - 1].s
  }

  function KeptText(ps: seq<Piece>): string {
    if ps == [] then ""
    else KeptText(ps[..|ps| - 1]) + (if ps[|ps| - 1].Keep? then ps[|ps| - 1].s else "")
  }

  function InsertedLength(ps: seq<Piece>): nat {
    if ps == [] then 0
    else InsertedLength(ps[..|ps| - 1]) + (if ps[|ps| - 1].Insert? then |ps[|ps| - 1].s| else 0)
  }

  /** The pieces of the whole output of a stream that ends well. */
  function Output(rules: seq<Rule>, s: Stream): seq<Piece>
    requires s.Valid() && s.end.Eof?
  {
    Pieces(rules, s.tokens) + [Keep(s.end.raw)]
  }

  /** The template that was tokenized. */
  function Source(s: Stream): string
    requires s.end.Eof?
  {
    Concat(Raws(s.tokens)) + s.end.raw
  }

  function Raws(tokens: seq<Token>): seq<string> {
    seq(|tokens|, i requires 0 <= i < |tokens| => tokens[i].raw)
  }

  // ----- The rewriter -----

  class Rewriter {
    /** The index: the rules of each tag, in the order they were added. */
    var rules: map<string, seq<Rule>>
    var out: string

    constructor ()
      ensures rules == map[] && out == ""
    {
      rules, out := map[], "";
    }

    /** The index of Transform: a rule is appended to the list of its tag. */
    method AddRule(r: Rule)
      modifies this`rules
      ensures rules == old(rules)[r.onTag := RulesFor(old(rules), r.onTag) + [r]]
    {
      rules := rules[r.onTag := RulesFor(rules, r.onTag) + [r]];
    }

    method AddConfig(c: TransformConfig, ghost flat: seq<Rule>)
      requires Indexes(rules, flat)
      modifies this`rules
      ensures Indexes(rules, flat + c)
    {
      assert flat + c[..0] == flat;
      for j := 0 to |c|
        invariant Indexes(rules, flat + c[..j])
      {
        IndexGrows(rules, flat + c[..j], c[j]);
        AddRule(c[j]);
        assert flat + c[..j + 1] == flat + c[..j] + [c[j]];
      }
      assert c[..|c|] == c;
    }

    method ProcessTag(t: Token)
      requires t.Tag? && t.Valid()
      requires forall i :: 0 <= i < |RulesFor(rules, t.name)| ==> RulesFor(rules, t.name)[i].onTag == t.name
      modifies this`out
      ensures out == old(out) + AllText(TagPieces(t, Triggered(RulesFor(rules, t.name), t)))
    {
      var attributes := ReadAttributes(t.attrs);
      var triggered := FilterRules(RulesFor(rules, t.name), t, attributes);
      var attrPos := |t.name| + 1;
      out := out + t.raw[..attrPos];
      WriteAttributes(triggered);
      out := out + t.raw[attrPos..];
      WriteNodes(triggered);
      FourPieces(t.raw[..attrPos], Attributes(triggered), t.raw[attrPos..], Nodes(triggered));
      AssocFive(old(out), t.raw[..attrPos], Attributes(triggered), t.raw[attrPos..], Nodes(triggered));
    }

    method WriteAttributes(triggered: seq<Rule>)
      modifies this`out
      ensures out == old(out) + Attributes(triggered)
    {
      for i := 0 to |triggered|
        invariant out == old(out) + Attributes(triggered[..i])
      {
        WriteAll(triggered[i].addAttributes);
        assert triggered[..i + 1][..i] == triggered[..i];
      }
      assert triggered[..|triggered|] == triggered;
    }

    method WriteNodes(triggered: seq<Rule>)
      modifies this`out
      ensures out == old(out) + Nodes(triggered)
    {
      for i := 0 to |triggered|
        invariant out == old(out) + Nodes(triggered[..i])
      {
        WriteAll(triggered[i].addNodes);
        assert triggered[..i + 1][..i] == triggered[..i];
      }
      assert triggered[..|triggered|] == triggered;
    }

    method WriteAll(texts: seq<string>)
      modifies this`out
      ensures out == old(out) + Concat(texts)
    {
      for j := 0 to |texts|
        invariant out == old(out) + Concat(texts[..j])
      {
        out := out + texts[j];
        assert texts[..j + 1][..j] == texts[..j];
      }
      assert texts[..|texts|] == texts;
    }

    method RewriteToken(t: Token, ghost flat: seq<Rule>)
      requires t.Valid() && Indexes(rules, flat)
      modifies this`out
      ensures out == old(out) + AllText(TokenPieces(flat, t))
    {
      if t.Tag? {
        OnTagIsOnTag(flat, t.name);
        SameTriggered(flat, t);
        ProcessTag(t);
      } else {
        OnePiece(Keep(t.raw));
        out := out + t.raw;
      }
    }

    /** Reads the tokens one by one; a read error ends the rewriting. */
    method Rewrite(s: Stream, ghost flat: seq<Rule>) returns (ok: bool)
      requires s.Valid() && Indexes(rules, flat)
      modifies this`out
      ensures ok <==> s.end.Eof?
      ensures ok ==> out == old(out) + AllText(Output(flat, s))
    {
      for i := 0 to |s.tokens|
        invariant out == old(out) + AllText(Pieces(flat, s.tokens[..i]))
      {
        RewriteToken(s.tokens[i], flat);
        PiecesNext(flat, s.tokens, i);
        Assoc(old(out), AllText(Pieces(flat, s.tokens[..i])), AllText(TokenPieces(flat, s.tokens[i])));
      }
      assert s.tokens[..|s.tokens|] == s.tokens;
      if s.end.Failed? {
        return false;
      }
      SnocPiece(Pieces(flat, s.tokens), Keep(s.end.raw));
      Assoc(old(out), AllText(Pieces(flat, s.tokens)), s.end.raw);
      out := out + s.end.raw;
      ok := true;
    }
  }

  lemma PiecesNext(flat: seq<Rule>, tokens: seq<Token>, i: nat)
    requires i < |tokens| && forall j :: 0 <= j < |tokens| ==> tokens[j].Valid()
    ensures AllText(Pieces(flat, tokens[..i + 1])) == AllText(Pieces(flat, tokens[..i])) + AllText(TokenPieces(flat, tokens[i]))
  {
    assert tokens[..i + 1][..i] == tokens[..i];
    AllTextAppend(Pieces(flat, tokens[..i]), TokenPieces(flat, tokens[i]));
  }

  /** Builds the index from all configs, then rewrites. */
  method Transform(s: Stream, cfgs: seq<TransformConfig>) returns (r: Option<string>)
    requires s.Valid()
    ensures r == if s.end.Eof? then Some(AllText(Output(Flatten(cfgs), s))) else None
  {
    var rw := new Rewriter();
    ghost var flat: seq<Rule> := [];
    for i := 0 to |cfgs|
      invariant flat == Flatten(cfgs[..i]) && Indexes(rw.rules, flat) && rw.out == ""
    {
      rw.AddConfig(cfgs[i], flat);
      flat := flat + cfgs[i];
      assert cfgs[..i + 1][..i] == cfgs[..i];
    }
    assert cfgs[..|cfgs|] == cfgs;
    var ok := rw.Rewrite(s, flat);
    assert ok ==> rw.out == AllText(Output(flat, s));
    r := if ok then Some(rw.out) else None;
  }

  function RulesFor(rules: map<string, seq<Rule>>, tag: string): seq<Rule> {
    if tag in rules then rules[tag] else []
  }

  /** The index holds, for every tag, the rules of a flat list that are on that tag. */
  ghost predicate Indexes(rules: map<string, seq<Rule>>, flat: seq<Rule>) {
    forall tag :: RulesFor(rules, tag) == OnTag(flat, tag)
  }

  function OnTag(flat: seq<Rule>, tag: string): seq<Rule> {
    if flat == [] then []
    else OnTag(flat[..|flat| - 1], tag) + (if flat[|flat| - 1].onTag == tag then [flat[|flat| - 1]] else [])
  }

  /** Later duplicates overwrite earlier ones. */
  method ReadAttributes(attrs: seq<(string, string)>) returns (m: map<string, string>)
    ensures forall k :: (if k in m then m[k] else "") == Attr(attrs, k)
  {
    m := map[];
    for i := 0 to |attrs|
      invariant forall k :: (if k in m then m[k] else "") == Attr(attrs[..i], k)
    {
      assert attrs[..i + 1][..i] == attrs[..i];
      m := m[attrs[i].0 := attrs[i].1];
    }
    assert attrs[..|attrs|] == attrs;
  }

  /** The attribute filters of one rule, visited in an arbitrary order, stopping at the
      first mismatch. */
  method MatchesAttributes(r: Rule, attributes: map<string, string>) returns (match': bool)
    ensures match' <==>
            forall k :: k in r.withAttributes ==> (if k in attributes then attributes[k] else "") == r.withAttributes[k]
  {
    var todo := r.withAttributes.Keys;
    while todo != {}
      invariant todo <= r.withAttributes.Keys
      invariant forall k :: k in r.withAttributes && k !in todo ==>
                  (if k in attributes then attributes[k] else "") == r.withAttributes[k]
      decreases todo
    {
      var k :| k in todo;
      if (if k in attributes then attributes[k] else "") != r.withAttributes[k] {
        return false;
      }
      todo := todo - {k};
    }
    match' := true;
  }

  method FilterRules(rules: seq<Rule>, ghost t: Token, attributes: map<string, string>) returns (triggered: seq<Rule>)
    requires t.Tag? && forall k :: (if k in attributes then attributes[k] else "") == Attr(t.attrs, k)
    requires forall i :: 0 <= i < |rules| ==> rules[i].onTag == t.name
    ensures triggered == Triggered(rules, t)
  {
    triggered := [];
    for i := 0 to |rules|
      invariant triggered == Triggered(rules[..i], t)
    {
      assert rules[..i + 1][..i] == rules[..i];
      var m := MatchesAttributes(rules[i], attributes);
      if m {
        triggered := triggered + [rules[i]];
      }
    }
    assert rules[..|rules|] == rules;
  }

  // ----- The index against the flat scan -----

  lemma IndexGrows(rules: map<string, seq<Rule>>, flat: seq<Rule>, r: Rule)
    requires Indexes(rules, flat)
    ensures Indexes(rules[r.onTag := RulesFor(rules, r.onTag) + [r]], flat + [r])
  {
    var next := rules[r.onTag := RulesFor(rules, r.onTag) + [r]];
    forall tag ensures RulesFor(next, tag) == OnTag(flat + [r], tag) {
      assert (flat + [r])[..|flat|] == flat;
      assert RulesFor(rules, tag) == OnTag(flat, tag);
    }
  }

  lemma {:induction false} OnTagIsOnTag(flat: seq<Rule>, tag: string)
    ensures forall i :: 0 <= i < |OnTag(flat, tag)| ==> OnTag(flat, tag)[i].onTag == tag
  {
    if flat != [] { OnTagIsOnTag(flat[..|flat| - 1], tag); }
  }

  /** Looking only at the rules indexed under the tag triggers the same rules, in the same
      order, as scanning all of them. */
  lemma {:induction false} SameTriggered(flat: seq<Rule>, t: Token)
    requires t.Tag?
    ensures Triggered(OnTag(flat, t.name), t) == Triggered(flat, t)
  {
    if flat != [] {
      var init, r := flat[..|flat| - 1], flat[|flat| - 1];
      SameTriggered(init, t);
      if r.onTag == t.name {
        TriggeredSnoc(OnTag(init, t.name), r, t);
      } else {
        assert OnTag(flat, t.name) == OnTag(init, t.name);
      }
    }
  }

  // ----- The output is the input with text inserted -----

  lemma SnocPiece(ps: seq<Piece>, p: Piece)
    ensures AllText(ps + [p]) == AllText(ps) + p.s
    ensures KeptText(ps + [p]) == KeptText(ps) + (if p.Keep? then p.s else "")
    ensures InsertedLength(ps + [p]) == InsertedLength(ps) + (if p.Insert? then |p.s| else 0)
  {
    assert (ps + [p])[..|ps|] == ps;
  }

  lemma OnePiece(p: Piece)
    ensures AllText([p]) == p.s && KeptText([p]) == if p.Keep? then p.s else ""
    ensures InsertedLength([p]) == if p.Insert? then |p.s| else 0
  {
    SnocPiece([], p);
    assert [] + [p] == [p];
  }

  lemma FourPieces(a: string, b: string, c: string, d: string)
    ensures AllText([Keep(a), Insert(b), Keep(c), Insert(d)]) == a + b + c + d
    ensures KeptText([Keep(a), Insert(b), Keep(c), Insert(d)]) == a + c
    ensures InsertedLength([Keep(a), Insert(b), Keep(c), Insert(d)]) == |b| + |d|
  {
    OnePiece(Keep(a));
    SnocPiece([Keep(a)], Insert(b));
    SnocPiece([Keep(a)] + [Insert(b)], Keep(c));
    SnocPiece([Keep(a)] + [Insert(b)] + [Keep(c)], Insert(d));
    assert [Keep(a)] + [Insert(b)] + [Keep(c)] + [Insert(d)] == [Keep(a), Insert(b), Keep(c), Insert(d)];
    assert a + "" == a && a + c + "" == a + c;
  }

  lemma AssocFive(o: string, a: string, b: string, c: string, d: string)
    ensures o + a + b + c + d == o + (a + b + c + d)
  {
    Assoc(o, a, b);
    Assoc(o, a + b, c);
    Assoc(o, a + b + c, d);
  }

  lemma SplitLast(ps: seq<Piece>, qs: seq<Piece>)
    requires qs != []
    ensures qs == qs[..|qs| - 1] + [qs[|qs| - 1]]
    ensures ps + qs == (ps + qs[..|qs| - 1]) + [qs[|qs| - 1]]
  {
  }

  lemma {:induction false} AllTextAppend(ps: seq<Piece>, qs: seq<Piece>)
    ensures AllText(ps + qs) == AllText(ps) + AllText(qs)
  {
    if qs == [] {
      assert ps + qs == ps;
    } else {
      var init, q := qs[..|qs| - 1], qs[|qs| - 1];
      AllTextAppend(ps, init);
      SplitLast(ps, qs);
      SnocPiece(ps + init, q);
      SnocPiece(init, q);
      Assoc(AllText(ps), AllText(init), q.s);
    }
  }

  lemma {:induction false} KeptAppend(ps: seq<Piece>, qs: seq<Piece>)
    ensures KeptText(ps + qs) == KeptText(ps) + KeptText(qs)
  {
    if qs == [] {
      assert ps + qs == ps;
    } else {
      var init, q := qs[..|qs| - 1], qs[|qs| - 1];
      KeptAppend(ps, init);
      SplitLast(ps, qs);
      SnocPiece(ps + init, q);
      SnocPiece(init, q);
      Assoc(KeptText(ps), KeptText(init), if q.Keep? then q.s else "");
    }
  }

  lemma {:induction false} InsertedAppend(ps: seq<Piece>, qs: seq<Piece>)
    ensures InsertedLength(ps + qs) == InsertedLength(ps) + InsertedLength(qs)
  {
    if qs == [] {
      assert ps + qs == ps;
    } else {
      InsertedAppend(ps, qs[..|qs| - 1]);
      SplitLast(ps, qs);
      SnocPiece(ps + qs[..|qs| - 1], qs[|qs| - 1]);
    }
  }

  lemma {:induction false} PiecesKeepInput(rules: seq<Rule>, tokens: seq<Token>)
    requires forall i :: 0 <= i < |tokens| ==> tokens[i].Valid()
    ensures KeptText(Pieces(rules, tokens)) == Concat(Raws(tokens))
  {
    if tokens != [] {
      var init, t := tokens[..|tokens| - 1], tokens[|tokens| - 1];
      PiecesKeepInput(rules, init);
      KeptAppend(Pieces(rules, init), TokenPieces(rules, t));
      assert Raws(tokens)[..|tokens| - 1] == Raws(init);
      if t.Tag? {
        var tr := Triggered(rules, t);
        FourPieces(t.raw[..|t.name| + 1], Attributes(tr), t.raw[|t.name| + 1..], Nodes(tr));
        assert t.raw[..|t.name| + 1] + t.raw[|t.name| + 1..] == t.raw;
      } else {
        OnePiece(Keep(t.raw));
      }
    }
  }

  /** a is b with some characters left out. */
  ghost predicate Subsequence(a: string, b: string) {
    a == "" || (b != "" && ((a[|a| - 1] == b[|b| - 1] && Subsequence(a[..|a| - 1], b[..|b| - 1]))
                            || Subsequence(a, b[..|b| - 1])))
  }

  lemma {:induction false} SubsequenceGrows(a: string, b: string, s: string)
    requires Subsequence(a, b)
    ensures Subsequence(a, b + s) && Subsequence(a + s, b + s)
  {
    if s == "" {
      assert a + s == a && b + s == b;
    } else {
      var init := s[..|s| - 1];
      SubsequenceGrows(a, b, init);
      assert (a + s)[..|a + s| - 1] == a + init && (b + s)[..|b + s| - 1] == b + init;
    }
  }

  lemma {:induction false} KeptIsSubsequence(ps: seq<Piece>)
    ensures Subsequence(KeptText(ps), AllText(ps))
    ensures |AllText(ps)| == |KeptText(ps)| + InsertedLength(ps)
    ensures InsertedLength(ps) == 0 ==> AllText(ps) == KeptText(ps)
  {
    if ps != [] {
      var init, p := ps[..|ps| - 1], ps[|ps| - 1];
      KeptIsSubsequence(init);
      SubsequenceGrows(KeptText(init), AllText(init), p.s);
      assert KeptText(init) + "" == KeptText(init);
      if p.Insert? && p.s == "" { assert AllText(init) + "" == AllText(init); }
    }
  }

  lemma OutputKeepsSource(rules: seq<Rule>, s: Stream)
    requires s.Valid() && s.end.Eof?
    ensures KeptText(Output(rules, s)) == Source(s)
  {
    PiecesKeepInput(rules, s.tokens);
    SnocPiece(Pieces(rules, s.tokens), Keep(s.end.raw));
  }

  /** Erasing the insertions recovers the template; the output is the template with
      characters added and nothing removed or moved, and the lengths add up. */
  lemma InsertOnly(cfgs: seq<TransformConfig>, s: Stream)
    requires s.Valid() && s.end.Eof?
    ensures
      var ps := Output(Flatten(cfgs), s);
      && KeptText(ps) == Source(s)
      && Subsequence(Source(s), AllText(ps))
      && |AllText(ps)| == |Source(s)| + InsertedLength(ps)
  {
    OutputKeepsSource(Flatten(cfgs), s);
    KeptIsSubsequence(Output(Flatten(cfgs), s));
  }

  lemma {:induction false} NothingInserted(rules: seq<Rule>, tokens: seq<Token>)
    requires forall i :: 0 <= i < |tokens| ==> tokens[i].Valid()
    requires forall i, r :: 0 <= i < |tokens| && tokens[i].Tag? && r in rules ==> !Triggers(r, tokens[i])
    ensures InsertedLength(Pieces(rules, tokens)) == 0
  {
    if tokens != [] {
      var init, t := tokens[..|tokens| - 1], tokens[|tokens| - 1];
      NothingInserted(rules, init);
      InsertedAppend(Pieces(rules, init), TokenPieces(rules, t));
      if t.Tag? {
        NoneTriggered(rules, t);
        FourPieces(t.raw[..|t.name| + 1], "", t.raw[|t.name| + 1..], "");
      } else {
        OnePiece(Keep(t.raw));
      }
    }
  }

  lemma {:induction false} NoneTriggered(rules: seq<Rule>, t: Token)
    requires t.Tag? && forall r :: r in rules ==> !Triggers(r, t)
    ensures Triggered(rules, t) == []
  {
    if rules != [] {
      var init := rules[..|rules| - 1];
      assert forall r :: r in init ==> r in rules;
      NoneTriggered(init, t);
      assert rules[|rules| - 1] in rules;
    }
  }

  /** A template that triggers no rule comes out unchanged. */
  lemma UntriggeredUnchanged(cfgs: seq<TransformConfig>, s: Stream)
    requires s.Valid() && s.end.Eof?
    requires forall i, r :: 0 <= i < |s.tokens| && s.tokens[i].Tag? && r in Flatten(cfgs) ==> !Triggers(r, s.tokens[i])
    ensures AllText(Output(Flatten(cfgs), s)) == Source(s)
  {
    var rules := Flatten(cfgs);
    NothingInserted(rules, s.tokens);
    SnocPiece(Pieces(rules, s.tokens), Keep(s.end.raw));
    InsertOnly(cfgs, s);
    KeptIsSubsequence(Output(rules, s));
  }

  // ----- The default rules -----

  function CSPNonces(nonceAttr: string): TransformConfig {
    var attr := " " + nonceAttr;
    [Rule("Nonces for scripts", "script", map[], [attr], []),
     Rule("Nonces for link as=script rel=preload", "link", map["rel" := "preload", "as" := "script"], [attr], []),
     Rule("Nonces for styles", "style", map[], [attr], [])]
  }

  function XSRFTokens(inputTag: string): TransformConfig {
    [Rule("XSRFTokens on forms", "form", map[], [], [inputTag])]
  }

  predicate NeedsNonce(t: Token)
    requires t.Tag?
  {
    || t.name == "script" || t.name == "style"
    || (t.name == "link" && Attr(t.attrs, "rel") == "preload" && Attr(t.attrs, "as") == "script")
  }

  /** Scripts, styles, and links last given rel="preload" and as="script". */
  lemma NeedsNonceThus(t: Token)
    requires t.Tag?
    ensures NeedsNonce(t) <==>
            || t.name == "script" || t.name == "style"
            || (t.name == "link" && ReadsAs(t.attrs, "rel", "preload") && ReadsAs(t.attrs, "as", "script"))
  {
    LastIsRead(t.attrs, "rel", "preload");
    LastIsRead(t.attrs, "as", "script");
  }

  lemma ConcatTwo(a: string, b: string)
    ensures Concat([a, b]) == a + b
  {
    assert [a, b][..1] == [a] && [a][..0] == [];
    assert Concat([]) + a == a;
  }

  /** Two rules on one tag: the attributes of the first, then those of the second, right after
      the name, and the nodes in the same order right after the tag. */
  lemma TwoRules(r: Rule, s: Rule, t: Token, a: string, b: string, c: string, d: string)
    requires t.Tag? && t.Valid() && Triggers(r, t) && Triggers(s, t)
    requires r.addAttributes == [a, b] && s.addAttributes == [c] && r.addNodes == [d] && s.addNodes == [a, c]
    ensures AllText(TokenPieces([r, s], t)) == t.raw[..|t.name| + 1] + (a + b + c) + t.raw[|t.name| + 1..] + (d + (a + c))
  {
    assert [r, s][..1] == [r] && [r][..0] == [];
    assert Triggered([r], t) == [r];
    assert Triggered([r, s], t) == [r, s];
    ConcatTwo(a, b);
    ConcatTwo(a, c);
    ConcatOne([c]);
    ConcatOne([d]);
    assert Attributes([]) + (a + b) == a + b && Nodes([]) + d == d;
    assert Attributes([r]) == a + b && Nodes([r]) == d;
    assert Attributes([r, s]) == a + b + c && Nodes([r, s]) == d + (a + c);
    FourPieces(t.raw[..|t.name| + 1], a + b + c, t.raw[|t.name| + 1..], d + (a + c));
  }

  lemma TagNamesDiffer()
    ensures "script" != "link" && "script" != "style" && "script" != "form"
    ensures "link" != "style" && "link" != "form" && "style" != "form"
  {
    assert "script"[0] == 's' && "link"[0] == 'l' && "style"[0] == 's' && "form"[0] == 'f';
    assert "script"[1] == 'c' && "style"[1] == 't';
  }

  lemma TriggeredSnoc(rules: seq<Rule>, r: Rule, t: Token)
    requires t.Tag?
    ensures Triggered(rules + [r], t) == Triggered(rules, t) + (if Triggers(r, t) then [r] else [])
  {
    assert (rules + [r])[..|rules|] == rules;
  }

  lemma FlattenTwo(c: TransformConfig, x: TransformConfig)
    ensures Flatten([c, x]) == c + x
  {
    var only: seq<TransformConfig> := [c];
    assert [c, x][..1] == only && only[..0] == [];
    assert Flatten(only) == c;
  }

  lemma TriggeredByDefault(nonceAttr: string, inputTag: string, t: Token)
    requires t.Tag?
    ensures
      var c, x := CSPNonces(nonceAttr), XSRFTokens(inputTag);
      Triggered(Flatten([c, x]), t) ==
      if t.name == "script" then [c[0]]
      else if t.name == "link" && NeedsNonce(t) then [c[1]]
      else if t.name == "style" then [c[2]]
      else if t.name == "form" then [x[0]]
      else []
  {
    var c, x := CSPNonces(nonceAttr), XSRFTokens(inputTag);
    FlattenTwo(c, x);
    assert c + x == [] + [c[0]] + [c[1]] + [c[2]] + [x[0]];
    TriggeredSnoc([], c[0], t);
    TriggeredSnoc([] + [c[0]], c[1], t);
    TriggeredSnoc([] + [c[0]] + [c[1]], c[2], t);
    TriggeredSnoc([] + [c[0]] + [c[1]] + [c[2]], x[0], t);
    PreloadFilter(c[1].withAttributes, t);
    TagNamesDiffer();
  }

  /** With the two default configs, a tag gets one nonce right after its name if it is a
      script, a style or a preloaded script link, and one token input right after it if it
      is a form; every other token is copied. */
  lemma DefaultRules(nonceAttr: string, inputTag: string, t: Token)
    requires t.Valid()
    ensures
      var rules := Flatten([CSPNonces(nonceAttr), XSRFTokens(inputTag)]);
      AllText(TokenPieces(rules, t)) ==
      if t.Tag? && NeedsNonce(t) then t.raw[..|t.name| + 1] + (" " + nonceAttr) + t.raw[|t.name| + 1..]
      else if t.Tag? && t.name == "form" then t.raw + inputTag
      else t.raw
  {
    if t.Tag? {
      TriggeredByDefault(nonceAttr, inputTag, t);
      var tr := Triggered(Flatten([CSPNonces(nonceAttr), XSRFTokens(inputTag)]), t);
      OneRule(tr);
      TagNamesDiffer();
      var head, tail := t.raw[..|t.name| + 1], t.raw[|t.name| + 1..];
      FourPieces(head, Attributes(tr), tail, Nodes(tr));
      assert head + tail == t.raw && head + "" == head;
      assert head + Attributes(tr) + tail + "" == head + Attributes(tr) + tail;
    } else {
      OnePiece(Keep(t.raw));
    }
  }

  lemma PreloadFilter(filter: map<string, string>, t: Token)
    requires t.Tag? && filter == map["rel" := "preload", "as" := "script"]
    ensures (forall k :: k in filter ==> Attr(t.attrs, k) == filter[k]) <==>
            Attr(t.attrs, "rel") == "preload" && Attr(t.attrs, "as") == "script"
  {
    assert "rel"[0] == 'r' && "as"[0] == 'a';
    assert "rel" in filter && "as" in filter;
  }

  lemma ConcatOne(ss: seq<string>)
    requires |ss| == 1
    ensures Concat(ss) == ss[0]
  {
    assert ss[..0] == [];
  }

  lemma OneRule(tr: seq<Rule>)
    ensures tr == [] ==> Attributes(tr) == "" && Nodes(tr) == ""
    ensures |tr| == 1 && |tr[0].addAttributes| == 1 && tr[0].addNodes == [] ==>
              Attributes(tr) == tr[0].addAttributes[0] && Nodes(tr) == ""
    ensures |tr| == 1 && |tr[0].addNodes| == 1 && tr[0].addAttributes == [] ==>
              Attributes(tr) == "" && Nodes(tr) == tr[0].addNodes[0]
  {
    if |tr| == 1 {
      assert tr[..0] == [];
      if |tr[0].addAttributes| == 1 { ConcatOne(tr[0].addAttributes); }
      if |tr[0].addNodes| == 1 { ConcatOne(tr[0].addNodes); }
    }
  }

  // ----- A missing attribute is not told apart from an empty one -----

  predicate HasAttr(attrs: seq<(string, string)>, key: string) {
    exists i :: 0 <= i < |attrs| && attrs[i].0 == key
  }

  lemma {:induction false} MissingReadsEmpty(attrs: seq<(string, string)>, key: string)
    requires !HasAttr(attrs, key)
    ensures Attr(attrs, key) == ""
  {
    if attrs != [] {
      assert attrs[|attrs| - 1].0 != key;
      MissingReadsEmpty(attrs[..|attrs| - 1], key);
    }
  }

  /** As documented, a filter matches only tags that have each of its attributes with the
      given value. */
  predicate DocumentedMatch(filter: map<string, string>, attrs: seq<(string, string)>) {
    forall k :: k in filter ==> HasAttr(attrs, k) && Attr(attrs, k) == filter[k]
  }

  predicate CodeMatch(filter: map<string, string>, attrs: seq<(string, string)>) {
    forall k :: k in filter ==> Attr(attrs, k) == filter[k]
  }

  /** The code matches as documented on every tag exactly when the filter asks for no empty
      value: a tag without the attribute passes a filter for the empty value. */
  lemma FiltersForEmptyValues(filter: map<string, string>)
    ensures (forall attrs :: CodeMatch(filter, attrs) <==> DocumentedMatch(filter, attrs))
            <==> forall k :: k in filter ==> filter[k] != ""
  {
    if k :| k in filter && filter[k] == "" {
      var attrs := WithoutKey(filter, filter.Keys, k);
      assert CodeMatch(filter, attrs) && !DocumentedMatch(filter, attrs);
    } else {
      forall attrs ensures CodeMatch(filter, attrs) <==> DocumentedMatch(filter, attrs) {
        forall k | k in filter ensures !HasAttr(attrs, k) ==> Attr(attrs, k) != filter[k] {
          if !HasAttr(attrs, k) { MissingReadsEmpty(attrs, k); }
        }
      }
    }
  }

  /** A tag that has what the filter asks for, except one attribute asked to be empty. */
  lemma {:induction false} WithoutKey(filter: map<string, string>, todo: set<string>, k: string)
    returns (attrs: seq<(string, string)>)
    requires todo <= filter.Keys && k in filter && filter[k] == ""
    ensures forall x :: x in todo ==> Attr(attrs, x) == filter[x]
    ensures !HasAttr(attrs, k)
    decreases todo
  {
    if todo == {} {
      attrs := [];
    } else {
      var x :| x in todo;
      var rest := WithoutKey(filter, todo - {x}, k);
      if x == k {
        MissingReadsEmpty(rest, k);
        attrs := rest;
      } else {
        attrs := rest + [(x, filter[x])];
        assert attrs[..|rest|] == rest;
        forall i | 0 <= i < |attrs| ensures attrs[i].0 != k {
          if i < |rest| { assert attrs[i] == rest[i]; }
        }
      }
    }
  }
}
