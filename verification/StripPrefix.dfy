/** Stripping path prefixes (safehttp/handler.go, safehttp/incoming_request.go). */
module PrefixStripping {
  import opened Common
  import opened GoStrings

  /** The part of a request's URL that stripping looks at; rawPath is empty when not set. */
  datatype URL = URL(path: string, rawPath: string)

  /** WithStrippedURLPrefix: a copy of the URL, or None for its two errors. */
  function WithStrippedURLPrefix(u: URL, prefix: string): Option<URL> {
    if !HasPrefix(u.path, prefix) then None
    else if u.rawPath != "" && !HasPrefix(u.rawPath, prefix) then None
    else Some(URL(TrimPrefix(u.path, prefix), TrimPrefix(u.rawPath, prefix)))
  }

  /** What becomes of a request: some result, or None for a panic. */
  type Handler<R> = URL -> Option<R>

  function StripPrefix<R>(prefix: string, h: Handler<R>): Handler<R> {
    var stripped := (u: URL) =>
      match WithStrippedURLPrefix(u, prefix)
      case None => None
      case Some(u2) => h(u2);
    if prefix == "" then h else stripped
  }

  /** What the stripped copy of a request's URL is, and when there is none. */
  lemma StrippedURL(p: string, u: URL)
    ensures WithStrippedURLPrefix(u, p) ==
            if p <= u.path && (u.rawPath == "" || p <= u.rawPath)
            then Some(URL(u.path[|p|..], if u.rawPath == "" then "" else u.rawPath[|p|..])) else None
  {
  }

  /** A handler below a prefix is the handler on the stripped URL, and a panic without one. */
  lemma HandlerBelow<R>(p: string, u: URL, h: Handler<R>)
    ensures
      StripPrefix(p, h)(u) ==
      if p <= u.path && (u.rawPath == "" || p <= u.rawPath)
      then h(URL(u.path[|p|..], if u.rawPath == "" then "" else u.rawPath[|p|..])) else None
  {
    StrippedURL(p, u);
    if p == "" { assert u == URL(u.path[0..], if u.rawPath == "" then "" else u.rawPath[0..]); }
  }

  /** The handler inside sees the path, and the raw path if there is one, without the prefix. */
  lemma PrefixIsGone<R>(p: string, rest: string, raw: string, h: Handler<R>)
    ensures StripPrefix(p, h)(URL(p + rest, "")) == h(URL(rest, ""))
    ensures raw != "" ==> StripPrefix(p, h)(URL(p + rest, p + raw)) == h(URL(rest, raw))
  {
    HandlerBelow(p, URL(p + rest, ""), h);
    HandlerBelow(p, URL(p + rest, p + raw), h);
    assert (p + rest)[|p|..] == rest && (p + raw)[|p|..] == raw;
  }

  function InTurn(u: URL, a: string, b: string): Option<URL> {
    match WithStrippedURLPrefix(u, a)
    case None => None
    case Some(u1) => WithStrippedURLPrefix(u1, b)
  }

  lemma PrefixOfSum(s: string, a: string, b: string)
    ensures HasPrefix(s, a + b) <==> HasPrefix(s, a) && HasPrefix(s[|a|..], b)
    ensures HasPrefix(s, a + b) ==> s[|a|..][|b|..] == s[|a + b|..]
  {
    if HasPrefix(s, a + b) {
      assert s[..|a|] == (a + b)[..|a|] == a;
      assert s[|a|..|a| + |b|] == (a + b)[|a|..] == b;
      assert s[|a|..][..|b|] == b;
    }
    if HasPrefix(s, a) && HasPrefix(s[|a|..], b) {
      assert s == s[..|a|] + s[|a|..] == a + s[|a|..];
      assert s[|a|..] == b + s[|a|..][|b|..];
    }
  }

  /** The raw path is used up by the first prefix while the path still has the second: then
      stripping in turn no longer looks at the raw path and lets the request through. */
  predicate RawPathUsedUp(u: URL, a: string, b: string) {
    a != "" && b != "" && u.rawPath == a && HasPrefix(u.path, a + b)
  }

  /** Stripping a and then b is stripping a+b, with the same result or the same failure,
      exactly when the raw path is not used up in between. */
  lemma StripsCompose(u: URL, a: string, b: string)
    ensures InTurn(u, a, b) == WithStrippedURLPrefix(u, a + b) <==> !RawPathUsedUp(u, a, b)
  {
    PrefixOfSum(u.path, a, b);
    PrefixOfSum(u.rawPath, a, b);
    if HasPrefix(u.rawPath, a) && u.rawPath[|a|..] == "" {
      assert u.rawPath == a;
    }
  }

  /** The escaped path of a parsed URL is not shorter than the path it decodes to. */
  predicate Decoded(u: URL) {
    u.rawPath == "" || |u.rawPath| >= |u.path|
  }

  /** Every strip keeps that, and under it two strips always compose. */
  lemma DecodedStripsCompose(u: URL, a: string, b: string)
    requires Decoded(u)
    ensures WithStrippedURLPrefix(u, a).Some? ==> Decoded(WithStrippedURLPrefix(u, a).value)
    ensures InTurn(u, a, b) == WithStrippedURLPrefix(u, a + b)
  {
    StripsCompose(u, a, b);
    if HasPrefix(u.path, a + b) { assert |u.path| >= |a + b|; }
  }

  /** So do the handlers: nesting two StripPrefix handlers answers each request as one does. */
  lemma HandlersCompose<R>(u: URL, a: string, b: string, h: Handler<R>)
    requires !RawPathUsedUp(u, a, b)
    ensures StripPrefix(a, StripPrefix(b, h))(u) == StripPrefix(a + b, h)(u)
  {
    StripsCompose(u, a, b);
    if a == "" { assert a + b == b; }
    if b == "" { assert a + b == a; }
  }

  /** A request let through although the one longer prefix would refuse it. Its raw path is
      shorter than its path, so parsing a URL does not give it; code that sets the fields can. */
  lemma RefusedOnlyAtOnce()
    ensures
      var u := URL("/a/b", "/a");
      InTurn(u, "/a", "/b").Some? && WithStrippedURLPrefix(u, "/a" + "/b").None?
  {
    var u := URL("/a/b", "/a");
    assert "/a" + "/b" == "/a/b";
    assert "/a" <= "/a/b" && "/a/b"[2..] == "/b";
  }
}
