/** Canonical header names, as net/textproto.CanonicalMIMEHeaderKey computes them:
    a name made of token characters (section 3.2.6 of RFC 7230) gets its first letter
    and every letter after a dash in upper case and all others in lower case; any other
    name is left alone. */
module Canonical {

  predicate IsLower(c: char) { 'a' <= c <= 'z' }

  predicate IsUpper(c: char) { 'A' <= c <= 'Z' }

  predicate IsTokenChar(c: char) {
    || IsLower(c) || IsUpper(c) || '0' <= c <= '9'
    || c == '!' || '#' <= c <= '\'' || c == '*' || c == '+' || c == '-' || c == '.'
    || '^' <= c <= '`' || c == '|' || c == '~'
  }

  predicate IsToken(s: string) {
    forall i :: 0 <= i < |s| ==> IsTokenChar(s[i])
  }

  function UpperChar(c: char): char {
    if IsLower(c) then (c as int - 32) as char else c
  }

  function LowerChar(c: char): char {
    if IsUpper(c) then (c as int + 32) as char else c
  }

  function Recase(s: string, upper: bool): string {
    if s == [] then []
    else
      var c := if upper then UpperChar(s[0]) else LowerChar(s[0]);
      [c] + Recase(s[1..], c == '-')
  }

  function CanonicalKey(name: string): string {
    if IsToken(name) then Recase(name, true) else name
  }

  /** The name in lower case: two tokens name the same header when their folds agree. */
  function Fold(s: string): string {
    seq(|s|, i requires 0 <= i < |s| => LowerChar(s[i]))
  }

  lemma {:induction false} RecaseKeepsFold(s: string, upper: bool)
    ensures Fold(Recase(s, upper)) == Fold(s)
    ensures IsToken(s) ==> IsToken(Recase(s, upper))
  {
    if s != [] {
      var t := Recase(s, upper);
      RecaseKeepsFold(s[1..], t[0] == '-');
      assert Fold(t) == [LowerChar(t[0])] + Fold(t[1..]);
      assert Fold(s) == [LowerChar(s[0])] + Fold(s[1..]);
      assert t[1..] == Recase(s[1..], t[0] == '-');
    }
  }

  lemma {:induction false} RecaseSeesOnlyFold(a: string, b: string, upper: bool)
    requires Fold(a) == Fold(b)
    ensures Recase(a, upper) == Recase(b, upper)
  {
    assert |a| == |Fold(a)| && |b| == |Fold(b)|;
    if a != [] {
      assert Fold(a)[0] == Fold(b)[0];
      assert Fold(a[1..]) == Fold(a)[1..] == Fold(b)[1..] == Fold(b[1..]);
      var c := if upper then UpperChar(a[0]) else LowerChar(a[0]);
      RecaseSeesOnlyFold(a[1..], b[1..], c == '-');
    }
  }

  /** Canonicalising twice is the same as once, which is why the header methods may
      canonicalise a name that the wrapped map canonicalises again. */
  lemma CanonicalIdempotent(name: string)
    ensures CanonicalKey(CanonicalKey(name)) == CanonicalKey(name)
  {
    if IsToken(name) {
      RecaseKeepsFold(name, true);
      RecaseSeesOnlyFold(Recase(name, true), name, true);
    }
  }

  /** Two names share a canonical form exactly when they are the same name or are
      tokens that differ in letter case only. */
  lemma CanonicalCollision(a: string, b: string)
    ensures CanonicalKey(a) == CanonicalKey(b) <==>
            a == b || (IsToken(a) && IsToken(b) && Fold(a) == Fold(b))
  {
    RecaseKeepsFold(a, true);
    RecaseKeepsFold(b, true);
    if Fold(a) == Fold(b) {
      RecaseSeesOnlyFold(a, b, true);
    }
  }

  /** Whether the letter at i already has the case Recase would give it. */
  ghost predicate RightCase(s: string, i: nat, upper: bool)
    requires i < |s|
  {
    if (i == 0 && upper) || (i > 0 && s[i - 1] == '-') then !IsLower(s[i]) else !IsUpper(s[i])
  }

  /** A name that is already spelled canonically. */
  ghost predicate Spelled(s: string, upper: bool) {
    forall i :: 0 <= i < |s| ==> RightCase(s, i, upper)
  }

  lemma {:induction false} SpelledIsFixed(s: string, upper: bool)
    requires Spelled(s, upper)
    ensures Recase(s, upper) == s
  {
    if s != [] {
      assert RightCase(s, 0, upper);
      var t, dash := s[1..], s[0] == '-';
      forall i | 0 <= i < |t| ensures RightCase(t, i, dash) {
        assert RightCase(s, i + 1, upper);
      }
      SpelledIsFixed(t, dash);
      assert s == [s[0]] + t;
    }
  }
}
