/** The functions of Go's strings package that the framework's own code leans on. A string
    is a sequence of code points. */
module GoStrings {

  predicate At(s: string, sep: string, i: int) {
    0 <= i && i + |sep| <= |s| && s[i..i + |sep|] == sep
  }

  function IndexFrom(s: string, sep: string, i: nat): (r: int)
    ensures r == -1 <==> forall j :: i <= j ==> !At(s, sep, j)
    ensures r != -1 ==> i <= r && At(s, sep, r) && forall j :: i <= j < r ==> !At(s, sep, j)
    decreases |s| - i
  {
    if i + |sep| > |s| then -1
    else if At(s, sep, i) then i
    else IndexFrom(s, sep, i + 1)
  }

  /** strings.Index: where sep first occurs in s, or -1. */
  function Index(s: string, sep: string): int {
    IndexFrom(s, sep, 0)
  }

  lemma IndexIs(s: string, sep: string, m: nat)
    requires At(s, sep, m) && forall j :: 0 <= j < m ==> !At(s, sep, j)
    ensures Index(s, sep) == m
  {
  }

  function Explode(s: string): seq<string> {
    seq(|s|, i requires 0 <= i < |s| => [s[i]])
  }

  /** strings.Split: cut at every separator found from left to right; an empty separator
      cuts between any two characters. */
  function Split(s: string, sep: string): seq<string>
    decreases |s|
  {
    if sep == "" then Explode(s)
    else
      var m := Index(s, sep);
      if m < 0 then [s] else [s[..m]] + Split(s[m + |sep|..], sep)
  }

  /** strings.Join */
  function Join(xs: seq<string>, sep: string): string {
    if xs == [] then ""
    else if |xs| == 1 then xs[0]
    else xs[0] + sep + Join(xs[1..], sep)
  }

  predicate HasPrefix(s: string, prefix: string) {
    prefix <= s
  }

  function TrimPrefix(s: string, prefix: string): string {
    if HasPrefix(s, prefix) then s[|prefix|..] else s
  }

  // ----- Split and Join are inverses, and exactly when -----

  lemma {:induction false} JoinExplode(s: string)
    ensures Join(Explode(s), "") == s
  {
    if |s| > 1 {
      assert Explode(s)[1..] == Explode(s[1..]);
      JoinExplode(s[1..]);
      assert s == [s[0]] + s[1..];
    }
  }

  lemma JoinCons(x: string, xs: seq<string>, sep: string)
    requires xs != []
    ensures Join([x] + xs, sep) == x + sep + Join(xs, sep)
  {
    assert ([x] + xs)[1..] == xs;
  }

  lemma {:induction false} JoinOfSplit(s: string, sep: string)
    ensures Join(Split(s, sep), sep) == s
    decreases |s|
  {
    if sep == "" {
      JoinExplode(s);
    } else if Index(s, sep) >= 0 {
      var m := Index(s, sep);
      var rest := s[m + |sep|..];
      JoinOfSplit(rest, sep);
      JoinCons(s[..m], Split(rest, sep), sep);
      assert s == s[..m] + sep + rest;
    }
  }

  /** The lists that splitting can give back: every separator a join puts in is the first
      one found, and nothing is left to find at the end. */
  ghost predicate Splittable(xs: seq<string>, sep: string) {
    if sep == "" then forall i :: 0 <= i < |xs| ==> |xs[i]| == 1
    else
      && xs != []
      && (forall i :: 0 <= i < |xs| - 1 ==> Index(xs[i] + sep, sep) == |xs[i]|)
      && Index(xs[|xs| - 1], sep) == -1
  }

  /** What follows a first separator does not matter to where that separator is. */
  lemma FirstSeparator(x: string, sep: string, rest: string)
    ensures Index(x + sep, sep) == |x| <==> Index(x + sep + rest, sep) == |x|
  {
    var s, t := x + sep, x + sep + rest;
    forall j | 0 <= j <= |x| ensures At(s, sep, j) <==> At(t, sep, j) {
      assert s[j..j + |sep|] == t[j..j + |sep|];
    }
  }

  lemma {:induction false} ConcatLength(xs: seq<string>)
    requires forall i :: 0 <= i < |xs| ==> |xs[i]| == 1
    ensures Explode(Join(xs, "")) == xs
  {
    if xs != [] {
      var rest := xs[1..];
      ConcatLength(rest);
      var s, c := Join(xs, ""), xs[0];
      assert s == c + Join(rest, "");
      forall i | 0 <= i < |xs| ensures |Explode(s)| == |xs| && Explode(s)[i] == xs[i] {
        if i == 0 { assert [s[0]] == c; } else { assert s[i] == Join(rest, "")[i - 1] && Explode(Join(rest, ""))[i - 1] == xs[i]; }
      }
    }
  }

  /** One step of Split on a join of at least two elements. */
  lemma SplitStep(x: string, rest: seq<string>, sep: string)
    requires sep != "" && rest != []
    ensures
      var s := x + sep + Join(rest, sep);
      Split(s, sep) == [x] + rest <==> Index(x + sep, sep) == |x| && Split(Join(rest, sep), sep) == rest
  {
    var tail := Join(rest, sep);
    var s := x + sep + tail;
    FirstSeparator(x, sep, tail);
    assert s[|x| + |sep|..] == tail && s[..|x|] == x;
    var m := Index(s, sep);
    if m >= 0 {
      assert Split(s, sep)[0] == s[..m];
      assert Split(s, sep)[1..] == Split(s[m + |sep|..], sep);
      assert ([x] + rest)[1..] == rest;
    }
  }

  lemma SplittableStep(x: string, rest: seq<string>, sep: string)
    requires sep != "" && rest != []
    ensures Splittable([x] + rest, sep) <==> Index(x + sep, sep) == |x| && Splittable(rest, sep)
  {
    var xs := [x] + rest;
    assert xs[|xs| - 1] == rest[|rest| - 1];
    if Splittable(xs, sep) {
      assert xs[0] == x;
      assert forall i :: 0 <= i < |rest| ==> rest[i] == xs[i + 1];
    }
  }

  /** Splitting a join gives the list back exactly when the list is splittable. That no
      element contains the separator is not enough: see SelfOverlap. */
  lemma {:induction false} SplitOfJoin(xs: seq<string>, sep: string)
    ensures Split(Join(xs, sep), sep) == xs <==> Splittable(xs, sep)
    decreases |xs|
  {
    if sep == "" {
      var s := Join(xs, sep);
      if Splittable(xs, sep) { ConcatLength(xs); }
      if Split(s, sep) == xs {
        forall i | 0 <= i < |xs| ensures |xs[i]| == 1 { assert xs[i] == Explode(s)[i]; }
      }
    } else if |xs| > 1 {
      assert xs == [xs[0]] + xs[1..];
      SplitOfJoin(xs[1..], sep);
      SplitStep(xs[0], xs[1..], sep);
      SplittableStep(xs[0], xs[1..], sep);
    }
  }

  lemma {:induction false} SplitIsSplittable(s: string, sep: string)
    ensures Splittable(Split(s, sep), sep)
  {
    JoinOfSplit(s, sep);
    SplitOfJoin(Split(s, sep), sep);
  }

  /** A separator that overlaps itself: neither element contains it, yet it is found early. */
  lemma SelfOverlap()
    ensures Index("a", "aa") == -1 && Index("b", "aa") == -1
    ensures Split(Join(["a", "b"], "aa"), "aa") != ["a", "b"]
  {
    var s := "a" + "aa" + "b";
    assert ["a", "b"][1..] == ["b"];
    assert Join(["a", "b"], "aa") == s;
    assert s[0..2] == "aa";
    IndexIs(s, "aa", 0);
  }

  lemma {:induction false} JoinSnoc(xs: seq<string>, y: string, sep: string)
    requires xs != []
    ensures Join(xs + [y], sep) == Join(xs, sep) + sep + y
  {
    if |xs| > 1 {
      assert (xs + [y])[1..] == xs[1..] + [y];
      JoinSnoc(xs[1..], y, sep);
    }
  }

  lemma Assoc(a: string, b: string, c: string)
    ensures a + b + c == a + (b + c)
  {
  }

  lemma Regroup(a: string, b: string, c: string, d: string)
    ensures a + b + c + d == a + (b + c + d)
  {
  }
}
