/** Joining and splitting trusted SQL strings (safesql/safesql.go). */
module SafeSql {
  import opened GoStrings

  datatype TrustedSQLString = TrustedSQLString(s: string)

  /** The plain strings inside. */
  function Plain(ss: seq<TrustedSQLString>): seq<string> {
    seq(|ss|, i requires 0 <= i < |ss| => ss[i].s)
  }

  method TrustedSQLStringJoin(ss: seq<TrustedSQLString>, sep: TrustedSQLString) returns (r: TrustedSQLString)
    ensures r.s == Join(Plain(ss), sep.s)
    ensures Split(r.s, sep.s) == Plain(ss) <==> Splittable(Plain(ss), sep.s)
  {
    var accum: seq<string> := [];
    for i := 0 to |ss|
      invariant accum == Plain(ss[..i])
    {
      accum := accum + [ss[i].s];
    }
    assert ss[..|ss|] == ss;
    SplitOfJoin(Plain(ss), sep.s);
    r := TrustedSQLString(Join(accum, sep.s));
  }

  method TrustedSQLStringConcat(ss: seq<TrustedSQLString>) returns (r: TrustedSQLString)
    ensures r.s == Join(Plain(ss), "")
  {
    r := TrustedSQLStringJoin(ss, TrustedSQLString(""));
  }

  method TrustedSQLStringSplit(s: TrustedSQLString, sep: TrustedSQLString) returns (accum: seq<TrustedSQLString>)
    ensures Plain(accum) == Split(s.s, sep.s)
    ensures Join(Plain(accum), sep.s) == s.s
    ensures Splittable(Plain(accum), sep.s)
  {
    var spl := Split(s.s, sep.s);
    accum := [];
    for i := 0 to |spl|
      invariant Plain(accum) == spl[..i]
    {
      accum := accum + [TrustedSQLString(spl[i])];
    }
    assert spl[..|spl|] == spl;
    JoinOfSplit(s.s, sep.s);
    SplitIsSplittable(s.s, sep.s);
  }

  /** The two functions are inverse to each other: on every string in one direction, and
      on exactly the splittable lists in the other. */
  method RoundTrips(s: TrustedSQLString, ss: seq<TrustedSQLString>, sep: TrustedSQLString)
    returns (joined: TrustedSQLString, split: seq<TrustedSQLString>)
    ensures joined == s
    ensures split == ss <==> Splittable(Plain(ss), sep.s)
  {
    var parts := TrustedSQLStringSplit(s, sep);
    joined := TrustedSQLStringJoin(parts, sep);
    var whole := TrustedSQLStringJoin(ss, sep);
    split := TrustedSQLStringSplit(whole, sep);
    PlainInjective(split, ss);
  }

  lemma PlainInjective(a: seq<TrustedSQLString>, b: seq<TrustedSQLString>)
    ensures Plain(a) == Plain(b) <==> a == b
  {
    if Plain(a) == Plain(b) {
      assert |a| == |Plain(a)| == |b|;
      forall i | 0 <= i < |a| ensures a[i] == b[i] {
        assert Plain(a)[i] == Plain(b)[i];
      }
    }
  }
}
