/** The CORS interceptor (safehttp/plugins/cors/cors.go). */
module Cors {
  import opened Common
  import opened Canonical
  import opened GoStrings
  import opened HeaderModel

  const AC := "Access-Control-"
  const ALLOW := AC + "Allow-"
  const ALLOW_ORIGIN := ALLOW + "Origin"
  const ALLOW_CREDENTIALS := ALLOW + "Credentials"
  const ALLOW_METHODS := ALLOW + "Methods"
  const ALLOW_HEADERS := ALLOW + "Headers"
  const MAX_AGE := AC + "Max-Age"
  const EXPOSE_HEADERS := AC + "Expose-Headers"
  const VARY := "Vary"
  const REQUIRED_HEADER := "X-Cors"

  /** The headers this interceptor claims. */
  const ACCESS_CONTROL := {ALLOW_ORIGIN, ALLOW_CREDENTIALS, ALLOW_METHODS, ALLOW_HEADERS, MAX_AGE, EXPOSE_HEADERS}

  /** The parts of a request that matter, each header by its first value or "". */
  datatype Request = Request(
    httpMethod: string, origin: string, requestMethod: string, requestHeaders: string,
    xCors: string, contentType: string, cookie: string)

  /** How Before ended. Rejected and Answered wrote the response: an error, or NoContent. */
  datatype Decision = Rejected(status: nat) | Answered | Continue | Aborted

  function Itoa(n: int): string
    decreases if n < 0 then 1 - n else n
  {
    if n < 0 then "-" + Itoa(-n)
    else if n < 10 then [(n + '0' as int) as char]
    else Itoa(n / 10) + Itoa(n % 10)
  }

  /** The number that decimal digits after an optional minus stand for. */
  function Number(s: string): int {
    if s != "" && s[0] == '-' then -Digits(s[1..]) else Digits(s)
  }

  function Digits(s: string): int {
    if s == "" then 0 else 10 * Digits(s[..|s| - 1]) + (s[|s| - 1] as int - '0' as int)
  }

  lemma {:induction false} ItoaDigits(n: int)
    requires n >= 0
    ensures Digits(Itoa(n)) == n && Itoa(n) != "" && Itoa(n)[0] != '-'
    decreases n
  {
    if n >= 10 { ItoaDigits(n / 10); }
  }

  lemma ItoaReads(n: int)
    ensures Number(Itoa(n)) == n
  {
    ItoaDigits(if n < 0 then -n else n);
    if n < 0 { assert Itoa(n)[1..] == Itoa(-n); }
  }

  /** The comparison is with the whole header value: a parameter, a blank or a capital letter
      makes a banned type pass. See BannedAsDocumented. */
  predicate BannedType(ct: string) {
    ct == "application/x-www-form-urlencoded" || ct == "multipart/form-data" || ct == "text/plain"
  }

  // ----- Banned content types -----

  function StripBlanks(s: string): string {
    if s == "" then ""
    else if s[0] == ' ' || s[0] == '\t' then StripBlanks(s[1..])
    else if s[|s| - 1] == ' ' || s[|s| - 1] == '\t' then StripBlanks(s[..|s| - 1])
    else s
  }

  /** The media type of a Content-Type value: what stands before its parameters, without
      blanks and regardless of case (section 3.1.1.1 of RFC 7231). */
  function MediaType(ct: string): string {
    var i := Index(ct, ";");
    Fold(StripBlanks(if i == -1 then ct else ct[..i]))
  }

  ghost predicate Bare(s: string) {
    forall i :: 0 <= i < |s| ==> s[i] != ';' && s[i] != ' ' && s[i] != '\t' && !IsUpper(s[i])
  }

  lemma BareHasNoSemicolon(s: string, rest: string)
    requires Bare(s)
    ensures Index(s, ";") == -1 && Index(s + ";" + rest, ";") == |s|
  {
    var t := s + ";" + rest;
    forall j | 0 <= j < |s| ensures !At(t, ";", j) && !At(s, ";", j) {
      assert t[j] == s[j] && t[j..j + 1][0] == t[j] && s[j..j + 1][0] == s[j];
    }
    assert t[|s|..|s| + 1] == ";";
    IndexIs(t, ";", |s|);
  }

  lemma BareStays(s: string)
    requires Bare(s)
    ensures Fold(StripBlanks(s)) == s
  {
  }

  lemma BareMediaType(s: string, params: string)
    requires Bare(s)
    ensures MediaType(s) == s && MediaType(s + ";" + params) == s
  {
    BareHasNoSemicolon(s, params);
    BareStays(s);
    assert (s + ";" + params)[..|s|] == s;
  }

  lemma UrlencodedIsBare()
    ensures Bare("application/x-www-form-urlencoded")
  {
  }

  lemma MultipartIsBare()
    ensures Bare("multipart/form-data")
  {
  }

  lemma PlainIsBare()
    ensures Bare("text/plain")
  {
  }

  lemma BannedTypesAreBare(ct: string)
    requires BannedType(ct)
    ensures Bare(ct)
  {
    UrlencodedIsBare();
    MultipartIsBare();
    PlainIsBare();
  }

  /** The documentation bans three media types. A header value that names one of them is
      banned by the code exactly when it is spelled as the bare media type. */
  lemma BannedAsDocumented(ct: string)
    requires BannedType(MediaType(ct))
    ensures BannedType(ct) <==> ct == MediaType(ct)
  {
    if BannedType(ct) {
      BannedTypesAreBare(ct);
      BareMediaType(ct, "");
    }
  }

  // ----- Header names -----

  ghost predicate Canon(s: string) {
    IsToken(s) && Spelled(s, true)
  }

  lemma CanonJoin(a: string, b: string)
    requires Canon(a) && Canon(b) && a != "" && a[|a| - 1] == '-'
    ensures Canon(a + b)
  {
    var s := a + b;
    forall i | 0 <= i < |s| ensures RightCase(s, i, true) {
      if i < |a| { assert RightCase(a, i, true); } else { assert RightCase(b, i - |a|, true); }
    }
  }

  lemma PrefixIsCanon()
    ensures Canon(AC)
  {
  }

  lemma AllowIsCanon()
    ensures Canon("Allow-") && Canon("Origin")
  {
  }

  lemma WordsAreCanon()
    ensures Canon("Credentials") && Canon("Methods")
  {
  }

  lemma MoreWordsAreCanon()
    ensures Canon("Headers") && Canon("Max-Age")
  {
  }

  lemma LastWordsAreCanon()
    ensures Canon("Expose-Headers") && Canon(VARY)
  {
  }

  lemma NamesAreCanonical()
    ensures forall k :: k in ACCESS_CONTROL + {VARY} ==> CanonicalKey(k) == k
  {
    PrefixIsCanon();
    AllowIsCanon();
    WordsAreCanon();
    MoreWordsAreCanon();
    LastWordsAreCanon();
    CanonJoin(AC, "Allow-");
    CanonJoin(ALLOW, "Origin");
    CanonJoin(ALLOW, "Credentials");
    CanonJoin(ALLOW, "Methods");
    CanonJoin(ALLOW, "Headers");
    CanonJoin(AC, "Max-Age");
    CanonJoin(AC, "Expose-Headers");
    forall k | k in ACCESS_CONTROL + {VARY} ensures CanonicalKey(k) == k {
      SpelledIsFixed(k, true);
    }
  }

  lemma HeaderNames()
    ensures ALLOW_ORIGIN == "Access-Control-Allow-Origin" && ALLOW_CREDENTIALS == "Access-Control-Allow-Credentials"
    ensures ALLOW_METHODS == "Access-Control-Allow-Methods" && ALLOW_HEADERS == "Access-Control-Allow-Headers"
    ensures MAX_AGE == "Access-Control-Max-Age" && EXPOSE_HEADERS == "Access-Control-Expose-Headers" && VARY == "Vary"
  {
  }

  lemma FirstNamesAreCanonical()
    ensures CanonicalKey(ALLOW_ORIGIN) == ALLOW_ORIGIN && CanonicalKey(ALLOW_CREDENTIALS) == ALLOW_CREDENTIALS
    ensures CanonicalKey(VARY) == VARY
  {
    NamesAreCanonical();
  }

  lemma NamesDiffer()
    ensures |ACCESS_CONTROL| == 6 && VARY !in ACCESS_CONTROL && SET_COOKIE !in ACCESS_CONTROL && VARY != SET_COOKIE
    ensures ALLOW_METHODS != ALLOW_HEADERS && ALLOW_METHODS != MAX_AGE && ALLOW_HEADERS != MAX_AGE
    ensures ALLOW_ORIGIN !in {ALLOW_CREDENTIALS, ALLOW_METHODS, ALLOW_HEADERS, MAX_AGE, EXPOSE_HEADERS}
    ensures ALLOW_CREDENTIALS !in {ALLOW_METHODS, ALLOW_HEADERS, MAX_AGE, EXPOSE_HEADERS}
    ensures EXPOSE_HEADERS !in {ALLOW_METHODS, ALLOW_HEADERS, MAX_AGE}
  {
    assert |AC| == 15 && |ALLOW| == 21;
    assert |ALLOW_ORIGIN| == 27 && |ALLOW_CREDENTIALS| == 32 && |ALLOW_METHODS| == 28 && |ALLOW_HEADERS| == 28;
    assert |MAX_AGE| == 22 && |EXPOSE_HEADERS| == 29 && |VARY| == 4 && |SET_COOKIE| == 10;
    assert ALLOW_METHODS[21] == 'M' && ALLOW_HEADERS[21] == 'H';
    assert ACCESS_CONTROL - {ALLOW_ORIGIN} - {ALLOW_CREDENTIALS} - {ALLOW_METHODS} - {ALLOW_HEADERS} - {MAX_AGE} == {EXPOSE_HEADERS};
  }

  /** None of the headers is there or claimed. */
  ghost predicate Untouched(h: Headers) {
    forall k :: k in ACCESS_CONTROL ==> k !in h.wrapped && k !in h.claimed
  }

  function First(vs: seq<string>): string {
    if vs == [] then "" else vs[0]
  }

  class Interceptor {
    var allowedOrigins: set<string>
    var exposedHeaders: Option<seq<string>>
    var allowCredentials: bool
    var maxAge: int
    var allowedHeaders: set<string>

    constructor Default(origins: seq<string>)
      ensures forall o :: o in allowedOrigins <==> o in origins
      ensures exposedHeaders == None && !allowCredentials && maxAge == 0 && allowedHeaders == {}
    {
      allowedOrigins := set o | o in origins;
      exposedHeaders, allowCredentials, maxAge, allowedHeaders := None, false, 0, {};
    }

    /** The wildcard is skipped; other names are kept in canonical form. */
    method SetAllowedHeaders(headers: seq<string>)
      modifies this`allowedHeaders
      ensures forall k :: k in allowedHeaders <==> Listed(headers, k)
    {
      allowedHeaders := {};
      for i := 0 to |headers|
        invariant forall k :: k in allowedHeaders <==> Listed(headers[..i], k)
      {
        ListedNext(headers, i);
        if headers[i] == "*" {
          continue;
        }
        allowedHeaders := allowedHeaders + {CanonicalKey(headers[i])};
      }
      assert headers[..|headers|] == headers;
    }

    // ----- Who is admitted -----

    predicate OriginListed(r: Request)
      reads this
    {
      r.origin == "" || r.origin in allowedOrigins
    }

    predicate HeaderAllowed(part: string)
      reads this
    {
      CanonicalKey(part) in allowedHeaders || CanonicalKey(part) == REQUIRED_HEADER
    }

    /** A preflight asks from an origin for a method other than HEAD and for allowed headers. */
    ghost predicate PreflightAdmitted(r: Request)
      reads this
    {
      && r.origin != "" && r.requestMethod != "" && r.requestMethod != "HEAD"
      && (r.requestHeaders != "" ==>
            forall i :: 0 <= i < |Split(r.requestHeaders, ", ")| ==> HeaderAllowed(Split(r.requestHeaders, ", ")[i]))
    }

    predicate OrdinaryAdmitted(r: Request) {
      r.xCors == "1" && r.contentType != "" && !BannedType(r.contentType)
    }

    ghost predicate Admitted(r: Request)
      reads this
    {
      && OriginListed(r)
      && (if r.httpMethod == "OPTIONS" then PreflightAdmitted(r) else r.httpMethod != "HEAD" && OrdinaryAdmitted(r))
    }

    // ----- What an admitted request is granted -----

    function MaxAgeText(): string
      reads this
    {
      Itoa(if maxAge == 0 then 5 else maxAge)
    }

    function ForPreflight(key: string, r: Request): Option<seq<string>>
      reads this
    {
      if key == ALLOW_METHODS then Some([r.requestMethod])
      else if key == ALLOW_HEADERS && r.requestHeaders != "" then Some([r.requestHeaders])
      else if key == MAX_AGE then Some([MaxAgeText()])
      else None
    }

    function ForOrdinary(key: string): Option<seq<string>>
      reads this
    {
      if key == EXPOSE_HEADERS && exposedHeaders.Some? then Some([Join(exposedHeaders.value, ", ")]) else None
    }

    /** The headers claimed on top of the two that every request claims. */
    function Needed(r: Request): set<string> {
      if r.httpMethod == "OPTIONS" then {ALLOW_METHODS, ALLOW_HEADERS, MAX_AGE} else {EXPOSE_HEADERS}
    }

    /** The value a response to an admitted request has for one Access-Control header. */
    function Granted(key: string, r: Request): Option<seq<string>>
      reads this
    {
      if key == ALLOW_ORIGIN then (if r.origin != "" then Some([r.origin]) else None)
      else if key == ALLOW_CREDENTIALS then (if r.cookie != "" && allowCredentials then Some(["true"]) else None)
      else if r.httpMethod == "OPTIONS" then ForPreflight(key, r)
      else ForOrdinary(key)
    }

    function GivenPreflight(h: Headers, r: Request): Headers
      reads this
    {
      Given(Given(Given(h, ALLOW_METHODS, ForPreflight(ALLOW_METHODS, r)), ALLOW_HEADERS, ForPreflight(ALLOW_HEADERS, r)),
            MAX_AGE, ForPreflight(MAX_AGE, r))
    }

    // ----- The code -----

    method PartsAllowed(parts: seq<string>) returns (allowed: bool)
      ensures allowed <==> forall i :: 0 <= i < |parts| ==> HeaderAllowed(parts[i])
    {
      for i := 0 to |parts|
        invariant forall j :: 0 <= j < i ==> HeaderAllowed(parts[j])
      {
        if !HeaderAllowed(parts[i]) {
          return false;
        }
      }
      allowed := true;
    }

    method Preflight(h: Header, r: Request) returns (status: nat, outcome: Outcome)
      modifies h, h.wrapped
      ensures old(h.claimed) <= h.claimed
      ensures !PreflightAdmitted(r) ==> status == 403 && outcome.Ok? && h.Model() == old(h.Model())
      ensures PreflightAdmitted(r) ==> status == 204
      ensures PreflightAdmitted(r) ==>
                if AllWritable(old(h.Model()), {ALLOW_METHODS, ALLOW_HEADERS, MAX_AGE})
                then outcome.Ok? && h.Model() == GivenPreflight(old(h.Model()), r)
                else outcome.Panicked? && h.wrapped.m == old(h.wrapped.m)
    {
      if r.origin == "" || r.requestMethod == "" || r.requestMethod == "HEAD" {
        return 403, Ok;
      }
      if r.requestHeaders != "" {
        var allowed := PartsAllowed(Split(r.requestHeaders, ", "));
        if !allowed {
          return 403, Ok;
        }
      }
      status := 204;
      NamesAreCanonical();
      NamesDiffer();
      outcome := GiveThree(h, ALLOW_METHODS, Some([r.requestMethod]),
                           ALLOW_HEADERS, if r.requestHeaders != "" then Some([r.requestHeaders]) else None,
                           MAX_AGE, Some([MaxAgeText()]));
    }

    /** Claims three headers, then sets them; None leaves one unset. */
    method GiveThree(h: Header, k1: string, v1: Option<seq<string>>, k2: string, v2: Option<seq<string>>,
                     k3: string, v3: Option<seq<string>>) returns (outcome: Outcome)
      requires CanonicalKey(k1) == k1 && CanonicalKey(k2) == k2 && CanonicalKey(k3) == k3
      requires k1 != k2 && k1 != k3 && k2 != k3
      modifies h, h.wrapped
      ensures old(h.claimed) <= h.claimed
      ensures if AllWritable(old(h.Model()), {k1, k2, k3})
              then outcome.Ok? && h.Model() == Given(Given(Given(old(h.Model()), k1, v1), k2, v2), k3, v3)
              else outcome.Panicked? && h.wrapped.m == old(h.wrapped.m)
    {
      var set1, set2, set3;
      outcome, set1 := h.Claim(k1);
      if outcome.Panicked? { return; }
      outcome, set2 := h.Claim(k2);
      if outcome.Panicked? { return; }
      outcome, set3 := h.Claim(k3);
      if outcome.Panicked? { return; }
      h.CallSetter(set1, v1);
      h.CallSetter(set2, v2);
      h.CallSetter(set3, v3);
    }

    method Ordinary(h: Header, r: Request) returns (status: nat, outcome: Outcome)
      modifies h, h.wrapped
      ensures old(h.claimed) <= h.claimed
      ensures OrdinaryAdmitted(r) <==> status == 0
      ensures !OrdinaryAdmitted(r) ==>
                status == (if r.xCors != "1" then 412 else 415) && outcome.Ok? && h.Model() == old(h.Model())
      ensures OrdinaryAdmitted(r) ==>
                if old(h.Model()).Writable(EXPOSE_HEADERS)
                then outcome.Ok? && h.Model() == Given(old(h.Model()), EXPOSE_HEADERS, ForOrdinary(EXPOSE_HEADERS))
                else outcome.Panicked? && h.wrapped.m == old(h.wrapped.m)
    {
      if r.xCors != "1" {
        return 412, Ok;
      }
      if r.contentType == "" || BannedType(r.contentType) {
        return 415, Ok;
      }
      status := 0;
      NamesAreCanonical();
      var expose;
      outcome, expose := h.Claim(EXPOSE_HEADERS);
      if outcome.Ok? && exposedHeaders.Some? {
        h.CallSetter(expose, Some([Join(exposedHeaders.value, ", ")]));
      }
    }

    method AppendToVary(h: Header, val: string) returns (outcome: Outcome)
      modifies h.wrapped
      ensures outcome.Ok? <==> old(h.Model()).Writable(VARY)
      ensures outcome.Panicked? ==> h.Model() == old(h.Model())
      ensures outcome.Ok? ==>
                var m := old(h.Model());
                h.Model() == m.(wrapped := m.wrapped[VARY := [WithVary(First(m.Values(VARY)), val)]])
    {
      NamesAreCanonical();
      var curr := First(h.Model().Values(VARY));
      if curr != "" {
        outcome := h.Set(VARY, curr + ", " + val);
      } else {
        outcome := h.Set(VARY, val);
      }
    }

    /** The status a request is turned away with; 0 and 204 let it through. */
    ghost function Status(r: Request): nat
      reads this
    {
      if r.httpMethod == "OPTIONS" then (if PreflightAdmitted(r) then 204 else 403)
      else if r.httpMethod == "HEAD" then 405
      else if OrdinaryAdmitted(r) then 0
      else if r.xCors != "1" then 412 else 415
    }

    /** Documented: each of the three media types results in 415. That holds for a request
        other than a preflight exactly when the value is the bare media type. */
    lemma BannedResultsIn415(r: Request)
      requires r.httpMethod != "OPTIONS" && r.httpMethod != "HEAD" && r.xCors == "1"
      requires BannedType(MediaType(r.contentType))
      ensures Status(r) == 415 <==> r.contentType == MediaType(r.contentType)
      ensures Status(r) == 0 <==> r.contentType != MediaType(r.contentType)
    {
      BannedAsDocumented(r.contentType);
    }

    /** A banned type with parameters, "text/plain; charset=utf-8" for one, passes. */
    lemma ParametersPass(r: Request, banned: string, params: string)
      requires r.httpMethod != "OPTIONS" && r.httpMethod != "HEAD" && r.xCors == "1"
      requires BannedType(banned) && r.contentType == banned + ";" + params
      ensures BannedType(MediaType(r.contentType)) && Status(r) == 0
    {
      BannedTypesAreBare(banned);
      BareMediaType(banned, params);
      BannedResultsIn415(r);
    }

    /** Before, whatever headers are there or claimed: a request that is turned away, and one
        whose claims fail, gives no header a value; an admitted one gets exactly the granted
        values, and Origin in Vary if it named one. */
    method Before(h: Header, r: Request) returns (d: Decision)
      modifies h, h.wrapped
      ensures d == Decide(old(h.Model()), r)
      ensures if d.Rejected? || d.Aborted? then h.wrapped.m == old(h.wrapped.m)
              else Answers(old(h.Model()), h.Model(), r)
    {
      ghost var before := h.Model();
      if r.origin != "" && r.origin !in allowedOrigins {
        return Rejected(403);
      }
      FirstNamesAreCanonical();
      ClaimsApart(before, r);
      var outcome, allowOrigin, credentials;
      outcome, allowOrigin := h.Claim(ALLOW_ORIGIN);
      if outcome.Panicked? {
        return Aborted;
      }
      if h.IsClaimed(VARY) {
        return Rejected(500);
      }
      outcome, credentials := h.Claim(ALLOW_CREDENTIALS);
      if outcome.Panicked? {
        return Aborted;
      }
      ghost var claimed := h.Model();
      d := Answer(h, r, allowOrigin, credentials);
      if !d.Rejected? && !d.Aborted? { GrantedAnswers(before, claimed, h.Model(), r); }
    }

    /** Claiming the first two headers changes nothing about the rest. */
    lemma ClaimsApart(h: Headers, r: Request)
      ensures
        var h1 := h.(claimed := h.claimed + {ALLOW_ORIGIN});
        var h2 := h1.(claimed := h1.claimed + {ALLOW_CREDENTIALS});
        && (h1.Writable(ALLOW_CREDENTIALS) <==> h.Writable(ALLOW_CREDENTIALS))
        && (h1.Writable(VARY) <==> h.Writable(VARY)) && (h2.Writable(VARY) <==> h.Writable(VARY))
        && Rest(h2, r) == Rest(h, r)
    {
      NamesDiffer();
      var h2 := h.(claimed := h.claimed + {ALLOW_ORIGIN} + {ALLOW_CREDENTIALS});
      assert forall k :: k in Needed(r) ==> (h2.Writable(k) <==> h.Writable(k));
    }

    /** The rest of Before, once the two headers are claimed. */
    method Answer(h: Header, r: Request, allowOrigin: string, credentials: string) returns (d: Decision)
      requires allowOrigin in h.claimed && credentials in h.claimed && h.Model().Writable(VARY)
      modifies h, h.wrapped
      ensures d == Rest(old(h.Model()), r)
      ensures if d.Rejected? || d.Aborted? then h.wrapped.m == old(h.wrapped.m)
              else h.Model() == WithOrigin(GivenByMethod(old(h.Model()), r), r, allowOrigin, credentials)
    {
      ghost var start := h.Model();
      var status, outcome := ByMethod(h, r);
      if outcome.Panicked? { return Aborted; }
      if status != 0 && status != 204 {
        return Rejected(status);
      }
      VaryStaysWritable(start, r);
      outcome := GiveOrigin(h, r, allowOrigin, credentials);
      d := if status == 204 then Answered else Continue;
    }

    lemma VaryStaysWritable(h: Headers, r: Request)
      ensures GivenByMethod(h, r).Writable(VARY) <==> h.Writable(VARY)
      ensures h.claimed <= GivenByMethod(h, r).claimed
    {
      NamesDiffer();
    }

    method ByMethod(h: Header, r: Request) returns (status: nat, outcome: Outcome)
      modifies h, h.wrapped
      ensures old(h.claimed) <= h.claimed
      ensures status == Status(r)
      ensures if status != 0 && status != 204 then outcome.Ok? && h.Model() == old(h.Model())
              else if AllWritable(old(h.Model()), Needed(r)) then outcome.Ok? && h.Model() == GivenByMethod(old(h.Model()), r)
              else outcome.Panicked? && h.wrapped.m == old(h.wrapped.m)
    {
      status, outcome := 405, Ok;
      if r.httpMethod == "OPTIONS" {
        status, outcome := Preflight(h, r);
      } else if r.httpMethod != "HEAD" {
        status, outcome := Ordinary(h, r);
      }
    }

    function GivenByMethod(h: Headers, r: Request): Headers
      reads this
    {
      if r.httpMethod == "OPTIONS" then GivenPreflight(h, r) else Given(h, EXPOSE_HEADERS, ForOrdinary(EXPOSE_HEADERS))
    }

    /** The decision once the origin is listed and the first claims have succeeded. */
    ghost function Rest(h: Headers, r: Request): Decision
      reads this
    {
      if Status(r) != 0 && Status(r) != 204 then Rejected(Status(r))
      else if !AllWritable(h, Needed(r)) then Aborted
      else if Status(r) == 204 then Answered else Continue
    }

    ghost function Decide(h: Headers, r: Request): Decision
      reads this
    {
      if !OriginListed(r) then Rejected(403)
      else if !h.Writable(ALLOW_ORIGIN) then Aborted
      else if !h.Writable(VARY) then Rejected(500)
      else if !h.Writable(ALLOW_CREDENTIALS) then Aborted
      else Rest(h, r)
    }

    /** A request is let through exactly when it is admitted, Vary is not claimed and all
        the headers to be claimed can be. */
    lemma LetThrough(h: Headers, r: Request)
      ensures Decide(h, r).Answered? || Decide(h, r).Continue? <==>
              Admitted(r) && h.Writable(VARY) && AllWritable(h, {ALLOW_ORIGIN, ALLOW_CREDENTIALS} + Needed(r))
      ensures Decide(h, r).Answered? ==> r.httpMethod == "OPTIONS"
    {
      assert "OPTIONS"[0] == 'O' && "HEAD"[0] == 'H';
    }

    lemma PreflightNeverContinues(h: Headers, r: Request)
      ensures r.httpMethod == "OPTIONS" ==> !Decide(h, r).Continue?
    {
    }

    // ----- The same in the source's terms, without the predicates above -----

    /** Some requested header is neither allowed nor X-Cors. */
    ghost predicate AsksForOther(r: Request)
      reads this
    {
      var parts := Split(r.requestHeaders, ", ");
      && r.requestHeaders != ""
      && exists i :: 0 <= i < |parts| && CanonicalKey(parts[i]) !in allowedHeaders && CanonicalKey(parts[i]) != "X-Cors"
    }

    /** Who is turned away, with which status, and who is let through. */
    lemma DecidesThus(h: Headers, r: Request)
      ensures
        var d := Decide(h, r);
        var free := (k: string) => k != "Set-Cookie" && k !in h.claimed;
        if r.origin != "" && r.origin !in allowedOrigins then d == Rejected(403)
        else if !free(ALLOW_ORIGIN) then d == Aborted
        else if !free(VARY) then d == Rejected(500)
        else if !free(ALLOW_CREDENTIALS) then d == Aborted
        else if r.httpMethod == "OPTIONS" then
          if r.origin == "" || r.requestMethod == "" || r.requestMethod == "HEAD" || AsksForOther(r) then d == Rejected(403)
          else d == if free(ALLOW_METHODS) && free(ALLOW_HEADERS) && free(MAX_AGE) then Answered else Aborted
        else if r.httpMethod == "HEAD" then d == Rejected(405)
        else if r.xCors != "1" then d == Rejected(412)
        else if r.contentType in ["", "application/x-www-form-urlencoded", "multipart/form-data", "text/plain"] then
          d == Rejected(415)
        else d == if free(EXPOSE_HEADERS) then Continue else Aborted
    {
      PreflightThus(r);
    }

    lemma PreflightThus(r: Request)
      ensures PreflightAdmitted(r) <==>
              r.origin != "" && r.requestMethod != "" && r.requestMethod != "HEAD" && !AsksForOther(r)
    {
      if r.requestHeaders != "" {
        var parts := Split(r.requestHeaders, ", ");
        assert forall i :: 0 <= i < |parts| ==>
            (HeaderAllowed(parts[i]) <==> CanonicalKey(parts[i]) in allowedHeaders || CanonicalKey(parts[i]) == "X-Cors");
      }
    }

    /** After SetAllowedHeaders(headers) a preflight may ask for X-Cors and for names that
        share their canonical form with one of the headers other than the wildcard. */
    lemma AllowedAfterSetting(headers: seq<string>, r: Request)
      requires forall k :: k in allowedHeaders <==> Listed(headers, k)
      ensures PreflightAdmitted(r) <==>
              && r.origin != "" && r.requestMethod != "" && r.requestMethod != "HEAD"
              && (r.requestHeaders == "" || AllListed(headers, Split(r.requestHeaders, ", ")))
    {
      PreflightThus(r);
      var parts := Split(r.requestHeaders, ", ");
      if r.requestHeaders != "" && !AllListed(headers, parts) {
        var i :| 0 <= i < |parts| && CanonicalKey(parts[i]) != "X-Cors" && !Listed(headers, CanonicalKey(parts[i]));
        assert CanonicalKey(parts[i]) !in allowedHeaders;
      }
    }

    /** The values that a request let through is answered with. */
    lemma AnswersThus(before: Headers, after: Headers, r: Request)
      requires Answers(before, after, r)
      ensures after.Lookup(ALLOW_ORIGIN) == if r.origin != "" then Some([r.origin]) else before.Lookup(ALLOW_ORIGIN)
      ensures after.Lookup(ALLOW_CREDENTIALS) ==
              if r.cookie != "" && allowCredentials then Some(["true"]) else before.Lookup(ALLOW_CREDENTIALS)
      ensures r.httpMethod == "OPTIONS" ==>
                && after.Lookup(ALLOW_METHODS) == Some([r.requestMethod])
                && (r.requestHeaders != "" ==> after.Lookup(ALLOW_HEADERS) == Some([r.requestHeaders]))
                && (r.requestHeaders == "" ==> after.Lookup(ALLOW_HEADERS) == before.Lookup(ALLOW_HEADERS))
                && after.Lookup(MAX_AGE) == Some([Itoa(if maxAge == 0 then 5 else maxAge)])
                && after.Lookup(EXPOSE_HEADERS) == before.Lookup(EXPOSE_HEADERS)
      ensures r.httpMethod != "OPTIONS" ==>
                && (exposedHeaders.Some? ==> after.Lookup(EXPOSE_HEADERS) == Some([Join(exposedHeaders.value, ", ")]))
                && (exposedHeaders.None? ==> after.Lookup(EXPOSE_HEADERS) == before.Lookup(EXPOSE_HEADERS))
                && (forall k :: k in [ALLOW_METHODS, ALLOW_HEADERS, MAX_AGE] ==> after.Lookup(k) == before.Lookup(k))
      ensures
        var vary := before.Values(VARY);
        after.Lookup(VARY) ==
        if r.origin == "" then before.Lookup(VARY)
        else Some([if vary == [] || vary[0] == "" then "Origin" else vary[0] + ", " + "Origin"])
    {
      NamesDiffer();
    }

    /** With the Access-Control headers not there and not claimed, an admitted request has
        exactly the granted ones. */
    lemma GrantedOnly(before: Headers, after: Headers, r: Request, k: string)
      requires Untouched(before) && Answers(before, after, r) && k in ACCESS_CONTROL
      ensures after.Lookup(k) == Granted(k, r)
      ensures Admitted(r) && before.Writable(VARY) <==> Decide(before, r).Answered? || Decide(before, r).Continue?
    {
      LetThrough(before, r);
      NamesDiffer();
    }

    /** What the request's own claims give a header, if anything. */
    function ByMethodGives(k: string, r: Request): Option<seq<string>>
      reads this
    {
      if r.httpMethod == "OPTIONS" then ForPreflight(k, r) else ForOrdinary(k)
    }

    lemma MethodGives(h: Headers, r: Request, k: string)
      ensures GivenByMethod(h, r).Lookup(k) == if ByMethodGives(k, r).Some? then ByMethodGives(k, r) else h.Lookup(k)
    {
      NamesDiffer();
      GivenThree(h, k, ALLOW_METHODS, ForPreflight(ALLOW_METHODS, r), ALLOW_HEADERS, ForPreflight(ALLOW_HEADERS, r),
                 MAX_AGE, ForPreflight(MAX_AGE, r));
    }

    lemma GrantedAnswers(before: Headers, claimed: Headers, after: Headers, r: Request)
      requires claimed.wrapped == before.wrapped
      requires after == WithOrigin(GivenByMethod(claimed, r), r, ALLOW_ORIGIN, ALLOW_CREDENTIALS)
      ensures Answers(before, after, r)
    {
      var mid := GivenByMethod(claimed, r);
      forall k: string
        ensures mid.Lookup(k) == if ByMethodGives(k, r).Some? then ByMethodGives(k, r) else before.Lookup(k)
      {
        MethodGives(claimed, r, k);
      }
      OriginAnswers(before, mid, after, r);
    }

    lemma OriginAnswers(before: Headers, mid: Headers, after: Headers, r: Request)
      requires after == WithOrigin(mid, r, ALLOW_ORIGIN, ALLOW_CREDENTIALS)
      requires forall k: string ::
                 mid.Lookup(k) == if ByMethodGives(k, r).Some? then ByMethodGives(k, r) else before.Lookup(k)
      ensures Answers(before, after, r)
    {
      NamesDiffer();
      assert mid.Lookup(VARY) == before.Lookup(VARY);
      forall k | k in ACCESS_CONTROL
        ensures after.Lookup(k) == if Granted(k, r).Some? then Granted(k, r) else before.Lookup(k)
      {
        assert after.Lookup(k) ==
               if (k == ALLOW_ORIGIN || k == ALLOW_CREDENTIALS) && Granted(k, r).Some? then Granted(k, r) else mid.Lookup(k);
      }
    }

    method GiveOrigin(h: Header, r: Request, allowOrigin: string, credentials: string) returns (outcome: Outcome)
      requires allowOrigin in h.claimed && credentials in h.claimed
      modifies h.wrapped
      ensures old(h.Model()).Writable(VARY) ==> outcome.Ok?
      ensures outcome.Ok? ==> h.Model() == WithOrigin(old(h.Model()), r, allowOrigin, credentials)
    {
      outcome := Ok;
      if r.origin != "" {
        h.CallSetter(allowOrigin, Some([r.origin]));
        outcome := AppendToVary(h, "Origin");
        if outcome.Panicked? { return; }
      }
      if r.cookie != "" && allowCredentials {
        h.CallSetter(credentials, Some(["true"]));
      }
    }

    function WithOrigin(h: Headers, r: Request, allowOrigin: string, credentials: string): Headers
      reads this
    {
      var m1 := if r.origin == "" then h.wrapped
                else var m := h.wrapped[allowOrigin := [r.origin]];
                  m[VARY := [WithVary(First(ValuesOf(m, VARY)), "Origin")]];
      h.(wrapped := if r.cookie != "" && allowCredentials then m1[credentials := ["true"]] else m1)
    }

    /** Every header of the response, given what it was. */
    ghost predicate Answers(before: Headers, after: Headers, r: Request)
      reads this
    {
      && (forall k :: k in ACCESS_CONTROL ==>
            after.Lookup(k) == if Granted(k, r).Some? then Granted(k, r) else before.Lookup(k))
      && after.Lookup(VARY) == (if r.origin == "" then before.Lookup(VARY)
                                else Some([WithVary(First(before.Values(VARY)), "Origin")]))
      && (forall k :: k !in ACCESS_CONTROL && k != VARY ==> after.Lookup(k) == before.Lookup(k))
    }
  }

  /** A header other than the wildcard has this canonical form. */
  ghost predicate Listed(headers: seq<string>, k: string) {
    exists j :: 0 <= j < |headers| && headers[j] != "*" && CanonicalKey(headers[j]) == k
  }

  ghost predicate AllListed(headers: seq<string>, parts: seq<string>) {
    forall i :: 0 <= i < |parts| ==> CanonicalKey(parts[i]) == "X-Cors" || Listed(headers, CanonicalKey(parts[i]))
  }

  lemma ListedNext(headers: seq<string>, i: nat)
    requires i < |headers|
    ensures forall k :: Listed(headers[..i + 1], k) <==>
              Listed(headers[..i], k) || (headers[i] != "*" && CanonicalKey(headers[i]) == k)
  {
    assert headers[..i + 1] == headers[..i] + [headers[i]];
    forall k | Listed(headers[..i], k) ensures Listed(headers[..i + 1], k) {
      var j :| 0 <= j < i && headers[..i][j] != "*" && CanonicalKey(headers[..i][j]) == k;
      assert headers[..i + 1][j] == headers[..i][j];
    }
    assert headers[..i + 1][i] == headers[i];
  }

  /** Only the first Vary value is kept. */
  function WithVary(curr: string, val: string): string {
    if curr != "" then curr + ", " + val else val
  }

  lemma GivenThree(h: Headers, k: string, k1: string, v1: Option<seq<string>>, k2: string, v2: Option<seq<string>>,
                   k3: string, v3: Option<seq<string>>)
    requires k1 != k2 && k1 != k3 && k2 != k3
    ensures
      Given(Given(Given(h, k1, v1), k2, v2), k3, v3).Lookup(k) ==
      if k == k1 && v1.Some? then v1 else if k == k2 && v2.Some? then v2 else if k == k3 && v3.Some? then v3
      else h.Lookup(k)
  {
  }

  ghost predicate AllWritable(h: Headers, keys: set<string>) {
    forall k :: k in keys ==> h.Writable(k)
  }

  /** The headers after key was claimed and, for Some, set. */
  function Given(h: Headers, key: string, v: Option<seq<string>>): Headers {
    Headers(if v.Some? then h.wrapped[key := v.value] else h.wrapped, h.claimed + {key})
  }
}
