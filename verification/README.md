# Verified model of the go-safeweb request framework

This project models the parts of go-safeweb that decide what a response may contain and who may
change it, and proves properties of every run of that code:

- **the request flight** (`Flight.dfy`, `FlightTheorems.dfy`, `FlightInvariants.dfy`, `FlightTrace.dfy`,
  `TraceTheorems.dfy`, `FlightOutlook.dfy`, `FlightObject.dfy`): `Before` methods forwards, the handler, the first write
  with its `Commit` methods backwards and one dispatcher call, the panic that wipes the headers.
  Interceptors and handlers are arbitrary code: what one call does is a finite list of actions (header
  operations, flight values, template functions, calls to the outside, writes, panics, and stretches
  whose panics the code itself recovers), chosen freely from the flight the call starts in. The log of
  a flight holds the calls the framework makes; its trace holds every step, and redoing the trace is
  proved to be the whole flight.
- **claimed headers** (`Canonical.dfy`, `Header.dfy`): the only way to change a claimed header is the
  setter that `Claim` returned; Set-Cookie is append-only; names are compared in canonical form.
- **the CSP plugin as a client of the flight** (`CspPolicy.dfy`, `CspSerialize.dfy`, `CspPlugin.dfy`,
  `CspTheorems.dfy`, `CspCommits.dfy`, `CspEndToEnd.dfy`): any number of CSP interceptors between
  other interceptors share one nonce and two claimed headers. `CspPolicy.dfy` is the parser of
  sections 2.2.1 and 2.2.2 of Content Security Policy Level 3, and the end-to-end theorem says what
  that parser reads out of any response that leaves a flight.
- **the template rewriter** (`HtmlInject.dfy`): the tag-indexed, early-exit rewriter against a flat
  scan of all rules; the output is the input with text inserted.
- **sessions** (`Sessions.dfy`, `Auth.dfy`, `AuthTrace.dfy`, `AuthConcurrency.dfy`,
  `AuthExample.dfy`): two tables that
  must stay inverse to each other, what one flight with the auth interceptor does to them, and all
  interleavings of the steps of any number of such flights.
- **the file server adapter** (`FileServer.dfy`), **building a mux** under Go's slice semantics
  (`MuxConfig.dfy`), **registering and choosing handlers** (`Mux.dfy`), **CORS admission**
  (`Cors.dfy`, `CorsFlight.dfy`), **the banned API index** (`BanCheck.dfy`), **trusted SQL join and split**
  (`GoStrings.dfy`, `SafeSql.dfy`) and **prefix stripping** (`StripPrefix.dfy`).

Objects that the Go code updates in place are classes here. Each of their methods is proved to do to
the state what a function says, and the theorems about whole runs are about those functions.

`dafny verify dfyconfig.toml` checks the whole project.

## Where the code differs from its documentation

The model follows the code. Five documented promises fail; for each there is an input that shows it
and a theorem that says exactly when the promise is kept.

- `safehttp/mux.go:88-89` says that `Commit` runs for interceptors whose `Before` was called. That
  holds for a flight if and only if no interceptor but the last writes in its `Before`
  (`FlightTheorems.CommitsHadTheirBefore`; `FlightTheorems.CommitWithoutBefore` breaks it).
- `safehttp/flight.go:122-125` says that a response written in a `Commit` keeps the remaining ones
  from running. They run if and only if the code of that `Commit`, started with the headers of the
  flight, does not stop (`FlightOutlook.WriteInCommit`); that is read off its actions, and every write
  outside a recovered stretch stops it (`FlightOutlook.UnrecoveredWriteStops`). In the flight of
  `FlightOutlook.CommitAfterWriteInCommit` a `Commit` writes, recovers, and is followed by the next.
- `safehttp/plugins/csp/csp.go:195-197` says that the nonce is there in `Commit`, because `Before` put
  it there. When the other `Commit` methods come back, a CSP `Commit` panics if and only if the call
  that leaves the loop over `Before` has no CSP interceptor in front of it and its code writes a
  template first (`CspCommits.EarlyTemplatePanics`; `CspCommits.CommitWithoutNonce` is such a flight).
- `safehttp/plugins/htmlinject/htmlinject.go:37-39` says that a rule runs on tags with the given
  attributes. A missing attribute reads as empty, so that holds on every tag if and only if the filter
  asks for no empty value (`HtmlInject.FiltersForEmptyValues`).
- `safehttp/plugins/cors/cors.go:41-43` says that three content types result in 415. The whole header
  value is compared, so that holds for a value that names one of them if and only if it is the bare
  media type (`Cors.Interceptor.BannedResultsIn415`); with any parameters it is let through
  (`Cors.Interceptor.ParametersPass`).

Three more things that a reader of the comments may not expect:

- A handler that never writes gets a NoContent dispatch without any `Commit`, and the error of that
  dispatcher call is dropped (`safehttp/flight.go:73-75`).
- The comments on the session tables at `examples/sample-application/storage/fakedb.go:44-47` are
  swapped.
- A call of `Handle` that panics has already registered its pattern (`Mux.FailedHandle`).

Two laws that nothing documents but that suggest themselves hold under an exact condition only:
stripping two prefixes in turn is stripping them at once unless the first uses up the raw path, which
no parsed URL allows (`PrefixStripping.StripsCompose`, `PrefixStripping.DecodedStripsCompose`); and
splitting a join gives the list back exactly if each separator put in is the first one found
(`GoStrings.SplitOfJoin`).

## Model

| member | source | states |
|---|---|---|
| Canonical.CanonicalIdempotent | safehttp/header.go:78-84 | canonicalising a name twice, as these methods and the wrapped map do, is canonicalising it once |
| Canonical.CanonicalCollision | safehttp/header.go:24-27 | two names are the same header exactly when they are equal or are tokens that differ in letter case only |
| HeaderModel.ClaimedAfter | safehttp/header.go:50-107 | over any operations the claimed set grows by exactly the canonical names asked for; it never holds Set-Cookie |
| HeaderModel.ClaimsStay | safehttp/header.go:43-49 | no operation gives a claim up |
| HeaderModel.ClaimSucceedsOnce | safehttp/header.go:50-62 | after any operations, `Claim` succeeds exactly for a name that is not Set-Cookie and that none of them claimed in any spelling |
| HeaderModel.OwnedByItsSetter | safehttp/header.go:43-49 | while claimed, a header is its value so far or the last non-nil argument of its setter |
| HeaderModel.ClaimedValue | safehttp/header.go:43-62 | from the claim on, whatever operations follow, the value is the last non-nil setter argument or else the value at claim time |
| HeaderModel.CookiesOnlyAppended | safehttp/header.go:130-142 | after any operations Set-Cookie is its old list followed by the valid cookies added, in order |
| HeaderModel.HttpHeader.Set | safehttp/header.go:83 | net/http's Set: one value under the canonical name, nothing else changed |
| HeaderModel.HttpHeader.Add | safehttp/header.go:95 | net/http's Add: one more value under the canonical name |
| HeaderModel.HttpHeader.Del | safehttp/header.go:106 | net/http's Del: the canonical name removed |
| HeaderModel.Header.constructor | safehttp/header.go:33-41 | wraps the given map with nothing claimed |
| HeaderModel.Header.Claim | safehttp/header.go:50-62 | the new state and the panic are those of the claim operation; the setter is for the canonical name |
| HeaderModel.Header.CallSetter | safehttp/header.go:56-61 | a setter replaces its header; nil changes nothing |
| HeaderModel.Header.IsClaimed | safehttp/header.go:67-71 | true exactly when `Claim` of the name would panic |
| HeaderModel.Header.Set | safehttp/header.go:78-84 | replaces a writable header, panics and changes nothing on a claimed one or Set-Cookie |
| HeaderModel.Header.Add | safehttp/header.go:90-96 | appends to a writable header, panics and changes nothing otherwise |
| HeaderModel.Header.Del | safehttp/header.go:101-107 | removes a writable header, panics and changes nothing otherwise |
| HeaderModel.Header.AddCookie | safehttp/header.go:135-142 | appends a valid cookie to Set-Cookie; an invalid one changes nothing and is reported without a panic |
| FlightTheorems.ActionsWriteOnce | safehttp/flight.go:80-107 | any stretch of code either leaves no trace or is the first to write and leaves the trace of one write: commits from last to first, then one dispatcher call |
| FlightTheorems.CommitsDescend | safehttp/flight.go:126-130 | a commit phase calls the commits in descending order without a gap, all of them unless one panics; nothing a commit does, a write included, adds a call |
| FlightTheorems.FlightGrammar | safehttp/flight.go:66-91 | every flight of any configuration fits one grammar: the first k Befores in order, the handler only after all of them, then one write's trace, or NoContent alone, or a panic |
| FlightTheorems.LastEntry | safehttp/flight.go:66-76 | every flight leaves the loop over Before at one k, with nothing written until then, and is the call made there or the handler phase |
| FlightTheorems.LeavesOnce | safehttp/flight.go:66-71 | that k and the state there are unique |
| FlightTheorems.NoHandlerBehind | safehttp/flight.go:66-72 | an interceptor whose Before always writes or panics keeps the handler from being called, whatever the others do |
| FlightTheorems.DispatchedOnce | safehttp/flight.go:72-91 | the dispatcher is called at most once in every flight, and exactly once if code without recovery ends without a panic |
| TraceTheorems.DispatchedWhenCalm | safehttp/flight.go:72-91 | a flight in which nothing panics, recovered or not, calls the dispatcher exactly once |
| TraceTheorems.RefusedDispatchPanics | safehttp/flight.go:56-91 | when no stretch that the code recovers is the one that writes, a response that the dispatcher refuses makes the flight panic and leaves no header; a flight that wrote nothing dispatches NoContent and comes back whatever the dispatcher answers |
| TraceTheorems.FailedDispatchPanics | safehttp/flight.go:87-89 | code that writes in no stretch it recovers panics when the dispatcher fails in one of its steps |
| TraceTheorems.CallAccepted | safehttp/flight.go:80-107 | code that writes, in no stretch it recovers, and comes back had its response accepted at the step that dispatched it |
| FlightTheorems.CallsOnce | safehttp/flight.go:66-91 | no Before, Commit, handler or dispatcher call is made twice in a flight, and after a Commit only lower Commits and the dispatcher are called |
| FlightTheorems.WriteAfterWrite | safehttp/flight.go:80-107 | after a write, code that writes again in any way panics before any commit or dispatcher call |
| FlightTheorems.SecondWritePanics | safehttp/flight.go:80-107 | code with two writes, in any combination, panics and makes the calls of one write at most |
| FlightTheorems.CommitsHadTheirBefore | safehttp/mux.go:88-89 | commits run only for interceptors whose Before was called if and only if no interceptor but the last writes in its Before |
| FlightTheorems.CommitWithoutBefore | safehttp/flight.go:126-130 | a concrete flight commits an interceptor whose Before was never called |
| FlightInvariants.ActionsKeep | safehttp/flight.go:80-130 | the induction principle: a property kept by each simple step and by a dispatch after all commits is kept by any code, nested commits included |
| FlightTrace.TraceIsTheFlight | safehttp/flight.go:43-107 | the trace leaves nothing out: redoing its steps one by one is the whole flight |
| TraceTheorems.CalledOnce | safehttp/flight.go:66-91 | no call is in the trace of a flight twice |
| TraceTheorems.DispatchedHeadersEarned | safehttp/flight.go:43-107 | the headers given to the dispatcher are the result of exactly the header operations that took effect in the flight before that call, in order |
| TraceTheorems.DispatchedClaims | safehttp/header.go:43-62 | in every flight, the headers of the dispatched response have each header claimed before as the last non-nil argument its setter got since then, or as its value then |
| TraceTheorems.DispatchedAtOnce | safehttp/flight.go:80-91 | the step at which a flight dispatches is unique |
| TraceTheorems.PanicsAtTopLevel | safehttp/flight.go:80-107 | a call panics if and only if some action outside its recovered stretches does |
| FlightOutlook.ActionsForeseen | safehttp/flight.go:80-107 | whether a call comes back, panics or writes, what it writes first and the headers it leaves are read off its actions and the headers it starts with |
| FlightOutlook.WriteInCommit | safehttp/flight.go:122-130 | after a Commit the remaining ones run if and only if its actions, started with the headers of the flight, do not stop |
| FlightOutlook.UnrecoveredWriteStops | safehttp/flight.go:122-130 | any write outside a recovered stretch stops a Commit, so the promise is kept for those |
| FlightOutlook.CommitAfterWriteInCommit | safehttp/flight.go:122-130 | a concrete flight in which a Commit writes, recovers, and is followed by the next Commit |
| TraceTheorems.DispatchedCookiesKept | safehttp/flight.go:115-120 | the cookies of the dispatched response are those set before the flight followed by exactly those its code added before the dispatch, in order |
| FlightObject.Flight.constructor | safehttp/flight.go:43-49 | a new flight: not written, no values, a header around the response's map |
| FlightObject.Flight.Perform | safehttp/flight.go:22-33 | code run on the flight object leaves it in the state, and with the outcome, of the flight function |
| FlightObject.Flight.Write | safehttp/flight.go:80-91 | panics and changes nothing when written; otherwise marks, commits and dispatches, and comes back exactly when no Commit panicked and the dispatcher accepted the response |
| FlightObject.Flight.WriteError | safehttp/flight.go:97-107 | the same, both ways, through the dispatcher's error method |
| FlightObject.Flight.CommitPhase | safehttp/flight.go:126-130 | the backward loop leaves the state of the recursive commit phase |
| FlightObject.Flight.CallDispatcher | safehttp/flight.go:87-89 | the dispatcher sees the raw headers and template functions of that moment |
| FlightObject.Flight.RunPhases | safehttp/flight.go:66-75 | the forward loop, the handler and the NoContent dispatch leave the state of the flight function |
| FlightObject.ClearHeaders | safehttp/flight.go:58-61 | deleting each key of the map leaves no header, whatever the order |
| FlightObject.ProcessRequest | safehttp/flight.go:43-76 | the object's run is the run the theorems are about, and after an escaping panic the response's header map is empty |
| CspPolicies.SerializeStrict | safehttp/plugins/csp/strict.go:58-93 | the builder's string is the intended directives printed, for any hashes |
| CspPolicies.WriteScriptSources | safehttp/plugins/csp/strict.go:62-78 | the loop writes the fixed sources and then each hash in quotes, in order |
| CspPolicies.SerializeTrustedTypes | safehttp/plugins/csp/trustedtypes.go:37-47 | the builder's string is the intended directives printed |
| CspPolicies.FrameAncestors | safehttp/plugins/csp/framing.go:71-82 | 'self' and all hostnames in order, followed by a semicolon and a space |
| CspPolicies.Report | safehttp/plugins/csp/csp.go:120-130 | the report-uri directive with its semicolon and space, or nothing |
| CspPolicies.SerializeFraming | safehttp/plugins/csp/framing.go:37-48 | the trimmed string is the intended directives printed with one semicolon left over |
| CspPolicies.SerializedPolicyParses | safehttp/plugins/csp/csp.go:107-118 | parsing what any policy serializes gives back exactly the intended directives and source lists, if and only if the strings put in are ASCII without whitespace or semicolons |
| CspPolicies.StrictThus | safehttp/plugins/csp/strict.go:58-93 | the directives and sources of a strict policy for each of its options |
| CspPolicies.FramingThus | safehttp/plugins/csp/framing.go:37-48 | frame-ancestors with self and the hostnames of an allow list only, then the report address if there is one |
| CspPolicies.TrustedTypesThus | safehttp/plugins/csp/trustedtypes.go:37-47 | script is required to use trusted types, then the report address if there is one |
| CspPlugin.Nonce | safehttp/plugins/csp/csp.go:77-87 | the flight's nonce, made and stored only if there is none; a failing random source panics |
| CspPlugin.ClaimedHeaders | safehttp/plugins/csp/csp.go:89-105 | the two headers are claimed the first time only, and a panic of either claim shows |
| CspPlugin.Override | safehttp/plugins/csp/csp.go:153-166 | the serialized policy goes to the enforced header, to the report-only one, or to none, by the interceptor and the override that matches it |
| CspPlugin.RouteThus | safehttp/plugins/csp/csp.go:153-166 | for each policy and override: which of the two headers the policy is for, or that it is dropped |
| CspPlugin.UnmatchedRoute | safehttp/plugins/csp/csp.go:153-166 | without a matching override the whole policy text is enforced, or report-only if the interceptor is |
| CspPlugin.AppendPolicy | safehttp/plugins/csp/csp.go:174-181 | the claimed header gets one more value behind those it has |
| CspPlugin.BeforeResult | safehttp/plugins/csp/csp.go:168-183 | what a whole Before does to a flight: nonce, claims, then the enforced and the report-only policy appended |
| CspPlugin.Before | safehttp/plugins/csp/csp.go:170-183 | the statements of Before do to the flight object what the interceptor's actions do to the flight |
| CspPlugin.Commit | safehttp/plugins/csp/csp.go:188-205 | the statements of Commit do what its actions do; it panics exactly for a template without a nonce |
| CspTheorems.CspBeforeCall | safehttp/plugins/csp/csp.go:168-183 | one more CSP interceptor keeps: base value, then all policies so far in order, one nonce |
| CspTheorems.CspCommitCall | safehttp/plugins/csp/csp.go:185-205 | a CSP Commit panics exactly for a template in a flight without a nonce, and otherwise puts the flight's nonce in the template |
| CspTheorems.CommitsSetNonce | safehttp/plugins/csp/csp.go:185-205 | a commit phase for a template that passes a CSP interceptor had a nonce and leaves it in the template functions, whatever defined that function before, unless a Commit that runs after all CSP ones defines it |
| CspTheorems.PoliciesAtEntry | safehttp/plugins/csp/csp.go:168-183 | between any CSP and other interceptors, after k Befores both headers are their value at claim time followed by the policies of the CSP ones, in order, with one nonce |
| CspTheorems.CspOnTheWire | safehttp/plugins/csp/csp.go:153-205 | every response that leaves any flight shows exactly those header values for the Befores that were over when the writing call began; every template has the same nonce, and gets it unless a Commit that runs after all CSP ones defines another |
| CspTheorems.OneWriter | safehttp/flight.go:66-76 | the log of a flight leaves one choice of the writing call only |
| CspCommits.NoCspCommitPanics | safehttp/plugins/csp/csp.go:194-199 | once a CSP Before has come to its end, no flight stops inside a CSP Commit, whoever writes |
| CspCommits.CspCommitPanics | safehttp/plugins/csp/csp.go:194-199 | a flight stops inside a CSP Commit if and only if it reaches one and the call that leaves the loop over Before, by the outlook of its code, writes a template first with no CSP interceptor in front of it |
| CspCommits.EarlyTemplatePanics | safehttp/plugins/csp/csp.go:194-199 | when the other Commits do not stop, reaching one is no condition: only that outlook decides |
| CspCommits.CommitWithoutNonce | safehttp/plugins/csp/csp.go:194-199 | a concrete flight that panics there: an interceptor in front of a CSP one writes a template in Before |
| CspEndToEnd.BrowserReads | safehttp/plugins/csp/csp.go:168-183 | parsing both CSP headers of any response that leaves any flight gives the policies found at claim time and then exactly what each CSP interceptor that ran before the writing call means, in order |
| HtmlInject.Rewriter.AddConfig | safehttp/plugins/htmlinject/htmlinject.go:113-117 | the index stays the per-tag grouping of all rules added, in order |
| HtmlInject.ReadAttributes | safehttp/plugins/htmlinject/htmlinject.go:256-260 | the last duplicate of an attribute wins and a missing one reads as empty |
| HtmlInject.AttrThus | safehttp/plugins/htmlinject/htmlinject.go:256-260 | one more attribute overwrites what was read for its name and nothing else |
| HtmlInject.LastIsRead | safehttp/plugins/htmlinject/htmlinject.go:256-260 | a value is read for a name exactly when the last attribute of that name has it, or when it is empty and there is no such attribute |
| HtmlInject.MatchesAttributes | safehttp/plugins/htmlinject/htmlinject.go:267-273 | the early-exit loop over the filters, in any order, decides whether all of them hold |
| HtmlInject.FilterRules | safehttp/plugins/htmlinject/htmlinject.go:263-278 | the rules kept are the triggered ones, in order |
| HtmlInject.TriggersThus | safehttp/plugins/htmlinject/htmlinject.go:263-278 | a rule is triggered exactly by a tag of its name on which every filtered attribute was last given its value, or not given if that is empty |
| HtmlInject.TwoRules | safehttp/plugins/htmlinject/htmlinject.go:280-307 | two triggered rules: the attributes of the first, then of the second, after the name, and the nodes likewise after the tag |
| HtmlInject.Rewriter.ProcessTag | safehttp/plugins/htmlinject/htmlinject.go:245-309 | the tag is written with the triggered attributes right after its name and the nodes right after it |
| HtmlInject.Rewriter.Rewrite | safehttp/plugins/htmlinject/htmlinject.go:224-243 | succeeds exactly when the stream ends at the end of input, and then has written what the flat rules give for each token and the text left over |
| HtmlInject.Transform | safehttp/plugins/htmlinject/htmlinject.go:104-122 | building the index and rewriting gives what a flat scan of all configs gives, or an error when reading fails |
| HtmlInject.SameTriggered | safehttp/plugins/htmlinject/htmlinject.go:263-278 | looking only under the tag triggers the same rules in the same order as scanning all rules |
| HtmlInject.InsertOnly | safehttp/plugins/htmlinject/htmlinject.go:280-307 | for every template and all configs, erasing the insertions gives the template back, it is a subsequence of the output, and the lengths add up |
| HtmlInject.UntriggeredUnchanged | safehttp/plugins/htmlinject/htmlinject.go:224-243 | a template in which no tag triggers a rule comes out unchanged |
| HtmlInject.TriggeredByDefault | safehttp/plugins/htmlinject/htmlinject.go:64-100 | with both default configs each tag triggers at most one rule, and which one |
| HtmlInject.DefaultRules | safehttp/plugins/htmlinject/htmlinject.go:58-100 | each script, style and preloaded script link gets one nonce after its name, each form one token input after it, any other token is copied |
| HtmlInject.NeedsNonceThus | safehttp/plugins/htmlinject/htmlinject.go:64-84 | the tags that get a nonce are scripts, styles, and links whose last rel is preload and last as is script |
| HtmlInject.FiltersForEmptyValues | safehttp/plugins/htmlinject/htmlinject.go:37-39 | the code matches as documented on every tag exactly when the filter asks for no empty value |
| Sessions.DB.GetUser | examples/sample-application/storage/fakedb.go:85-90 | answers from the token table and changes nothing |
| Sessions.DB.GetToken | examples/sample-application/storage/fakedb.go:92-103 | returns the user's token afterwards, making one in both tables if there was none |
| Sessions.DB.DelSession | examples/sample-application/storage/fakedb.go:105-114 | the user has no token afterwards and the token it had is gone from both tables |
| Sessions.InverseKept | examples/sample-application/storage/fakedb.go:92-114 | a call keeps the tables inverse exactly when it does not make a token that is live for someone else |
| Sessions.LiveSinceMade | examples/sample-application/storage/fakedb.go:92-114 | a user's token is the one made by the call since which the user was not logged out |
| Sessions.TablesAgree | examples/sample-application/storage/fakedb.go:85-114 | in every reachable state both tables say what the history says and are inverse to each other |
| Sessions.GetUserAgrees | examples/sample-application/storage/fakedb.go:85-90 | a token is answered with a user exactly when that user made it and was not logged out since |
| Sessions.NeverAnotherUser | examples/sample-application/storage/fakedb.go:85-103 | a token never belongs to any other user, at any time |
| Sessions.NeverAgain | examples/sample-application/storage/fakedb.go:105-114 | after its user is logged out a token is never valid again |
| Sessions.SameTokenAgain | examples/sample-application/storage/fakedb.go:92-98 | until the logout, asking again returns the same token |
| Auth.CookieUser | examples/sample-application/secure/auth/auth.go:99-109 | the user whose live token is in the cookie, or none |
| Auth.Before | examples/sample-application/secure/auth/auth.go:47-67 | stores an identified user; without one, writes an error unless skipped |
| Auth.Commit | examples/sample-application/secure/auth/auth.go:74-87 | logout leaves the user without a token and its old token without a user; a session request leaves the user with the token in the cookie, a live one kept; without either nothing changes; and the tables change by exactly the calls that the flight records |
| Auth.ClearSession | examples/sample-application/secure/auth/auth.go:115-117 | asks for logout and keeps the stored user |
| Auth.CreateSession | examples/sample-application/secure/auth/auth.go:123-126 | asks for a session and stores its user |
| Auth.NoHandlerWithoutUser | examples/sample-application/secure/auth/auth.go:54-66 | in a flight whose auth interceptor found no user and is not skipped the handler is never called, whatever the others do |
| AuthTrace.SessionCallsExplained | examples/sample-application/secure/auth/auth.go:47-87 | in every flight with auth, among arbitrary other code, each call of the session tables either opens auth's Before and looks the cookie up, or opens auth's Commit after a write began and does the session action put last for the user put last |
| AuthTrace.ChangesOnce | examples/sample-application/secure/auth/auth.go:74-87 | no flight changes the session tables twice |
| AuthTrace.HandlerHasLookup | examples/sample-application/secure/auth/auth.go:47-67 | without Skip the handler is called only for a request with a user, after the lookup that found it |
| AuthConcurrency.ChangesAtMostOnce | examples/sample-application/secure/auth/auth.go:74-87 | in every interleaving of flights no request changes the tables twice |
| AuthConcurrency.OnlyCommitChangesTables | examples/sample-application/secure/auth/auth.go:69-87 | in every interleaving of flights the tables change only in the step that opens auth's Commit of some flight, by the session action and for the user its code put last |
| AuthConcurrency.IdentifiedWasLoggedIn | examples/sample-application/secure/auth/auth.go:47-52 | a user found by a lookup was given the presented cookie by an earlier Commit of a flight whose code asked last for that user's session, with no logout of that user in between |
| AuthExample.VisitIsIdentified | examples/sample-application/secure/auth/auth.go:47-87 | for every user and token there is an execution in which one request logs that user in and a later one is identified by the cookie |
| AuthConcurrency.RunningHasUser | examples/sample-application/secure/auth/auth.go:54-66 | in every interleaving, without Skip a handler starts only after auth found a user whose session was live at that step |
| FileServer.FileServerResponseWriter.CopyHeaders | safehttp/fileserver.go:84-99 | in whatever order the map is visited, exactly the unclaimed, non-empty headers other than Content-Type are copied and no other header changes |
| FileServer.CopiedExactly | safehttp/fileserver.go:84-99 | such a header under its canonical name arrives exactly as the file server set it |
| FileServer.CopiedNothingElse | safehttp/fileserver.go:84-99 | claimed headers, Set-Cookie, Content-Type and what the file server left empty are untouched |
| FileServer.FileServerResponseWriter.WriteHeader | safehttp/fileserver.go:68-113 | only the first call does anything: it copies the headers and writes the flight once, 404 for any status but 200 |
| FileServer.FileServerResponseWriter.Write | safehttp/fileserver.go:56-66 | commits to 200 if nothing did, and passes the chunk on unless an error was committed |
| FileServer.FileServerResponseWriter.Serve | safehttp/fileserver.go:43-113 | for every call sequence: one write of the flight at most, with the first status and the headers of that moment; the chunks get through in order exactly when that status is 200 |
| FileServer.ResponseThus | safehttp/fileserver.go:77-81 | a 200 has the file server's first Content-Type or the default one; every other status is a 404 |
| FileServer.CommitThus | safehttp/fileserver.go:56-74 | the first WriteHeader or Write commits, a Write to 200, with the headers as last edited before it, whatever follows |
| FileServer.DeliveredThus | safehttp/fileserver.go:56-66 | all chunks get through in order if that call is a Write or a WriteHeader of 200, and none otherwise |
| MuxConfig.Append | safehttp/mux.go:167 | Go's append: in place when the array has room, a new array otherwise; the old slice shows the same |
| MuxConfig.ServeMuxConfig.Intercept | safehttp/mux.go:166-168 | adds at the end; a slice taken before shows the same as before |
| MuxConfig.ServeMuxConfig.Mux | safehttp/mux.go:189-195 | the mux shares the config's slice |
| MuxConfig.ServeMuxConfig.Clone | safehttp/mux.go:202-209 | the same list on an array of its own |
| MuxConfig.InterceptAt | safehttp/mux.go:166-168 | writing to a shared array changes what no other config and no mux shows |
| MuxConfig.Build | safehttp/mux.go:166-209 | after any sequence of Intercept, Mux and Clone calls, objects that share arrays show exactly what lists copied at each call would |
| MuxConfig.IsolatedStep | safehttp/mux.go:170-202 | a call changes no mux and no config but the one it names |
| MuxConfig.MuxNeverChanges | safehttp/mux.go:170-197 | a mux keeps its interceptors through all later calls |
| MuxConfig.ConfigChangesOnlyByItself | safehttp/mux.go:199-209 | a config keeps its list through all later calls on its clones and originals |
| Mux.ConfigureInterceptors | safehttp/mux.go:232-257 | the nested loops panic exactly when two configurations match one interceptor, and otherwise pair every interceptor, in order, with its one match or none |
| Mux.ConfigurePairs | safehttp/mux.go:106-109 | the specification function has that meaning, stated without it |
| Mux.ServeMux.Handle | safehttp/mux.go:110-125 | the new tables and the panic are those of the registration step |
| Mux.ServeMux.Route | safehttp/mux.go:217-223 | a request gets the configuration of its method, or method-not-allowed, of its pattern |
| Mux.Routed | safehttp/mux.go:217-230 | after any Handle calls, a registered pattern answers with the one call that registered the method and all interceptors in order, or method-not-allowed; other patterns are unknown |
| Mux.RoutedFlight | safehttp/mux.go:217-223 | a request on a registered pattern and method is a flight of that handler through all installed interceptors in order, each with its matching configuration or none |
| Mux.HandlePanics | safehttp/mux.go:103-109 | Handle panics exactly on a pair an earlier call registered or on ambiguous configurations |
| Mux.FailedHandle | safehttp/mux.go:110-125 | a failed call changes no earlier registration and at most makes its pattern known |
| Cors.Interceptor.Default | safehttp/plugins/cors/cors.go:81-90 | exactly the given origins are allowed and nothing else |
| Cors.Interceptor.SetAllowedHeaders | safehttp/plugins/cors/cors.go:95-103 | exactly the given names but the wildcard are allowed, in canonical form |
| Cors.Interceptor.AllowedAfterSetting | safehttp/plugins/cors/cors.go:95-103 | after it a preflight may ask exactly for X-Cors and for names that are, in canonical form, one of those given and not the wildcard |
| Cors.Interceptor.PartsAllowed | safehttp/plugins/cors/cors.go:199-204 | the early-exit loop decides whether every element is an allowed header or X-Cors |
| Cors.Interceptor.Preflight | safehttp/plugins/cors/cors.go:186-222 | 204 and three granted headers exactly for an admitted preflight, a panic and no value if one of them is claimed; 403 and no change otherwise |
| Cors.Interceptor.PreflightThus | safehttp/plugins/cors/cors.go:186-205 | a preflight is admitted exactly with an origin, a request method other than HEAD, and no requested header that is neither allowed nor X-Cors |
| Cors.BannedAsDocumented | safehttp/plugins/cors/cors.go:27-31 | a value that names a banned media type is banned by the code if and only if it is the bare media type |
| Cors.Interceptor.BannedResultsIn415 | safehttp/plugins/cors/cors.go:41-43 | a request with a banned media type results in 415 if and only if the value is the bare media type, and is let through otherwise |
| Cors.Interceptor.ParametersPass | safehttp/plugins/cors/cors.go:230-232 | a banned type with any parameters is let through |
| Cors.Interceptor.Ordinary | safehttp/plugins/cors/cors.go:225-239 | lets exactly the requests with X-Cors and a non-empty value other than the three banned ones through, with a panic and no value if the header is claimed; 412 or 415 and no change otherwise |
| Cors.Interceptor.AppendToVary | safehttp/plugins/cors/cors.go:176-183 | adds to the first Vary value, and panics exactly when Vary may not be written |
| Cors.Interceptor.Before | safehttp/plugins/cors/cors.go:115-165 | whatever headers are there or claimed: an error or a panic and no header value for a request that is not let through, exactly the granted values and Vary for one that is |
| Cors.Interceptor.LetThrough | safehttp/plugins/cors/cors.go:115-149 | a request is let through exactly when it is admitted and none of Vary and the headers to be claimed is claimed |
| Cors.Interceptor.DecidesThus | safehttp/plugins/cors/cors.go:115-149 | every request: the status it is rejected with, or that a claim panics, or that it is answered or goes on, in the order of the checks |
| Cors.Interceptor.AnswersThus | safehttp/plugins/cors/cors.go:151-159 | the value of each Access-Control header and of Vary on a request let through, or that it is as before |
| Cors.ItoaReads | safehttp/plugins/cors/cors.go:220 | the max age is written in decimal digits that read back as the same number |
| Cors.Interceptor.GrantedAnswers | safehttp/plugins/cors/cors.go:151-159 | every Access-Control header gets what admission grants or keeps its value, Allow-Origin precisely the request's non-empty listed origin, and all other headers are as before |
| Cors.Interceptor.GrantedOnly | safehttp/plugins/cors/cors.go:105-165 | with the headers absent and unclaimed, an admitted request has exactly the granted ones |
| CorsFlight.Before | safehttp/plugins/cors/cors.go:115-165 | what Before does to a flight object: the decision's error or NoContent is written through the flight, after the claims and granted values and nothing else |
| CorsFlight.RejectedNeverHandled | safehttp/plugins/cors/cors.go:115-165 | in a flight with a CORS interceptor the handler is never called for a request that is not admitted, nor for a preflight, whatever the others do |
| BanCheck.BannedAPIMap | cmd/bancheck/bannedapi/banned_api.go:129-135 | the index files every entry under its name, in order |
| BanCheck.NamedHasName | cmd/bancheck/bannedapi/banned_api.go:94-97 | an indexed entry has the name it is filed under, so the mismatch return is never taken |
| BanCheck.ScanOfNamed | cmd/bancheck/bannedapi/banned_api.go:93-111 | scanning the entries under the name reports what scanning all entries reports, malformed patterns included |
| BanCheck.Pass.IsPkgAllowed | cmd/bancheck/bannedapi/banned_api.go:114-125 | the first matching pattern exempts and a malformed one before it is an error |
| BanCheck.ExemptThus | cmd/bancheck/bannedapi/banned_api.go:114-125 | the first pattern that does not differ from the package decides: a match exempts, a malformed one is an error, none bans |
| BanCheck.Pass.ReportIfBanned | cmd/bancheck/bannedapi/banned_api.go:93-111 | the indexed lookup reports the flat scan of the configuration |
| BanCheck.ReportThus | cmd/bancheck/bannedapi/banned_api.go:93-111 | an entry says nothing about other names or an exempt package, fails on a malformed exemption, and otherwise gives one diagnostic with its name and message at the use |
| BanCheck.MalformedStops | cmd/bancheck/bannedapi/banned_api.go:93-111 | the first entry of the name with a malformed exemption ends the scan with an error; what the entries before it reported stays |
| BanCheck.Pass.CheckBannedImports | cmd/bancheck/bannedapi/banned_api.go:64-75 | the nested loops report, in order, the flat scan of all imports of all files |
| BanCheck.FlattenThus | cmd/bancheck/bannedapi/banned_api.go:64-75 | the imports of a file come behind those of the files before it |
| BanCheck.Pass.CheckBannedFunctions | cmd/bancheck/bannedapi/banned_api.go:77-91 | every use is scanned once, in whatever order the map is visited |
| BanCheck.ReportedExactly | cmd/bancheck/bannedapi/banned_api.go:93-111 | a diagnostic is given once for each entry with the name whose exemptions do not cover the package, and no other is given |
| BanCheck.ScanGrows | cmd/bancheck/bannedapi/banned_api.go:127-135 | appending entries keeps every diagnostic of a use |
| BanCheck.ScanAllGrows | cmd/bancheck/bannedapi/banned_api.go:47-62 | appending entries keeps every diagnostic of the whole check |
| BanCheck.OrderDoesNotMatter | cmd/bancheck/bannedapi/banned_api.go:77-91 | the diagnostics do not depend on the order of the uses |
| BanCheck.FunctionsAgree | cmd/bancheck/bannedapi/banned_api.go:77-91 | the function check reports, as a multiset, what a flat scan in any fixed order reports |
| GoStrings.JoinOfSplit | safesql/safesql.go:101-109 | joining the split of any string by any separator gives it back |
| GoStrings.SplitOfJoin | safesql/safesql.go:86-96 | splitting a join gives the list back exactly when each separator put in is the first one found |
| GoStrings.SplitIsSplittable | safesql/safesql.go:101-109 | splitting always gives such a list |
| GoStrings.SelfOverlap | safesql/safesql.go:86-109 | two strings without the separator that splitting their join does not give back |
| SafeSql.TrustedSQLStringConcat | safesql/safesql.go:82-84 | the strings one after another |
| SafeSql.TrustedSQLStringJoin | safesql/safesql.go:90-96 | joins as strings.Join does, and splits back exactly for splittable lists |
| SafeSql.TrustedSQLStringSplit | safesql/safesql.go:102-109 | splits as strings.Split does into a list that joins back |
| SafeSql.RoundTrips | safesql/safesql.go:86-109 | the two are inverse on every string, and on exactly the splittable lists |
| PrefixStripping.StripsCompose | safehttp/incoming_request.go:184-208 | stripping a then b is stripping a+b, result or failure, exactly when the raw path is not used up in between |
| PrefixStripping.DecodedStripsCompose | safehttp/incoming_request.go:187-208 | every strip keeps the raw path no shorter than the path, and then strips always compose |
| PrefixStripping.HandlersCompose | safehttp/handler.go:35-53 | nested StripPrefix handlers answer as the one for the joined prefix, panics included |
| PrefixStripping.StrippedURL | safehttp/incoming_request.go:187-208 | the copy has path and non-empty raw path without the prefix, and there is none exactly when one of them does not start with it |
| PrefixStripping.HandlerBelow | safehttp/handler.go:42-53 | the handler below a prefix is the handler on the stripped URL, and a panic exactly when there is none or the handler panics |
| PrefixStripping.PrefixIsGone | safehttp/handler.go:42-53 | the handler inside sees what is behind the prefix, in the path and in the raw path |
| PrefixStripping.RefusedOnlyAtOnce | safehttp/incoming_request.go:187-195 | a URL, not one that parsing gives, that passes two strips in turn and is refused by the joined one |

## Left out

- AuthConcurrency.OnlyCommitChangesTables: each request has one auth interceptor, and other code does not call the session tables; two auth interceptors in one flight would commit twice. What a flight is told by the tables is fixed in its configuration and required to be what they say at that step.
- CspEndToEnd.BrowserReads: the strings put into the policies have no comma, since a comma ends a policy in a header (section 2.2.2 of Content Security Policy Level 3) and the code does not look for one.
- CspTheorems.CspOnTheWire: the other code of the flight does not put the plugin's flight keys and does not call setters of the two headers once the plugin has claimed them; neither can be named outside the Go package. A Commit of an interceptor installed in front of all CSP ones can still redefine the nonce function of a template, which any Go code can; only the claim about that function is conditional on it.
- FileServer.CopiedExactly: a header stored by the file server under two spellings of one name gets one of the two values, as in the code; which one depends on the map order.
- FlightTheorems.WriteAfterWrite: stated for code that recovers no panic of its own; with recovery the second write still panics where it stands and makes no call, which is part of FlightTheorems.ActionsWriteOnce.
- MuxConfig.ServeMuxConfig.Mux: pairing the method-not-allowed handler with its configurations is the function proved in Mux.ConfigureInterceptors; the dispatcher and the handler of a config are not part of its model.
- Mux.ServeMux.Handle: patterns that net/http refuses make its Handle panic; they are not part of this model.
- BanCheck.Pass.CheckBannedFunctions: a function without a package, for which the Go code would dereference nil, is not part of this model.
- Sessions.TablesAgree: no token is made twice in one history; the code draws 20 random bytes. Without that, Sessions.InverseKept says exactly which call breaks the tables.
- HtmlInject.Transform: the HTML tokenizer is not part of this model; the tokens of a well-formed stream are given, each tag's raw text starting with one character and its name.
- Code that never ends, and code that changes its mind within one call after seeing what its own actions did: a call is a finite list of actions fixed by the flight it starts in.
- Changing a slice after handing it to a setter, and reading header values through the slice that is still in the map.
- `panic(nil)`, which the deferred function of the flight does not notice.
- The dispatcher's own decisions: it is any function that may edit the raw headers and may return an error.
- Template parsing and execution, template loaders, JSON, and the response types beyond what the interceptors look at; the URL path inside a file server response.
- net/http's matching of requests to patterns, sockets, `safehttp/server.go`, development mode and its log lines.
- Randomness and encodings: a nonce or token is whatever generating one returns at that moment, or a failure.
- CSP policies other than the three of the package; literals of the serializers are written in smaller pieces than in the Go code, with the same resulting string.
- Strings are sequences of characters, not bytes; invalid UTF-8 is not modelled.
- Interceptors with a single decision (hsts, hostcheck, staticheaders, coop, fetchmetadata, xsrf): they are instances of the arbitrary code the flight theorems quantify over.
- `safehttp/form.go`, cookie attributes, the database wrappers of safesql, the notes and credentials of the sample storage, reading the bancheck configuration; filepath.Match is a parameter of the model.
- The locks of the sample storage: each of its calls is one atomic step.
