# Route matching and test assertion for Istio VirtualService unit tests

This project models the engine of istio-config-validator that checks Istio
`VirtualService` routing configuration against test cases. It covers:

- the string matcher (`ExtendedStringMatch.Match`) with its exact, prefix and
  regex cases;
- the match-block evaluator (`matchRequest`), which ANDs the header, URI,
  authority and method conditions;
- route selection (`GetRoute`): host filtering, then first match wins over
  VirtualService, rule and block order;
- the test runner (`TestRunner.Run`), which expands each test case's request
  template, selects a route per input and compares destination, rewrite,
  fault and headers against the `wantMatch` polarity;
- request expansion (`Request.Unfold`): the Cartesian product of authorities,
  methods and URIs, with the URI query stripped;
- delegate lookup (`GetDelegatedVirtualService`);
- the conversion of test cases into Envoy router-check tests (`prepareTests`
  and `convertValidate`).

Files, one module each:

- `networking.dfy`: the Istio networking types.
- `errors.dfy`: errors and `Result`.
- `strings.dfy`: `%d`, `cmp.Or` and splitting.
- `parser.dfy`: the test-case data and `Unfold`.
- `virtualservice.dfy`: delegate lookup.
- `match_request.dfy`: the matcher.
- `unit.dfy`: route selection and the runner class.
- `envoy.dfy`: the Envoy test records.
- `router_check.dfy`: the conversion.
- `wrappers.dfy`: `Option`.

## Modelling choices

- **Regex engine.** It is a parameter, `Matching.RegexEngine`. It says whether a
  pattern compiles and whether a pattern matches a span `s[i..j]` of a
  candidate. `MatchString` is an unanchored search, so a regex matcher accepts
  when *some* span matches.
- **Header map order.** A Go map iterated with `range` is a sequence in the
  order the runtime happens to pick. A lemma shows the match result does not
  depend on that order. `RouterCheck.RequestHeaders` picks keys with `:|`,
  which is as unspecified as Go's map order.
- **Runner.** `TestRunner` is a class. Its `format` field is assigned by `Run`.
  `Run` keeps the details and the input count in loop variables, exactly as
  the source does. It is proved against `Unit.Execute`, a specification that
  recurses on the prefix of the test cases. The properties of the run are
  lemmas about `Execute`.
- **Formatting.** The `%v` rendering of an input (Pass/Fail lines) and the
  `%q`/`%+v` rendering of Envoy test names are function parameters.

Where this code's behaviour differs from the way Istio and Envoy route a
request, the model follows the code (`match_request.go`, `unit.go`):

- Envoy matches a `regex` StringMatch against the whole value. This code calls
  `MatchString`, which accepts when the pattern matches any part of it.
- Istio does not route a request that lacks a header a match block names. This
  code skips that condition, so the block can still match.
- Conditions are evaluated in a fixed order: headers, then URI, authority and
  method. A header that fails ends the evaluation, so a bad regex in a later
  condition raises no error.
- Istio's match blocks can also test the scheme, query parameters, port and
  other fields. This code ignores them.
- Istio follows a rule's `delegate` to another VirtualService. Route selection
  and `Run` do not, and `Run` compares neither redirects nor delegates.

## Model

| member | source | states |
|---|---|---|
| Matching.Match | internal/pkg/unit/match_request.go:24-42 | A nil matcher accepts everything. Exact is string equality and Prefix is starts-with. Regex accepts iff the pattern compiles and matches some span. An empty chosen value or an unset match type gives false. The only error is a non-compiling regex, and that error names the pattern. |
| Matching.ExactRejectsOtherCandidates | internal/pkg/unit/match_request_test.go:28-49 | An Exact matcher with a non-empty value rejects, without error, every candidate that differs from it ("/exac" against the value "/exac/"). |
| Matching.RegexMatchesAnySpan | internal/pkg/unit/match_request.go:34-39 | A compiled pattern that matches any span of the candidate makes the matcher accept it: the search is unanchored. |
| Matching.MatchHeaders | internal/pkg/unit/match_request.go:53-65 | Ok(true) iff every header the block names and the input carries is matched; absent headers are skipped. All patterns compiling rules out an error, and an error comes from a present header's matcher. |
| Matching.MatchRequest | internal/pkg/unit/match_request.go:48-80 | Ok(true) iff headers, URI, authority and method all hold. A header mismatch gives false before the other matchers run. With compilable patterns the result is exactly the AND of the conditions. |
| Matching.EmptyBlockMatchesAll | internal/pkg/unit/match_request_test.go:22-27 | A block with no conditions matches every input. |
| Matching.HeaderOrderIrrelevant | internal/pkg/unit/match_request.go:53 | Reordering the block's header map leaves "matches" unchanged. With compilable patterns it leaves the whole result unchanged. |
| VirtualServices.GetDelegatedVirtualService | internal/pkg/parser/virtualservice.go:73-83 | Returns the first VirtualService in list order with the delegate's name, and its namespace unless the delegate's is empty. Fails iff none qualifies, with an error naming the delegate. |
| VirtualServices.EmptyNamespaceMatchesByName | internal/pkg/parser/virtualservice.go:75-79 | With an empty namespace, the first VirtualService of that name is returned whatever its namespace. |
| Parser.StripQuery | internal/pkg/parser/testcase_test.go:472-487 | The result has no query component and is no longer than the URI. |
| Parser.StripQueryKeepsQueryless | internal/pkg/parser/testcase_test.go:472-487 | A URI without a query is unchanged. |
| Parser.StripQueryIdempotent | internal/pkg/parser/testcase_test.go:472-487 | Stripping twice equals stripping once. |
| Parser.StripQueryRemovesQuery | internal/pkg/parser/testcase_test.go:472-487 | path + "?" + query + fragment becomes path + fragment, so "/reseller?partner_id=12344" becomes "/reseller". |
| Parser.DropQuery | internal/pkg/parser/testcase_test.go:472-487 | Dropping the query leaves a suffix of the input that is empty or starts at the fragment delimiter. |
| Parser.DropQueryStopsAtFragment | internal/pkg/parser/testcase_test.go:472-487 | Dropping a query stops at the fragment delimiter and keeps the fragment. |
| Parser.Unfold | internal/pkg/parser/testcase_test.go:402-431 | Error priority: empty authorities first, then empty methods, then empty URIs. It succeeds iff all three lists are non-empty. |
| Parser.UnfoldProduct | internal/pkg/parser/testcase_test.go:290-401 | Yields exactly \|uris\|·\|authorities\|·\|methods\| inputs. Position (k, i, j) holds the k-th URI query-stripped, the i-th authority, the j-th method and the template's headers. |
| Parser.UnfoldMembers | internal/pkg/parser/testcase_test.go:65-88 | Every input takes its authority, method and stripped URI from the template's lists. It carries the template's headers unchanged and has no query in its URI. |
| Unit.Contains | internal/pkg/unit/unit.go:129-136 | True iff the host is in the list (exact equality). |
| Unit.MatchAnyBlock | internal/pkg/unit/unit.go:114-122 | Ok(false) iff every block evaluates to false. Otherwise the result is that of the first block that does not. |
| Unit.EvalRule | internal/pkg/unit/unit.go:111-113 | A rule without match blocks applies. |
| Unit.EvalRuleFalseIff | internal/pkg/unit/unit.go:111-122 | A rule does not apply iff it has match blocks and every block evaluates to false. |
| Unit.FindRule | internal/pkg/unit/unit.go:110-123 | Ok(None) iff every rule evaluates to "does not apply"; which rule or error it returns otherwise is stated by the lemmas below. |
| Unit.FindRuleStopsAtFirstDecisive | internal/pkg/unit/unit.go:110-123 | If rule k is the first that applies or errs, the search returns that rule or that error. |
| Unit.FindRuleHasDecisiveIndex | internal/pkg/unit/unit.go:110-123 | Conversely, any rule found or error raised comes from the first rule that does not evaluate to false. |
| Unit.FindRuleErrorIndex | internal/pkg/unit/unit.go:115-118 | A search error is the error of a rule reached after only rules that do not apply. |
| Unit.FindRuleAppend | internal/pkg/unit/unit.go:104-123 | Searching a + b searches b only when nothing in a applies or errs. |
| Unit.GetRoute | internal/pkg/unit/unit.go:103-127 | Lookup is one first-match search over the rules of the VirtualServices whose hosts contain the authority, in order: the rule found, the empty route when none applies, or the error. |
| Unit.CandidatesAreHostFiltered | internal/pkg/unit/unit.go:105-108 | A rule is a candidate iff some VirtualService whose hosts contain the authority holds it. |
| Unit.FirstApplicableRuleWins | internal/pkg/unit/unit.go:104-123 | If candidate k applies and all earlier ones evaluate to false, lookup returns exactly candidate k. |
| Unit.RuleWithoutBlocksIsFallback | internal/pkg/unit/unit.go:111-113 | A rule without match blocks is returned as soon as it is reached. |
| Unit.NoApplicableRuleGivesEmptyRoute | internal/pkg/unit/unit.go:126 | When no candidate applies and none errs, lookup returns the empty route and no error. |
| Unit.NoHostMatchGivesEmptyRoute | internal/pkg/unit/unit.go:105-108 | When no VirtualService serves the authority, lookup returns the empty route and no error. |
| Unit.LookupErrorComesFromFirstFailingRule | internal/pkg/unit/unit.go:115-118 | A lookup error is the error of the first candidate that errs, after only non-applying candidates. |
| Unit.DefaultFormatter | internal/pkg/unit/unit.go:26-35 | No Pass line equals a Fail line, and equal Pass (or Fail) lines come from equal renderings of the input. |
| Unit.CheckInput | internal/pkg/unit/unit.go:64-90 | An input passes iff lookup succeeds and the destinations always agree with wantMatch. Rewrite, fault and headers must agree too when expected. A lookup error is wrapped, and a destination disagreement is a destination mismatch. |
| Unit.WantMatchInvertsVerdict | internal/pkg/unit/unit.go:69-72 | For a test case that only expects destinations, flipping wantMatch turns a pass into a fail and back. |
| Unit.CheckInputs | internal/pkg/unit/unit.go:63-93 | The input loop prints at most one line per input, and exactly one per input when it ends without error. |
| Unit.CheckInputsPassIff | internal/pkg/unit/unit.go:63-93 | The input loop ends without error iff every input passes. It then prints exactly one Pass line per input, in order. |
| Unit.CheckInputsFailLine | internal/pkg/unit/unit.go:65-89 | A failed input loop ends with the Fail line of an input whose check produced the error. |
| Unit.CheckInputsStopsAtError | internal/pkg/unit/unit.go:63-93 | After a failing input, later inputs change nothing. |
| Unit.Execute | internal/pkg/unit/unit.go:57-99 | A run without error prints two lines per test case (running line and separator) plus one line per input counted. |
| Unit.ExecutePassesIff | internal/pkg/unit/unit.go:57-99 | A run ends without error iff every test case unfolds and all of its inputs pass. |
| Unit.PassingRunReport | internal/pkg/unit/unit.go:57-98 | A passing run prints, per test case, "running test: "+description, one Pass line per input and a separator. It counts every unfolded input. |
| Unit.ExecuteStopsAtError | internal/pkg/unit/unit.go:60-89 | The run fails fast: after an error, later test cases change nothing. |
| Unit.ExecuteDetailsGrow | internal/pkg/unit/unit.go:55-96 | Details only grow: those of a prefix of the test cases begin those of the run. |
| Unit.FailedRunEndsAtTheFailure | internal/pkg/unit/unit.go:58-89 | A failed run's last detail is the running line of a test case whose request did not unfold, or the Fail line of the input whose check failed. The error is that failure's. |
| Unit.TestRunner.constructor | internal/pkg/unit/unit.go:20-24 | The runner holds the given test cases, VirtualServices and formatter. |
| Unit.TestRunner.CheckEach | internal/pkg/unit/unit.go:63-93 | The inner loop produces the details and the error of the input-loop specification. |
| Unit.TestRunner.RunTestCase | internal/pkg/unit/unit.go:58-92 | One iteration of the outer loop produces the details, count and error of one step of the run specification. |
| Unit.TestRunner.Run | internal/pkg/unit/unit.go:50-100 | A nil formatter is replaced by the default one. Details and error are those of the run specification. The summary is empty after an error, and otherwise "Test summary:" followed by the test-case and input counts. |
| RouterCheck.Heaviest | internal/pkg/istio-router-check/cmd/root.go:234-239 | None iff every weight is negative. Otherwise it is one of the destinations and no non-negative weight exceeds its own. |
| RouterCheck.HeaviestIsLastMaximum | internal/pkg/istio-router-check/cmd/root.go:236 | Because the comparison is `>=`, the last destination of greatest weight is chosen. |
| RouterCheck.PickHeaviest | internal/pkg/istio-router-check/cmd/root.go:234-239 | The max-weight loop computes the fold. |
| RouterCheck.ClusterPort | internal/pkg/istio-router-check/cmd/root.go:241 | The printed port is never zero: a non-zero port number is kept, and a zero or missing port becomes 80. |
| RouterCheck.ParseClusterNameInverts | internal/pkg/istio-router-check/cmd/root.go:240-244 | `ClusterName`, "outbound\|port\|subset\|host", reads back the port (80 by default), subset and host, provided the subset holds no '\|'. |
| RouterCheck.ParseHierPartInverts | internal/pkg/istio-router-check/cmd/root.go:249 | "//authority/uri" reads back the authority and the URI. |
| RouterCheck.ParseRedirectURLInverts | internal/pkg/istio-router-check/cmd/root.go:246-250 | `RedirectURL` reads back as its scheme (default "https"), authority (default the input's) and URI. |
| RouterCheck.NoExpectationValidatesNothing | internal/pkg/istio-router-check/cmd/root.go:232-233 | `ValidateFor`: with no expected destinations and no redirect, cluster name and redirect stay empty. |
| RouterCheck.ConvertValidate | internal/pkg/istio-router-check/cmd/root.go:231-252 | Returns the cluster of the heaviest expected destination and the redirect URL. The error is always nil. |
| RouterCheck.RequestHeaders | internal/pkg/istio-router-check/cmd/root.go:195-198 | The header list holds each entry of the map exactly once, in some order. |
| RouterCheck.KeptInputsOkIff | internal/pkg/istio-router-check/cmd/root.go:181-185 | `KeptInputs` succeeds iff every test case unfolds, skipped ones included. Otherwise it fails with the first unfolding error, wrapped. |
| RouterCheck.KeptInputsMembers | internal/pkg/istio-router-check/cmd/root.go:186-194 | A pair `KeptInputs` yields is exactly an input of a test case with wantMatch set and no rewrite. |
| RouterCheck.KeptInputsStopsAtError | internal/pkg/istio-router-check/cmd/root.go:182-185 | After an unfolding error, later test cases change nothing. |
| RouterCheck.ConvertInputs | internal/pkg/istio-router-check/cmd/root.go:194-215 | One Envoy test per input, in order. Each has SSL on, the input's authority, method defaulting to GET, path defaulting to "/", the request headers, the converted validation and the rendered name. |
| RouterCheck.ConvertTests | internal/pkg/istio-router-check/cmd/root.go:180-216 | Fails iff some request does not unfold, with that error. Otherwise it yields one Envoy test per kept input, converted as above. |
| RouterCheck.ConvertedPathHasNoQuery | internal/pkg/istio-router-check/cmd/root.go:203 | No converted test's path carries a query component. |
| Strings.NatToString | internal/pkg/istio-router-check/cmd/root.go:241 | The rendering is a non-empty string of digits with no leading zero except for 0 itself. |
| Strings.ParseNatToString | internal/pkg/istio-router-check/cmd/root.go:240-241 | The decimal rendering of the port reads back as the port. |
| Strings.OrElse | internal/pkg/istio-router-check/cmd/root.go:247-248 | `cmp.Or`: a non-empty first argument wins; the result is one of the two and is empty only when both are. |

## Left out

- Parsing and I/O are not modelled: `parseVirtualServices`, `parseTestCases`, `parser.New`, the `unit.Run` wrapper (which also appends a file-count line), directory walking, and the JSON or YAML writing of `prepareTests`.
- Envoy route generation (routes.go, enovy.go, options.go) and the command-line programs are not part of this model.
- The RE2 engine is a parameter. Compilation and span matching are uninterpreted.
- The exact text of `%v`, `%q` and `%+v` renderings is not modelled. Pass/Fail lines render the input through a parameter, and Envoy test names come from a parameter.
- The text of the Go errors is not modelled. Each error is a constructor of `Errors.Error` carrying the values the message prints.
- Unit.CheckInput: `reflect.DeepEqual` tells a nil slice from an empty one. The model treats a missing expected route as an empty one and does not make that distinction.
- Unit.GetRoute: on a block error the source returns an empty route together with the error. The model returns only the error, since the runner ignores the route in that case.
- Parser.Unfold: the function body is not part of the shown source. The model follows its tests: Cartesian product, error priority and query stripping. The order of its output is not asserted by the tests; the model fixes URIs outermost, then authorities, then methods.
- Istio API fields the model drops: `reflect.DeepEqual` compares whole values (unit.go:74, 80, 86), and a mismatch caused only by one of these fields is not modelled. `Networking.HTTPFaultInjection` keeps the fixed delay and the HTTP abort status; it drops the delay percentage, the exponential delay, the abort percentage and the gRPC/HTTP2 abort codes. `Networking.HTTPRedirect` drops `port` and `derivePort`. `Networking.Destination` keeps host, subset and port number. `Networking.HTTPRewrite` drops `uriRegexRewrite`. `Networking.HTTPRoute` drops the route name, timeout, retries, mirror, CORS policy, direct response and the other route options. `Networking.HTTPRouteDestination` drops its `headers`.
- Nil elements inside slices (a nil `*HTTPRouteDestination` in an expected route list) are not modelled.
- Integer widths (int32 weights, uint32 ports) are unbounded integers. No arithmetic is done on them, so nothing wraps.
- RouterCheck.ConvertTests: it does not test the error of `convertValidate`, which is always nil (`RouterCheck.ConvertValidate` proves this).
