/**
 * Route selection and the test runner (internal/pkg/unit/unit.go).
 */
module Unit {
  import opened Wrappers
  import opened Errors
  import opened Networking
  import opened Parser
  import opened Matching
  import opened Strings

  /** `contains`: exact membership of a host name. */
  function Contains(s: seq<string>, e: string): (r: bool)
    ensures r <==> e in s
  {
    if s == [] then false
    else if s[0] == e then true
    else Contains(s[1..], e)
  }

  /** All blocks before index k evaluate to false without error. */
  predicate BlocksFalseBefore(re: RegexEngine, input: Input, blocks: seq<HTTPMatchRequest>, k: nat)
    requires k <= |blocks|
  {
    forall b {:trigger MatchRequest(re, input, blocks[b])} | 0 <= b < k :: MatchRequest(re, input, blocks[b]) == Ok(false)
  }

  /**
   * The block loop of one rule: the first block that matches selects the
   * rule, the first error stops the search, and false means no block matched.
   */
  function MatchAnyBlock(re: RegexEngine, input: Input, blocks: seq<HTTPMatchRequest>): (r: Result<bool>)
    ensures r == Ok(false) <==> BlocksFalseBefore(re, input, blocks, |blocks|)
    ensures r != Ok(false) ==> exists k | 0 <= k < |blocks| ::
      && BlocksFalseBefore(re, input, blocks, k)
      && MatchRequest(re, input, blocks[k]) == r
  {
    if blocks == [] then Ok(false)
    else match MatchRequest(re, input, blocks[0])
      case Err(e) => Err(e)
      case Ok(true) => Ok(true)
      case Ok(false) =>
        var r := MatchAnyBlock(re, input, blocks[1..]);
        assert r != Ok(false) ==> exists k | 0 <= k < |blocks[1..]| ::
          && BlocksFalseBefore(re, input, blocks[1..], k)
          && MatchRequest(re, input, blocks[1..][k]) == r;
        r
  }

  /**
   * Whether a rule applies: a rule with no match blocks always does; a rule
   * with blocks does not exactly when every block evaluates to false.
   */
  function EvalRule(re: RegexEngine, input: Input, rule: HTTPRoute): (r: Result<bool>)
    ensures rule.matchBlocks == [] ==> r == Ok(true)
  {
    if |rule.matchBlocks| == 0 then Ok(true) else MatchAnyBlock(re, input, rule.matchBlocks)
  }

  /** A rule does not apply exactly when it has match blocks and every one of them evaluates to false. */
  lemma EvalRuleFalseIff(re: RegexEngine, input: Input, rule: HTTPRoute)
    ensures EvalRule(re, input, rule) == Ok(false) <==>
      rule.matchBlocks != [] && BlocksFalseBefore(re, input, rule.matchBlocks, |rule.matchBlocks|)
  {
  }

  /** All rules before index k evaluate to "does not apply" without error. */
  predicate RulesFalseBefore(re: RegexEngine, input: Input, rules: seq<HTTPRoute>, k: nat)
    requires k <= |rules|
  {
    forall b {:trigger EvalRule(re, input, rules[b])} | 0 <= b < k :: EvalRule(re, input, rules[b]) == Ok(false)
  }

  /** Unfolds `RulesFalseBefore` by one rule. */
  lemma RulesFalseBeforeCons(re: RegexEngine, input: Input, rules: seq<HTTPRoute>, k: nat)
    requires 0 < k <= |rules|
    ensures RulesFalseBefore(re, input, rules, k) <==>
      EvalRule(re, input, rules[0]) == Ok(false) && RulesFalseBefore(re, input, rules[1..], k - 1)
  {
    assert forall b | 0 <= b < k - 1 :: rules[1..][b] == rules[b + 1];
  }

  /**
   * The rule loop: the first applicable rule in order, None when no rule
   * applies, or the first error a block raised.
   */
  function FindRule(re: RegexEngine, input: Input, rules: seq<HTTPRoute>): (r: Result<Option<HTTPRoute>>)
    ensures r == Ok(None) <==> RulesFalseBefore(re, input, rules, |rules|)
  {
    if rules == [] then Ok(None)
    else
      RulesFalseBeforeCons(re, input, rules, |rules|);
      match EvalRule(re, input, rules[0])
      case Err(e) => Err(e)
      case Ok(true) => Ok(Some(rules[0]))
      case Ok(false) => FindRule(re, input, rules[1..])
  }

  /** What the first rule that does not evaluate to false decides is what the search returns. */
  function Decision(rule: HTTPRoute, outcome: Result<bool>): Result<Option<HTTPRoute>> {
    match outcome
    case Err(e) => Err(e)
    case Ok(b) => if b then Ok(Some(rule)) else Ok(None)
  }

  /** First decisive rule wins: the search stops at the first rule that applies or errs. */
  lemma {:induction false} FindRuleStopsAtFirstDecisive(re: RegexEngine, input: Input, rules: seq<HTTPRoute>, k: nat)
    requires k < |rules| && RulesFalseBefore(re, input, rules, k)
    requires EvalRule(re, input, rules[k]) != Ok(false)
    ensures FindRule(re, input, rules) == Decision(rules[k], EvalRule(re, input, rules[k]))
  {
    if k > 0 {
      RulesFalseBeforeCons(re, input, rules, k);
      assert FindRule(re, input, rules) == FindRule(re, input, rules[1..]);
      assert rules[1..][k - 1] == rules[k];
      FindRuleStopsAtFirstDecisive(re, input, rules[1..], k - 1);
    }
  }

  /** Conversely, a rule found or an error raised comes from the first decisive rule. */
  lemma {:induction false} FindRuleHasDecisiveIndex(re: RegexEngine, input: Input, rules: seq<HTTPRoute>)
    requires FindRule(re, input, rules) != Ok(None)
    ensures exists k | 0 <= k < |rules| ::
      && RulesFalseBefore(re, input, rules, k)
      && EvalRule(re, input, rules[k]) != Ok(false)
      && FindRule(re, input, rules) == Decision(rules[k], EvalRule(re, input, rules[k]))
  {
    if EvalRule(re, input, rules[0]) != Ok(false) {
      assert RulesFalseBefore(re, input, rules, 0);
    } else {
      FindRuleHasDecisiveIndex(re, input, rules[1..]);
      var k :| 0 <= k < |rules[1..]| && RulesFalseBefore(re, input, rules[1..], k)
        && EvalRule(re, input, rules[1..][k]) != Ok(false)
        && FindRule(re, input, rules[1..]) == Decision(rules[1..][k], EvalRule(re, input, rules[1..][k]));
      RulesFalseBeforeCons(re, input, rules, k + 1);
      assert rules[1..][k] == rules[k + 1];
    }
  }

  /**
   * `GetRoute`: over the VirtualServices whose hosts contain the input's
   * authority, in order, the first rule that applies; the empty route when
   * none does; the error of the first block evaluation that fails. The nested
   * VirtualService / rule / block loops are one first-match search over the
   * candidate rules: host filtering, then first match wins.
   */
  function GetRoute(re: RegexEngine, input: Input, virtualServices: seq<VirtualService>): (r: Result<HTTPRoute>)
    ensures r == RouteOf(FindRule(re, input, Candidates(input.authority, virtualServices)))
  {
    if virtualServices == [] then Ok(EmptyRoute)
    else
      var vs := virtualServices[0];
      FindRuleAppend(re, input, if input.authority in vs.hosts then vs.http else [], Candidates(input.authority, virtualServices[1..]));
      if !Contains(vs.hosts, input.authority) then GetRoute(re, input, virtualServices[1..])
      else match FindRule(re, input, vs.http)
        case Err(e) => Err(e)
        case Ok(Some(rule)) => Ok(rule)
        case Ok(None) => GetRoute(re, input, virtualServices[1..])
  }

  /** The rules route lookup considers, in the order it considers them: those of the VirtualServices serving the authority. */
  function Candidates(authority: string, virtualServices: seq<VirtualService>): seq<HTTPRoute> {
    if virtualServices == [] then []
    else (if authority in virtualServices[0].hosts then virtualServices[0].http else [])
         + Candidates(authority, virtualServices[1..])
  }

  /** The lookup outcome for the outcome of the rule search. */
  function RouteOf(found: Result<Option<HTTPRoute>>): Result<HTTPRoute> {
    match found
    case Err(e) => Err(e)
    case Ok(None) => Ok(EmptyRoute)
    case Ok(Some(rule)) => Ok(rule)
  }

  lemma {:induction false} FindRuleAppend(re: RegexEngine, input: Input, a: seq<HTTPRoute>, b: seq<HTTPRoute>)
    ensures FindRule(re, input, a + b) == if FindRule(re, input, a) == Ok(None) then FindRule(re, input, b) else FindRule(re, input, a)
  {
    if a != [] {
      assert (a + b)[0] == a[0] && (a + b)[1..] == a[1..] + b;
      FindRuleAppend(re, input, a[1..], b);
    } else {
      assert a + b == b;
    }
  }

  /** Only VirtualServices whose hosts contain the authority contribute rules, and all of their rules do. */
  lemma {:induction false} CandidatesAreHostFiltered(authority: string, virtualServices: seq<VirtualService>, rule: HTTPRoute)
    ensures rule in Candidates(authority, virtualServices) <==>
      exists vs | vs in virtualServices :: authority in vs.hosts && rule in vs.http
  {
    if virtualServices != [] {
      CandidatesAreHostFiltered(authority, virtualServices[1..], rule);
      assert forall vs | vs in virtualServices :: vs == virtualServices[0] || vs in virtualServices[1..];
    }
  }

  /**
   * First match wins: if the k-th candidate rule applies and every earlier one
   * evaluates to false, route lookup returns exactly that rule. A rule with no
   * match blocks applies as soon as it is reached.
   */
  lemma FirstApplicableRuleWins(re: RegexEngine, input: Input, virtualServices: seq<VirtualService>, k: nat)
    requires var c := Candidates(input.authority, virtualServices);
      k < |c| && RulesFalseBefore(re, input, c, k) && EvalRule(re, input, c[k]) == Ok(true)
    ensures GetRoute(re, input, virtualServices) == Ok(Candidates(input.authority, virtualServices)[k])
  {
    FindRuleStopsAtFirstDecisive(re, input, Candidates(input.authority, virtualServices), k);
  }

  /** A rule without match blocks is an unconditional fallback: once reached, it is returned. */
  lemma RuleWithoutBlocksIsFallback(re: RegexEngine, input: Input, virtualServices: seq<VirtualService>, k: nat)
    requires var c := Candidates(input.authority, virtualServices);
      k < |c| && RulesFalseBefore(re, input, c, k) && c[k].matchBlocks == []
    ensures GetRoute(re, input, virtualServices) == Ok(Candidates(input.authority, virtualServices)[k])
  {
    FirstApplicableRuleWins(re, input, virtualServices, k);
  }

  /** When no candidate rule applies and no block errs, route lookup returns the empty route and no error. */
  lemma NoApplicableRuleGivesEmptyRoute(re: RegexEngine, input: Input, virtualServices: seq<VirtualService>)
    requires var c := Candidates(input.authority, virtualServices); RulesFalseBefore(re, input, c, |c|)
    ensures GetRoute(re, input, virtualServices) == Ok(EmptyRoute)
  {
  }

  /** A VirtualService that does not serve the authority is never consulted. */
  lemma {:induction false} NoHostMatchGivesEmptyRoute(re: RegexEngine, input: Input, virtualServices: seq<VirtualService>)
    requires forall vs | vs in virtualServices :: input.authority !in vs.hosts
    ensures GetRoute(re, input, virtualServices) == Ok(EmptyRoute)
  {
    if virtualServices != [] {
      NoHostMatchGivesEmptyRoute(re, input, virtualServices[1..]);
    }
  }

  /** A lookup error is the error of the first failing block evaluation, after only non-applying candidates. */
  lemma {:induction false} LookupErrorComesFromFirstFailingRule(re: RegexEngine, input: Input, virtualServices: seq<VirtualService>)
    requires GetRoute(re, input, virtualServices).Err?
    ensures exists k | 0 <= k < |Candidates(input.authority, virtualServices)| ::
      && RulesFalseBefore(re, input, Candidates(input.authority, virtualServices), k)
      && EvalRule(re, input, Candidates(input.authority, virtualServices)[k]) == Err(GetRoute(re, input, virtualServices).error)
  {
    var c := Candidates(input.authority, virtualServices);
    var found := FindRule(re, input, c);
    assert GetRoute(re, input, virtualServices) == RouteOf(found);
    assert found.Err? && found.error == GetRoute(re, input, virtualServices).error;
    FindRuleErrorIndex(re, input, c);
    var k :| 0 <= k < |c| && RulesFalseBefore(re, input, c, k) && EvalRule(re, input, c[k]) == Err(found.error);
    assert EvalRule(re, input, c[k]) == Err(GetRoute(re, input, virtualServices).error);
    assert RulesFalseBefore(re, input, c, k);
  }

  /** A search error is the error of a rule reached after only non-applying rules. */
  lemma {:induction false} FindRuleErrorIndex(re: RegexEngine, input: Input, rules: seq<HTTPRoute>)
    requires FindRule(re, input, rules).Err?
    ensures exists k | 0 <= k < |rules| ::
      RulesFalseBefore(re, input, rules, k) && EvalRule(re, input, rules[k]) == Err(FindRule(re, input, rules).error)
  {
    if EvalRule(re, input, rules[0]) != Ok(false) {
      assert RulesFalseBefore(re, input, rules, 0);
    } else {
      FindRuleErrorIndex(re, input, rules[1..]);
      var k :| 0 <= k < |rules[1..]| && RulesFalseBefore(re, input, rules[1..], k)
        && EvalRule(re, input, rules[1..][k]) == Err(FindRule(re, input, rules[1..]).error);
      RulesFalseBeforeCons(re, input, rules, k + 1);
      assert rules[1..][k] == rules[k + 1];
    }
  }

  // ---------------------------------------------------------------------------
  // The test runner
  // ---------------------------------------------------------------------------

  /** The lines a run prints for one input that passes or fails. */
  datatype Formatter = Formatter(pass: Input -> string, fail: Input -> string)

  /** The default formatter, over a rendering of the input (Go's `%v`). */
  function DefaultFormatter(render: Input -> string): (f: Formatter)
    ensures forall x, y :: f.pass(x) != f.fail(y)
    ensures forall x, y :: f.pass(x) == f.pass(y) ==> render(x) == render(y)
    ensures forall x, y :: f.fail(x) == f.fail(y) ==> render(x) == render(y)
  {
    assert forall x, y :: Framed("Pass input:[", render(x)) != Framed("FAIL input:[", render(y)) by {
      forall x, y ensures Framed("Pass input:[", render(x)) != Framed("FAIL input:[", render(y)) {
        assert Framed("Pass input:[", render(x))[..12] == "Pass input:[";
        assert Framed("FAIL input:[", render(y))[..12] == "FAIL input:[";
      }
    }
    Formatter(x => Framed("Pass input:[", render(x)), x => Framed("FAIL input:[", render(x)))
  }

  /** A rendering between a fixed opening and a closing "]"; the rendering can be read back. */
  function Framed(opening: string, rendering: string): (r: string)
    ensures |r| == |opening| + |rendering| + 1
    ensures r[..|opening|] == opening && r[|opening|..|r| - 1] == rendering
  {
    opening + rendering + "]"
  }

  const Separator: string := "==========================="

  function RunningLine(tc: TestCase): string {
    "running test: " + tc.description
  }

  /** The expected destinations; a nil expectation is compared as no destinations. */
  function ExpectedRoute(tc: TestCase): seq<HTTPRouteDestination> {
    tc.route.GetOr([])
  }

  /**
   * One expectation agrees with the selected route when equality of the
   * actual and expected values is what `wantMatch` asks for.
   */
  predicate Agrees<T(==)>(actual: T, expected: T, wantMatch: bool) {
    (actual == expected) == wantMatch
  }

  /** The comparisons of one input: destinations always, the others only when expected. */
  predicate RouteAgrees(route: HTTPRoute, tc: TestCase) {
    && Agrees(route.route, ExpectedRoute(tc), tc.wantMatch)
    && (tc.rewrite.Some? ==> Agrees(route.rewrite, tc.rewrite, tc.wantMatch))
    && (tc.fault.Some? ==> Agrees(route.fault, tc.fault, tc.wantMatch))
    && (tc.headers.Some? ==> Agrees(route.headers, tc.headers, tc.wantMatch))
  }

  /**
   * Checks one input of a test case: None when it passes, otherwise the error
   * of the first failed step (lookup, destinations, rewrite, fault, headers).
   */
  function CheckInput(re: RegexEngine, virtualServices: seq<VirtualService>, tc: TestCase, input: Input): (r: Option<Error>)
    ensures r.None? <==> GetRoute(re, input, virtualServices).Ok? && RouteAgrees(GetRoute(re, input, virtualServices).value, tc)
    ensures GetRoute(re, input, virtualServices).Err? ==> r == Some(RouteLookupFailed(GetRoute(re, input, virtualServices).error))
    ensures GetRoute(re, input, virtualServices).Ok? && !Agrees(GetRoute(re, input, virtualServices).value.route, ExpectedRoute(tc), tc.wantMatch)
      ==> r.Some? && r.value.DestinationMismatch?
  {
    match GetRoute(re, input, virtualServices)
    case Err(e) => Some(RouteLookupFailed(e))
    case Ok(route) =>
      if !Agrees(route.route, ExpectedRoute(tc), tc.wantMatch) then
        Some(DestinationMismatch(route.route, ExpectedRoute(tc), route.matchBlocks))
      else if tc.rewrite.Some? && !Agrees(route.rewrite, tc.rewrite, tc.wantMatch) then
        Some(RewriteMismatch(route.rewrite, tc.rewrite, route.matchBlocks))
      else if tc.fault.Some? && !Agrees(route.fault, tc.fault, tc.wantMatch) then
        Some(FaultMismatch(route.fault, tc.fault, route.matchBlocks))
      else if tc.headers.Some? && !Agrees(route.headers, tc.headers, tc.wantMatch) then
        Some(HeadersMismatch(route.headers, tc.headers, route.matchBlocks))
      else None
  }

  /** Flipping `wantMatch` on a test case that only expects destinations turns every pass into a fail and back. */
  lemma WantMatchInvertsVerdict(re: RegexEngine, virtualServices: seq<VirtualService>, tc: TestCase, input: Input)
    requires GetRoute(re, input, virtualServices).Ok?
    requires tc.rewrite.None? && tc.fault.None? && tc.headers.None?
    ensures CheckInput(re, virtualServices, tc, input).None? <==>
            CheckInput(re, virtualServices, tc.(wantMatch := !tc.wantMatch), input).Some?
  {
  }

  /** The details and the error so far of a run (or of the inputs of one test case). */
  datatype Report = Report(details: seq<string>, err: Option<Error>)

  /**
   * The inner loop over the inputs of one test case, as a function of its
   * prefix: a Pass line per passing input; at the first failing input a Fail
   * line and that input's error, after which nothing more happens.
   */
  function CheckInputs(re: RegexEngine, virtualServices: seq<VirtualService>, f: Formatter, tc: TestCase, inputs: seq<Input>): (r: Report)
    ensures |r.details| <= |inputs|
    ensures r.err.None? ==> |r.details| == |inputs|
  {
    if inputs == [] then Report([], None)
    else
      var p := CheckInputs(re, virtualServices, f, tc, inputs[..|inputs| - 1]);
      var x := inputs[|inputs| - 1];
      if p.err.Some? then p
      else match CheckInput(re, virtualServices, tc, x)
        case None => Report(p.details + [f.pass(x)], None)
        case Some(e) => Report(p.details + [f.fail(x)], Some(e))
  }

  /** The state of the outer loop: details, inputs counted and the error that ended the run, if any. */
  datatype Progress = Progress(details: seq<string>, inputCount: nat, err: Option<Error>)

  /** One test case run from a state without error. */
  function RunCase(re: RegexEngine, virtualServices: seq<VirtualService>, f: Formatter, p: Progress, tc: TestCase): Progress {
    var details := p.details + [RunningLine(tc)];
    match Unfold(tc.request)
    case Err(e) => Progress(details, p.inputCount, Some(e))
    case Ok(inputs) =>
      var q := CheckInputs(re, virtualServices, f, tc, inputs);
      if q.err.Some? then Progress(details + q.details, p.inputCount, q.err)
      else Progress(details + q.details + [Separator], p.inputCount + |inputs|, None)
  }

  /** The outer loop over test cases, as a function of its prefix; an error ends the run. */
  function Execute(re: RegexEngine, virtualServices: seq<VirtualService>, f: Formatter, cases: seq<TestCase>): (r: Progress)
    ensures r.err.None? ==> |r.details| == 2 * |cases| + r.inputCount
  {
    if cases == [] then Progress([], 0, None)
    else
      var p := Execute(re, virtualServices, f, cases[..|cases| - 1]);
      if p.err.Some? then p
      else RunCase(re, virtualServices, f, p, cases[|cases| - 1])
  }

  /** The two summary lines of a passing run. */
  function Summary(caseCount: nat, inputCount: nat): seq<string> {
    ["Test summary:", " - " + NatToString(caseCount) + " testcases with " + NatToString(inputCount) + " inputs passed"]
  }

  /** An input passes when it is checked without error. */
  predicate InputPasses(re: RegexEngine, virtualServices: seq<VirtualService>, tc: TestCase, x: Input) {
    CheckInput(re, virtualServices, tc, x).None?
  }

  /** A test case passes when its request unfolds and every input passes. */
  predicate CasePasses(re: RegexEngine, virtualServices: seq<VirtualService>, tc: TestCase) {
    Unfold(tc.request).Ok? && forall x | x in Unfold(tc.request).value :: InputPasses(re, virtualServices, tc, x)
  }

  /** The Pass lines of a sequence of inputs, in order. */
  function PassLines(f: Formatter, inputs: seq<Input>): (r: seq<string>)
    ensures |r| == |inputs| && forall k | 0 <= k < |inputs| :: r[k] == f.pass(inputs[k])
  {
    if inputs == [] then [] else PassLines(f, inputs[..|inputs| - 1]) + [f.pass(inputs[|inputs| - 1])]
  }

  /** The inputs of a test case all pass exactly when their loop ends without error, having printed only Pass lines. */
  lemma {:induction false} CheckInputsPassIff(re: RegexEngine, virtualServices: seq<VirtualService>, f: Formatter, tc: TestCase, inputs: seq<Input>)
    ensures CheckInputs(re, virtualServices, f, tc, inputs).err.None? <==> forall x | x in inputs :: InputPasses(re, virtualServices, tc, x)
    ensures CheckInputs(re, virtualServices, f, tc, inputs).err.None? ==> CheckInputs(re, virtualServices, f, tc, inputs).details == PassLines(f, inputs)
  {
    if inputs != [] {
      var init := inputs[..|inputs| - 1];
      var last := inputs[|inputs| - 1];
      CheckInputsPassIff(re, virtualServices, f, tc, init);
      assert forall x | x in inputs :: x in init || x == last;
      if CheckInputs(re, virtualServices, f, tc, init).err.Some? {
        var y :| y in init && !InputPasses(re, virtualServices, tc, y);
        assert y in inputs;
      } else if !InputPasses(re, virtualServices, tc, last) {
        assert last in inputs;
      }
    }
  }

  /** The details a passing run prints for a sequence of test cases. */
  function PassReport(f: Formatter, cases: seq<TestCase>): seq<string>
    requires forall tc | tc in cases :: Unfold(tc.request).Ok?
  {
    if cases == [] then []
    else
      var tc := cases[|cases| - 1];
      PassReport(f, cases[..|cases| - 1]) + [RunningLine(tc)] + PassLines(f, Unfold(tc.request).value) + [Separator]
  }

  /** The number of inputs a passing run counts. */
  function TotalInputs(cases: seq<TestCase>): nat
    requires forall tc | tc in cases :: Unfold(tc.request).Ok?
  {
    if cases == [] then 0 else TotalInputs(cases[..|cases| - 1]) + |Unfold(cases[|cases| - 1].request).value|
  }

  /** A run passes exactly when every test case passes. */
  lemma {:induction false} ExecutePassesIff(re: RegexEngine, virtualServices: seq<VirtualService>, f: Formatter, cases: seq<TestCase>)
    ensures Execute(re, virtualServices, f, cases).err.None? <==> forall tc | tc in cases :: CasePasses(re, virtualServices, tc)
  {
    if cases != [] {
      var init := cases[..|cases| - 1];
      var tc := cases[|cases| - 1];
      ExecutePassesIff(re, virtualServices, f, init);
      assert forall c | c in cases :: c in init || c == tc;
      if Execute(re, virtualServices, f, init).err.Some? {
        var c :| c in init && !CasePasses(re, virtualServices, c);
        assert c in cases;
      } else {
        assert Execute(re, virtualServices, f, cases) == RunCase(re, virtualServices, f, Execute(re, virtualServices, f, init), tc);
        if Unfold(tc.request).Ok? {
          CheckInputsPassIff(re, virtualServices, f, tc, Unfold(tc.request).value);
        }
        assert tc in cases;
      }
    }
  }

  /**
   * A passing run prints, per test case, the running line, one Pass line per
   * unfolded input and a separator, and counts every unfolded input.
   */
  lemma {:induction false} PassingRunReport(re: RegexEngine, virtualServices: seq<VirtualService>, f: Formatter, cases: seq<TestCase>)
    requires forall tc | tc in cases :: CasePasses(re, virtualServices, tc)
    ensures Execute(re, virtualServices, f, cases).err.None?
    ensures forall tc | tc in cases :: Unfold(tc.request).Ok?
    ensures Execute(re, virtualServices, f, cases).details == PassReport(f, cases)
    ensures Execute(re, virtualServices, f, cases).inputCount == TotalInputs(cases)
  {
    if cases != [] {
      var init := cases[..|cases| - 1];
      var tc := cases[|cases| - 1];
      assert forall c | c in init :: c in cases;
      PassingRunReport(re, virtualServices, f, init);
      assert tc in cases;
      CheckInputsPassIff(re, virtualServices, f, tc, Unfold(tc.request).value);
    }
  }

  /** Once a run has failed, later test cases change nothing: the run fails fast. */
  lemma {:induction false} ExecuteStopsAtError(re: RegexEngine, virtualServices: seq<VirtualService>, f: Formatter, cases: seq<TestCase>, k: nat)
    requires k <= |cases| && Execute(re, virtualServices, f, cases[..k]).err.Some?
    ensures Execute(re, virtualServices, f, cases) == Execute(re, virtualServices, f, cases[..k])
  {
    if k < |cases| {
      var init := cases[..|cases| - 1];
      assert init[..k] == cases[..k];
      ExecuteStopsAtError(re, virtualServices, f, init, k);
    } else {
      assert cases[..k] == cases;
    }
  }

  /** One more test case after a prefix without error is one more `RunCase`. */
  lemma {:induction false} ExecuteStep(re: RegexEngine, virtualServices: seq<VirtualService>, f: Formatter, cases: seq<TestCase>, i: nat)
    requires i < |cases| && Execute(re, virtualServices, f, cases[..i]).err.None?
    ensures Execute(re, virtualServices, f, cases[..i + 1]) == RunCase(re, virtualServices, f, Execute(re, virtualServices, f, cases[..i]), cases[i])
  {
    assert cases[..i + 1][..i] == cases[..i];
  }

  /** Details only grow: the details of a prefix of the test cases begin the details of the whole run. */
  lemma {:induction false} ExecuteDetailsGrow(re: RegexEngine, virtualServices: seq<VirtualService>, f: Formatter, cases: seq<TestCase>, k: nat)
    requires k <= |cases|
    ensures Execute(re, virtualServices, f, cases[..k]).details <= Execute(re, virtualServices, f, cases).details
  {
    if k < |cases| {
      var init := cases[..|cases| - 1];
      assert init[..k] == cases[..k];
      ExecuteDetailsGrow(re, virtualServices, f, init, k);
    } else {
      assert cases[..k] == cases;
    }
  }

  /**
   * The last detail line of a failed test case: its running line when its
   * request does not unfold, else the Fail line of an input whose check
   * produced the error.
   */
  predicate FailureLine(re: RegexEngine, virtualServices: seq<VirtualService>, f: Formatter, tc: TestCase, line: string, err: Error) {
    match Unfold(tc.request)
    case Err(e) => line == RunningLine(tc) && err == e
    case Ok(inputs) => exists x | x in inputs :: line == f.fail(x) && CheckInput(re, virtualServices, tc, x) == Some(err)
  }

  /** A failed run ends its details with the line reporting the failure, and its error is that failure's. */
  lemma {:induction false} FailedRunEndsAtTheFailure(re: RegexEngine, virtualServices: seq<VirtualService>, f: Formatter, cases: seq<TestCase>)
    requires Execute(re, virtualServices, f, cases).err.Some?
    ensures var p := Execute(re, virtualServices, f, cases);
      p.details != [] && exists tc | tc in cases :: FailureLine(re, virtualServices, f, tc, p.details[|p.details| - 1], p.err.value)
  {
    var init := cases[..|cases| - 1];
    var tc := cases[|cases| - 1];
    var p := Execute(re, virtualServices, f, cases);
    if Execute(re, virtualServices, f, init).err.Some? {
      FailedRunEndsAtTheFailure(re, virtualServices, f, init);
      var tc' :| tc' in init && FailureLine(re, virtualServices, f, tc', p.details[|p.details| - 1], p.err.value);
      assert tc' in cases;
    } else {
      assert p == RunCase(re, virtualServices, f, Execute(re, virtualServices, f, init), tc);
      FailedCaseEndsAtItsFailure(re, virtualServices, f, Execute(re, virtualServices, f, init), tc);
      assert tc in cases;
    }
  }

  /** A test case that fails ends the details with the line reporting its failure. */
  lemma {:induction false} FailedCaseEndsAtItsFailure(re: RegexEngine, virtualServices: seq<VirtualService>, f: Formatter, before: Progress, tc: TestCase)
    requires before.err.None? && RunCase(re, virtualServices, f, before, tc).err.Some?
    ensures var p := RunCase(re, virtualServices, f, before, tc);
      p.details != [] && FailureLine(re, virtualServices, f, tc, p.details[|p.details| - 1], p.err.value)
  {
    if Unfold(tc.request).Ok? {
      var inputs := Unfold(tc.request).value;
      var p := RunCase(re, virtualServices, f, before, tc);
      var q := CheckInputs(re, virtualServices, f, tc, inputs);
      assert q.err.Some? && p.details == before.details + [RunningLine(tc)] + q.details && p.err == q.err;
      var x := CheckInputsFailLine(re, virtualServices, f, tc, inputs);
      assert p.details[|p.details| - 1] == q.details[|q.details| - 1];
    }
  }

  /** A failing input loop ends its details with the Fail line of the input whose check produced the error. */
  lemma {:induction false} CheckInputsFailLine(re: RegexEngine, virtualServices: seq<VirtualService>, f: Formatter, tc: TestCase, inputs: seq<Input>) returns (x: Input)
    requires CheckInputs(re, virtualServices, f, tc, inputs).err.Some?
    ensures var q := CheckInputs(re, virtualServices, f, tc, inputs);
      x in inputs && q.details != [] && q.details[|q.details| - 1] == f.fail(x) && CheckInput(re, virtualServices, tc, x) == q.err
  {
    var init := inputs[..|inputs| - 1];
    if CheckInputs(re, virtualServices, f, tc, init).err.Some? {
      x := CheckInputsFailLine(re, virtualServices, f, tc, init);
    } else {
      x := inputs[|inputs| - 1];
    }
  }

  /** One more input after a prefix without error: its Pass line, or its Fail line and its error. */
  lemma {:induction false} CheckInputsStep(re: RegexEngine, virtualServices: seq<VirtualService>, f: Formatter, tc: TestCase, inputs: seq<Input>, j: nat)
    requires j < |inputs| && CheckInputs(re, virtualServices, f, tc, inputs[..j]).err.None?
    ensures var lines := CheckInputs(re, virtualServices, f, tc, inputs[..j]).details;
      CheckInputs(re, virtualServices, f, tc, inputs[..j + 1]) ==
        if CheckInput(re, virtualServices, tc, inputs[j]).Some?
        then Report(lines + [f.fail(inputs[j])], CheckInput(re, virtualServices, tc, inputs[j]))
        else Report(lines + [f.pass(inputs[j])], None)
  {
    assert inputs[..j + 1][..j] == inputs[..j];
  }

  /** Once an input has failed, later inputs change nothing. */
  lemma {:induction false} CheckInputsStopsAtError(re: RegexEngine, virtualServices: seq<VirtualService>, f: Formatter, tc: TestCase, inputs: seq<Input>, k: nat)
    requires k <= |inputs| && CheckInputs(re, virtualServices, f, tc, inputs[..k]).err.Some?
    ensures CheckInputs(re, virtualServices, f, tc, inputs) == CheckInputs(re, virtualServices, f, tc, inputs[..k])
  {
    if k < |inputs| {
      var init := inputs[..|inputs| - 1];
      assert init[..k] == inputs[..k];
      CheckInputsStopsAtError(re, virtualServices, f, tc, init, k);
    } else {
      assert inputs[..k] == inputs;
    }
  }

  /** The runner: test cases, the VirtualServices they are checked against and an optional formatter. */
  class TestRunner {
    var testCases: seq<TestCase>
    var virtualServices: seq<VirtualService>
    var format: Option<Formatter>

    constructor (testCases: seq<TestCase>, virtualServices: seq<VirtualService>, format: Option<Formatter>)
      ensures this.testCases == testCases && this.virtualServices == virtualServices && this.format == format
    {
      this.testCases := testCases;
      this.virtualServices := virtualServices;
      this.format := format;
    }

    /**
     * The inner loop of `Run` over the inputs of one test case: a Pass line per
     * passing input, and at the first failing input its Fail line and error.
     */
    method CheckEach(re: RegexEngine, f: Formatter, tc: TestCase, inputs: seq<Input>) returns (report: Report)
      ensures report == CheckInputs(re, virtualServices, f, tc, inputs)
    {
      var lines := [];
      var j := 0;
      while j < |inputs|
        invariant 0 <= j <= |inputs|
        invariant CheckInputs(re, virtualServices, f, tc, inputs[..j]) == Report(lines, None)
      {
        var x := inputs[j];
        var failure := CheckInput(re, virtualServices, tc, x);
        CheckInputsStep(re, virtualServices, f, tc, inputs, j);
        if failure.Some? {
          CheckInputsStopsAtError(re, virtualServices, f, tc, inputs, j + 1);
          return Report(lines + [f.fail(x)], failure);
        }
        lines := lines + [f.pass(x)];
        j := j + 1;
      }
      assert inputs[..j] == inputs;
      return Report(lines, None);
    }

    /**
     * The body of `Run`'s loop for one test case, after a run without error so
     * far: its running line, then an unfolding error, or its inputs' lines and
     * either their error or the separator and the inputs counted.
     */
    method RunTestCase(re: RegexEngine, f: Formatter, tc: TestCase, details: seq<string>, inputCount: nat)
      returns (details': seq<string>, inputCount': nat, err: Option<Error>)
      ensures Progress(details', inputCount', err) == RunCase(re, virtualServices, f, Progress(details, inputCount, None), tc)
    {
      details', inputCount' := details + [RunningLine(tc)], inputCount;
      var unfolded := Unfold(tc.request);
      if unfolded.Err? {
        err := Some(unfolded.error);
        return;
      }
      var report := CheckEach(re, f, tc, unfolded.value);
      details' := details' + report.details;
      if report.err.Some? {
        err := report.err;
        return;
      }
      inputCount' := inputCount' + |unfolded.value|;
      details' := details' + [Separator];
      err := None;
    }

    /**
     * Runs every test case in order. A missing formatter is replaced by the
     * default one. The details and the error are those of `Execute`; the
     * summary is empty after an error and the two summary lines otherwise.
     */
    method Run(re: RegexEngine, render: Input -> string) returns (summary: seq<string>, details: seq<string>, err: Option<Error>)
      modifies this`format
      ensures format == if old(format).None? then Some(DefaultFormatter(render)) else old(format)
      ensures details == Execute(re, virtualServices, format.value, testCases).details
      ensures err == Execute(re, virtualServices, format.value, testCases).err
      ensures summary == if err.None? then Summary(|testCases|, Execute(re, virtualServices, format.value, testCases).inputCount) else []
    {
      if format.None? {
        format := Some(DefaultFormatter(render));
      }
      var f := format.value;
      summary, details, err := [], [], None;
      var inputCount: nat := 0;
      var i := 0;
      while i < |testCases|
        invariant 0 <= i <= |testCases|
        invariant format == Some(f) && err.None?
        invariant Execute(re, virtualServices, f, testCases[..i]) == Progress(details, inputCount, None)
      {
        ExecuteStep(re, virtualServices, f, testCases, i);
        details, inputCount, err := RunTestCase(re, f, testCases[i], details, inputCount);
        if err.Some? {
          ExecuteStopsAtError(re, virtualServices, f, testCases, i + 1);
          return;
        }
        i := i + 1;
      }
      assert testCases[..i] == testCases;
      summary := Summary(|testCases|, inputCount);
    }
  }
}
