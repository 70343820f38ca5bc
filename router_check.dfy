/**
 * Conversion of test cases into Envoy router-check tests
 * (internal/pkg/istio-router-check/cmd/root.go: the loop of `prepareTests`
 * and `convertValidate`).
 */
module RouterCheck {
  import opened Wrappers
  import opened Errors
  import opened Networking
  import opened Strings
  import Parser
  import Envoy

  /** `GetWeight` on a possibly nil destination: a nil one weighs 0. */
  function WeightOf(r: Option<HTTPRouteDestination>): int {
    if r.None? then 0 else r.value.weight
  }

  /**
   * The max-weight fold of `convertValidate`: starting from nil, a destination
   * replaces the current one when its weight is at least the current weight.
   */
  function Heaviest(routes: seq<HTTPRouteDestination>): (r: Option<HTTPRouteDestination>)
    ensures r.None? <==> forall k | 0 <= k < |routes| :: routes[k].weight < 0
    ensures r.Some? ==> exists k | 0 <= k < |routes| :: r.value == routes[k]
    ensures forall k | 0 <= k < |routes| && routes[k].weight >= 0 :: routes[k].weight <= WeightOf(r)
  {
    if routes == [] then None
    else
      var best := Heaviest(routes[..|routes| - 1]);
      var last := routes[|routes| - 1];
      if last.weight >= WeightOf(best) then Some(last) else best
  }

  /** Among equal greatest weights the last one wins, because the comparison is `>=`. */
  lemma {:induction false} HeaviestIsLastMaximum(routes: seq<HTTPRouteDestination>, k: nat)
    requires k < |routes| && routes[k].weight >= 0
    requires forall l | 0 <= l < |routes| :: routes[l].weight <= routes[k].weight
    requires forall l | k < l < |routes| :: routes[l].weight < routes[k].weight
    ensures Heaviest(routes) == Some(routes[k])
  {
    if k < |routes| - 1 {
      HeaviestIsLastMaximum(routes[..|routes| - 1], k);
    }
  }

  /** The max-weight loop itself. */
  method PickHeaviest(routes: seq<HTTPRouteDestination>) returns (route: Option<HTTPRouteDestination>)
    ensures route == Heaviest(routes)
  {
    route := None;
    for i := 0 to |routes|
      invariant route == Heaviest(routes[..i])
    {
      assert routes[..i + 1][..i] == routes[..i];
      if routes[i].weight >= WeightOf(route) {
        route := Some(routes[i]);
      }
    }
    assert routes[..|routes|] == routes;
  }

  /** The port printed in a cluster name: the destination's port number, 80 when it is zero or absent. */
  function ClusterPort(d: Option<Destination>): (p: nat)
    ensures p != 0
    ensures d.Some? && d.value.port.Some? && d.value.port.value.number != 0 ==> p == d.value.port.value.number
    ensures !(d.Some? && d.value.port.Some? && d.value.port.value.number != 0) ==> p == 80
  {
    var n := if d.Some? && d.value.port.Some? then d.value.port.value.number else 0;
    if n == 0 then 80 else n
  }

  /** `outbound|<port>|<subset>|<host>` for the chosen destination; a nil one gives port 80 and empty subset and host. */
  function ClusterName(r: Option<HTTPRouteDestination>): string {
    var d := if r.Some? then r.value.destination else None;
    var subset := if d.Some? then d.value.subset else "";
    var host := if d.Some? then d.value.host else "";
    "outbound|" + NatToString(ClusterPort(d)) + "|" + subset + "|" + host
  }

  /** The parts of a cluster name: port, subset and host. */
  function ParseClusterName(s: string): Option<(nat, string, string)> {
    if |s| < 9 || s[..9] != "outbound|" then None
    else match SplitFirst(s[9..], '|')
      case None => None
      case Some((port, rest)) =>
        if !AllDigits(port) then None
        else match SplitFirst(rest, '|')
          case None => None
          case Some((subset, host)) => Some((ParseNat(port), subset, host))
  }

  /**
   * The cluster name is unambiguous: port, subset and host can be read back
   * when the subset holds no '|' (the host may).
   */
  lemma ParseClusterNameInverts(r: Option<HTTPRouteDestination>)
    requires r.Some? && r.value.destination.Some? ==> '|' !in r.value.destination.value.subset
    ensures var d := if r.Some? then r.value.destination else None;
      ParseClusterName(ClusterName(r)) == Some((
        ClusterPort(d),
        if d.Some? then d.value.subset else "",
        if d.Some? then d.value.host else ""))
  {
    var d := if r.Some? then r.value.destination else None;
    var subset := if d.Some? then d.value.subset else "";
    var host := if d.Some? then d.value.host else "";
    var port := NatToString(ClusterPort(d));
    var s := ClusterName(r);
    var tail := port + ['|'] + (subset + ['|'] + host);
    ClusterNameRegroup(port, subset, host);
    assert s == "outbound|" + tail;
    assert s[..9] == "outbound|" && s[9..] == tail;
    assert forall i | 0 <= i < |port| :: port[i] != '|' by {
      assert forall i | 0 <= i < |port| :: IsDigit(port[i]);
    }
    SplitFirstJoin(port, '|', subset + ['|'] + host);
    SplitFirstJoin(subset, '|', host);
    ParseNatToString(ClusterPort(d));
  }

  lemma ClusterNameRegroup(port: string, subset: string, host: string)
    ensures "outbound|" + port + "|" + subset + "|" + host == "outbound|" + (port + ['|'] + (subset + ['|'] + host))
  {
  }

  /** `scheme://authority<uri>` with scheme defaulting to "https" and authority to the request's. */
  function RedirectURL(redirect: HTTPRedirect, authority: string): string {
    OrElse(redirect.scheme, "https") + "://" + OrElse(redirect.authority, authority) + redirect.uri
  }

  /** Reads scheme, authority and path back from `scheme://authority/path`. */
  function ParseRedirectURL(s: string): Option<(string, string, string)> {
    match SplitFirst(s, ':')
    case None => None
    case Some((scheme, rest)) =>
      match ParseHierPart(rest)
      case None => None
      case Some((authority, path)) => Some((scheme, authority, path))
  }

  /** Reads authority and path back from `//authority/path`: the authority ends at the first '/'. */
  function ParseHierPart(rest: string): Option<(string, string)> {
    if |rest| < 2 || rest[..2] != "//" then None
    else match SplitFirst(rest[2..], '/')
      case None => Some((rest[2..], ""))
      case Some((authority, path)) => Some((authority, "/" + path))
  }

  lemma ParseHierPartInverts(auth: string, uri: string)
    requires '/' !in auth
    requires uri == [] || uri[0] == '/'
    ensures ParseHierPart("//" + auth + uri) == Some((auth, uri))
  {
    var rest := "//" + auth + uri;
    assert rest[..2] == "//" && rest[2..] == auth + uri;
    if uri == [] {
      assert auth + uri == auth;
    } else {
      assert auth + uri == auth + ['/'] + uri[1..];
      SplitFirstJoin(auth, '/', uri[1..]);
      assert "/" + uri[1..] == uri;
    }
  }

  /**
   * The redirect URL is unambiguous when the scheme holds no ':', the authority
   * no '/' and the redirect URI is empty or absolute; the defaults are what is read back.
   */
  lemma ParseRedirectURLInverts(redirect: HTTPRedirect, authority: string)
    requires ':' !in OrElse(redirect.scheme, "https")
    requires '/' !in OrElse(redirect.authority, authority)
    requires redirect.uri == [] || redirect.uri[0] == '/'
    ensures ParseRedirectURL(RedirectURL(redirect, authority)) ==
      Some((OrElse(redirect.scheme, "https"), OrElse(redirect.authority, authority), redirect.uri))
  {
    var scheme := OrElse(redirect.scheme, "https");
    var auth := OrElse(redirect.authority, authority);
    var rest := "//" + auth + redirect.uri;
    assert RedirectURL(redirect, authority) == scheme + [':'] + rest;
    SplitFirstJoin(scheme, ':', rest);
    ParseHierPartInverts(auth, redirect.uri);
  }

  /** `convertValidate`: the cluster of the heaviest expected destination, and the redirect URL when one is expected. */
  function ValidateFor(input: Envoy.Input, tc: Parser.TestCase): Envoy.Validate {
    Envoy.Validate(
      if tc.route.Some? then ClusterName(Heaviest(tc.route.value)) else "",
      if tc.redirect.Some? then RedirectURL(tc.redirect.value, input.authority) else "")
  }

  /** A test case that expects neither destinations nor a redirect validates nothing. */
  lemma NoExpectationValidatesNothing(input: Envoy.Input, tc: Parser.TestCase)
    requires tc.route.None? && tc.redirect.None?
    ensures ValidateFor(input, tc) == Envoy.Validate("", "")
  {
  }

  /** `convertValidate`: its error result is always nil. */
  method ConvertValidate(input: Envoy.Input, tc: Parser.TestCase) returns (validate: Envoy.Validate, err: Option<Error>)
    ensures validate == ValidateFor(input, tc)
    ensures err.None?
  {
    var clusterName := "";
    if tc.route.Some? {
      var route := PickHeaviest(tc.route.value);
      clusterName := ClusterName(route);
    }
    var pathRedirect := "";
    if tc.redirect.Some? {
      pathRedirect := RedirectURL(tc.redirect.value, input.authority);
    }
    return Envoy.Validate(clusterName, pathRedirect), None;
  }

  /** `list` holds each entry of `headers` exactly once, in some order. */
  predicate ListsHeaders(list: seq<Envoy.Header>, headers: map<string, string>) {
    && |list| == |headers|
    && (forall i, j | 0 <= i < j < |list| :: list[i].key != list[j].key)
    && (forall i | 0 <= i < |list| :: list[i].key in headers && headers[list[i].key] == list[i].value)
    && (forall k | k in headers :: exists i | 0 <= i < |list| :: list[i] == Envoy.Header(k, headers[k]))
  }

  /** The header loop over a Go map: one entry per key, in the order the runtime picks. */
  method RequestHeaders(headers: map<string, string>) returns (list: seq<Envoy.Header>)
    ensures ListsHeaders(list, headers)
  {
    list := [];
    var rest := headers.Keys;
    while rest != {}
      invariant rest <= headers.Keys
      invariant |list| + |rest| == |headers|
      invariant forall i, j | 0 <= i < j < |list| :: list[i].key != list[j].key
      invariant forall i | 0 <= i < |list| :: list[i].key in headers && list[i].key !in rest && headers[list[i].key] == list[i].value
      invariant forall k | k in headers && k !in rest :: exists i | 0 <= i < |list| :: list[i] == Envoy.Header(k, headers[k])
      decreases |rest|
    {
      var k :| k in rest;
      ghost var done := list;
      list := list + [Envoy.Header(k, headers[k])];
      rest := rest - {k};
      forall k' | k' in headers && k' !in rest
        ensures exists i | 0 <= i < |list| :: list[i] == Envoy.Header(k', headers[k'])
      {
        if k' == k {
          assert list[|done|] == Envoy.Header(k', headers[k']);
        } else {
          var i :| 0 <= i < |done| && done[i] == Envoy.Header(k', headers[k']);
          assert list[i] == done[i];
        }
      }
    }
  }

  /** The Envoy input for one unfolded request: TLS on, method defaulting to GET, path to "/". */
  predicate ConvertsInput(x: Parser.Input, input: Envoy.Input) {
    && input.ssl
    && input.authority == x.authority
    && input.httpMethod == OrElse(x.httpMethod, "GET")
    && input.path == OrElse(x.uri, "/")
    && ListsHeaders(input.additionalRequestHeaders, x.headers)
  }

  /** One Envoy test for one kept input of a test case; `testName` stands for the `%q`/`%+v` rendering of the name. */
  predicate Converts(testName: (string, Envoy.Input) -> string, tc: Parser.TestCase, x: Parser.Input, test: Envoy.Test) {
    && ConvertsInput(x, test.input)
    && test.validate == ValidateFor(test.input, tc)
    && test.testName == testName(tc.description, test.input)
  }

  /** `tests` converts `kept` pair by pair. */
  predicate ConvertsAll(testName: (string, Envoy.Input) -> string, kept: seq<(Parser.TestCase, Parser.Input)>, tests: seq<Envoy.Test>) {
    |tests| == |kept| && forall n | 0 <= n < |kept| :: Converts(testName, kept[n].0, kept[n].1, tests[n])
  }

  lemma ConvertsAllAppend(testName: (string, Envoy.Input) -> string, kept: seq<(Parser.TestCase, Parser.Input)>, tests: seq<Envoy.Test>,
                          more: seq<(Parser.TestCase, Parser.Input)>, converted: seq<Envoy.Test>)
    requires ConvertsAll(testName, kept, tests) && ConvertsAll(testName, more, converted)
    ensures ConvertsAll(testName, kept + more, tests + converted)
  {
    forall n | 0 <= n < |kept + more|
      ensures Converts(testName, (kept + more)[n].0, (kept + more)[n].1, (tests + converted)[n])
    {
      if n >= |kept| {
        assert (kept + more)[n] == more[n - |kept|];
        assert (tests + converted)[n] == converted[n - |kept|];
      }
    }
  }

  /** Negative tests and rewrite tests are not converted. */
  predicate Kept(tc: Parser.TestCase) {
    tc.wantMatch && tc.rewrite.None?
  }

  /**
   * The inputs the conversion loop turns into tests, in order, as a function of
   * its prefix: every test case is unfolded first, and the first unfolding
   * error ends the conversion.
   */
  function KeptInputs(cases: seq<Parser.TestCase>): Result<seq<(Parser.TestCase, Parser.Input)>> {
    if cases == [] then Ok([])
    else match KeptInputs(cases[..|cases| - 1])
      case Err(e) => Err(e)
      case Ok(done) =>
        var tc := cases[|cases| - 1];
        match Parser.Unfold(tc.request)
        case Err(e) => Err(CouldNotUnfold(e))
        case Ok(inputs) => Ok(if Kept(tc) then done + Pairs(tc, inputs) else done)
  }

  function Pairs(tc: Parser.TestCase, inputs: seq<Parser.Input>): (r: seq<(Parser.TestCase, Parser.Input)>)
    ensures |r| == |inputs| && forall i | 0 <= i < |inputs| :: r[i] == (tc, inputs[i])
  {
    if inputs == [] then [] else [(tc, inputs[0])] + Pairs(tc, inputs[1..])
  }

  /**
   * Conversion succeeds exactly when every test case unfolds, skipped ones
   * included; it fails with the first unfolding error otherwise.
   */
  lemma {:induction false} KeptInputsOkIff(cases: seq<Parser.TestCase>)
    ensures KeptInputs(cases).Ok? <==> forall tc | tc in cases :: Parser.Unfold(tc.request).Ok?
    ensures KeptInputs(cases).Err? ==> exists k | 0 <= k < |cases| ::
      && (forall l | 0 <= l < k :: Parser.Unfold(cases[l].request).Ok?)
      && Parser.Unfold(cases[k].request).Err?
      && KeptInputs(cases).error == CouldNotUnfold(Parser.Unfold(cases[k].request).error)
  {
    if cases != [] {
      var init := cases[..|cases| - 1];
      KeptInputsOkIff(init);
      assert forall tc | tc in cases :: tc in init || tc == cases[|cases| - 1];
      if KeptInputs(init).Err? {
        var k :| 0 <= k < |init| && (forall l | 0 <= l < k :: Parser.Unfold(init[l].request).Ok?)
          && Parser.Unfold(init[k].request).Err?
          && KeptInputs(init).error == CouldNotUnfold(Parser.Unfold(init[k].request).error);
        assert cases[k] == init[k];
        assert forall l | 0 <= l < k :: cases[l] == init[l];
      } else {
        assert forall l | 0 <= l < |init| :: Parser.Unfold(cases[l].request).Ok? by {
          assert forall l | 0 <= l < |init| :: init[l] in init && cases[l] == init[l];
        }
        assert cases[|cases| - 1] in cases;
      }
    }
  }

  /**
   * A kept pair is exactly an expanded input of a kept test case: negative and
   * rewrite tests contribute nothing and every input of the others is converted.
   */
  lemma {:induction false} KeptInputsMembers(cases: seq<Parser.TestCase>, tc: Parser.TestCase, x: Parser.Input)
    requires KeptInputs(cases).Ok?
    ensures (tc, x) in KeptInputs(cases).value <==>
      tc in cases && Kept(tc) && Parser.Unfold(tc.request).Ok? && x in Parser.Unfold(tc.request).value
  {
    if cases != [] {
      var init := cases[..|cases| - 1];
      var last := cases[|cases| - 1];
      KeptInputsMembers(init, tc, x);
      assert forall c | c in cases :: c in init || c == last;
      var inputs := Parser.Unfold(last.request).value;
      assert (tc, x) in Pairs(last, inputs) <==> tc == last && x in inputs by {
        if tc == last && x in inputs {
          var i :| 0 <= i < |inputs| && inputs[i] == x;
          assert Pairs(last, inputs)[i] == (tc, x);
        }
      }
      if tc in init {
        assert tc in cases;
      }
    }
  }

  /** The inner loop of the conversion: one Envoy test per expanded input of a kept test case, in order. */
  method ConvertInputs(tc: Parser.TestCase, inputs: seq<Parser.Input>, testName: (string, Envoy.Input) -> string)
    returns (tests: seq<Envoy.Test>)
    ensures ConvertsAll(testName, Pairs(tc, inputs), tests)
  {
    tests := [];
    for j := 0 to |inputs|
      invariant |tests| == j
      invariant forall n | 0 <= n < j :: Converts(testName, tc, inputs[n], tests[n])
    {
      var x := inputs[j];
      var headers := RequestHeaders(x.headers);
      var input := Envoy.Input(x.authority, OrElse(x.uri, "/"), OrElse(x.httpMethod, "GET"), true, headers);
      var validate, _ := ConvertValidate(input, tc);
      tests := tests + [Envoy.Test(testName(tc.description, input), input, validate)];
    }
  }

  /**
   * The conversion loop of `prepareTests`: per test case unfold the request,
   * skip negative and rewrite tests, and append one Envoy test per input.
   */
  method ConvertTests(cases: seq<Parser.TestCase>, testName: (string, Envoy.Input) -> string)
    returns (r: Result<seq<Envoy.Test>>)
    ensures r.Err? <==> KeptInputs(cases).Err?
    ensures r.Err? ==> r.error == KeptInputs(cases).error
    ensures r.Ok? ==> ConvertsAll(testName, KeptInputs(cases).value, r.value)
  {
    var tests: seq<Envoy.Test> := [];
    for i := 0 to |cases|
      invariant KeptInputs(cases[..i]).Ok?
      invariant ConvertsAll(testName, KeptInputs(cases[..i]).value, tests)
    {
      var tc := cases[i];
      assert cases[..i + 1][..i] == cases[..i];
      var unfolded := Parser.Unfold(tc.request);
      if unfolded.Err? {
        KeptInputsStopsAtError(cases, i + 1);
        return Err(CouldNotUnfold(unfolded.error));
      }
      if Kept(tc) {
        var converted := ConvertInputs(tc, unfolded.value, testName);
        ConvertsAllAppend(testName, KeptInputs(cases[..i]).value, tests, Pairs(tc, unfolded.value), converted);
        tests := tests + converted;
      }
    }
    assert cases[..|cases|] == cases;
    return Ok(tests);
  }

  /** Once a test case fails to unfold, the conversion's outcome is that failure. */
  lemma {:induction false} KeptInputsStopsAtError(cases: seq<Parser.TestCase>, k: nat)
    requires k <= |cases| && KeptInputs(cases[..k]).Err?
    ensures KeptInputs(cases) == KeptInputs(cases[..k])
  {
    if k < |cases| {
      var init := cases[..|cases| - 1];
      assert init[..k] == cases[..k];
      KeptInputsStopsAtError(init, k);
    } else {
      assert cases[..k] == cases;
    }
  }

  /** Every converted test's path carries no query component. */
  lemma ConvertedPathHasNoQuery(cases: seq<Parser.TestCase>, n: nat, testName: (string, Envoy.Input) -> string, test: Envoy.Test)
    requires KeptInputs(cases).Ok? && n < |KeptInputs(cases).value|
    requires Converts(testName, KeptInputs(cases).value[n].0, KeptInputs(cases).value[n].1, test)
    ensures Parser.NoQuery(test.input.path)
  {
    var (tc, x) := KeptInputs(cases).value[n];
    KeptInputsMembers(cases, tc, x);
    Parser.UnfoldMembers(tc.request, x);
  }
}
