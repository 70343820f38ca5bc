/**
 * Test-case data (internal/pkg/parser/testcase.go) and the expansion of a
 * request template into concrete inputs (`Request.Unfold`).
 */
module Parser {
  import opened Wrappers
  import opened Errors
  import opened Networking

  /** One concrete synthetic request. */
  datatype Input = Input(authority: string, httpMethod: string, uri: string, headers: map<string, string>)

  /** The request template of a test case: candidate authorities, methods and URIs, and fixed headers. */
  datatype Request = Request(
    authorities: seq<string>,
    methods: seq<string>,
    uris: seq<string>,
    headers: map<string, string>)

  /**
   * A test case with the expectation fields the runner reads. `route` is None
   * for a nil slice; the other expectations are None for a nil pointer.
   */
  datatype TestCase = TestCase(
    description: string,
    request: Request,
    route: Option<seq<HTTPRouteDestination>>,
    rewrite: Option<HTTPRewrite>,
    fault: Option<HTTPFaultInjection>,
    headers: Option<Headers>,
    redirect: Option<HTTPRedirect>,
    wantMatch: bool)

  /**
   * No query component: no '?' occurs before the first '#' (section 3.4 of
   * RFC 3986: the query starts at the first '?' and ends at '#' or the end).
   */
  predicate NoQuery(s: string) {
    s == [] || s[0] == '#' || (s[0] != '?' && NoQuery(s[1..]))
  }

  /** Skips the query's characters up to the fragment delimiter '#', which is kept. */
  function DropQuery(s: string): (r: string)
    ensures r == [] || r[0] == '#'
    ensures |r| <= |s| && r == s[|s| - |r|..]
  {
    if s == [] || s[0] == '#' then s else DropQuery(s[1..])
  }

  /**
   * Removes the query component of a URI: the '?' that starts it and everything
   * up to the fragment delimiter '#' or the end. A '?' inside the fragment is not a query.
   */
  function StripQuery(s: string): (r: string)
    ensures NoQuery(r)
    ensures |r| <= |s|
  {
    if s == [] || s[0] == '#' then s
    else if s[0] == '?' then DropQuery(s[1..])
    else [s[0]] + StripQuery(s[1..])
  }

  /** A URI without a query is left as it is. */
  lemma {:induction false} StripQueryKeepsQueryless(s: string)
    requires NoQuery(s)
    ensures StripQuery(s) == s
  {
    if s != [] && s[0] != '#' {
      StripQueryKeepsQueryless(s[1..]);
      assert [s[0]] + s[1..] == s;
    }
  }

  /** Stripping twice is stripping once. */
  lemma StripQueryIdempotent(s: string)
    ensures StripQuery(StripQuery(s)) == StripQuery(s)
  {
    StripQueryKeepsQueryless(StripQuery(s));
  }

  /**
   * Path, query and fragment: stripping removes exactly "?query" and keeps the
   * path and the fragment ("/reseller?partner_id=12344" becomes "/reseller").
   */
  lemma {:induction false} StripQueryRemovesQuery(path: string, query: string, fragment: string)
    requires '?' !in path && '#' !in path && '#' !in query
    requires fragment == [] || fragment[0] == '#'
    ensures StripQuery(path + "?" + query + fragment) == path + fragment
  {
    Regroup(path, "?", query, fragment);
    StripQueryAtQuestionMark(query + fragment);
    DropQueryStopsAtFragment(query, fragment);
    assert forall i | 0 <= i < |path| :: path[i] in path;
    StripQueryKeepsPlainPrefix(path, "?" + (query + fragment));
  }

  lemma Regroup(a: string, b: string, c: string, d: string)
    ensures a + b + c + d == a + (b + (c + d))
  {
  }

  lemma StripQueryAtQuestionMark(u: string)
    ensures StripQuery("?" + u) == DropQuery(u)
  {
    assert ("?" + u)[0] == '?' && ("?" + u)[1..] == u;
  }

  /** A prefix with neither '?' nor '#' passes through unchanged. */
  lemma {:induction false} StripQueryKeepsPlainPrefix(p: string, t: string)
    requires forall i | 0 <= i < |p| :: p[i] != '?' && p[i] != '#'
    ensures StripQuery(p + t) == p + StripQuery(t)
  {
    if p != [] {
      SplitHead(p, t);
      StripQueryKeepsPlainChar(p[0], p[1..] + t);
      StripQueryKeepsPlainPrefix(p[1..], t);
      SplitHead(p, StripQuery(t));
    } else {
      assert p + t == t;
    }
  }

  lemma SplitHead(p: string, u: string)
    requires p != []
    ensures p + u == [p[0]] + (p[1..] + u)
  {
    assert p == [p[0]] + p[1..];
  }

  lemma StripQueryKeepsPlainChar(c: char, s: string)
    requires c != '?' && c != '#'
    ensures StripQuery([c] + s) == [c] + StripQuery(s)
  {
    assert ([c] + s)[1..] == s;
  }

  lemma {:induction false} DropQueryStopsAtFragment(query: string, fragment: string)
    requires '#' !in query
    requires fragment == [] || fragment[0] == '#'
    ensures DropQuery(query + fragment) == fragment
  {
    if query != [] {
      assert (query + fragment)[1..] == query[1..] + fragment;
      DropQueryStopsAtFragment(query[1..], fragment);
    }
  }

  /** The inputs for one authority and one URI: one per method, in method order. */
  function ForMethods(authority: string, methods: seq<string>, uri: string, headers: map<string, string>): (r: seq<Input>)
    ensures |r| == |methods|
  {
    seq(|methods|, j requires 0 <= j < |methods| => Input(authority, methods[j], uri, headers))
  }

  /** The inputs for one URI: authorities outer, methods inner. */
  function ForAuthorities(authorities: seq<string>, methods: seq<string>, uri: string, headers: map<string, string>): (r: seq<Input>)
  {
    if authorities == [] then []
    else ForMethods(authorities[0], methods, uri, headers) + ForAuthorities(authorities[1..], methods, uri, headers)
  }

  /** All combinations: URIs outermost, then authorities, then methods, each URI query-stripped. */
  function Combinations(authorities: seq<string>, methods: seq<string>, uris: seq<string>, headers: map<string, string>): (r: seq<Input>)
  {
    if uris == [] then []
    else ForAuthorities(authorities, methods, StripQuery(uris[0]), headers) + Combinations(authorities, methods, uris[1..], headers)
  }

  /**
   * `Request.Unfold`: the Cartesian product of the template's authorities,
   * methods and URIs. Empty lists are errors, checked authority first, then
   * method, then URI.
   */
  function Unfold(req: Request): (r: Result<seq<Input>>)
    ensures req.authorities == [] ==> r == Err(EmptyAuthorityList)
    ensures req.authorities != [] && req.methods == [] ==> r == Err(EmptyMethodList)
    ensures req.authorities != [] && req.methods != [] && req.uris == [] ==> r == Err(EmptyURIList)
    ensures r.Ok? <==> req.authorities != [] && req.methods != [] && req.uris != []
  {
    if req.authorities == [] then Err(EmptyAuthorityList)
    else if req.methods == [] then Err(EmptyMethodList)
    else if req.uris == [] then Err(EmptyURIList)
    else Ok(Combinations(req.authorities, req.methods, req.uris, req.headers))
  }

  /** The position where block k of blocks of length n begins, without multiplication: k·n. */
  function Offset(k: nat, n: nat): nat {
    if k == 0 then 0 else n + Offset(k - 1, n)
  }

  lemma MulSucc(a: nat, b: nat)
    ensures (a + 1) * b == b + a * b
  {
  }

  lemma {:induction false} OffsetIsProduct(k: nat, n: nat)
    ensures Offset(k, n) == k * n
  {
    if k > 0 {
      OffsetIsProduct(k - 1, n);
      MulSucc(k - 1, n);
    }
  }

  lemma {:induction false} OffsetBound(k: nat, m: nat, n: nat, o: nat)
    requires k < m && o < n
    ensures Offset(k, n) + o < Offset(m, n)
  {
    if k < m - 1 {
      OffsetBound(k, m - 1, n, o);
    }
  }

  lemma {:induction false} ForAuthoritiesLength(authorities: seq<string>, methods: seq<string>, uri: string, headers: map<string, string>)
    ensures |ForAuthorities(authorities, methods, uri, headers)| == Offset(|authorities|, |methods|)
  {
    if authorities != [] {
      ForAuthoritiesLength(authorities[1..], methods, uri, headers);
    }
  }

  lemma {:induction false} ForAuthoritiesAt(authorities: seq<string>, methods: seq<string>, uri: string, headers: map<string, string>, i: nat, j: nat)
    requires i < |authorities| && j < |methods|
    ensures Offset(i, |methods|) + j < |ForAuthorities(authorities, methods, uri, headers)|
    ensures ForAuthorities(authorities, methods, uri, headers)[Offset(i, |methods|) + j] == Input(authorities[i], methods[j], uri, headers)
  {
    var m := |methods|;
    ForAuthoritiesLength(authorities, methods, uri, headers);
    OffsetBound(i, |authorities|, m, j);
    if i > 0 {
      var first := ForMethods(authorities[0], methods, uri, headers);
      var rest := ForAuthorities(authorities[1..], methods, uri, headers);
      ForAuthoritiesAt(authorities[1..], methods, uri, headers, i - 1, j);
      assert ForAuthorities(authorities, methods, uri, headers) == first + rest;
      assert (first + rest)[|first| + (Offset(i - 1, m) + j)] == rest[Offset(i - 1, m) + j];
    }
  }

  lemma {:induction false} ForAuthoritiesLengthUniform(authorities: seq<string>, methods: seq<string>, headers: map<string, string>)
    ensures forall u :: |ForAuthorities(authorities, methods, u, headers)| == Offset(|authorities|, |methods|)
  {
    forall u ensures |ForAuthorities(authorities, methods, u, headers)| == Offset(|authorities|, |methods|) {
      ForAuthoritiesLength(authorities, methods, u, headers);
    }
  }

  lemma {:induction false} CombinationsLength(authorities: seq<string>, methods: seq<string>, uris: seq<string>, headers: map<string, string>, n: nat)
    requires forall u :: |ForAuthorities(authorities, methods, u, headers)| == n
    ensures |Combinations(authorities, methods, uris, headers)| == Offset(|uris|, n)
  {
    if uris != [] {
      CombinationsLength(authorities, methods, uris[1..], headers, n);
    }
  }

  lemma {:induction false} CombinationsAt(authorities: seq<string>, methods: seq<string>, uris: seq<string>, headers: map<string, string>, n: nat, k: nat, o: nat)
    requires forall u :: |ForAuthorities(authorities, methods, u, headers)| == n
    requires k < |uris| && o < n
    ensures Offset(k, n) + o < |Combinations(authorities, methods, uris, headers)|
    ensures Combinations(authorities, methods, uris, headers)[Offset(k, n) + o]
      == ForAuthorities(authorities, methods, StripQuery(uris[k]), headers)[o]
  {
    CombinationsLength(authorities, methods, uris, headers, n);
    OffsetBound(k, |uris|, n, o);
    if k > 0 {
      var first := ForAuthorities(authorities, methods, StripQuery(uris[0]), headers);
      var rest := Combinations(authorities, methods, uris[1..], headers);
      CombinationsAt(authorities, methods, uris[1..], headers, n, k - 1, o);
      assert Combinations(authorities, methods, uris, headers) == first + rest;
      assert (first + rest)[|first| + (Offset(k - 1, n) + o)] == rest[Offset(k - 1, n) + o];
    }
  }

  /**
   * One input per combination: with all three lists non-empty, Unfold yields
   * |uris|·|authorities|·|methods| inputs, and the one at position
   * (k, i, j) combines the k-th URI (query stripped), the i-th authority and
   * the j-th method, with the template's headers.
   */
  lemma UnfoldProduct(req: Request, k: nat, i: nat, j: nat)
    requires k < |req.uris| && i < |req.authorities| && j < |req.methods|
    ensures Unfold(req).Ok?
    ensures |Unfold(req).value| == |req.uris| * (|req.authorities| * |req.methods|)
    ensures var n := |req.authorities| * |req.methods|;
      k * n + (i * |req.methods| + j) < |Unfold(req).value| &&
      Unfold(req).value[k * n + (i * |req.methods| + j)] == Input(req.authorities[i], req.methods[j], StripQuery(req.uris[k]), req.headers)
  {
    var m := |req.methods|;
    var n := Offset(|req.authorities|, m);
    ForAuthoritiesLengthUniform(req.authorities, req.methods, req.headers);
    ForAuthoritiesAt(req.authorities, req.methods, StripQuery(req.uris[k]), req.headers, i, j);
    CombinationsAt(req.authorities, req.methods, req.uris, req.headers, n, k, Offset(i, m) + j);
    CombinationsLength(req.authorities, req.methods, req.uris, req.headers, n);
    OffsetIsProduct(|req.authorities|, m);
    OffsetIsProduct(i, m);
    OffsetIsProduct(k, n);
    OffsetIsProduct(|req.uris|, n);
  }

  lemma {:induction false} ForAuthoritiesMembers(authorities: seq<string>, methods: seq<string>, uri: string, headers: map<string, string>, x: Input)
    requires x in ForAuthorities(authorities, methods, uri, headers)
    ensures x.authority in authorities && x.httpMethod in methods && x.uri == uri && x.headers == headers
  {
    if x !in ForMethods(authorities[0], methods, uri, headers) {
      ForAuthoritiesMembers(authorities[1..], methods, uri, headers, x);
    }
  }

  lemma {:induction false} CombinationsMembers(authorities: seq<string>, methods: seq<string>, uris: seq<string>, headers: map<string, string>, x: Input)
    requires x in Combinations(authorities, methods, uris, headers)
    ensures exists k | 0 <= k < |uris| :: x.uri == StripQuery(uris[k])
    ensures x.authority in authorities && x.httpMethod in methods && x.headers == headers
  {
    if x in ForAuthorities(authorities, methods, StripQuery(uris[0]), headers) {
      ForAuthoritiesMembers(authorities, methods, StripQuery(uris[0]), headers, x);
    } else {
      CombinationsMembers(authorities, methods, uris[1..], headers, x);
      var k :| 0 <= k < |uris[1..]| && x.uri == StripQuery(uris[1..][k]);
      assert x.uri == StripQuery(uris[k + 1]);
    }
  }

  /**
   * Nothing but combinations: every unfolded input takes its authority, method
   * and (query-stripped) URI from the template's lists, carries the template's
   * headers unchanged, and has no query left in its URI.
   */
  lemma UnfoldMembers(req: Request, x: Input)
    requires Unfold(req).Ok? && x in Unfold(req).value
    ensures x.authority in req.authorities && x.httpMethod in req.methods
    ensures exists k | 0 <= k < |req.uris| :: x.uri == StripQuery(req.uris[k])
    ensures x.headers == req.headers
    ensures NoQuery(x.uri)
  {
    CombinationsMembers(req.authorities, req.methods, req.uris, req.headers, x);
  }
}
