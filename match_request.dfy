/**
 * String matching and match-block evaluation
 * (internal/pkg/unit/match_request.go).
 */
module Matching {
  import opened Errors
  import opened Networking
  import opened Parser

  /**
   * Go's RE2 engine, which the model leaves uninterpreted: whether a pattern
   * compiles, and whether a compiled pattern matches the span s[i..j] of the
   * string s (in the context of s, so that anchors keep their meaning).
   */
  datatype RegexEngine = RegexEngine(
    compiles: string -> bool,
    matchesAt: (string, string, nat, nat) -> bool)

  /** `Regexp.MatchString`: an unanchored search, true when the pattern matches some span of s. */
  predicate Search(re: RegexEngine, pattern: string, s: string) {
    exists i: nat, j: nat | i <= j <= |s| :: re.matchesAt(pattern, s, i, j)
  }

  /** The matcher raises no compile error: it is not a non-empty regex, or its regex compiles. */
  predicate Compiles(re: RegexEngine, m: StringMatch) {
    m.Regex? && m.regex != "" ==> re.compiles(m.regex)
  }

  /**
   * `ExtendedStringMatch.Match`. A nil matcher matches everything; Exact is
   * equality, Prefix is starts-with, Regex an unanchored search; a matcher whose
   * chosen value is empty, or that has no match type, matches nothing. The only
   * error is a regex that does not compile.
   */
  function Match(re: RegexEngine, m: StringMatch, s: string): (r: Result<bool>)
    ensures m.IsEmpty() ==> r == Ok(true)
    ensures r.Err? <==> !Compiles(re, m)
    ensures r.Err? ==> r.error == RegexCompileError(m.regex)
    ensures m.Exact? ==> (r == Ok(true) <==> m.exact != "" && s == m.exact)
    ensures m.Prefix? ==> (r == Ok(true) <==> m.prefix != "" && |m.prefix| <= |s| && s[..|m.prefix|] == m.prefix)
    ensures m.Regex? ==> (r == Ok(true) <==> m.regex != "" && re.compiles(m.regex) &&
                                             exists i: nat, j: nat | i <= j <= |s| :: re.matchesAt(m.regex, s, i, j))
    ensures m.Unset? ==> r == Ok(false)
  {
    if m.IsEmpty() then Ok(true)
    else if m.Exact? && m.exact != "" then Ok(m.exact == s)
    else if m.Prefix? && m.prefix != "" then Ok(m.prefix <= s)
    else if m.Regex? && m.regex != "" then
      if !re.compiles(m.regex) then Err(RegexCompileError(m.regex))
      else Ok(Search(re, m.regex, s))
    else Ok(false)
  }

  /** The matcher accepts s without error. */
  predicate Holds(re: RegexEngine, m: StringMatch, s: string) {
    Match(re, m, s) == Ok(true)
  }

  /** An Exact matcher rejects, without error, every candidate other than its value ("/exac" against the value "/exac/"). */
  lemma ExactRejectsOtherCandidates(re: RegexEngine, v: string, s: string)
    requires v != "" && s != v
    ensures Match(re, Exact(v), s) == Ok(false)
  {
  }

  /**
   * Regex search is unanchored: a compiled pattern that matches any span of the
   * candidate, not necessarily all of it, makes the matcher accept the candidate.
   */
  lemma RegexMatchesAnySpan(re: RegexEngine, p: string, s: string, i: nat, j: nat)
    requires p != "" && re.compiles(p)
    requires i <= j <= |s| && re.matchesAt(p, s, i, j)
    ensures Match(re, Regex(p), s) == Ok(true)
  {
  }

  /** Every header the block names and the request carries is matched; headers the request lacks are skipped. */
  predicate HeadersHold(re: RegexEngine, headers: seq<HeaderMatch>, present: map<string, string>) {
    forall h | h in headers && h.name in present :: Holds(re, h.matcher, present[h.name])
  }

  predicate HeadersCompile(re: RegexEngine, headers: seq<HeaderMatch>) {
    forall h | h in headers :: Compiles(re, h.matcher)
  }

  /**
   * The header loop of `matchRequest`, over the block's headers in iteration
   * order: a header the request lacks is skipped, the first mismatch stops
   * with false, the first compile error stops with that error.
   */
  function MatchHeaders(re: RegexEngine, headers: seq<HeaderMatch>, present: map<string, string>): (r: Result<bool>)
    ensures r == Ok(true) <==> HeadersHold(re, headers, present)
    ensures HeadersCompile(re, headers) ==> r.Ok?
    ensures r.Err? ==> exists h | h in headers && h.name in present :: Match(re, h.matcher, present[h.name]) == r
  {
    if headers == [] then Ok(true)
    else
      var h := headers[0];
      if h.name !in present then MatchHeaders(re, headers[1..], present)
      else match Match(re, h.matcher, present[h.name])
        case Err(e) => Err(e)
        case Ok(false) => Ok(false)
        case Ok(true) => MatchHeaders(re, headers[1..], present)
  }

  /** The block's conditions all hold for the input: headers present in the input, uri, authority and method. */
  predicate Satisfies(re: RegexEngine, input: Input, block: HTTPMatchRequest) {
    && HeadersHold(re, block.headers, input.headers)
    && Holds(re, block.uri, input.uri)
    && Holds(re, block.authority, input.authority)
    && Holds(re, block.httpMethod, input.httpMethod)
  }

  predicate BlockCompiles(re: RegexEngine, block: HTTPMatchRequest) {
    && HeadersCompile(re, block.headers)
    && Compiles(re, block.uri) && Compiles(re, block.authority) && Compiles(re, block.httpMethod)
  }

  /**
   * `matchRequest`: true exactly when every condition of the block holds (the
   * AND of headers, uri, authority and method). Scheme and query parameters are
   * not evaluated. A failing header ends the evaluation with false before the
   * uri, authority and method matchers run, so their errors do not surface.
   */
  function MatchRequest(re: RegexEngine, input: Input, block: HTTPMatchRequest): (r: Result<bool>)
    ensures r == Ok(true) <==> Satisfies(re, input, block)
    ensures MatchHeaders(re, block.headers, input.headers) == Ok(false) ==> r == Ok(false)
    ensures BlockCompiles(re, block) ==> r == Ok(Satisfies(re, input, block))
  {
    match MatchHeaders(re, block.headers, input.headers)
    case Err(e) => Err(e)
    case Ok(false) => Ok(false)
    case Ok(true) =>
      match Match(re, block.uri, input.uri)
      case Err(e) => Err(e)
      case Ok(uriMatch) =>
        match Match(re, block.authority, input.authority)
        case Err(e) => Err(e)
        case Ok(authorityMatch) =>
          match Match(re, block.httpMethod, input.httpMethod)
          case Err(e) => Err(e)
          case Ok(methodMatch) => Ok(authorityMatch && uriMatch && methodMatch)
  }

  /** A block with no conditions matches every input. */
  lemma EmptyBlockMatchesAll(re: RegexEngine, input: Input)
    ensures MatchRequest(re, input, HTTPMatchRequest(Nil, Nil, Nil, [])) == Ok(true)
  {
  }

  /**
   * The runtime's iteration order over the header map does not change whether
   * the block matches, and when every pattern compiles it changes nothing at all.
   */
  lemma HeaderOrderIrrelevant(re: RegexEngine, input: Input, block: HTTPMatchRequest, reordered: seq<HeaderMatch>)
    requires multiset(reordered) == multiset(block.headers)
    ensures var other := block.(headers := reordered);
      (MatchRequest(re, input, block) == Ok(true)) == (MatchRequest(re, input, other) == Ok(true))
    ensures BlockCompiles(re, block) ==> MatchRequest(re, input, block) == MatchRequest(re, input, block.(headers := reordered))
  {
    forall h ensures h in reordered <==> h in block.headers {
      assert h in reordered <==> h in multiset(reordered);
      assert h in block.headers <==> h in multiset(block.headers);
    }
  }
}
