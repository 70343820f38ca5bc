/**
 * The parts of Istio's networking API (v1alpha3) that the route matcher and the
 * test runner read. Pointers that Go may leave nil are `Option`s; slices are
 * sequences; a Go map whose iteration order the runtime picks is a sequence in
 * that order (see `HTTPMatchRequest.headers`).
 */
module Networking {
  import opened Wrappers

  /**
   * A `*StringMatch` as the matcher sees it: `Nil` is the nil pointer, `Unset` a
   * StringMatch whose match type is not set, and the other three are the oneof cases.
   */
  datatype StringMatch =
    | Nil
    | Unset
    | Exact(exact: string)
    | Prefix(prefix: string)
    | Regex(regex: string)
  {
    /** `ExtendedStringMatch.IsEmpty`: the wrapped pointer is nil. */
    predicate IsEmpty() {
      Nil?
    }
  }

  /** One entry of a match block's header map. */
  datatype HeaderMatch = HeaderMatch(name: string, matcher: StringMatch)

  /**
   * One match block. `headers` lists the block's header map in the order in
   * which Go's runtime iterates it; the names are the map's keys.
   */
  datatype HTTPMatchRequest = HTTPMatchRequest(
    uri: StringMatch,
    authority: StringMatch,
    httpMethod: StringMatch,
    headers: seq<HeaderMatch>)

  datatype PortSelector = PortSelector(number: nat)

  datatype Destination = Destination(host: string, subset: string, port: Option<PortSelector>)

  datatype HTTPRouteDestination = HTTPRouteDestination(destination: Option<Destination>, weight: int)

  datatype HTTPRewrite = HTTPRewrite(uri: string, authority: string)

  datatype HTTPRedirect = HTTPRedirect(uri: string, authority: string, scheme: string, redirectCode: nat)

  /** Fault injection; the runner only compares it for equality. */
  datatype HTTPFaultInjection = HTTPFaultInjection(fixedDelay: Option<string>, abortHttpStatus: Option<int>)

  datatype HeaderOperations = HeaderOperations(toSet: map<string, string>, toAdd: map<string, string>, toRemove: seq<string>)

  datatype Headers = Headers(request: Option<HeaderOperations>, response: Option<HeaderOperations>)

  datatype Delegate = Delegate(name: string, namespace: string)

  datatype HTTPRoute = HTTPRoute(
    matchBlocks: seq<HTTPMatchRequest>,
    route: seq<HTTPRouteDestination>,
    redirect: Option<HTTPRedirect>,
    delegate: Option<Delegate>,
    rewrite: Option<HTTPRewrite>,
    fault: Option<HTTPFaultInjection>,
    headers: Option<Headers>)

  /** `&HTTPRoute{}`: what route lookup returns when no rule applies. */
  const EmptyRoute := HTTPRoute([], [], None, None, None, None, None)

  /** A VirtualService: its object metadata and the `Hosts` and `Http` of its spec. */
  datatype VirtualService = VirtualService(
    name: string,
    namespace: string,
    hosts: seq<string>,
    http: seq<HTTPRoute>)
}
