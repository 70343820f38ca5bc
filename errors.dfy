/** The errors the matcher, the runner and the converter return, one constructor per distinct Go error. */
module Errors {
  import opened Wrappers
  import opened Networking

  datatype Error =
    | RegexCompileError(pattern: string)
    | EmptyAuthorityList
    | EmptyMethodList
    | EmptyURIList
    | VirtualServiceNotFound(name: string)
    | RouteLookupFailed(cause: Error)
    | DestinationMismatch(actualRoute: seq<HTTPRouteDestination>, wantRoute: seq<HTTPRouteDestination>, matched: seq<HTTPMatchRequest>)
    | RewriteMismatch(actualRewrite: Option<HTTPRewrite>, wantRewrite: Option<HTTPRewrite>, matched: seq<HTTPMatchRequest>)
    | FaultMismatch(actualFault: Option<HTTPFaultInjection>, wantFault: Option<HTTPFaultInjection>, matched: seq<HTTPMatchRequest>)
    | HeadersMismatch(actualHeaders: Option<Headers>, wantHeaders: Option<Headers>, matched: seq<HTTPMatchRequest>)
    | CouldNotUnfold(cause: Error)

  /** A value, or the error that replaced it. */
  datatype Result<+T> = Ok(value: T) | Err(error: Error)
}
