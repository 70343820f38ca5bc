/**
 * The Envoy router-check test records the converter produces
 * (internal/pkg/istio-router-check/envoy/testfile.go), restricted to the
 * fields it sets.
 */
module Envoy {
  datatype Header = Header(key: string, value: string)

  datatype Input = Input(
    authority: string,
    path: string,
    httpMethod: string,
    ssl: bool,
    additionalRequestHeaders: seq<Header>)

  /** What a test expects: the cluster the request is routed to and the redirect it receives. */
  datatype Validate = Validate(clusterName: string, pathRedirect: string)

  datatype Test = Test(testName: string, input: Input, validate: Validate)
}
