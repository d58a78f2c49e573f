/**
 * The slice of the Buildkite Test Analytics REST API that both rules use:
 * the credentials read from the environment, the endpoint that lists a
 * suite's tests, the requests the rules send and the responses they read.
 */
module Buildkite {
  import opened Wrappers
  import opened Json
  import opened Strings

  /** `System.getenv` of BUILDKITE_API_TOKEN, BUILDKITE_ORG_SLUG and BUILDKITE_SUITE_SLUG. */
  datatype Env = Env(apiToken: Option<string>, orgSlug: Option<string>, suiteSlug: Option<string>)

  datatype Credentials = Credentials(apiToken: string, orgSlug: string, suiteSlug: string)

  /** The credentials, when all three variables are set. */
  function ReadCredentials(env: Env): Option<Credentials>
  {
    if env.apiToken.Some? && env.orgSlug.Some? && env.suiteSlug.Some? then
      Some(Credentials(env.apiToken.value, env.orgSlug.value, env.suiteSlug.value))
    else
      None
  }

  const ApiRoot: string := "https://api.buildkite.com/v2/analytics/organizations/"

  /** The endpoint listing a suite's tests. */
  function TestsUrl(orgSlug: string, suiteSlug: string): string
  {
    ApiRoot + orgSlug + "/suites/" + suiteSlug + "/tests"
  }

  /** An endpoint under one test of the suite: `.../tests/<id>/<action>`. */
  function TestActionUrl(orgSlug: string, suiteSlug: string, testId: string, action: string): (url: string)
    ensures TestsUrl(orgSlug, suiteSlug) + "/" <= url && EndsWith(url, "/" + action)
  {
    TestsUrl(orgSlug, suiteSlug) + "/" + testId + "/" + action
  }

  /** Within one suite, different test ids address different endpoints. */
  lemma TestActionUrlInjective(orgSlug: string, suiteSlug: string, id1: string, id2: string, action: string)
    requires TestActionUrl(orgSlug, suiteSlug, id1, action) == TestActionUrl(orgSlug, suiteSlug, id2, action)
    ensures id1 == id2
  {
    var base := TestsUrl(orgSlug, suiteSlug) + "/";
    var tail := "/" + action;
    var url := TestActionUrl(orgSlug, suiteSlug, id1, action);
    assert url == base + id1 + tail;
    assert url == base + id2 + tail == TestActionUrl(orgSlug, suiteSlug, id2, action);
    assert id1 == url[|base|..|url| - |tail|];
    assert id2 == url[|base|..|url| - |tail|];
  }

  /** The `Authorization` header. */
  function Bearer(apiToken: string): string
  {
    "Bearer " + apiToken
  }

  const JsonMediaType: string := "application/json"

  /** A request handed to the HTTP client, with its URL, `Authorization` header and body. */
  datatype Request =
    | Get(url: string, authorization: string)
    | Patch(url: string, authorization: string, mediaType: string, body: string)
    | Put(url: string, authorization: string, mediaType: string, body: string)

  /** The GET that fetches the list of a suite's tests. */
  function ListTestsRequest(credentials: Credentials): Request
  {
    Get(TestsUrl(credentials.orgSlug, credentials.suiteSlug), Bearer(credentials.apiToken))
  }

  /**
   * How the GET of the test list ends: `execute` throws, the status is not
   * a success, or it succeeds with a body (possibly null) that Gson parses
   * into a document.
   */
  datatype Response = NetworkError | Unsuccessful(code: int) | Successful(body: Option<Document>)

  /** What the rules record: the wrapped test running, or a request being sent. */
  datatype Event = TestRan | Sent(request: Request)

  /** The requests, as events, in the order they were sent. */
  function Sends(requests: seq<Request>): (events: seq<Event>)
    ensures |events| == |requests|
    ensures forall i :: 0 <= i < |requests| ==> events[i] == Sent(requests[i])
  {
    if requests == [] then [] else [Sent(requests[0])] + Sends(requests[1..])
  }
}
