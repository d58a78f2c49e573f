/**
 * FlakyTestRule: a JUnit rule that, when the wrapped test throws, looks the
 * test up in the suite's listing and adds the "flaky" label to it, then
 * rethrows. The HTTP client and Gson are replaced by their results: the
 * listing response is an input and the requests sent are an output.
 */
module FlakyTestRule {
  import opened Wrappers
  import opened Json
  import opened JUnit
  import opened Buildkite
  import opened TestNames

  /** The listed test found for the failing test. */
  datatype TestInfo = TestInfo(id: string, url: string)

  /** The body of the PATCH that adds the label (the raw string after `trimIndent`). */
  const AddFlakyLabelBody: string := "{\n    \"operator\": \"add\",\n    \"labels\": [\"flaky\"]\n}"

  // ---------------------------------------------------------------------
  // Looking the test up in the listing

  /**
   * One pass of the loop in `extractTestInfoFromJson`: read `name`, `id`
   * and `url` in that order, skipping the element when one is missing, and
   * return the element's id and url when its name matches.
   */
  function ScanStep(element: Element, testName: string): Step<TestInfo>
  {
    match element
    case NonObject => Throw
    case Object(name, id, url) =>
      match name
      case Absent => Continue
      case NonString => Throw
      case Str(n) =>
        match id
        case Absent => Continue
        case NonString => Throw
        case Str(i) =>
          match url
          case Absent => Continue
          case NonString => Throw
          case Str(u) =>
            if Matches(n, testName, MethodName(testName)) then Return(TestInfo(i, u)) else Continue
  }

  /** The loop over the array's elements, in order, stopping at the first `return` or exception. */
  function FirstTestInfo(elements: seq<Element>, testName: string): Option<TestInfo>
    decreases |elements|
  {
    if elements == [] then None
    else
      match ScanStep(elements[0], testName)
      case Continue => FirstTestInfo(elements[1..], testName)
      case Return(info) => Some(info)
      case Throw => None
  }

  /** `extractTestInfoFromJson`: a parse failure, like any exception in the loop, yields none. */
  function ExtractTestInfo(json: Document, testName: string): Option<TestInfo>
  {
    match json
    case Malformed => None
    case Array(elements) => FirstTestInfo(elements, testName)
  }

  method ExtractTestInfoFromJson(json: Document, testName: string) returns (info: Option<TestInfo>)
    ensures info == ExtractTestInfo(json, testName)
  {
    if json.Malformed? {
      return None;
    }
    var elements := json.elements;
    var methodName := MethodName(testName);
    for i := 0 to |elements|
      invariant FirstTestInfo(elements[i..], testName) == FirstTestInfo(elements, testName)
    {
      assert elements[i..][1..] == elements[i + 1..];
      var element := elements[i];
      if element.NonObject? {
        return None;
      }
      if element.name.Absent? {
        continue;
      } else if element.name.NonString? {
        return None;
      }
      var name := element.name.value;
      if element.id.Absent? {
        continue;
      } else if element.id.NonString? {
        return None;
      }
      var id := element.id.value;
      if element.url.Absent? {
        continue;
      } else if element.url.NonString? {
        return None;
      }
      var url := element.url.value;
      if Matches(name, testName, methodName) {
        return Some(TestInfo(id, url));
      }
    }
    return None;
  }

  // Reference definitions of the lookup, element by element.

  /** An element carrying all of `name`, `id` and `url` as strings. */
  predicate Complete(element: Element)
  {
    element.Object? && element.name.Str? && element.id.Str? && element.url.Str?
  }

  /** Reading the element throws before a missing field lets the loop move on. */
  predicate Unreadable(element: Element)
  {
    || element.NonObject?
    || element.name.NonString?
    || (element.name.Str? && element.id.NonString?)
    || (element.name.Str? && element.id.Str? && element.url.NonString?)
  }

  /** A complete element whose name matches the test. */
  predicate MatchingRecord(element: Element, testName: string)
  {
    Complete(element) && Matches(element.name.value, testName, MethodName(testName))
  }

  /** The loop moves past the element: it is readable and either incomplete or not a match. */
  predicate PassedOver(element: Element, testName: string)
  {
    !Unreadable(element) && !MatchingRecord(element, testName)
  }

  /** The loop moves past exactly the elements the reference definition says it does. */
  lemma PassedOverContinues(element: Element, testName: string)
    ensures PassedOver(element, testName) <==> ScanStep(element, testName).Continue?
  {
  }

  /** Element `k` is the first the loop does not move past, and it is a match carrying `info`. */
  predicate FirstMatchAt(elements: seq<Element>, testName: string, info: TestInfo, k: int)
  {
    && 0 <= k < |elements|
    && MatchingRecord(elements[k], testName)
    && elements[k].id.value == info.id && elements[k].url.value == info.url
    && forall j :: 0 <= j < k ==> PassedOver(elements[j], testName)
  }

  /** The lookup returns `info` exactly when some element is the first match and carries it. */
  lemma {:induction false} FirstTestInfoIff(elements: seq<Element>, testName: string, info: TestInfo)
    ensures FirstTestInfo(elements, testName) == Some(info) <==> exists k :: FirstMatchAt(elements, testName, info, k)
    decreases |elements|
  {
    if elements != [] {
      var e := elements[0];
      var tail := elements[1..];
      PassedOverContinues(e, testName);
      match ScanStep(e, testName)
      case Return(found) =>
        assert FirstMatchAt(elements, testName, found, 0);
        if exists k :: FirstMatchAt(elements, testName, info, k) {
          var k :| FirstMatchAt(elements, testName, info, k);
          assert k == 0;
        }
      case Throw =>
      case Continue =>
        FirstTestInfoIff(tail, testName, info);
        assert PassedOver(e, testName);
        if exists k :: FirstMatchAt(tail, testName, info, k) {
          var k :| FirstMatchAt(tail, testName, info, k);
          assert FirstMatchAt(elements, testName, info, k + 1);
        }
        if exists k :: FirstMatchAt(elements, testName, info, k) {
          var k :| FirstMatchAt(elements, testName, info, k);
          assert k != 0;
          assert FirstMatchAt(tail, testName, info, k - 1);
        }
    }
  }

  /** What is returned is a complete, matching element of the listing. */
  lemma TestInfoIsMatchingRecord(json: Document, testName: string)
    requires ExtractTestInfo(json, testName).Some?
    ensures json.Array?
    ensures exists k :: 0 <= k < |json.elements| && MatchingRecord(json.elements[k], testName)
                        && json.elements[k].id == Str(ExtractTestInfo(json, testName).value.id)
                        && json.elements[k].url == Str(ExtractTestInfo(json, testName).value.url)
  {
    var info := ExtractTestInfo(json, testName).value;
    FirstTestInfoIff(json.elements, testName, info);
    var k :| FirstMatchAt(json.elements, testName, info, k);
    assert MatchingRecord(json.elements[k], testName);
  }

  /** With no complete, matching element, the result is none. */
  lemma NoMatchingRecord(json: Document, testName: string)
    requires json.Array? ==> forall k :: 0 <= k < |json.elements| ==> !MatchingRecord(json.elements[k], testName)
    ensures ExtractTestInfo(json, testName) == None
  {
    if ExtractTestInfo(json, testName).Some? {
      TestInfoIsMatchingRecord(json, testName);
    }
  }

  /** Elements the loop moves past, incomplete ones included, do not change the result. */
  lemma {:induction false} PassedOverPrefix(prefix: seq<Element>, elements: seq<Element>, testName: string)
    requires forall j :: 0 <= j < |prefix| ==> PassedOver(prefix[j], testName)
    ensures FirstTestInfo(prefix + elements, testName) == FirstTestInfo(elements, testName)
    decreases |prefix|
  {
    if prefix != [] {
      PassedOverContinues(prefix[0], testName);
      assert (prefix + elements)[0] == prefix[0];
      var whole := prefix + elements;
      assert whole[1..] == prefix[1..] + elements;
      assert FirstTestInfo(whole, testName) == FirstTestInfo(whole[1..], testName);
      PassedOverPrefix(prefix[1..], elements, testName);
    } else {
      assert prefix + elements == elements;
    }
  }

  /** Once a match is found, whatever follows it in the listing is ignored. */
  lemma {:induction false} LaterRecordsIgnored(elements: seq<Element>, more: seq<Element>, testName: string)
    requires FirstTestInfo(elements, testName).Some?
    ensures FirstTestInfo(elements + more, testName) == FirstTestInfo(elements, testName)
    decreases |elements|
  {
    assert (elements + more)[0] == elements[0];
    if ScanStep(elements[0], testName).Continue? {
      assert (elements + more)[1..] == elements[1..] + more;
      LaterRecordsIgnored(elements[1..], more, testName);
    }
  }

  /** Since a complete element's match test reduces to "its name contains the method name". */
  lemma MatchingRecordIffContains(element: Element, testName: string)
    ensures MatchingRecord(element, testName)
        <==> Complete(element) && Strings.Contains(element.name.value, MethodName(testName))
  {
    if Complete(element) {
      MatchesIffContains(element.name.value, testName);
    }
  }

  /**
   * `findTestInfo`: the listing is looked up only when the GET succeeds
   * with a body; a thrown exception, a failure status or a null body
   * yield none.
   */
  function LookupTestInfo(listing: Response, testName: string): Option<TestInfo>
  {
    match listing
    case Successful(Some(json)) => ExtractTestInfo(json, testName)
    case _ => None
  }

  method FindTestInfo(credentials: Credentials, testName: string, listing: Response)
    returns (request: Request, info: Option<TestInfo>)
    ensures request == ListTestsRequest(credentials)
    ensures info == LookupTestInfo(listing, testName)
  {
    request := ListTestsRequest(credentials);
    if listing.Successful? && listing.body.Some? {
      info := ExtractTestInfoFromJson(listing.body.value, testName);
    } else {
      info := None;
    }
  }

  // ---------------------------------------------------------------------
  // Marking the test

  /** The labels endpoint of one test. */
  function LabelsUrl(orgSlug: string, suiteSlug: string, testId: string): string
  {
    TestActionUrl(orgSlug, suiteSlug, testId, "labels")
  }

  /** `performFlakyMark`: the PATCH adding the "flaky" label to a test. */
  function AddFlakyLabelRequest(credentials: Credentials, testId: string): Request
  {
    Patch(LabelsUrl(credentials.orgSlug, credentials.suiteSlug, testId), Bearer(credentials.apiToken),
          JsonMediaType, AddFlakyLabelBody)
  }

  /** The requests `markTestAsFlaky` sends, in order. */
  function MarkRequests(env: Env, description: Description, listing: Response): seq<Request>
  {
    match ReadCredentials(env)
    case None => []
    case Some(credentials) =>
      [ListTestsRequest(credentials)] +
      match LookupTestInfo(listing, TestName(description))
      case None => []
      case Some(info) => [AddFlakyLabelRequest(credentials, info.id)]
  }

  method MarkTestAsFlaky(env: Env, description: Description, listing: Response) returns (sent: seq<Request>)
    ensures sent == MarkRequests(env, description, listing)
  {
    if env.apiToken.None? || env.orgSlug.None? || env.suiteSlug.None? {
      return [];
    }
    var credentials := Credentials(env.apiToken.value, env.orgSlug.value, env.suiteSlug.value);
    var testName := TestName(description);
    var request, info := FindTestInfo(credentials, testName, listing);
    sent := [request];
    if info.Some? {
      sent := sent + [AddFlakyLabelRequest(credentials, info.value.id)];
    }
  }

  /**
   * Nothing is sent without all three credentials; the listing is always
   * fetched with them; and the label is requested exactly when the lookup
   * found the test, at that test's labels endpoint.
   */
  lemma MarkGating(env: Env, description: Description, listing: Response)
    ensures ReadCredentials(env).None? <==> MarkRequests(env, description, listing) == []
    ensures ReadCredentials(env).Some? ==>
              MarkRequests(env, description, listing)[0] == ListTestsRequest(ReadCredentials(env).value)
    ensures (exists r :: r in MarkRequests(env, description, listing) && r.Patch?)
        <==> ReadCredentials(env).Some? && LookupTestInfo(listing, TestName(description)).Some?
    ensures forall r :: r in MarkRequests(env, description, listing) && r.Patch? ==>
              var c := ReadCredentials(env).value;
              r.url == LabelsUrl(c.orgSlug, c.suiteSlug, LookupTestInfo(listing, TestName(description)).value.id)
  {
    var requests := MarkRequests(env, description, listing);
    if ReadCredentials(env).Some? && LookupTestInfo(listing, TestName(description)).Some? {
      assert requests[1].Patch?;
    }
  }

  // ---------------------------------------------------------------------
  // The rule

  /**
   * `apply(...).evaluate()`: run the wrapped test; only if it throws,
   * mark the test and rethrow the same throwable.
   */
  method Evaluate(base: TestResult, env: Env, description: Description, listing: Response)
    returns (result: TestResult, trace: seq<Event>)
    ensures result == base
    ensures trace == [TestRan] + (if base.Threw? then Sends(MarkRequests(env, description, listing)) else [])
  {
    trace := [TestRan];
    match base
    case Passed =>
      result := Passed;
    case Threw(throwable) =>
      var sent := MarkTestAsFlaky(env, description, listing);
      trace := trace + Sends(sent);
      result := Threw(throwable);
  }
}
