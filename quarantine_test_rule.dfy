/**
 * QuarantineTestRule: a JUnit rule that, before running a test carrying
 * `@Quarantined` (on the method or on its class), looks the test up in the
 * suite's listing and mutes it; the wrapped test runs in every case. The
 * HTTP client and Gson are replaced by their results: the listing response
 * is an input and the requests sent are an output.
 */
module QuarantineTestRule {
  import opened Wrappers
  import opened Json
  import opened JUnit
  import opened Buildkite
  import opened TestNames

  // ---------------------------------------------------------------------
  // Quarantine detection

  /** The method or the test class carries `@Quarantined`. */
  predicate IsQuarantined(description: Description)
  {
    description.methodAnnotation.Some? || description.classAnnotation.Some?
  }

  /**
   * The reason announced for a quarantined test: that of the method's
   * annotation, else of the class's, or "Test is quarantined" when neither
   * exists; none for a test that is not quarantined.
   */
  function AnnouncedReason(description: Description): Option<string>
  {
    if IsQuarantined(description) then
      var annotation :=
        if description.methodAnnotation.Some? then description.methodAnnotation else description.classAnnotation;
      Some(if annotation.Some? then annotation.value.reason else "Test is quarantined")
    else
      None
  }

  /**
   * A reason is announced exactly for quarantined tests; the method's
   * annotation takes precedence, and the fallback text is never used.
   */
  lemma ReasonPrecedence(description: Description)
    ensures AnnouncedReason(description).Some? <==> IsQuarantined(description)
    ensures description.methodAnnotation.Some? ==>
              AnnouncedReason(description) == Some(description.methodAnnotation.value.reason)
    ensures description.methodAnnotation.None? && description.classAnnotation.Some? ==>
              AnnouncedReason(description) == Some(description.classAnnotation.value.reason)
  {
  }

  /** A bare `@Quarantined` announces the empty reason. */
  lemma BareAnnotationReason(description: Description)
    requires description.methodAnnotation == Some(Quarantined())
    ensures AnnouncedReason(description) == Some("")
  {
  }

  // ---------------------------------------------------------------------
  // Looking the test up in the listing

  /**
   * One pass of the loop in `extractTestIdFromJson`: read `name` and `id`
   * in that order, skipping the element when one is missing, and return the
   * id when the name matches. The `url` field is never read.
   */
  function ScanStep(element: Element, testName: string): Step<string>
  {
    match element
    case NonObject => Throw
    case Object(name, id, _) =>
      match name
      case Absent => Continue
      case NonString => Throw
      case Str(n) =>
        match id
        case Absent => Continue
        case NonString => Throw
        case Str(i) =>
          if Matches(n, testName, MethodName(testName)) then Return(i) else Continue
  }

  /** The loop over the array's elements, in order, stopping at the first `return` or exception. */
  function FirstTestId(elements: seq<Element>, testName: string): Option<string>
    decreases |elements|
  {
    if elements == [] then None
    else
      match ScanStep(elements[0], testName)
      case Continue => FirstTestId(elements[1..], testName)
      case Return(id) => Some(id)
      case Throw => None
  }

  /** `extractTestIdFromJson`: a parse failure, like any exception in the loop, yields none. */
  function ExtractTestId(json: Document, testName: string): Option<string>
  {
    match json
    case Malformed => None
    case Array(elements) => FirstTestId(elements, testName)
  }

  method ExtractTestIdFromJson(json: Document, testName: string) returns (testId: Option<string>)
    ensures testId == ExtractTestId(json, testName)
  {
    if json.Malformed? {
      return None;
    }
    var elements := json.elements;
    var methodName := MethodName(testName);
    for i := 0 to |elements|
      invariant FirstTestId(elements[i..], testName) == FirstTestId(elements, testName)
    {
      assert elements[i..][1..] == elements[i + 1..];
      var element := elements[i];
      if element.NonObject? {
        return None;
      }
      if element.name.Absent? {
        continue;
      } else if element.name.NonString? {
        return None;
      }
      var name := element.name.value;
      if element.id.Absent? {
        continue;
      } else if element.id.NonString? {
        return None;
      }
      var id := element.id.value;
      if Matches(name, testName, methodName) {
        return Some(id);
      }
    }
    return None;
  }

  // Reference definitions of the lookup, element by element.

  /** An element carrying both `name` and `id` as strings; `url` plays no part. */
  predicate Identified(element: Element)
  {
    element.Object? && element.name.Str? && element.id.Str?
  }

  /** Reading the element throws before a missing field lets the loop move on. */
  predicate Unreadable(element: Element)
  {
    || element.NonObject?
    || element.name.NonString?
    || (element.name.Str? && element.id.NonString?)
  }

  /** An identified element whose name matches the test. */
  predicate MatchingRecord(element: Element, testName: string)
  {
    Identified(element) && Matches(element.name.value, testName, MethodName(testName))
  }

  /** The loop moves past the element: it is readable and either lacks a field or is not a match. */
  predicate PassedOver(element: Element, testName: string)
  {
    !Unreadable(element) && !MatchingRecord(element, testName)
  }

  /** The loop moves past exactly the elements the reference definition says it does. */
  lemma PassedOverContinues(element: Element, testName: string)
    ensures PassedOver(element, testName) <==> ScanStep(element, testName).Continue?
  {
  }

  /** Element `k` is the first the loop does not move past, and it is a match with id `testId`. */
  predicate FirstMatchAt(elements: seq<Element>, testName: string, testId: string, k: int)
  {
    && 0 <= k < |elements|
    && MatchingRecord(elements[k], testName)
    && elements[k].id.value == testId
    && forall j :: 0 <= j < k ==> PassedOver(elements[j], testName)
  }

  /** The lookup returns `testId` exactly when some element is the first match and carries it. */
  lemma {:induction false} FirstTestIdIff(elements: seq<Element>, testName: string, testId: string)
    ensures FirstTestId(elements, testName) == Some(testId) <==> exists k :: FirstMatchAt(elements, testName, testId, k)
    decreases |elements|
  {
    if elements != [] {
      var e := elements[0];
      var tail := elements[1..];
      PassedOverContinues(e, testName);
      match ScanStep(e, testName)
      case Return(found) =>
        assert FirstMatchAt(elements, testName, found, 0);
        if exists k :: FirstMatchAt(elements, testName, testId, k) {
          var k :| FirstMatchAt(elements, testName, testId, k);
          assert k == 0;
        }
      case Throw =>
      case Continue =>
        FirstTestIdIff(tail, testName, testId);
        assert PassedOver(e, testName);
        if exists k :: FirstMatchAt(tail, testName, testId, k) {
          var k :| FirstMatchAt(tail, testName, testId, k);
          assert FirstMatchAt(elements, testName, testId, k + 1);
        }
        if exists k :: FirstMatchAt(elements, testName, testId, k) {
          var k :| FirstMatchAt(elements, testName, testId, k);
          assert k != 0;
          assert FirstMatchAt(tail, testName, testId, k - 1);
        }
    }
  }

  /** With no identified, matching element, the result is none. */
  lemma NoMatchingRecord(json: Document, testName: string)
    requires json.Array? ==> forall k :: 0 <= k < |json.elements| ==> !MatchingRecord(json.elements[k], testName)
    ensures ExtractTestId(json, testName) == None
  {
    if json.Array? && ExtractTestId(json, testName).Some? {
      FirstTestIdIff(json.elements, testName, ExtractTestId(json, testName).value);
    }
  }

  /** Once a match is found, whatever follows it in the listing is ignored. */
  lemma {:induction false} LaterRecordsIgnored(elements: seq<Element>, more: seq<Element>, testName: string)
    requires FirstTestId(elements, testName).Some?
    ensures FirstTestId(elements + more, testName) == FirstTestId(elements, testName)
    decreases |elements|
  {
    assert (elements + more)[0] == elements[0];
    if ScanStep(elements[0], testName).Continue? {
      assert (elements + more)[1..] == elements[1..] + more;
      LaterRecordsIgnored(elements[1..], more, testName);
    }
  }

  /** Whatever an element's `url` holds, even a value on which `asString` would throw, the lookup is the same. */
  lemma {:induction false} UrlIgnored(elements: seq<Element>, k: nat, url: Field, testName: string)
    requires k < |elements| && elements[k].Object?
    ensures FirstTestId(elements[k := elements[k].(url := url)], testName) == FirstTestId(elements, testName)
    decreases k
  {
    var changed := elements[k := elements[k].(url := url)];
    assert ScanStep(changed[0], testName) == ScanStep(elements[0], testName);
    if k > 0 {
      assert changed[1..] == elements[1..][k - 1 := elements[k].(url := url)];
      UrlIgnored(elements[1..], k - 1, url, testName);
    }
  }

  /** Since an identified element's match test reduces to "its name contains the method name". */
  lemma MatchingRecordIffContains(element: Element, testName: string)
    ensures MatchingRecord(element, testName)
        <==> Identified(element) && Strings.Contains(element.name.value, MethodName(testName))
  {
    if Identified(element) {
      MatchesIffContains(element.name.value, testName);
    }
  }

  /**
   * `findTestId`: the listing is looked up only when the GET succeeds with a
   * body; a thrown exception, a failure status or a null body yield none.
   */
  function LookupTestId(listing: Response, testName: string): Option<string>
  {
    match listing
    case Successful(Some(json)) => ExtractTestId(json, testName)
    case _ => None
  }

  method FindTestId(credentials: Credentials, testName: string, listing: Response)
    returns (request: Request, testId: Option<string>)
    ensures request == ListTestsRequest(credentials)
    ensures testId == LookupTestId(listing, testName)
  {
    request := ListTestsRequest(credentials);
    if listing.Successful? && listing.body.Some? {
      testId := ExtractTestIdFromJson(listing.body.value, testName);
    } else {
      testId := None;
    }
  }

  // ---------------------------------------------------------------------
  // Muting the test

  /** The mute endpoint of one test. */
  function MuteUrl(orgSlug: string, suiteSlug: string, testId: string): string
  {
    TestActionUrl(orgSlug, suiteSlug, testId, "mute")
  }

  /** `performMute`: the PUT, with an empty JSON body, that mutes a test. */
  function MuteRequest(credentials: Credentials, testId: string): Request
  {
    Put(MuteUrl(credentials.orgSlug, credentials.suiteSlug, testId), Bearer(credentials.apiToken), JsonMediaType, "")
  }

  /** The requests `muteTestInBuildkite` sends, in order. */
  function MuteRequests(env: Env, description: Description, listing: Response): seq<Request>
  {
    match ReadCredentials(env)
    case None => []
    case Some(credentials) =>
      [ListTestsRequest(credentials)] +
      match LookupTestId(listing, TestName(description))
      case None => []
      case Some(testId) => [MuteRequest(credentials, testId)]
  }

  method MuteTestInBuildkite(env: Env, description: Description, listing: Response) returns (sent: seq<Request>)
    ensures sent == MuteRequests(env, description, listing)
  {
    if env.apiToken.None? || env.orgSlug.None? || env.suiteSlug.None? {
      return [];
    }
    var credentials := Credentials(env.apiToken.value, env.orgSlug.value, env.suiteSlug.value);
    var testName := TestName(description);
    var request, testId := FindTestId(credentials, testName, listing);
    sent := [request];
    if testId.Some? {
      sent := sent + [MuteRequest(credentials, testId.value)];
    }
  }

  /**
   * Nothing is sent without all three credentials; the listing is always
   * fetched with them; and the mute is requested exactly when the lookup
   * found an id, at that test's mute endpoint.
   */
  lemma MuteGating(env: Env, description: Description, listing: Response)
    ensures ReadCredentials(env).None? <==> MuteRequests(env, description, listing) == []
    ensures ReadCredentials(env).Some? ==>
              MuteRequests(env, description, listing)[0] == ListTestsRequest(ReadCredentials(env).value)
    ensures (exists r :: r in MuteRequests(env, description, listing) && r.Put?)
        <==> ReadCredentials(env).Some? && LookupTestId(listing, TestName(description)).Some?
    ensures forall r :: r in MuteRequests(env, description, listing) && r.Put? ==>
              var c := ReadCredentials(env).value;
              r.url == MuteUrl(c.orgSlug, c.suiteSlug, LookupTestId(listing, TestName(description)).value)
  {
    var requests := MuteRequests(env, description, listing);
    if ReadCredentials(env).Some? && LookupTestId(listing, TestName(description)).Some? {
      assert requests[1].Put?;
    }
  }

  // ---------------------------------------------------------------------
  // The rule

  /**
   * `apply(...).evaluate()`: a quarantined test has its reason announced
   * and is muted first; then the wrapped test runs, whatever happened
   * before, and ends as it ends.
   */
  method Evaluate(base: TestResult, env: Env, description: Description, listing: Response)
    returns (result: TestResult, trace: seq<Event>, reason: Option<string>)
    ensures result == base
    ensures reason == AnnouncedReason(description)
    ensures trace == (if IsQuarantined(description) then Sends(MuteRequests(env, description, listing)) else []) + [TestRan]
    ensures trace[|trace| - 1] == TestRan && TestRan !in trace[..|trace| - 1]
  {
    trace := [];
    reason := None;
    var isQuarantined := description.methodAnnotation.Some? || description.classAnnotation.Some?;
    if isQuarantined {
      var annotation :=
        if description.methodAnnotation.Some? then description.methodAnnotation else description.classAnnotation;
      reason := Some(if annotation.Some? then annotation.value.reason else "Test is quarantined");
      var sent := MuteTestInBuildkite(env, description, listing);
      trace := Sends(sent);
    }
    assert forall i :: 0 <= i < |trace| ==> trace[i].Sent?;
    trace := trace + [TestRan];
    result := base;
  }
}
