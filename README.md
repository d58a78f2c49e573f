# Buildkite test rules: a verified model

This project models the decision logic of the two JUnit rules of the
grad-program Android app that talk to Buildkite Test Analytics:

- **FlakyTestRule** runs the wrapped test; only when it throws does it look
  the test up in the suite's test listing and add the `flaky` label to it,
  and then it rethrows the same throwable (provided building the requests
  does not itself throw; see "Left out").
- **QuarantineTestRule** checks whether the test method or its class carries
  `@Quarantined`; if so it announces the annotation's reason, looks the test
  up and mutes it. The wrapped test runs in every case in which building the
  requests does not throw (see "Left out").

Both rules name a test `className.methodName` and scan the listing in order
for the first usable record whose name equals the test name, contains the
method name (the last dot-separated segment of the test name) or ends with
`.methodName`.

The HTTP client, Gson and the environment are replaced by values:

- the environment is an `Env` of three optional strings;
- the GET of the listing ends as a `Response`: a network error, a failure
  status, or success with an optional body that Gson has parsed into a
  `Document`;
- a `Document` is either a parse failure or a sequence of `Element`s, each a
  non-object or an object whose `name`, `id` and `url` fields are absent,
  strings, or values on which `asString` throws;
- the requests a rule sends, and the moment the wrapped test runs, come out
  as a trace of `Event`s.

Each loop of the source (`extractTestInfoFromJson`, `extractTestIdFromJson`)
is a method with a `for` loop and early returns. It is proved equal to a
recursive specification function. That function is in turn proved equal to
a reference definition element by element ("the first element the loop does
not move past is a matching record carrying this value"). The gating and
rule methods are proved equal to functions that list the requests sent.

Modules: `Wrappers` (option type), `Strings` (Kotlin's `contains`,
`endsWith`, `split`, `last`), `JUnit` (descriptions, the annotation, test
outcomes), `Json` (the parsed listing), `Buildkite` (credentials, endpoints,
requests, responses, events), `TestNames`, `FlakyTestRule`,
`QuarantineTestRule`.

Each rule sends a GET of the listing and then, when the test is found, a
PATCH (flaky) or a PUT (mute).

## Model

| member | source | states |
|---|---|---|
| TestNames.MethodNameIsLastSegment | app/src/test/java/my/com/jobstreet/gradprogram/FlakyTestRule.kt:147 | The method name holds no dot and is a suffix of the test name. When the test name has a dot, the method name is preceded by one. Otherwise it is the whole test name. |
| TestNames.MethodNameOfTestName | app/src/test/java/my/com/jobstreet/gradprogram/FlakyTestRule.kt:97-101 | Splitting `className.methodName` on dots and taking the last part gives back the method name, when that holds no dot. |
| TestNames.TestNameInjective | app/src/test/java/my/com/jobstreet/gradprogram/QuarantineTestRule.kt:93-97 | Two tests with dot-free method names get the same full name only if class and method names are both equal. |
| TestNames.MatchesIffContains | app/src/test/java/my/com/jobstreet/gradprogram/FlakyTestRule.kt:156-158 | The three-way name test holds exactly when the listed name contains the method name. The "equals" and "ends with `.method`" clauses are redundant. |
| TestNames.MatchesTest | app/src/test/java/my/com/jobstreet/gradprogram/QuarantineTestRule.kt:143-145 | For a test with a dot-free method name, a listed name matches exactly when it contains that method name. |
| TestNames.MatchesOtherTest | app/src/test/java/my/com/jobstreet/gradprogram/FlakyTestRule.kt:155-158 | A concrete case: a listed test of a different method (`C.tt` for test `C.t`) passes the name test. It is neither equal to the test name nor ends with `.t`. |
| Buildkite.TestActionUrlInjective | app/src/test/java/my/com/jobstreet/gradprogram/FlakyTestRule.kt:184-185 | Within one organization and suite, the URL `.../tests/<id>/<action>` determines the test id. |
| FlakyTestRule.ExtractTestInfoFromJson | app/src/test/java/my/com/jobstreet/gradprogram/FlakyTestRule.kt:144-168 | The loop returns what the lookup specification returns. None on a parse failure. Elements are read in order. A missing `name`, `id` or `url` skips the element. A non-object element or a field `asString` rejects yields none. The first complete match gives its id and url. |
| FlakyTestRule.PassedOverContinues | app/src/test/java/my/com/jobstreet/gradprogram/FlakyTestRule.kt:151-153 | The loop moves past an element exactly when it is readable and is not a complete, matching record. |
| FlakyTestRule.FirstTestInfoIff | app/src/test/java/my/com/jobstreet/gradprogram/FlakyTestRule.kt:149-161 | The lookup returns `info` if and only if some element k is a complete matching record with that id and url, and the loop moves past every element before k. |
| FlakyTestRule.TestInfoIsMatchingRecord | app/src/test/java/my/com/jobstreet/gradprogram/FlakyTestRule.kt:156-160 | Whatever is returned comes from a complete element of the listing whose name matches the test. |
| FlakyTestRule.NoMatchingRecord | app/src/test/java/my/com/jobstreet/gradprogram/FlakyTestRule.kt:163-167 | On a parse failure, or when no element is a complete matching record, the result is none. |
| FlakyTestRule.PassedOverPrefix | app/src/test/java/my/com/jobstreet/gradprogram/FlakyTestRule.kt:151-153 | Records missing a field, or not matching, do not stop the scan: putting them in front of a listing leaves its result unchanged. |
| FlakyTestRule.LaterRecordsIgnored | app/src/test/java/my/com/jobstreet/gradprogram/FlakyTestRule.kt:159-161 | Once a match is found, anything appended after it to the listing is ignored. |
| FlakyTestRule.MatchingRecordIffContains | app/src/test/java/my/com/jobstreet/gradprogram/FlakyTestRule.kt:153-158 | An element matches exactly when it is complete and its name contains the method name. |
| FlakyTestRule.FindTestInfo | app/src/test/java/my/com/jobstreet/gradprogram/FlakyTestRule.kt:111-139 | The request is a GET of `.../organizations/<org>/suites/<suite>/tests` with a bearer token. The listing is scanned only on a successful response with a body. A network error, a failure status or a null body yield none. |
| FlakyTestRule.MarkTestAsFlaky | app/src/test/java/my/com/jobstreet/gradprogram/FlakyTestRule.kt:68-92 | The requests sent are exactly those the marking specification lists. Nothing without all three credentials. Otherwise the listing GET, then the label PATCH only when a record was found. |
| FlakyTestRule.MarkGating | app/src/test/java/my/com/jobstreet/gradprogram/FlakyTestRule.kt:73-91 | Nothing is sent if and only if a credential is missing. With credentials, the listing GET comes first. A PATCH is sent if and only if credentials are present and a record was found. Its URL is `.../tests/<found id>/labels`. |
| FlakyTestRule.Evaluate | app/src/test/java/my/com/jobstreet/gradprogram/FlakyTestRule.kt:48-63 | The test runs first and its outcome is passed on unchanged, so the same throwable is rethrown. A passing test sends nothing. A throwing one then sends exactly the marking requests. |
| QuarantineTestRule.ReasonPrecedence | app/src/test/java/my/com/jobstreet/gradprogram/QuarantineTestRule.kt:42-49 | A reason is announced if and only if the method or the class carries `@Quarantined`. It is the method annotation's reason when present, else the class annotation's. The fallback text is never used. |
| QuarantineTestRule.BareAnnotationReason | app/src/test/java/my/com/jobstreet/gradprogram/Quarantined.kt:10 | A bare `@Quarantined` on the method announces the empty reason. |
| QuarantineTestRule.ExtractTestIdFromJson | app/src/test/java/my/com/jobstreet/gradprogram/QuarantineTestRule.kt:132-154 | The loop returns what the lookup specification returns. Elements are read in order. A missing `name` or `id` skips the element. Exceptions and parse failures yield none. The first match with both fields gives its id. |
| QuarantineTestRule.PassedOverContinues | app/src/test/java/my/com/jobstreet/gradprogram/QuarantineTestRule.kt:138-140 | The loop moves past an element exactly when it is readable and is not a matching record with `name` and `id`. |
| QuarantineTestRule.FirstTestIdIff | app/src/test/java/my/com/jobstreet/gradprogram/QuarantineTestRule.kt:137-148 | The lookup returns `id` if and only if some element k has `name` and `id`, matches and carries that id, and the loop moves past every element before k. |
| QuarantineTestRule.NoMatchingRecord | app/src/test/java/my/com/jobstreet/gradprogram/QuarantineTestRule.kt:149-153 | On a parse failure, or when no element with `name` and `id` matches, the result is none. |
| QuarantineTestRule.LaterRecordsIgnored | app/src/test/java/my/com/jobstreet/gradprogram/QuarantineTestRule.kt:143-147 | Once a match is found, anything appended after it to the listing is ignored. |
| QuarantineTestRule.UrlIgnored | app/src/test/java/my/com/jobstreet/gradprogram/QuarantineTestRule.kt:139-140 | Changing any element's `url` field, even to a value `asString` rejects, leaves the lookup unchanged. Unlike the flaky rule, `url` is not required. |
| QuarantineTestRule.MatchingRecordIffContains | app/src/test/java/my/com/jobstreet/gradprogram/QuarantineTestRule.kt:143-145 | An element matches exactly when it has `name` and `id` and its name contains the method name. |
| QuarantineTestRule.FindTestId | app/src/test/java/my/com/jobstreet/gradprogram/QuarantineTestRule.kt:102-127 | The request is the listing GET with a bearer token. The listing is scanned only on a successful response with a body, else none. |
| QuarantineTestRule.MuteTestInBuildkite | app/src/test/java/my/com/jobstreet/gradprogram/QuarantineTestRule.kt:66-88 | The requests sent are exactly those the mute specification lists. Nothing without all three credentials. Otherwise the listing GET, then the mute PUT only when an id was found. |
| QuarantineTestRule.MuteGating | app/src/test/java/my/com/jobstreet/gradprogram/QuarantineTestRule.kt:71-87 | Nothing is sent if and only if a credential is missing. With credentials, the listing GET comes first. A PUT is sent if and only if an id was found. Its URL is `.../tests/<found id>/mute`. |
| QuarantineTestRule.Evaluate | app/src/test/java/my/com/jobstreet/gradprogram/QuarantineTestRule.kt:38-60 | The announced reason is the one selected above. A quarantined test sends exactly the mute requests before running; others send nothing. The wrapped test runs exactly once, last, and its outcome is passed on unchanged. |

## Left out

- HTTP execution (OkHttp, its timeouts, TLS, headers other than `Authorization`) is not modelled. The listing GET's outcome is an input. The PATCH and PUT responses are only logged, so they are not inputs at all.
- Gson's parsing of the body text is not modelled; its result is the `Document` input. `fromJson` returning null for an empty body is folded into `Malformed`, because iterating it throws and is caught. A one-element JSON array, which `asString` accepts, counts as a string field.
- `System.getenv` becomes the `Env` input. `println` logging is not modelled, except that the quarantine reason is an output of `QuarantineTestRule.Evaluate`.
- FlakyTestRule.Evaluate, QuarantineTestRule.Evaluate: building a request (`Request.Builder().url(...).header(...)`, FlakyTestRule.kt:120-124 and 194-199, QuarantineTestRule.kt:105-109 and 162-166) happens outside the `try` blocks and is assumed never to throw. OkHttp rejects, for example, a token holding a newline with an `IllegalArgumentException`. In FlakyTestRule that exception would replace the test's own throwable; in QuarantineTestRule it would escape before `base.evaluate()`, so the test would not run. The model, which has no such failure, promises the same throwable and a run of the test in every case.
- The lookups catch `Exception` only. A `java.lang.Error` thrown inside them would escape; the model treats every failure there as caught.
- A `Description` whose `testClass` is null, or whose `methodName` is null, is not modelled. This is a suite-level description, to which the rules are not applied.
- The throwable of a failing test is identified by a number. The model states that the same one is rethrown, not what it holds.
- `TestInfo.url` is returned by the flaky lookup but never used by the rule; the model returns it too.
- FlakyTestRule's `Content-Type` header and the body's media type are both `application/json`; they are one `mediaType` field of `Request`.
- The team and suite UUID variables named in FlakyTestRule's doc comment are never read by the code and are not modelled.
- MainActivity, SecondActivity and ThirdActivity are Compose UI and `Intent` plumbing; ExampleUnitTest and the build script are a fixture and build configuration. None of them is part of this model.
