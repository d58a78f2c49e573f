/** How both rules name a test and decide whether a listed test is it. */
module TestNames {
  import opened Strings
  import opened JUnit
  import opened Wrappers

  /** `getTestName`: the class name and the method name joined by a dot. */
  function TestName(description: Description): string
  {
    description.className + "." + description.methodName
  }

  /** `testName.split(".").last()` */
  function MethodName(testName: string): string
  {
    Last(Split(testName, '.'))
  }

  /** The method name is what follows the last dot of the test name, or the whole name when it has no dot. */
  lemma MethodNameIsLastSegment(testName: string)
    ensures '.' !in MethodName(testName)
    ensures EndsWith(testName, MethodName(testName))
    ensures '.' in testName ==> EndsWith(testName, "." + MethodName(testName))
    ensures '.' !in testName ==> MethodName(testName) == testName
  {
    LastPart(testName, '.');
  }

  /** Recovering the method name from a test name gives back the description's method name, when that holds no dot. */
  lemma MethodNameOfTestName(description: Description)
    requires '.' !in description.methodName
    ensures MethodName(TestName(description)) == description.methodName
  {
    LastPartAfterSeparator(description.className, description.methodName, '.');
  }

  /** Two tests whose method names hold no dot have the same name only if they have the same class and method names. */
  lemma TestNameInjective(d1: Description, d2: Description)
    requires '.' !in d1.methodName && '.' !in d2.methodName
    requires TestName(d1) == TestName(d2)
    ensures d1.className == d2.className && d1.methodName == d2.methodName
  {
    MethodNameOfTestName(d1);
    MethodNameOfTestName(d2);
    var n := TestName(d1);
    assert d1.className == n[..|n| - |d1.methodName| - 1];
    assert d2.className == n[..|n| - |d2.methodName| - 1];
  }

  /** What one pass of the rules' `for` loop over the listing does: `continue`, `return` a value, or throw out of the loop. */
  datatype Step<T> = Continue | Return(value: T) | Throw

  /** The three-way test a listed name must pass: equal to the test name, containing the method name, or ending with a dot and the method name. */
  predicate Matches(name: string, testName: string, methodName: string)
  {
    name == testName || Contains(name, methodName) || EndsWith(name, "." + methodName)
  }

  /** Because the test name ends with its method name, the first and third tests are implied by the second. */
  lemma MatchesIffContains(name: string, testName: string)
    ensures Matches(name, testName, MethodName(testName)) <==> Contains(name, MethodName(testName))
  {
    var m := MethodName(testName);
    MethodNameIsLastSegment(testName);
    if name == testName {
      EndsWithContains(name, m);
    }
    if EndsWith(name, "." + m) {
      EndsWithSuffix(name, ".", m);
      EndsWithContains(name, m);
    }
  }

  /** For a real test, a listed name matches exactly when it contains the test's method name. */
  lemma MatchesTest(name: string, description: Description)
    requires '.' !in description.methodName
    ensures Matches(name, TestName(description), MethodName(TestName(description)))
        <==> Contains(name, description.methodName)
  {
    MatchesIffContains(name, TestName(description));
    MethodNameOfTestName(description);
  }

  /** So a listed test of another method, whose name merely contains this method's name, matches too. */
  lemma MatchesOtherTest()
    ensures var d := Description("C", "t", None, None);
            var name := "C.tt";
            name != TestName(d) && !EndsWith(name, ".t") && Matches(name, TestName(d), MethodName(TestName(d)))
  {
    var d := Description("C", "t", None, None);
    var name := "C.tt";
    assert TestName(d) == "C.t";
    MatchesTest(name, d);
    assert name[|name| - 2..] == "tt";
    assert OccursAt(name, "t", 2);
    ContainsIffOccurs(name, "t");
  }
}
