/**
 * What the rules see of JUnit: the description of the test being run,
 * the `@Quarantined` annotation it may carry, and how the wrapped test
 * statement ends.
 */
module JUnit {
  import opened Wrappers

  /** `@Quarantined(reason = ...)`; a bare `@Quarantined` has the empty reason. */
  datatype Quarantined = Quarantined(reason: string := "")

  /**
   * A test's `Description`: its class and method names, and the
   * `@Quarantined` annotation found on the method (`getAnnotation`) and on
   * the test class (`testClass.getAnnotation`), if any.
   */
  datatype Description = Description(
    className: string,
    methodName: string,
    methodAnnotation: Option<Quarantined>,
    classAnnotation: Option<Quarantined>)

  /** A throwable, known only by its identity. */
  type Throwable = nat

  /** How `base.evaluate()` ends: normally, or by throwing. */
  datatype TestResult = Passed | Threw(throwable: Throwable)
}
