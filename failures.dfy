/** The exceptions that can surface while the harness probes Jenkins. */
module Failures {
  import opened Wrappers

  /**
   * The families of exception classes the catch clause and the waits tell
   * apart. Each constructor stands for a class together with its subclasses,
   * minus the families listed separately, so that an instance-of test
   * against any of the named classes is a test on the constructor.
   */
  datatype Kind =
    | AssertionError                 // java.lang.AssertionError and its subclasses
    | IOException                    // java.io.IOException and its subclasses (ConnectException, FileNotFoundException, ...)
    | NoSuchElementException         // Selenium's NoSuchElementException and its subclasses
    | WebDriverException             // every other WebDriverException subclass
    | OtherKind(className: string)   // every class outside the four families above, named by its class name

  /** A thrown object: its class, its message and the exception it wraps. */
  datatype Throwable = Throwable(kind: Kind, message: string, cause: Option<Throwable>)
}
