# Jenkins readiness and version discovery

A model of the part of the acceptance-test harness's `Jenkins` page object
that decides whether the Jenkins under test has started or come back after a
restart, and what it knows about that Jenkins's version:

- **Version discovery** (`getVersionNumber`): the harness opens a connection
  to the Jenkins URL and reads the `X-Jenkins` response header. The version
  text is the header value up to its first space. A missing header is an
  `AssertionError` that carries the page text. An `IOException` is rewrapped as
  an `AssertionError`. A successful fetch stores the new version in the
  `version` field.
- **The version cache** (`getVersion`). Java evaluates both arguments of
  `defaultIfNull(version, getVersionNumber())` before the call. So every
  call fetches again and overwrites the field. It returns the version that was
  cached before the call, or the fresh one when nothing was cached. It throws
  whenever the fetch throws.
- **The two waits.** `waitForStarted` waits up to 60 seconds and ignores
  `AssertionError`. Its predicate is "a version could be fetched".
  `waitForLoad(seconds)` ignores `AssertionError`, `NoSuchElementException`
  and `WebDriverException`. Its predicate re-visits the current URL, then
  queries `api/json?tree=nodeName`. Each attempt is judged as Succeed, Retry
  or Fatal.

Modules: `Wrappers` (Option, Result), `Failures` (exception kinds and thrown
objects), `VersionHeader` (the header cut), `Waits` (a wait's policy and the
per-attempt decision), `JenkinsPageObject` (the fetch, the cache as the class
`Jenkins`, the two predicates and the lemmas that connect them).

I/O is given to the model as values. The connection is a
`Result<Response, Throwable>`: it either fails with a thrown object or gives
the header (absent or present) and the outcome of reading the body. For the
reload predicate, the visit and the JSON query are each an
`Option<Throwable>`, where `None` means the call returned normally.

Facts about the code that the model keeps:
- The code never clears `version`, neither on restart nor after `waitForLoad`.
- `waitForLoad` does not ignore a raw `IOException`. Only the three listed
  classes are ignored (`RawIOExceptionIsFatal`).
- There is no separate "malformed version" failure. The header text goes to
  `VersionNumber` unchecked.
- Start-up tolerates transport failures only because `getVersionNumber`
  rewraps `IOException` as `AssertionError`. `IOException` is not on the
  ignore list.

## Model

| member | source | states |
|---|---|---|
| `VersionHeader.IndexOf` | src/main/java/org/jenkinsci/test/acceptance/po/Jenkins.java:89 | the result is -1 exactly when the character is absent; otherwise it is the position of its first occurrence |
| `VersionHeader.VersionText` | src/main/java/org/jenkinsci/test/acceptance/po/Jenkins.java:89-92 | the version text is a prefix of the header value and holds no space; it is the whole value when there is no space, otherwise it stops right at the first space |
| `VersionHeader.VersionTextCharacterized` | src/main/java/org/jenkinsci/test/acceptance/po/Jenkins.java:89-92 | a string is the version text of a header value if and only if it is the longest space-free prefix of that value |
| `VersionHeader.LeadingTokenIsLeadingToken` | src/main/java/org/jenkinsci/test/acceptance/po/Jenkins.java:89-92 | the character-by-character reference definition produces the longest space-free prefix |
| `VersionHeader.LeadingTokenUnique` | src/main/java/org/jenkinsci/test/acceptance/po/Jenkins.java:89-92 | a header value has only one longest space-free prefix |
| `VersionHeader.VersionTextIsLeadingToken` | src/main/java/org/jenkinsci/test/acceptance/po/Jenkins.java:89-92 | the indexOf/substring cut agrees with the reference definition on every header value |
| `VersionHeader.VersionTextIdempotent` | src/main/java/org/jenkinsci/test/acceptance/po/Jenkins.java:89-92 | cutting an already cut version text changes nothing |
| `VersionHeader.VersionTextDropsSuffix` | src/main/java/org/jenkinsci/test/acceptance/po/Jenkins.java:89-92 | a space-free version followed by a space and any details yields that version |
| `VersionHeader.VersionTextDropsBuildDetails` | src/main/java/org/jenkinsci/test/acceptance/po/Jenkins.java:89-92 | "2.450.3 (private-abcdef)" yields "2.450.3" |
| `VersionHeader.VersionTextKeepsPlainVersion` | src/main/java/org/jenkinsci/test/acceptance/po/Jenkins.java:89-92 | "1.609" yields "1.609" |
| `Waits.Decide` | src/main/java/org/jenkinsci/test/acceptance/po/Jenkins.java:101-103 | an attempt succeeds only on true; it is fatal exactly when it threw an exception whose class is not ignored, and then that exception propagates unchanged; a retry keeps the thrown exception as the last one seen |
| `Waits.DecideMonotone` | src/main/java/org/jenkinsci/test/acceptance/po/Jenkins.java:178-179 | ignoring more classes never turns a retry into a fatal outcome; whatever is fatal under the larger ignore list is fatal under the smaller one too |
| `JenkinsPageObject.RewrapIOException` | src/main/java/org/jenkinsci/test/acceptance/po/Jenkins.java:86-88 | an IOException becomes an AssertionError that wraps it; any other exception is left as it is |
| `JenkinsPageObject.FetchVersion` | src/main/java/org/jenkinsci/test/acceptance/po/Jenkins.java:74-93 | a version is produced exactly when the connection succeeds and the header is present, and its text is the cut header value; a missing header is an AssertionError whose message ends with the page text; an IOException from opening the connection or reading the body becomes an AssertionError wrapping it; any other exception passes through; no IOException ever escapes |
| `JenkinsPageObject.Written` | src/main/java/org/jenkinsci/test/acceptance/po/Jenkins.java:94 | the field takes the fetched version on success and keeps its old value when the fetch threw |
| `JenkinsPageObject.GetVersionResult` | src/main/java/org/jenkinsci/test/acceptance/po/Jenkins.java:70-72 | getVersion fails exactly when the fresh fetch fails, whether or not a version is cached, and then it throws the fetch's exception; on success it returns the cached version if there is one, else the fresh one |
| `JenkinsPageObject.StartedPolicy` | src/main/java/org/jenkinsci/test/acceptance/po/Jenkins.java:101-102 | start-up waits 60 seconds and ignores AssertionError and nothing else |
| `JenkinsPageObject.LoadPolicy` | src/main/java/org/jenkinsci/test/acceptance/po/Jenkins.java:171-179 | reload waits the given number of seconds and ignores exactly AssertionError, NoSuchElementException and WebDriverException |
| `JenkinsPageObject.BuildLoadPolicy` | src/main/java/org/jenkinsci/test/acceptance/po/Jenkins.java:172-175 | appending the three classes one by one gives the reload policy, in that order |
| `JenkinsPageObject.StartedPredicate` | src/main/java/org/jenkinsci/test/acceptance/po/Jenkins.java:103 | the start-up predicate never returns false; it returns true exactly when the fetch succeeds, and otherwise throws the fetch's exception |
| `JenkinsPageObject.ReloadPredicate` | src/main/java/org/jenkinsci/test/acceptance/po/Jenkins.java:180-184 | the reload predicate never returns false; it returns true exactly when both the visit and the JSON query return; if the visit throws, that exception is the outcome and the query does not count; otherwise the query's exception is the outcome |
| `JenkinsPageObject.StartedAttemptClassification` | src/main/java/org/jenkinsci/test/acceptance/po/Jenkins.java:74-104 | a start-up attempt succeeds exactly when the header is present; a missing header and every IOException are retried with the exception kept; it is fatal exactly when the I/O throws something that is neither an IOException nor an AssertionError, and then that exception propagates |
| `JenkinsPageObject.ReloadAttemptClassification` | src/main/java/org/jenkinsci/test/acceptance/po/Jenkins.java:171-186 | a reload attempt succeeds exactly when neither call throws; it is fatal exactly when the first exception thrown is outside the three ignored classes; a retry always keeps that first exception |
| `JenkinsPageObject.RawIOExceptionIsFatal` | src/main/java/org/jenkinsci/test/acceptance/po/Jenkins.java:172-175 | neither wait ignores an IOException that reaches it unwrapped |
| `JenkinsPageObject.CacheUnchangedByFailures` | src/main/java/org/jenkinsci/test/acceptance/po/Jenkins.java:94 | a run of failed fetches leaves the cached version as it was, a missing header included |
| `JenkinsPageObject.CacheStaysFilled` | src/main/java/org/jenkinsci/test/acceptance/po/Jenkins.java:94 | once a version is cached, no run of fetches, failed or successful, empties the field again |
| `JenkinsPageObject.CacheHoldsLastSuccess` | src/main/java/org/jenkinsci/test/acceptance/po/Jenkins.java:94 | after any run of fetches, the field holds the version from the most recent successful fetch |
| `JenkinsPageObject.GetVersionReturnsEarlierFetch` | src/main/java/org/jenkinsci/test/acceptance/po/Jenkins.java:70-72 | a successful getVersion returns the version from the latest earlier successful fetch, not its own fresh one |
| `JenkinsPageObject.GetVersionThrowsDespiteCache` | src/main/java/org/jenkinsci/test/acceptance/po/Jenkins.java:71 | with a version cached and the connection refused, getVersion as written throws |
| `JenkinsPageObject.LazyGetVersionUsesCache` | src/main/java/org/jenkinsci/test/acceptance/po/Jenkins.java:71 | the intended lazy form answers from the cache the same way whatever the connection would do |
| `JenkinsPageObject.Jenkins.constructor` | src/main/java/org/jenkinsci/test/acceptance/po/Jenkins.java:41-47 | a page object exists only after start-up succeeded, so it always has a version cached: the cut X-Jenkins header of the attempt that ended waitForStarted |
| `JenkinsPageObject.Jenkins.GetVersionNumber` | src/main/java/org/jenkinsci/test/acceptance/po/Jenkins.java:74-95 | returns the fetch's outcome; on success the field then holds the returned version, and on failure it is unchanged |
| `JenkinsPageObject.Jenkins.GetVersion` | src/main/java/org/jenkinsci/test/acceptance/po/Jenkins.java:70-72 | always fetches; returns the previously cached version if there was one, else the fresh one, and throws when the fetch throws; the field afterwards holds the fresh version |
| `JenkinsPageObject.Jenkins.GetVersionLazy` | src/main/java/org/jenkinsci/test/acceptance/po/Jenkins.java:70-72 | returns what the lazy form gives: the cached version when there is one, without calling the connection, and otherwise the fetch's outcome; the field changes only when nothing was cached and the fetch succeeded |
| `JenkinsPageObject.Jenkins.WaitForStartedAttempt` | src/main/java/org/jenkinsci/test/acceptance/po/Jenkins.java:100-104 | one start-up attempt yields the decision on the start-up predicate and performs getVersionNumber's write; after a success a version is cached; otherwise the field is unchanged |
| `JenkinsPageObject.Jenkins.WaitForLoadAttempt` | src/main/java/org/jenkinsci/test/acceptance/po/Jenkins.java:171-186 | one reload attempt yields the decision on the reload predicate under the reload policy, and changes no field, so the cached version survives a restart |

## Left out

- The polling loop in the inherited `waitFor()` is not part of this model: the deadline, the sleep between attempts, the final timeout report and cancellation. Only the decision on one attempt is modelled. `Waits.Decide` retries on a plain `false` because that is how the wait treats a false predicate. Neither predicate here ever returns false.
- Opening the HTTP connection, reading the header and the body, `visit`, `getJson`, `clickButton` and `getElement` are I/O. They are given to the model as values that either hold a result or hold a thrown object.
- `hudson.util.VersionNumber` is not part of this model. A version records only the text it was built from. Parsing, malformed input, ordering and `isJenkins1X` (which compares against "2.0") are left out.
- Exception classes are modelled as families, not as a hierarchy. `IOException` stands for every subclass of java.io.IOException (a refused connection's `ConnectException`, the `FileNotFoundException` of an error page, ...). `AssertionError` includes its subclasses. `NoSuchElementException` stands for Selenium's class and its subclasses. `WebDriverException` stands for every other WebDriverException subclass. `OtherKind` is everything else. Under this reading, the `catch (IOException ...)` clause and the waits' instance-of tests are membership tests on the constructor, and the model gives the same answers. The model does not relate two families to each other (in Selenium, `NoSuchElementException` extends `WebDriverException`). This makes no difference here, because `waitForLoad` ignores both.
- `restart`, `canRestart`, `login`, `logout`, the page-object getters and `getPluginPage` are navigation glue with no state of their own. `JenkinsPageObject.Jenkins.WaitForLoadAttempt` shows that the wait after a restart leaves the cache alone.
- Controller start-up (`startAndGetUrl`) is driven by the controller and is not modelled.
- JenkinsPageObject.Jenkins.constructor: stands for the constructor once its `waitForStarted` has returned. It takes the X-Jenkins header of the successful attempt. The failed attempts before it, and the timeout that makes construction throw, belong to the polling loop and are not modelled.
- `JenkinsPageObject.FetchVersion`: the states column gives the exact text of the missing-header message only up to its ending (the page text). The function builds the IOException message exactly as the code does, but no contract states that text.

## Findings

| source | as written | input that shows it | evidently intended | confidence | as-written member | corrected member |
|---|---|---|---|---|---|---|
| src/main/java/org/jenkinsci/test/acceptance/po/Jenkins.java:71 | getVersion passes the result of a fresh fetch as the default of `defaultIfNull`. Java evaluates that fetch before the null test, so every call goes over the network. A call fails when Jenkins cannot be reached even though a version is cached. | a version "2.450.3" is cached and the connection fails with an IOException: getVersion throws instead of returning "2.450.3" | return the cached version when there is one, and fetch only when the field is null | medium, not executed | `JenkinsPageObject.GetVersionThrowsDespiteCache` | `JenkinsPageObject.Jenkins.GetVersionLazy` |

The rest of the model keeps the as-written `getVersion`, because that is the
behaviour the harness has. The lazy form and `LazyGetVersionUsesCache` stand
beside it. A constructed page object always holds a version, and
`CacheStaysFilled` shows that it keeps one. So on such an object every
`getVersion` goes over the network and returns the version cached before the
call.
