/**
 * The Jenkins page object's readiness logic: reading the version from the
 * X-Jenkins header, caching it, and the per-attempt predicates of the two
 * waits (start-up and reload after restart).
 */
module JenkinsPageObject {
  import opened Wrappers
  import opened Failures
  import opened VersionHeader
  import opened Waits

  /**
   * hudson.util.VersionNumber is not part of this model: a VersionNumber
   * records only the text it was constructed from; no parsing, no order.
   */
  datatype VersionNumber = VersionNumber(text: string)

  /**
   * What the HTTP connection to the Jenkins URL yields: the X-Jenkins
   * header (None when absent) and what reading the page body would give.
   */
  datatype Response = Response(header: Option<string>, body: Result<string, Throwable>)

  /** The catch clause of getVersionNumber: only an IOException is rewrapped. */
  function RewrapIOException(url: string, t: Throwable): (r: Throwable)
    ensures t.kind == IOException ==> r.kind == AssertionError && r.cause == Some(t)
    ensures t.kind != IOException ==> r == t
  {
    if t.kind == IOException then Throwable(AssertionError, "Caught an IOException, Jenkins URL was " + url, Some(t))
    else t
  }

  /** s ends with suffix. */
  predicate EndsWith(s: string, suffix: string)
  {
    |suffix| <= |s| && s[|s| - |suffix|..] == suffix
  }

  /** The exception the I/O itself raises: opening the connection, or reading the body when the header is absent. */
  function IOFailure(conn: Result<Response, Throwable>): (thrown: Option<Throwable>)
  {
    match conn
    case Failure(t) => Some(t)
    case Success(resp) =>
      if resp.header.Some? then None
      else if resp.body.Failure? then Some(resp.body.error)
      else None
  }

  /**
   * getVersionNumber without its write to the field: from the connection's
   * outcome to the version, or to the exception it throws.
   */
  function FetchVersion(url: string, conn: Result<Response, Throwable>): (r: Result<VersionNumber, Throwable>)
    ensures r.Success? <==> conn.Success? && conn.value.header.Some?
    ensures r.Success? ==> r.value.text == VersionText(conn.value.header.value)
    // an absent header is reported as an AssertionError carrying the page text
    ensures conn.Success? && conn.value.header.None? && conn.value.body.Success? ==>
      r.Failure? && r.error.kind == AssertionError && r.error.cause == None &&
      EndsWith(r.error.message, conn.value.body.value)
    // an IOException from the I/O becomes an AssertionError wrapping it
    ensures IOFailure(conn).Some? && IOFailure(conn).value.kind == IOException ==>
      r.Failure? && r.error.kind == AssertionError && r.error.cause == IOFailure(conn)
    // anything else the I/O throws passes through untouched
    ensures IOFailure(conn).Some? && IOFailure(conn).value.kind != IOException ==>
      r == Failure(IOFailure(conn).value)
    ensures r.Failure? ==> r.error.kind != IOException
  {
    match conn
    case Failure(t) => Failure(RewrapIOException(url, t))
    case Success(resp) =>
      match resp.header
      case Some(text) => Success(VersionNumber(VersionText(text)))
      case None =>
        match resp.body
        case Failure(t) => Failure(RewrapIOException(url, t))
        case Success(pageText) =>
          Failure(Throwable(AssertionError,
            "Application running on " + url + " does not seem to be Jenkins:\n" + pageText, None))
  }

  /** The field update of `return version = new VersionNumber(text)`, reached only when no exception was thrown. */
  function Written(cached: Option<VersionNumber>, fetched: Result<VersionNumber, Throwable>): (c: Option<VersionNumber>)
    ensures fetched.Success? ==> c == Some(fetched.value)
    ensures fetched.Failure? ==> c == cached
  {
    if fetched.Success? then Some(fetched.value) else cached
  }

  /**
   * getVersion as written: defaultIfNull(version, getVersionNumber()) reads
   * the field, then fetches (Java evaluates both arguments), so a failed
   * fetch throws even when a version is cached.
   */
  function GetVersionResult(cached: Option<VersionNumber>, fetched: Result<VersionNumber, Throwable>): (r: Result<VersionNumber, Throwable>)
    ensures r.Success? <==> fetched.Success?
    ensures r.Failure? ==> r == fetched
    ensures r.Success? ==> r.value == (if cached.Some? then cached.value else fetched.value)
  {
    match fetched
    case Failure(_) => fetched
    case Success(v) => Success(if cached.Some? then cached.value else v)
  }

  /** getVersion as evidently intended: fetch only when nothing is cached. */
  function LazyGetVersionResult(cached: Option<VersionNumber>, fetch: () -> Result<VersionNumber, Throwable>): (r: Result<VersionNumber, Throwable>)
  {
    if cached.Some? then Success(cached.value) else fetch()
  }

  /** waitForStarted: at most a minute, ignoring AssertionError. */
  function StartedPolicy(): (p: WaitPolicy)
    ensures p.timeoutSeconds == 60
    ensures forall k :: k in p.ignoring <==> k == AssertionError
  {
    WaitPolicy(60, [AssertionError])
  }

  /** waitForLoad(seconds): the given number of seconds, ignoring three classes. */
  function LoadPolicy(seconds: int): (p: WaitPolicy)
    ensures p.timeoutSeconds == seconds
    ensures forall k :: k in p.ignoring <==>
      k == AssertionError || k == NoSuchElementException || k == WebDriverException
  {
    WaitPolicy(seconds, [AssertionError, NoSuchElementException, WebDriverException])
  }

  /** waitForLoad builds its ignore list by appending to an ArrayList. */
  method BuildLoadPolicy(seconds: int) returns (p: WaitPolicy)
    ensures p == LoadPolicy(seconds)
  {
    var ignoring: seq<Kind> := [];
    ignoring := ignoring + [AssertionError];
    ignoring := ignoring + [NoSuchElementException];
    ignoring := ignoring + [WebDriverException];
    p := WaitPolicy(seconds, ignoring);
  }

  /**
   * The waitForStarted predicate `getVersionNumber() != null`: a fetched
   * version is a new object and never null, so the predicate is true or throws.
   */
  function StartedPredicate(url: string, conn: Result<Response, Throwable>): (a: Attempt)
    ensures a != Returned(false)
    ensures a == Returned(true) <==> FetchVersion(url, conn).Success?
    ensures a.Threw? ==> a == Threw(FetchVersion(url, conn).error)
  {
    match FetchVersion(url, conn)
    case Success(_) => Returned(true)
    case Failure(t) => Threw(t)
  }

  /**
   * The waitForLoad predicate: re-visit the current URL, then query
   * api/json?tree=nodeName, then return true. The query is not made when
   * the visit throws. None stands for a call that returned normally.
   */
  function ReloadPredicate(visit: Option<Throwable>, query: Option<Throwable>): (a: Attempt)
    ensures a != Returned(false)
    ensures a == Returned(true) <==> visit.None? && query.None?
    ensures visit.Some? ==> a == Threw(visit.value)
    ensures visit.None? && query.Some? ==> a == Threw(query.value)
  {
    if visit.Some? then Threw(visit.value)
    else if query.Some? then Threw(query.value)
    else Returned(true)
  }

  /**
   * A start-up attempt succeeds exactly when the header is there; a missing
   * header and any IOException are retried; only an exception the I/O throws
   * that is neither an IOException nor an AssertionError ends the wait.
   */
  lemma StartedAttemptClassification(url: string, conn: Result<Response, Throwable>)
    ensures var d := Decide(StartedPolicy(), StartedPredicate(url, conn));
      (d.Succeed? <==> conn.Success? && conn.value.header.Some?) &&
      (d.Retry? ==> d.last.Some?) &&
      (d.Fatal? <==> IOFailure(conn).Some? &&
                     IOFailure(conn).value.kind != IOException &&
                     IOFailure(conn).value.kind != AssertionError) &&
      (d.Fatal? ==> d.error == IOFailure(conn).value)
  {
  }

  /**
   * A reload attempt succeeds only when both calls return; it ends the wait
   * exactly when the first exception thrown is of a class outside the three
   * ignored ones; it never retries on a plain false.
   */
  lemma ReloadAttemptClassification(seconds: int, visit: Option<Throwable>, query: Option<Throwable>)
    ensures var d := Decide(LoadPolicy(seconds), ReloadPredicate(visit, query));
      var first := if visit.Some? then visit else query;
      (d.Succeed? <==> first.None?) &&
      (d.Retry? ==> d.last == first && first.Some?) &&
      (d.Fatal? <==> first.Some? &&
                     first.value.kind != AssertionError &&
                     first.value.kind != NoSuchElementException &&
                     first.value.kind != WebDriverException)
  {
  }

  /** Neither wait ignores a raw IOException; start-up never sees one, since getVersionNumber rewraps it. */
  lemma RawIOExceptionIsFatal(seconds: int, t: Throwable)
    requires t.kind == IOException
    ensures Decide(LoadPolicy(seconds), Threw(t)).Fatal?
    ensures Decide(StartedPolicy(), Threw(t)).Fatal?
  {
  }

  /** The cached version after a series of getVersionNumber calls, from the oldest to the newest. */
  function CacheAfter(cached: Option<VersionNumber>, fetches: seq<Result<VersionNumber, Throwable>>): (c: Option<VersionNumber>)
  {
    if fetches == [] then cached
    else Written(CacheAfter(cached, fetches[..|fetches| - 1]), fetches[|fetches| - 1])
  }

  /** Failed fetches never change the cache. */
  lemma {:induction false} CacheUnchangedByFailures(cached: Option<VersionNumber>, fetches: seq<Result<VersionNumber, Throwable>>)
    requires forall i :: 0 <= i < |fetches| ==> fetches[i].Failure?
    ensures CacheAfter(cached, fetches) == cached
  {
    if fetches != [] {
      CacheUnchangedByFailures(cached, fetches[..|fetches| - 1]);
    }
  }

  /** Once a version is cached, no run of fetches empties the field again. */
  lemma {:induction false} CacheStaysFilled(v: VersionNumber, fetches: seq<Result<VersionNumber, Throwable>>)
    ensures CacheAfter(Some(v), fetches).Some?
  {
    if fetches != [] {
      CacheStaysFilled(v, fetches[..|fetches| - 1]);
    }
  }

  /** The cache holds the version of the most recent successful fetch. */
  lemma {:induction false} CacheHoldsLastSuccess(cached: Option<VersionNumber>, fetches: seq<Result<VersionNumber, Throwable>>, i: nat)
    requires i < |fetches| && fetches[i].Success?
    requires forall j :: i < j < |fetches| ==> fetches[j].Failure?
    ensures CacheAfter(cached, fetches) == Some(fetches[i].value)
  {
    if i < |fetches| - 1 {
      CacheHoldsLastSuccess(cached, fetches[..|fetches| - 1], i);
    }
  }

  /**
   * getVersion lags by one success: the k-th call, when its own fetch
   * succeeds, returns the version of the latest earlier successful fetch.
   */
  lemma GetVersionReturnsEarlierFetch(cached: Option<VersionNumber>, fetches: seq<Result<VersionNumber, Throwable>>, i: nat, k: nat)
    requires i < k < |fetches| && fetches[i].Success? && fetches[k].Success?
    requires forall j :: i < j < k ==> fetches[j].Failure?
    ensures GetVersionResult(CacheAfter(cached, fetches[..k]), fetches[k]) == Success(fetches[i].value)
  {
    CacheHoldsLastSuccess(cached, fetches[..k], i);
  }

  /** As written, an unreachable Jenkins makes getVersion throw although a version is cached. */
  lemma GetVersionThrowsDespiteCache()
    ensures var conn := Failure(Throwable(IOException, "Connection refused", None));
      GetVersionResult(Some(VersionNumber("2.450.3")), FetchVersion("http://localhost:8080/", conn)).Failure?
  {
  }

  /** The intended lazy form answers from the cache without consulting the connection. */
  lemma LazyGetVersionUsesCache(cached: Option<VersionNumber>, f: () -> Result<VersionNumber, Throwable>, g: () -> Result<VersionNumber, Throwable>)
    requires cached.Some?
    ensures LazyGetVersionResult(cached, f) == LazyGetVersionResult(cached, g) == Success(cached.value)
  {
  }

  /** The page object for the Jenkins under test, reduced to its URL and its version cache. */
  class Jenkins {
    const url: string
    var version: Option<VersionNumber>

    /**
     * A page object exists only once waitForStarted has returned, that is,
     * once an attempt found the X-Jenkins header; header is that attempt's
     * value, and its version is cached by getVersionNumber's write.
     */
    constructor (url: string, header: string)
      ensures this.url == url
      ensures version == Some(VersionNumber(VersionText(header)))
    {
      this.url := url;
      version := Some(VersionNumber(VersionText(header)));
    }

    /** getVersionNumber: fetch, and on success store the new version in the field. */
    method GetVersionNumber(conn: Result<Response, Throwable>) returns (r: Result<VersionNumber, Throwable>)
      modifies this
      ensures r == FetchVersion(url, conn)
      ensures version == Written(old(version), r)
    {
      r := FetchVersion(url, conn);
      if r.Success? {
        version := Some(r.value);
      }
    }

    /**
     * getVersion as written: always fetches; returns the previously cached
     * version if there was one, the fresh one otherwise; the field ends up
     * holding the fresh one.
     */
    method GetVersion(conn: Result<Response, Throwable>) returns (r: Result<VersionNumber, Throwable>)
      modifies this
      ensures var fetched := FetchVersion(url, conn);
        r == GetVersionResult(old(version), fetched) && version == Written(old(version), fetched)
    {
      var cached := version;
      var fetched := GetVersionNumber(conn);
      if fetched.Failure? {
        r := fetched;
      } else {
        r := Success(if cached.Some? then cached.value else fetched.value);
      }
    }

    /** getVersion as evidently intended: the connection is used only when nothing is cached. */
    method GetVersionLazy(conn: Result<Response, Throwable>) returns (r: Result<VersionNumber, Throwable>)
      modifies this
      ensures r == LazyGetVersionResult(old(version), () => FetchVersion(url, conn))
      ensures version == (if old(version).Some? then old(version) else Written(old(version), r))
    {
      if version.Some? {
        r := Success(version.value);
      } else {
        r := GetVersionNumber(conn);
      }
    }

    /** One attempt of waitForStarted: evaluate the predicate and judge it. */
    method WaitForStartedAttempt(conn: Result<Response, Throwable>) returns (d: Decision)
      modifies this
      ensures d == Decide(StartedPolicy(), StartedPredicate(url, conn))
      ensures version == Written(old(version), FetchVersion(url, conn))
      ensures d.Succeed? ==> version.Some?
      ensures !d.Succeed? ==> version == old(version)
    {
      var fetched := GetVersionNumber(conn);
      var attempt := if fetched.Success? then Returned(true) else Threw(fetched.error);
      d := Decide(StartedPolicy(), attempt);
    }

    /**
     * One attempt of waitForLoad(seconds); the attempt does not touch the
     * version field, so a restart leaves the cached version in place.
     */
    method WaitForLoadAttempt(seconds: int, visit: Option<Throwable>, query: Option<Throwable>) returns (d: Decision)
      ensures d == Decide(LoadPolicy(seconds), ReloadPredicate(visit, query))
    {
      var policy := BuildLoadPolicy(seconds);
      d := Decide(policy, ReloadPredicate(visit, query));
    }
  }
}
