/** The single-fetch tile loader `JCSCachedTileLoaderJob`, run sequentially: the
    deduplication registry (`submit`, `finishLoading`, `handleJobCancellation`), and
    the load decision procedure (`run`, `loadObject`, `loadObjectHttp`,
    `isCacheValidUsingHead`) over a cache store.

    The first half states the procedure as pure functions over a snapshot of the job
    and the shared state; the second half is the job as a class whose methods change
    that state step by step and are proved to agree with the functions. */
module CacheLoader {
  import opened Wrappers
  import opened Strings
  import opened JavaNumbers
  import opened CacheAttributes

  /** A listener is known only by its identity. */
  type Listener = int

  datatype LoadResult = Success | Failure | Canceled

  /** The parts of the job's `URL` the loader reads; `text` is `url.toString()`. */
  datatype Url = Url(protocol: string, host: string, text: string)

  /** A cache element: the cached value's content (if any) and its attributes. */
  datatype StoredEntry = StoredEntry(data: Option<seq<Byte>>, attributes: Attributes)

  /** One call of `loadingFinished(data, attributes, result)` on a listener. */
  datatype Notification = Notification(listener: Listener, data: Option<seq<Byte>>,
                                       attributes: Option<Attributes>, result: LoadResult)

  datatype HttpMethod = Head | Get

  /** What the loader asks of the server: the method, the conditional headers, and
      whether caches along the way may answer (`useCache(!force)`). */
  datatype Request = Request(httpMethod: HttpMethod, ifModifiedSince: Option<int>,
                             ifNoneMatch: Option<string>, useCache: bool)

  /** The outcome of `connect()`: a response, or the IOException it throws. */
  datatype Exchange = Answered(response: Response) | Throws(failure: IoFailure)

  /** The server, as the answer it gives to each request. */
  type Server = Request -> Exchange

  ghost predicate ServerOk(server: Server) {
    forall q :: server(q).Answered? ==> ResponseFields(server(q).response)
  }

  // ---------------------------------------------------------------------------
  // The deduplication registry (the static map `inProgress`)

  type InProgress = map<string, set<Listener>>

  /** `submit`'s effect on `inProgress` for a non-null URL, and whether the job is dispatched. */
  function SubmitSpec(inProgress: InProgress, key: string, listener: Listener, force: bool): (r: (InProgress, bool))
    ensures key in r.0 && listener in r.0[key]
    ensures r.0[key] == (if key in inProgress then inProgress[key] else {}) + {listener}
    ensures forall k :: k != key ==> (k in r.0 <==> k in inProgress) && (k in inProgress ==> r.0[k] == inProgress[k])
    ensures r.1 <==> key !in inProgress || force
  {
    var listeners := if key in inProgress then inProgress[key] else {};
    (inProgress[key := listeners + {listener}], key !in inProgress || force)
  }

  /** `finishLoading`'s removal: the key disappears and its whole set is returned. */
  function FinishSpec(inProgress: InProgress, key: string): (r: (InProgress, set<Listener>))
    ensures key !in r.0
    ensures forall k :: k != key ==> (k in r.0 <==> k in inProgress) && (k in inProgress ==> r.0[k] == inProgress[k])
    ensures key in inProgress ==> r.1 == inProgress[key]
    ensures key !in inProgress ==> r.1 == {}
  {
    if key in inProgress then (inProgress - {key}, inProgress[key]) else (inProgress, {})
  }

  /** Unforced submissions of several listeners for one key, one after the other:
      the resulting map and the number of dispatched jobs. */
  function SubmitAll(inProgress: InProgress, key: string, listeners: seq<Listener>): (InProgress, nat)
    decreases |listeners|
  {
    if |listeners| == 0 then (inProgress, 0)
    else
      var step := SubmitSpec(inProgress, key, listeners[0], false);
      var rest := SubmitAll(step.0, key, listeners[1..]);
      (rest.0, rest.1 + if step.1 then 1 else 0)
  }

  /** While a fetch for a URL is in progress, unforced submissions only add their
      listeners to it: at most one job runs per URL, and when none was in progress
      exactly one is started. */
  lemma {:induction false} SubmitAllDispatchesOnce(inProgress: InProgress, key: string, listeners: seq<Listener>)
    requires |listeners| >= 1 || key in inProgress
    decreases |listeners|
    ensures var r := SubmitAll(inProgress, key, listeners);
      key in r.0 &&
      r.0[key] == (if key in inProgress then inProgress[key] else {}) + (set l | l in listeners) &&
      r.1 == (if key in inProgress then 0 else 1)
  {
    if |listeners| > 0 {
      var step := SubmitSpec(inProgress, key, listeners[0], false);
      if |listeners| > 1 {
        SubmitAllDispatchesOnce(step.0, key, listeners[1..]);
      }
      var before := if key in inProgress then inProgress[key] else {};
      assert (set l | l in listeners) == {listeners[0]} + set l | l in listeners[1..];
      assert step.0[key] == before + {listeners[0]};
    } else {
      assert (set l | l in listeners) == {};
    }
  }

  /** Once a finish has taken the listeners of a URL, a second finish (after a forced
      second dispatch or a cancellation) notifies nobody. */
  lemma SecondFinishNotifiesNobody(inProgress: InProgress, key: string)
    ensures FinishSpec(FinishSpec(inProgress, key).0, key).1 == {}
  {
  }

  // ---------------------------------------------------------------------------
  // The load decision procedure as functions of a snapshot

  /** The job fields and the shared state the load reads and writes. */
  datatype JobState = JobState(
    cacheElement: Option<StoredEntry>,
    cacheData: Option<seq<Byte>>,
    attributes: Option<Attributes>,
    entries: map<string, StoredEntry>,
    useHead: map<string, bool>)

  /** The job's constants, its `force` flag, and the clock reading of this run. */
  datatype Config = Config(now: int, minimumExpiryTime: int, cacheKey: string, force: bool, clock: int)

  predicate ConfigOk(cfg: Config) {
    IsLong(cfg.now) && IsLong(cfg.minimumExpiryTime) && IsLong(cfg.clock)
  }

  predicate StoreOk(entries: map<string, StoredEntry>) {
    forall k :: k in entries ==> LongFields(entries[k].attributes)
  }

  predicate StateOk(st: JobState) {
    (st.attributes.Some? ==> LongFields(st.attributes.value)) &&
    (st.cacheElement.Some? ==> st.attributes.Some?) &&
    StoreOk(st.entries)
  }

  /** `isObjectLoadable()`: cached content that is not empty. */
  predicate ObjectLoadable(data: Option<seq<Byte>>): (r: bool)
    ensures data.None? || data == Some([]) ==> !r
  {
    data.Some? && |data.value| > 0
  }

  /** The default `isResponseLoadable`: a non-empty body and a code below 400. */
  predicate IsResponseLoadable(code: int, raw: Option<seq<Byte>>): (r: bool)
    ensures r ==> ObjectLoadable(raw)
    ensures code >= 400 ==> !r
  {
    raw.Some? && |raw.value| != 0 && code < 400
  }

  /** The default `cacheAsEmpty`: the recorded response code is below 500. */
  predicate CacheAsEmpty(a: Attributes): (r: bool)
    ensures a.responseCode == 404 ==> r
    ensures a.responseCode == 599 ==> !r
  {
    a.responseCode < 500
  }

  /** `cache.put(key, data, attributes)`. */
  function Put(st: JobState, key: string, data: Option<seq<Byte>>, a: Attributes): (r: JobState)
    requires StateOk(st) && LongFields(a)
    ensures StateOk(r)
  {
    st.(entries := st.entries[key := StoredEntry(data, a)])
  }

  /** `ensureCacheElement()`: look the key up once. */
  function EnsureSpec(st: JobState, key: string): (r: JobState)
    requires StateOk(st)
    ensures StateOk(r)
    ensures st.cacheElement.Some? ==> r == st
    ensures st.cacheElement.None? && key in st.entries ==>
      r.cacheElement == Some(st.entries[key]) && r.cacheData == st.entries[key].data &&
      r.attributes == Some(st.entries[key].attributes)
    ensures st.cacheElement.None? && key !in st.entries ==> r == st
  {
    if st.cacheElement.None? && key in st.entries then
      var e := st.entries[key];
      st.(cacheElement := Some(e), attributes := Some(e.attributes), cacheData := e.data)
    else st
  }

  /** The GET request, with `If-Modified-Since` and `If-None-Match` when they apply. */
  function GetRequest(cfg: Config, st: JobState): (q: Request)
    requires ConfigOk(cfg) && StateOk(st) && st.attributes.Some?
    ensures q.httpMethod == Get && q.useCache == !cfg.force
    ensures q.ifModifiedSince.Some? <==>
      ObjectLoadable(st.cacheData) &&
      SubLong(cfg.now, st.attributes.value.lastModification) <= AbsoluteExpireTimeLimit
    ensures q.ifModifiedSince.Some? ==> q.ifModifiedSince.value == st.attributes.value.lastModification
    ensures q.ifNoneMatch.Some? <==> ObjectLoadable(st.cacheData) && st.attributes.value.etag.Some?
    ensures q.ifNoneMatch.Some? ==> q.ifNoneMatch == st.attributes.value.etag
  {
    var a := st.attributes.value;
    var loadable := ObjectLoadable(st.cacheData);
    Request(Get,
            if loadable && SubLong(cfg.now, a.lastModification) <= AbsoluteExpireTimeLimit then Some(a.lastModification) else None,
            if loadable && a.etag.Some? then a.etag else None,
            !cfg.force)
  }

  function HeadRequest(cfg: Config): Request {
    Request(Head, None, None, !cfg.force)
  }

  /** `isCacheValidUsingHead`'s test of a HEAD answer against the cached attributes. */
  predicate HeadConfirms(a: Attributes, head: Response): (r: bool)
    ensures a.etag.None? && head.lastModified == 0 ==> !r
    ensures head.lastModified > a.lastModification && !(a.etag.Some? && a.etag == head.etag) ==> !r
  {
    (a.etag.Some? && a.etag == head.etag) || (head.lastModified != 0 && head.lastModified <= a.lastModification)
  }

  /** Whether a non-304 answer shows that the server ignores conditional requests. */
  predicate IgnoresConditional(st: JobState, resp: Response)
    requires st.attributes.Some?
  {
    var a := st.attributes.value;
    ObjectLoadable(st.cacheData) &&
    ((a.etag.Some? && a.etag == resp.etag) || a.lastModification == resp.lastModified)
  }

  /** The catch blocks of `loadObjectHttp` for the two IOException kinds. */
  function CatchSpec(cfg: Config, st: JobState, f: IoFailure): (r: (JobState, bool))
    requires ConfigOk(cfg) && StateOk(st) && st.attributes.Some?
    ensures StateOk(r.0) && r.0.attributes.Some?
    ensures r.0.useHead == st.useHead && r.0.cacheElement == st.cacheElement
  {
    var a := st.attributes.value;
    match f
    case FileNotFound =>
      var a404 := a.(responseCode := 404, error := Some(NotFound));
      var doCache := IsResponseLoadable(404, None) || CacheAsEmpty(a404);
      if doCache then
        var empty: seq<Byte> := [];
        (Put(st.(cacheData := Some(empty), attributes := Some(a404)), cfg.cacheKey, Some(empty), a404), true)
      else (st.(attributes := Some(a404)), false)
    case OtherIo =>
      if ObjectLoadable(st.cacheData) then (st, true)
      else (st.(attributes := Some(a.(error := Some(Io), responseCode := 599))), false)
  }

  /** Storing what a response delivered: the body if loadable, otherwise an empty
      entry if `cacheAsEmpty`, otherwise nothing. */
  function ClassifySpec(cfg: Config, st: JobState, code: int, raw: seq<Byte>): (r: (JobState, bool))
    requires ConfigOk(cfg) && StateOk(st) && st.attributes.Some?
    ensures StateOk(r.0) && r.0.attributes == st.attributes
    ensures r.0.useHead == st.useHead && r.0.cacheElement == st.cacheElement
  {
    var a := st.attributes.value;
    if IsResponseLoadable(code, Some(raw)) then
      (Put(st.(cacheData := Some(raw)), cfg.cacheKey, Some(raw), a), true)
    else if CacheAsEmpty(a) then
      var empty: seq<Byte> := [];
      (Put(st.(cacheData := Some(empty)), cfg.cacheKey, Some(empty), a), true)
    else (st, false)
  }

  /** The retry loop over a (non-304) response whose headers are already parsed:
      a 503 is re-examined on the same response five times, never re-requested. */
  function ResponseSpec(cfg: Config, st: JobState, resp: Response, interrupted: bool): (r: (JobState, bool))
    requires ConfigOk(cfg) && StateOk(st) && st.attributes.Some? && ResponseFields(resp)
    ensures StateOk(r.0) && r.0.attributes.Some?
    ensures r.0.useHead == st.useHead && r.0.cacheElement == st.cacheElement
  {
    var a := st.attributes.value;
    if resp.code == 503 then
      if interrupted then (st.(attributes := Some(a.(error := Some(Interrupted)))), false)
      else (st, false)
    else
      var coded := st.(attributes := Some(a.(responseCode := resp.code)));
      if resp.code == 200 then
        match resp.body
        case ReadFails(f) => CatchSpec(cfg, coded, f)
        case Bytes(raw) => ClassifySpec(cfg, coded, resp.code, raw)
      else
        var noted := if resp.errorMessage.Some? then coded.(attributes := Some(coded.attributes.value.(errorMessage := resp.errorMessage))) else coded;
        ClassifySpec(cfg, noted, resp.code, [])
  }

  /** The GET part of `loadObjectHttp`. */
  function GetSpec(cfg: Config, host: string, st: JobState, server: Server, interrupted: bool): (r: (JobState, bool))
    requires ConfigOk(cfg) && StateOk(st) && st.attributes.Some? && ServerOk(server)
    ensures StateOk(r.0) && r.0.attributes.Some?
    ensures r.0.cacheElement == st.cacheElement
  {
    match server(GetRequest(cfg, st))
    case Throws(f) => CatchSpec(cfg, st, f)
    case Answered(resp) => AnswerSpec(cfg, host, st, resp, interrupted)
  }

  /** What `loadObjectHttp` does with the answer to its GET. */
  function AnswerSpec(cfg: Config, host: string, st: JobState, resp: Response, interrupted: bool): (r: (JobState, bool))
    requires ConfigOk(cfg) && StateOk(st) && st.attributes.Some? && ResponseFields(resp)
    ensures StateOk(r.0) && r.0.attributes.Some?
    ensures r.0.cacheElement == st.cacheElement
  {
    var parsed := HeaderAttributes(resp, cfg.now, cfg.minimumExpiryTime, cfg.clock);
    if resp.code == 304 then
      (Put(st.(attributes := Some(parsed)), cfg.cacheKey, st.cacheData, parsed), true)
    else
      var learnt := if IgnoresConditional(st, resp) then st.(useHead := st.useHead[host := true]) else st;
      ResponseSpec(cfg, learnt.(attributes := Some(parsed)), resp, interrupted)
  }

  /** `loadObjectHttp()`: the HEAD shortcut for hosts known to ignore conditional
      requests, then the GET. */
  function HttpLoad(cfg: Config, host: string, st: JobState, server: Server, interrupted: bool): (r: (JobState, bool))
    requires ConfigOk(cfg) && StateOk(st) && st.attributes.Some? && ServerOk(server)
    ensures StateOk(r.0) && r.0.attributes.Some?
    ensures r.0.cacheElement == st.cacheElement
  {
    if ObjectLoadable(st.cacheData) && host in st.useHead && st.useHead[host] then
      match server(HeadRequest(cfg))
      case Throws(f) => CatchSpec(cfg, st, f)
      case Answered(head) =>
        if HeadConfirms(st.attributes.value, head) then
          var parsed := HeaderAttributes(head, cfg.now, cfg.minimumExpiryTime, cfg.clock);
          (Put(st.(attributes := Some(parsed)), cfg.cacheKey, st.cacheData, parsed), true)
        else GetSpec(cfg, host, st, server, interrupted)
    else GetSpec(cfg, host, st, server, interrupted)
  }

  /** `loadObjectFile`: the file's bytes (None when reading throws) are stored. */
  function FileLoad(cfg: Config, st: JobState, fileRead: Option<seq<Byte>>): (r: (JobState, bool))
    requires ConfigOk(cfg) && StateOk(st) && st.attributes.Some?
    ensures StateOk(r.0) && r.0.attributes.Some?
    ensures r.0.cacheElement == st.cacheElement && r.0.useHead == st.useHead
    ensures r.1 <==> fileRead.Some?
    ensures fileRead.Some? ==>
      r.0.cacheData == fileRead && r.0.attributes == st.attributes &&
      r.0.entries == st.entries[cfg.cacheKey := StoredEntry(fileRead, st.attributes.value)]
    ensures fileRead.None? ==>
      r.0.entries == st.entries && r.0.cacheData == st.cacheData &&
      r.0.attributes.value.error == Some(Io)
  {
    match fileRead
    case Some(bytes) => (Put(st.(cacheData := Some(bytes)), cfg.cacheKey, Some(bytes), st.attributes.value), true)
    case None => (st.(attributes := Some(st.attributes.value.(error := Some(Io)))), false)
  }

  /** What a run needs besides the snapshot: the outcomes of I/O. */
  datatype Inputs = Inputs(server: Server, fileRead: Option<seq<Byte>>, interrupted: bool)

  /** `loadObject()`: fresh attributes if there are none, then by protocol. */
  function LoadSpec(cfg: Config, url: Option<Url>, st: JobState, io: Inputs): (r: (JobState, bool))
    requires ConfigOk(cfg) && StateOk(st) && ServerOk(io.server)
    ensures StateOk(r.0) && r.0.attributes.Some?
    ensures r.0.cacheElement == st.cacheElement
  {
    var st1 := if st.attributes.None? then st.(attributes := Some(NewAttributes(cfg.clock))) else st;
    if url.None? then (st1, false)
    else if Contains(url.value.protocol, "http") then HttpLoad(cfg, url.value.host, st1, io.server, io.interrupted)
    else if Contains(url.value.protocol, "file") then FileLoad(cfg, st1, io.fileRead)
    else (st1, false)
  }

  /** The fresh-cache test at the start of `run()`. */
  predicate CacheHit(cfg: Config, st: JobState)
    requires ConfigOk(cfg) && StateOk(st)
  {
    !cfg.force && st.cacheElement.Some? &&
    IsCacheElementValid(st.attributes.value, cfg.now, cfg.minimumExpiryTime) &&
    ObjectLoadable(st.cacheData)
  }

  /** `run()` up to the final notification: the state it leaves and the result it reports. */
  function RunSpec(cfg: Config, url: Option<Url>, st: JobState, io: Inputs): (r: (JobState, LoadResult))
    requires ConfigOk(cfg) && StateOk(st) && ServerOk(io.server)
    ensures StateOk(r.0)
    ensures r.1 != Canceled
  {
    var st1 := EnsureSpec(st, cfg.cacheKey);
    if CacheHit(cfg, st1) then (st1, Success)
    else
      var loaded := LoadSpec(cfg, url, st1, io);
      (loaded.0, if loaded.1 || ObjectLoadable(loaded.0.cacheData) then Success else Failure)
  }

  // ---------------------------------------------------------------------------
  // Properties of the decision procedure

  /** `run` answers from the cache without any I/O exactly on a valid, loadable
      element and no force; otherwise it succeeds iff the load succeeds or stale
      loadable data remains. */
  lemma RunOutcome(cfg: Config, url: Option<Url>, st: JobState, io: Inputs)
    requires ConfigOk(cfg) && StateOk(st) && ServerOk(io.server)
    ensures var st1 := EnsureSpec(st, cfg.cacheKey);
      CacheHit(cfg, st1) ==> RunSpec(cfg, url, st, io) == (st1, Success)
    ensures var st1 := EnsureSpec(st, cfg.cacheKey);
      var loaded := LoadSpec(cfg, url, st1, io);
      !CacheHit(cfg, st1) ==>
        RunSpec(cfg, url, st, io).0 == loaded.0 &&
        (RunSpec(cfg, url, st, io).1 == Success <==> loaded.1 || ObjectLoadable(loaded.0.cacheData))
  {
  }

  /** A failed load never touches the cached content: what `run` then reports as stale
      data is the content it had before the load. */
  lemma {:induction false} FailedLoadKeepsData(cfg: Config, url: Option<Url>, st: JobState, io: Inputs)
    requires ConfigOk(cfg) && StateOk(st) && ServerOk(io.server)
    ensures !LoadSpec(cfg, url, st, io).1 ==> LoadSpec(cfg, url, st, io).0.cacheData == st.cacheData
  {
    var st1 := if st.attributes.None? then st.(attributes := Some(NewAttributes(cfg.clock))) else st;
    if url.Some? && Contains(url.value.protocol, "http") {
      HttpFailureKeepsData(cfg, url.value.host, st1, io.server, io.interrupted);
    }
  }

  lemma HttpFailureKeepsData(cfg: Config, host: string, st: JobState, server: Server, interrupted: bool)
    requires ConfigOk(cfg) && StateOk(st) && st.attributes.Some? && ServerOk(server)
    ensures !HttpLoad(cfg, host, st, server, interrupted).1 ==>
      HttpLoad(cfg, host, st, server, interrupted).0.cacheData == st.cacheData
  {
    var q := GetRequest(cfg, st);
    if server(q).Answered? && server(q).response.code != 304 {
      var resp := server(q).response;
      var parsed := HeaderAttributes(resp, cfg.now, cfg.minimumExpiryTime, cfg.clock);
      var learnt := if IgnoresConditional(st, resp) then st.(useHead := st.useHead[host := true]) else st;
      ResponseFailureKeepsData(cfg, learnt.(attributes := Some(parsed)), resp, interrupted);
    }
  }

  lemma ResponseFailureKeepsData(cfg: Config, st: JobState, resp: Response, interrupted: bool)
    requires ConfigOk(cfg) && StateOk(st) && st.attributes.Some? && ResponseFields(resp)
    ensures !ResponseSpec(cfg, st, resp, interrupted).1 ==> ResponseSpec(cfg, st, resp, interrupted).0.cacheData == st.cacheData
  {
  }

  /** A 503 is never retried with a new request: the load fails, recording an
      interruption of the back-off if there was one, and stores nothing. */
  lemma UnavailableFails(cfg: Config, st: JobState, resp: Response, interrupted: bool)
    requires ConfigOk(cfg) && StateOk(st) && st.attributes.Some? && ResponseFields(resp)
    requires resp.code == 503
    ensures var r := ResponseSpec(cfg, st, resp, interrupted);
      !r.1 && r.0.entries == st.entries && r.0.cacheData == st.cacheData &&
      (interrupted ==> r.0.attributes.value.error == Some(Interrupted)) &&
      (!interrupted ==> r.0 == st)
  {
  }

  /** The classification of a complete (non-503) response: true iff the body is
      loadable or the code is below 500; the body, an empty entry, or nothing is stored. */
  lemma ResponseClassification(cfg: Config, st: JobState, resp: Response, interrupted: bool)
    requires ConfigOk(cfg) && StateOk(st) && st.attributes.Some? && ResponseFields(resp)
    requires resp.code != 503 && (resp.code == 200 ==> resp.body.Bytes?)
    ensures var raw: seq<Byte> := if resp.code == 200 then resp.body.content else [];
      var r := ResponseSpec(cfg, st, resp, interrupted);
      r.0.attributes.value.responseCode == resp.code &&
      (r.1 <==> IsResponseLoadable(resp.code, Some(raw)) || resp.code < 500) &&
      (IsResponseLoadable(resp.code, Some(raw)) ==>
        r.0.cacheData == Some(raw) && r.0.entries == st.entries[cfg.cacheKey := StoredEntry(Some(raw), r.0.attributes.value)]) &&
      (!IsResponseLoadable(resp.code, Some(raw)) && resp.code < 500 ==>
        r.0.cacheData == Some([]) && r.0.entries == st.entries[cfg.cacheKey := StoredEntry(Some([]), r.0.attributes.value)]) &&
      (!r.1 ==> r.0.entries == st.entries)
  {
  }

  /** A FileNotFoundException records code 404 and caches an empty entry; another
      IOException succeeds exactly when loadable content is cached, and otherwise
      records the dummy code 599. */
  lemma IoFailureHandling(cfg: Config, st: JobState, f: IoFailure)
    requires ConfigOk(cfg) && StateOk(st) && st.attributes.Some?
    ensures var r := CatchSpec(cfg, st, f);
      (f == FileNotFound ==> r.1 && r.0.attributes.value.responseCode == 404 &&
                             r.0.entries == st.entries[cfg.cacheKey := StoredEntry(Some([]), r.0.attributes.value)]) &&
      (f == OtherIo ==> (r.1 <==> ObjectLoadable(st.cacheData)) &&
                        (!r.1 ==> r.0.attributes.value.responseCode == 599 && r.0.entries == st.entries))
  {
  }

  /** A 304 answer to the GET keeps the cached content, replaces the attributes by the
      parsed headers, stores both and succeeds. */
  lemma NotModifiedKeepsData(cfg: Config, host: string, st: JobState, server: Server, interrupted: bool)
    requires ConfigOk(cfg) && StateOk(st) && st.attributes.Some? && ServerOk(server)
    requires server(GetRequest(cfg, st)).Answered? && server(GetRequest(cfg, st)).response.code == 304
    ensures var resp := server(GetRequest(cfg, st)).response;
      var parsed := HeaderAttributes(resp, cfg.now, cfg.minimumExpiryTime, cfg.clock);
      var r := GetSpec(cfg, host, st, server, interrupted);
      r.1 && r.0.cacheData == st.cacheData && r.0.attributes == Some(parsed) &&
      r.0.entries == st.entries[cfg.cacheKey := StoredEntry(st.cacheData, parsed)] && r.0.useHead == st.useHead
  {
  }

  /** A non-304 answer that repeats the cached ETag or Last-Modified teaches the loader
      to use HEAD for that host; no other answer changes what it knows. */
  lemma LearnsToUseHead(cfg: Config, host: string, st: JobState, server: Server, interrupted: bool)
    requires ConfigOk(cfg) && StateOk(st) && st.attributes.Some? && ServerOk(server)
    requires server(GetRequest(cfg, st)).Answered? && server(GetRequest(cfg, st)).response.code != 304
    ensures var resp := server(GetRequest(cfg, st)).response;
      var r := GetSpec(cfg, host, st, server, interrupted);
      (IgnoresConditional(st, resp) ==> r.0.useHead == st.useHead[host := true]) &&
      (!IgnoresConditional(st, resp) ==> r.0.useHead == st.useHead)
  {
  }

  /** The HEAD shortcut: for loadable content on a host marked for HEAD, a confirming
      HEAD answer succeeds without a GET, keeping the content; otherwise the GET runs. */
  lemma HeadShortcut(cfg: Config, host: string, st: JobState, server: Server, interrupted: bool)
    requires ConfigOk(cfg) && StateOk(st) && st.attributes.Some? && ServerOk(server)
    requires ObjectLoadable(st.cacheData) && host in st.useHead && st.useHead[host]
    requires server(HeadRequest(cfg)).Answered?
    ensures var head := server(HeadRequest(cfg)).response;
      var r := HttpLoad(cfg, host, st, server, interrupted);
      (HeadConfirms(st.attributes.value, head) ==>
        r.1 && r.0.cacheData == st.cacheData &&
        r.0.attributes == Some(HeaderAttributes(head, cfg.now, cfg.minimumExpiryTime, cfg.clock))) &&
      (!HeadConfirms(st.attributes.value, head) ==> r == GetSpec(cfg, host, st, server, interrupted))
  {
  }

  /** Without HEAD knowledge for the host, or without loadable content, no HEAD request is made. */
  lemma NoHeadWithoutKnowledge(cfg: Config, host: string, st: JobState, server: Server, interrupted: bool)
    requires ConfigOk(cfg) && StateOk(st) && st.attributes.Some? && ServerOk(server)
    requires !ObjectLoadable(st.cacheData) || host !in st.useHead || !st.useHead[host]
    ensures HttpLoad(cfg, host, st, server, interrupted) == GetSpec(cfg, host, st, server, interrupted)
  {
  }

  // ---------------------------------------------------------------------------
  // The job and the shared state it works on

  /** `listeners` named in order, each exactly once. */
  predicate EachOnce(notified: seq<Listener>, listeners: set<Listener>) {
    Distinct(notified) && (set l | l in notified) == listeners
  }

  predicate Distinct(notified: seq<Listener>) {
    forall i, j :: 0 <= i < j < |notified| ==> notified[i] != notified[j]
  }

  /** Appending a listener not yet named keeps the names distinct and adds it to their set. */
  lemma DistinctAppend(notified: seq<Listener>, next: Listener)
    requires Distinct(notified) && next !in (set l | l in notified)
    ensures Distinct(notified + [next])
    ensures (set l | l in notified + [next]) == (set l | l in notified) + {next}
  {
    assert (set x | x in notified + [next]) == (set x | x in notified) + {next};
  }

  /** The notifications that tell each of `notified`, in order, the same outcome. */
  function NotesFor(notified: seq<Listener>, data: Option<seq<Byte>>, attributes: Option<Attributes>,
                    result: LoadResult): (ns: seq<Notification>)
    ensures |ns| == |notified|
    ensures forall i :: 0 <= i < |ns| ==> ns[i] == Notification(notified[i], data, attributes, result)
  {
    seq(|notified|, i requires 0 <= i < |notified| => Notification(notified[i], data, attributes, result))
  }

  /** Notifying one more listener appends one notification. */
  lemma NotesForAppend(notified: seq<Listener>, next: Listener, data: Option<seq<Byte>>,
                       attributes: Option<Attributes>, result: LoadResult)
    ensures NotesFor(notified + [next], data, attributes, result) ==
            NotesFor(notified, data, attributes, result) + [Notification(next, data, attributes, result)]
  {
    assert NotesFor(notified + [next], data, attributes, result)[|notified|] == Notification(next, data, attributes, result);
  }

  lemma HasMember(s: set<Listener>)
    requires |s| > 0
    ensures exists l :: l in s
  {
    if forall l :: l !in s {
      assert false;
    }
  }

  /** A second job for the same URL must wait, so the outcome of `submit` names it. */
  datatype SubmitOutcome = Rejected | Accepted(dispatched: bool)

  /** The two static maps of the loader and the notifications its listeners receive. */
  class Registry {
    var inProgress: InProgress
    var useHead: map<string, bool>
    var notifications: seq<Notification>

    constructor()
      ensures inProgress == map[] && useHead == map[] && notifications == []
    {
      inProgress := map[];
      useHead := map[];
      notifications := [];
    }
  }

  /** The cache region the job reads and writes (`ICacheAccess`). */
  class CacheStore {
    var entries: map<string, StoredEntry>

    constructor()
      ensures entries == map[]
    {
      entries := map[];
    }

    /** `put(key, data, attributes)`. */
    method Put(key: string, data: Option<seq<Byte>>, attributes: Attributes)
      modifies this
      ensures entries == old(entries)[key := StoredEntry(data, attributes)]
    {
      entries := entries[key := StoredEntry(data, attributes)];
    }
  }

  /** Outcome of the HEAD check: the IOException it throws, or its verdict. */
  datatype HeadOutcome = HeadThrows(failure: IoFailure) | HeadChecked(valid: bool)

  class LoaderJob {
    const registry: Registry
    const store: CacheStore
    /** When the job was created. */
    const now: int
    const minimumExpiryTime: int
    /** `getUrl()`; None when it yields no URL. */
    const url: Option<Url>
    const cacheKey: string
    var force: bool
    var cacheElement: Option<StoredEntry>
    var cacheData: Option<seq<Byte>>
    var attributes: Option<Attributes>
    /** How many times `executionFinished` has run. */
    var finishedRuns: nat

    /** The snapshot the decision functions work on. */
    function State(): JobState
      reads this, store, registry
    {
      JobState(cacheElement, cacheData, attributes, store.entries, registry.useHead)
    }

    function Cfg(clock: int): Config
      reads this
    {
      Config(now, minimumExpiryTime, cacheKey, force, clock)
    }

    predicate Valid()
      reads this, store, registry
    {
      IsLong(now) && IsLong(minimumExpiryTime) && StateOk(State())
    }

    constructor(registry: Registry, store: CacheStore, now: int, minimumExpirySeconds: int,
                url: Option<Url>, cacheKey: string)
      requires IsLong(now) && IsLong(minimumExpirySeconds)
      ensures this.registry == registry && this.store == store && this.now == now
      ensures this.url == url && this.cacheKey == cacheKey
      ensures minimumExpiryTime == SecondsToMillis(minimumExpirySeconds)
      ensures !force && cacheElement.None? && cacheData.None? && attributes.None? && finishedRuns == 0
      ensures StoreOk(store.entries) ==> Valid()
    {
      this.registry := registry;
      this.store := store;
      this.now := now;
      this.minimumExpiryTime := SecondsToMillis(minimumExpirySeconds);
      this.url := url;
      this.cacheKey := cacheKey;
      force := false;
      cacheElement := None;
      cacheData := None;
      attributes := None;
      finishedRuns := 0;
    }

    /** `submit`: rejects a job without URL, otherwise joins the listener to the URL's
        set and dispatches iff no fetch was in progress or `force` is set. */
    method Submit(listener: Listener, force: bool) returns (outcome: SubmitOutcome)
      modifies this, registry
      ensures this.force == force
      ensures url.None? ==> outcome == Rejected && registry.inProgress == old(registry.inProgress)
      ensures url.Some? ==>
        outcome.Accepted? &&
        (registry.inProgress, outcome.dispatched) == SubmitSpec(old(registry.inProgress), url.value.text, listener, force)
      ensures registry.useHead == old(registry.useHead) && registry.notifications == old(registry.notifications)
      ensures cacheElement == old(cacheElement) && cacheData == old(cacheData) && attributes == old(attributes)
      ensures finishedRuns == old(finishedRuns)
    {
      this.force := force;
      if url.None? {
        return Rejected;
      }
      var key := url.value.text;
      var first := key !in registry.inProgress;
      var listeners := if key in registry.inProgress then registry.inProgress[key] else {};
      registry.inProgress := registry.inProgress[key := listeners + {listener}];
      outcome := Accepted(first || force);
    }

    /** `finishLoading(result)`: takes the URL's whole listener set out of the registry
        and notifies each member once with the job's data and attributes. */
    method FinishLoading(result: LoadResult) returns (notified: seq<Listener>)
      modifies registry
      ensures registry.useHead == old(registry.useHead)
      ensures url.None? ==>
        notified == [] && registry.inProgress == old(registry.inProgress) &&
        registry.notifications == old(registry.notifications)
      ensures url.Some? ==>
        var finish := FinishSpec(old(registry.inProgress), url.value.text);
        registry.inProgress == finish.0 && EachOnce(notified, finish.1) &&
        registry.notifications == old(registry.notifications) + NotesFor(notified, cacheData, attributes, result)
    {
      notified := [];
      if url.None? {
        return;
      }
      var key := url.value.text;
      if key !in registry.inProgress {
        return;
      }
      var listeners := registry.inProgress[key];
      registry.inProgress := registry.inProgress - {key};
      notified := NotifyAll(listeners, result);
    }

    /** The loop over the removed set: one `loadingFinished` call per listener. */
    method NotifyAll(listeners: set<Listener>, result: LoadResult) returns (notified: seq<Listener>)
      modifies registry
      ensures registry.inProgress == old(registry.inProgress) && registry.useHead == old(registry.useHead)
      ensures EachOnce(notified, listeners)
      ensures registry.notifications == old(registry.notifications) + NotesFor(notified, cacheData, attributes, result)
    {
      notified := [];
      var remaining := listeners;
      while |remaining| > 0
        invariant remaining <= listeners
        invariant Distinct(notified)
        invariant (set l | l in notified) == listeners - remaining
        invariant registry.notifications == old(registry.notifications) + NotesFor(notified, cacheData, attributes, result)
        invariant registry.inProgress == old(registry.inProgress) && registry.useHead == old(registry.useHead)
        decreases |remaining|
      {
        HasMember(remaining);
        var next :| next in remaining;
        DistinctAppend(notified, next);
        NotesForAppend(notified, next, cacheData, attributes, result);
        registry.notifications := registry.notifications + [Notification(next, cacheData, attributes, result)];
        notified := notified + [next];
        remaining := remaining - {next};
      }
    }

    /** `handleJobCancellation`: finishes with CANCELED. */
    method HandleJobCancellation() returns (notified: seq<Listener>)
      modifies registry
      ensures registry.useHead == old(registry.useHead)
      ensures url.None? ==>
        notified == [] && registry.inProgress == old(registry.inProgress) &&
        registry.notifications == old(registry.notifications)
      ensures url.Some? ==>
        var finish := FinishSpec(old(registry.inProgress), url.value.text);
        registry.inProgress == finish.0 && EachOnce(notified, finish.1) &&
        registry.notifications == old(registry.notifications) + NotesFor(notified, cacheData, attributes, Canceled)
    {
      notified := FinishLoading(Canceled);
    }

    /** `ensureCacheElement`. */
    method EnsureCacheElement()
      requires Valid()
      modifies this
      ensures Valid() && State() == EnsureSpec(old(State()), cacheKey)
      ensures force == old(force) && finishedRuns == old(finishedRuns)
    {
      if cacheElement.None? && cacheKey in store.entries {
        var e := store.entries[cacheKey];
        cacheElement := Some(e);
        attributes := Some(e.attributes);
        cacheData := e.data;
      }
    }

    /** The catch blocks for the two IOException kinds. */
    method CatchIo(f: IoFailure, clock: int) returns (ok: bool)
      requires Valid() && attributes.Some? && IsLong(clock)
      modifies this, store
      ensures Valid() && (State(), ok) == CatchSpec(old(Cfg(clock)), old(State()), f)
      ensures force == old(force) && finishedRuns == old(finishedRuns)
    {
      match f
      case FileNotFound =>
        attributes := Some(attributes.value.(responseCode := 404, error := Some(NotFound)));
        var doCache := IsResponseLoadable(404, None) || CacheAsEmpty(attributes.value);
        if doCache {
          cacheData := Some([]);
          store.Put(cacheKey, cacheData, attributes.value);
        }
        ok := doCache;
      case OtherIo =>
        if ObjectLoadable(cacheData) {
          ok := true;
        } else {
          attributes := Some(attributes.value.(error := Some(Io), responseCode := 599));
          ok := false;
        }
    }

    /** Storing a body, an empty entry, or nothing. */
    method Classify(code: int, raw: seq<Byte>, clock: int) returns (ok: bool)
      requires Valid() && attributes.Some? && IsLong(clock)
      modifies this, store
      ensures Valid() && (State(), ok) == ClassifySpec(old(Cfg(clock)), old(State()), code, raw)
      ensures force == old(force) && finishedRuns == old(finishedRuns)
    {
      if IsResponseLoadable(code, Some(raw)) {
        cacheData := Some(raw);
        store.Put(cacheKey, cacheData, attributes.value);
        ok := true;
      } else if CacheAsEmpty(attributes.value) {
        cacheData := Some([]);
        store.Put(cacheKey, cacheData, attributes.value);
        ok := true;
      } else {
        ok := false;
      }
    }

    /** The five-pass loop over one response; the back-off sleep has no effect on the
        state, and `interrupted` says whether it is interrupted. */
    method HandleResponse(resp: Response, interrupted: bool, clock: int) returns (ok: bool)
      requires Valid() && attributes.Some? && ResponseFields(resp) && IsLong(clock)
      modifies this, store
      ensures Valid() && (State(), ok) == ResponseSpec(old(Cfg(clock)), old(State()), resp, interrupted)
      ensures force == old(force) && finishedRuns == old(finishedRuns)
    {
      var i := 0;
      while i < 5
        invariant 0 <= i <= 5
        invariant State() == old(State()) && force == old(force) && finishedRuns == old(finishedRuns)
        invariant i > 0 ==> resp.code == 503 && !interrupted
      {
        if resp.code == 503 {
          if interrupted {
            attributes := Some(attributes.value.(error := Some(Interrupted)));
            ok := false;
            return;
          }
          i := i + 1;
          continue;
        }
        attributes := Some(attributes.value.(responseCode := resp.code));
        if resp.code == 200 {
          match resp.body
          case ReadFails(f) =>
            ok := CatchIo(f, clock);
          case Bytes(raw) =>
            ok := Classify(resp.code, raw, clock);
        } else {
          if resp.errorMessage.Some? {
            attributes := Some(attributes.value.(errorMessage := resp.errorMessage));
          }
          ok := Classify(resp.code, [], clock);
        }
        return;
      }
      ok := false;
    }

    /** `isCacheValidUsingHead`: a HEAD request whose answer, if it confirms the cache,
        replaces the attributes and stores them. */
    method IsCacheValidUsingHead(server: Server, clock: int) returns (outcome: HeadOutcome)
      requires Valid() && attributes.Some? && ServerOk(server) && IsLong(clock)
      modifies this, store
      ensures Valid() && force == old(force) && finishedRuns == old(finishedRuns)
      ensures server(HeadRequest(Cfg(clock))).Throws? ==>
        outcome == HeadThrows(server(HeadRequest(Cfg(clock))).failure) && State() == old(State())
      ensures server(HeadRequest(Cfg(clock))).Answered? ==>
        var head := server(HeadRequest(Cfg(clock))).response;
        var parsed := HeaderAttributes(head, now, minimumExpiryTime, clock);
        outcome == HeadChecked(HeadConfirms(old(attributes).value, head)) &&
        (outcome.valid ==> State() == Put(old(State()).(attributes := Some(parsed)), cacheKey, cacheData, parsed)) &&
        (!outcome.valid ==> State() == old(State()))
    {
      match server(Request(Head, None, None, !force))
      case Throws(f) =>
        outcome := HeadThrows(f);
      case Answered(head) =>
        var lastModified := head.lastModified;
        var a := attributes.value;
        var valid := (a.etag.Some? && a.etag == head.etag) || (lastModified != 0 && lastModified <= a.lastModification);
        if valid {
          var parsed := ParseHeaders(head, now, minimumExpiryTime, clock);
          attributes := Some(parsed);
          store.Put(cacheKey, cacheData, parsed);
        }
        outcome := HeadChecked(valid);
    }

    /** `loadObjectHttp`. */
    method LoadObjectHttp(server: Server, interrupted: bool, clock: int) returns (ok: bool)
      requires Valid() && attributes.Some? && ServerOk(server) && IsLong(clock) && url.Some?
      modifies this, store, registry
      ensures Valid() && (State(), ok) == HttpLoad(old(Cfg(clock)), url.value.host, old(State()), server, interrupted)
      ensures force == old(force) && finishedRuns == old(finishedRuns)
      ensures registry.inProgress == old(registry.inProgress) && registry.notifications == old(registry.notifications)
    {
      var host := url.value.host;
      if ObjectLoadable(cacheData) && host in registry.useHead && registry.useHead[host] {
        var head := IsCacheValidUsingHead(server, clock);
        match head
        case HeadThrows(f) =>
          ok := CatchIo(f, clock);
          return;
        case HeadChecked(valid) =>
          if valid {
            ok := true;
            return;
          }
      }
      ok := LoadUsingGet(server, interrupted, clock);
    }

    /** The GET part of `loadObjectHttp`, with the conditional headers. */
    method LoadUsingGet(server: Server, interrupted: bool, clock: int) returns (ok: bool)
      requires Valid() && attributes.Some? && ServerOk(server) && IsLong(clock) && url.Some?
      modifies this, store, registry
      ensures Valid() && (State(), ok) == GetSpec(old(Cfg(clock)), url.value.host, old(State()), server, interrupted)
      ensures force == old(force) && finishedRuns == old(finishedRuns)
      ensures registry.inProgress == old(registry.inProgress) && registry.notifications == old(registry.notifications)
    {
      var host := url.value.host;
      var a := attributes.value;
      var loadable := ObjectLoadable(cacheData);
      var ifModifiedSince: Option<int> := None;
      if loadable && SubLong(now, a.lastModification) <= AbsoluteExpireTimeLimit {
        ifModifiedSince := Some(a.lastModification);
      }
      var ifNoneMatch: Option<string> := None;
      if loadable && a.etag.Some? {
        ifNoneMatch := a.etag;
      }
      assert Request(Get, ifModifiedSince, ifNoneMatch, !force) == GetRequest(Cfg(clock), State());
      match server(Request(Get, ifModifiedSince, ifNoneMatch, !force))
      case Throws(f) =>
        ok := CatchIo(f, clock);
      case Answered(resp) =>
        ok := HandleAnswer(resp, interrupted, clock);
    }

    /** The answer to the GET: a 304 refreshes the attributes of the cached content;
        otherwise the loader may learn to use HEAD, and the response is classified. */
    method HandleAnswer(resp: Response, interrupted: bool, clock: int) returns (ok: bool)
      requires Valid() && attributes.Some? && ResponseFields(resp) && IsLong(clock) && url.Some?
      modifies this, store, registry
      ensures Valid() && (State(), ok) == AnswerSpec(old(Cfg(clock)), url.value.host, old(State()), resp, interrupted)
      ensures force == old(force) && finishedRuns == old(finishedRuns)
      ensures registry.inProgress == old(registry.inProgress) && registry.notifications == old(registry.notifications)
    {
      var host := url.value.host;
      var a := attributes.value;
      if resp.code == 304 {
        var parsed := ParseHeaders(resp, now, minimumExpiryTime, clock);
        attributes := Some(parsed);
        store.Put(cacheKey, cacheData, parsed);
        ok := true;
        return;
      } else if ObjectLoadable(cacheData) && ((a.etag.Some? && a.etag == resp.etag) || a.lastModification == resp.lastModified) {
        registry.useHead := registry.useHead[host := true];
      }
      var parsed := ParseHeaders(resp, now, minimumExpiryTime, clock);
      attributes := Some(parsed);
      ok := HandleResponse(resp, interrupted, clock);
    }

    /** `loadObjectFile`: `fileRead` is the file's content, None when reading throws. */
    method LoadObjectFile(fileRead: Option<seq<Byte>>, clock: int) returns (ok: bool)
      requires Valid() && attributes.Some? && IsLong(clock)
      modifies this, store
      ensures Valid() && (State(), ok) == FileLoad(old(Cfg(clock)), old(State()), fileRead)
      ensures force == old(force) && finishedRuns == old(finishedRuns)
    {
      match fileRead
      case Some(bytes) =>
        cacheData := Some(bytes);
        store.Put(cacheKey, cacheData, attributes.value);
        ok := true;
      case None =>
        attributes := Some(attributes.value.(error := Some(Io)));
        ok := false;
    }

    /** `loadObject`. */
    method LoadObject(io: Inputs, clock: int) returns (ok: bool)
      requires Valid() && ServerOk(io.server) && IsLong(clock)
      modifies this, store, registry
      ensures Valid() && (State(), ok) == LoadSpec(old(Cfg(clock)), url, old(State()), io)
      ensures force == old(force) && finishedRuns == old(finishedRuns)
      ensures registry.inProgress == old(registry.inProgress) && registry.notifications == old(registry.notifications)
    {
      if attributes.None? {
        attributes := Some(NewAttributes(clock));
      }
      if url.None? {
        return false;
      }
      if Contains(url.value.protocol, "http") {
        ok := LoadObjectHttp(io.server, io.interrupted, clock);
        return;
      }
      if Contains(url.value.protocol, "file") {
        ok := LoadObjectFile(io.fileRead, clock);
        return;
      }
      ok := false;
    }

    /** `run`: the cached answer or a load, then the notification of every listener
        and `executionFinished`. */
    method Run(io: Inputs, clock: int) returns (result: LoadResult, notified: seq<Listener>)
      requires Valid() && ServerOk(io.server) && IsLong(clock)
      modifies this, store, registry
      ensures Valid() && force == old(force) && finishedRuns == old(finishedRuns) + 1
      ensures (State(), result) == RunSpec(old(Cfg(clock)), url, old(State()), io)
      ensures url.None? ==>
        notified == [] && registry.inProgress == old(registry.inProgress) &&
        registry.notifications == old(registry.notifications)
      ensures url.Some? ==>
        var finish := FinishSpec(old(registry.inProgress), url.value.text);
        registry.inProgress == finish.0 && EachOnce(notified, finish.1) &&
        registry.notifications == old(registry.notifications) + NotesFor(notified, cacheData, attributes, result)
    {
      EnsureCacheElement();
      if !force && cacheElement.Some? && IsCacheElementValid(attributes.value, now, minimumExpiryTime) &&
         ObjectLoadable(cacheData) {
        result := Success;
      } else {
        var ok := LoadObject(io, clock);
        if ok || ObjectLoadable(cacheData) {
          result := Success;
        } else {
          result := Failure;
        }
      }
      notified := FinishLoading(result);
      finishedRuns := finishedRuns + 1;
    }
  }
}
