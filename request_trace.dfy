/** Sequences of `main_page` requests against one cache: which branch each
    request takes, and what holds over the whole sequence (at most one grace
    serve per successful fetch, one recorded access per request). */
module RequestTrace {
  import opened Metadata
  import opened Cache
  import opened Frontend

  /** One request: the instant it arrives and the outcome its fetch would
      have, should it make one. */
  datatype Request = Request(now: int, outcome: FetchOutcome)

  /** The branch a request took; a fetch records whether it succeeded. */
  datatype Event = CachedServe | GraceServe | FetchServe(fetched: bool)

  function EventOf(s: CacheState, ttl: int, req: Request): Event
  {
    match Decide(s, ttl, req.now)
    case ServeCached => CachedServe
    case ServeUnderGrace => GraceServe
    case FetchFirst => FetchServe(Succeeds(req.outcome))
  }

  function Next(s: CacheState, ttl: int, req: Request): CacheState
  {
    HandleRequest(s, ttl, req.now, req.outcome)
  }

  /** The state after serving `reqs` in order. */
  function Final(s: CacheState, ttl: int, reqs: seq<Request>): CacheState
    decreases |reqs|
  {
    if reqs == [] then s else Final(Next(s, ttl, reqs[0]), ttl, reqs[1..])
  }

  /** The branch each of `reqs` takes, one event per request. */
  function Events(s: CacheState, ttl: int, reqs: seq<Request>): (es: seq<Event>)
    ensures |es| == |reqs|
    decreases |reqs|
  {
    if reqs == [] then [] else [EventOf(s, ttl, reqs[0])] + Events(Next(s, ttl, reqs[0]), ttl, reqs[1..])
  }

  /** A request that does not fetch successfully keeps a set grace flag. */
  lemma GraceFlagKept(s: CacheState, ttl: int, req: Request)
    requires s.meta.gracePeriodUsed && EventOf(s, ttl, req) != FetchServe(true)
    ensures Next(s, ttl, req).meta.gracePeriodUsed
    ensures EventOf(s, ttl, req) != GraceServe
  {
  }

  /** Once the grace flag is set, no grace serve happens before a
      successful fetch. */
  lemma {:induction false} NoGraceBeforeFetch(s: CacheState, ttl: int, reqs: seq<Request>, j: int)
    requires s.meta.gracePeriodUsed
    requires 0 <= j < |reqs| && Events(s, ttl, reqs)[j] == GraceServe
    ensures exists k :: 0 <= k < j && Events(s, ttl, reqs)[k] == FetchServe(true)
    decreases |reqs|
  {
    var es := Events(s, ttl, reqs);
    var tail := Events(Next(s, ttl, reqs[0]), ttl, reqs[1..]);
    assert es == [EventOf(s, ttl, reqs[0])] + tail;
    if es[0] == FetchServe(true) {
      assert 0 < j && es[0] == FetchServe(true);
    } else {
      GraceFlagKept(s, ttl, reqs[0]);
      assert j != 0;
      assert tail[j - 1] == GraceServe;
      NoGraceBeforeFetch(Next(s, ttl, reqs[0]), ttl, reqs[1..], j - 1);
      var k :| 0 <= k < j - 1 && tail[k] == FetchServe(true);
      assert es[k + 1] == FetchServe(true);
    }
  }

  /** Grace is served at most once per fetch cycle: between any two grace
      serves lies a successful fetch. */
  lemma {:induction false} GraceOncePerFetch(s: CacheState, ttl: int, reqs: seq<Request>, i: int, j: int)
    requires 0 <= i < j < |reqs|
    requires Events(s, ttl, reqs)[i] == GraceServe && Events(s, ttl, reqs)[j] == GraceServe
    ensures exists k :: i < k < j && Events(s, ttl, reqs)[k] == FetchServe(true)
    decreases |reqs|
  {
    var es := Events(s, ttl, reqs);
    var next := Next(s, ttl, reqs[0]);
    var tail := Events(next, ttl, reqs[1..]);
    assert es == [EventOf(s, ttl, reqs[0])] + tail;
    assert tail[j - 1] == GraceServe;
    if i == 0 {
      assert next.meta.gracePeriodUsed;
      NoGraceBeforeFetch(next, ttl, reqs[1..], j - 1);
      var k :| 0 <= k < j - 1 && tail[k] == FetchServe(true);
      assert es[k + 1] == FetchServe(true);
    } else {
      assert tail[i - 1] == GraceServe;
      GraceOncePerFetch(next, ttl, reqs[1..], i - 1, j - 1);
      var k :| i - 1 < k < j - 1 && tail[k] == FetchServe(true);
      assert es[k + 1] == FetchServe(true);
    }
  }

  /** Every request records exactly one access: both counters rise by the
      number of requests (the per-image count is never reset by a fetch), and
      the access time is that of the last request. */
  lemma {:induction false} CountersAfterRequests(s: CacheState, ttl: int, reqs: seq<Request>)
    ensures Final(s, ttl, reqs).meta.accessCount == s.meta.accessCount + |reqs|
    ensures Final(s, ttl, reqs).meta.imageAccessCount == s.meta.imageAccessCount + |reqs|
    ensures reqs != [] ==> Final(s, ttl, reqs).meta.lastAccessTime == Some(reqs[|reqs| - 1].now)
    decreases |reqs|
  {
    if reqs != [] {
      CountersAfterRequests(Next(s, ttl, reqs[0]), ttl, reqs[1..]);
      assert reqs[1..] != [] ==> reqs[1..][|reqs[1..]| - 1] == reqs[|reqs| - 1];
    }
  }

  /** From a cache opened without usable metadata, the total access count
      after N requests is N. */
  lemma AccessCountFromFreshCache(file: MetadataFile, imageExists: bool, ttl: int, reqs: seq<Request>)
    requires NeedsReset(file)
    ensures Final(CacheState(Opened(file), imageExists), ttl, reqs).meta.accessCount == |reqs|
  {
    CountersAfterRequests(CacheState(Opened(file), imageExists), ttl, reqs);
  }

  /** A TTL of 600 seconds, starting with no image and no metadata: the first
      request fetches; a request at the TTL boundary is served from the cache;
      the first expired request is a grace serve; the next one must fetch,
      and when that fails the one after fetches again. */
  lemma Scenario()
    ensures var s0 := CacheState(Opened(Absent), false);
            var reqs := [Request(1000, Response(200)), Request(1600, TransportError),
                         Request(1601, TransportError), Request(1602, Response(503)),
                         Request(1650, Response(200))];
            && Events(s0, 600, reqs) == [FetchServe(true), CachedServe, GraceServe, FetchServe(false), FetchServe(true)]
            && Final(s0, 600, reqs).meta == CacheMetadata(false, 5, 5, Some(1650), Some(1650))
  {
    var s0 := CacheState(Opened(Absent), false);
    var s1 := Next(s0, 600, Request(1000, Response(200)));
    var s2 := Next(s1, 600, Request(1600, TransportError));
    var s3 := Next(s2, 600, Request(1601, TransportError));
    var s4 := Next(s3, 600, Request(1602, Response(503)));
    var s5 := Next(s4, 600, Request(1650, Response(200)));
    assert s1.meta == CacheMetadata(false, 1, 1, Some(1000), Some(1000)) && s1.imageExists;
    assert s2.meta == CacheMetadata(false, 2, 2, Some(1600), Some(1000)) && s2.imageExists;
    assert s3.meta == CacheMetadata(true, 3, 3, Some(1601), Some(1000)) && s3.imageExists;
    assert s4.meta == CacheMetadata(true, 4, 4, Some(1602), Some(1000)) && s4.imageExists;
    assert s5.meta == CacheMetadata(false, 5, 5, Some(1650), Some(1650));
    var reqs := [Request(1000, Response(200)), Request(1600, TransportError),
                 Request(1601, TransportError), Request(1602, Response(503)),
                 Request(1650, Response(200))];
    assert reqs[1..][1..][1..][1..][1..] == [];
    assert Final(s4, 600, reqs[1..][1..][1..][1..]) == s5;
    assert Final(s3, 600, reqs[1..][1..][1..]) == s5;
    assert Final(s2, 600, reqs[1..][1..]) == s5;
    assert Final(s1, 600, reqs[1..]) == s5;
    assert Events(s4, 600, reqs[1..][1..][1..][1..]) == [FetchServe(true)];
    assert Events(s3, 600, reqs[1..][1..][1..]) == [FetchServe(false), FetchServe(true)];
    assert Events(s2, 600, reqs[1..][1..]) == [GraceServe, FetchServe(false), FetchServe(true)];
    assert Events(s1, 600, reqs[1..]) == [CachedServe, GraceServe, FetchServe(false), FetchServe(true)];
  }
}
