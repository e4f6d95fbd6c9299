/** The frontend routes that drive the image cache
    (todo_app/app/routes/frontend.py): the per-request freshness protocol of
    `main_page`, the values it renders, the guard of `get_image` and the
    startup fetch of `lifespan`. */
module Frontend {
  import opened Metadata
  import opened Cache

  datatype HttpError = HttpError(statusCode: int, detail: string)

  datatype Result<+T> = Ok(value: T) | Err(error: HttpError)

  const CacheNotInitialized := HttpError(500, "Cache not initialized")
  const ImageNotAvailable := HttpError(404, "Image not available")

  const GraceLabel := "Grace period"
  const ValidLabel := "Valid"
  const ExpiredLabel := "Expired"

  /** What `get_image` answers with: the cached file, served as a JPEG. */
  datatype FileResponse = FileResponse(path: string, mediaType: string)

  const ImageFile := FileResponse("cached_image.jpg", "image/jpeg")

  /** The values `main_page` hands to its template. A time is None where the
      page shows "N/A"; otherwise it is the instant `time.ctime` formats. */
  datatype Page = Page(
    downloadTime: Option<int>,
    expiryTime: Option<int>,
    accessCount: int,
    imageAccessCount: int,
    lastAccess: Option<int>,
    graceStatus: string)

  /** Python truthiness of an optional timestamp: None and 0 are both false. */
  predicate Truthy(t: Option<int>)
  {
    t.Some? && t.value != 0
  }

  /** A timestamp as the page shows it, None standing for "N/A". */
  function Shown(t: Option<int>): Option<int>
  {
    if Truthy(t) then t else None
  }

  /** The displayed expiry: download time plus TTL, or "N/A". */
  function ExpiryTime(m: CacheMetadata, ttl: int): Option<int>
  {
    if Truthy(m.downloadTimestamp) then Some(m.downloadTimestamp.value + ttl) else None
  }

  /** The status label: grace first, then "Valid" for a truthy timestamp whose
      expiry lies strictly after `now`, "Expired" otherwise. */
  function GraceStatus(m: CacheMetadata, ttl: int, now: int): string
  {
    if m.gracePeriodUsed then GraceLabel
    else if Truthy(m.downloadTimestamp) && now < m.downloadTimestamp.value + ttl then ValidLabel
    else ExpiredLabel
  }

  function Render(m: CacheMetadata, ttl: int, now: int): Page
  {
    Page(Shown(m.downloadTimestamp), ExpiryTime(m, ttl), m.accessCount, m.imageAccessCount,
         Shown(m.lastAccessTime), GraceStatus(m, ttl, now))
  }

  /** The label is one of the three and "Grace period" exactly when the grace
      flag is set. */
  lemma GraceLabelIffGraceUsed(m: CacheMetadata, ttl: int, now: int)
    ensures GraceStatus(m, ttl, now) in {GraceLabel, ValidLabel, ExpiredLabel}
    ensures GraceStatus(m, ttl, now) == GraceLabel <==> m.gracePeriodUsed
  {
  }

  /** Away from the instant download + TTL, and for a truthy timestamp and a
      present image, the label says "Valid" exactly when `is_cache_expired`
      says the cache is not expired. */
  lemma ValidLabelIffNotExpired(s: CacheState, ttl: int, now: int)
    requires !s.meta.gracePeriodUsed && s.imageExists && Truthy(s.meta.downloadTimestamp)
    requires now != s.meta.downloadTimestamp.value + ttl
    ensures GraceStatus(s.meta, ttl, now) == ValidLabel <==> !Expired(s, ttl, now)
  {
  }

  /** With the image present, a "Valid" label always means not expired. */
  lemma ValidLabelMeansNotExpired(s: CacheState, ttl: int, now: int)
    requires s.imageExists && GraceStatus(s.meta, ttl, now) == ValidLabel
    ensures !Expired(s, ttl, now)
  {
  }

  /** At exactly download + TTL the cache is not expired, yet the label
      already says "Expired": the expiry test is strict `>`, the label's
      test strict `<`. */
  lemma LabelExpiredAtTtlBoundary(s: CacheState, ttl: int)
    requires !s.meta.gracePeriodUsed && s.imageExists && s.meta.downloadTimestamp.Some?
    ensures !Expired(s, ttl, s.meta.downloadTimestamp.value + ttl)
    ensures GraceStatus(s.meta, ttl, s.meta.downloadTimestamp.value + ttl) == ExpiredLabel
  {
  }

  /** A download timestamp of 0 is falsy: the page shows no download or
      expiry time and never says "Valid", although the cache need not be
      expired. */
  lemma ZeroTimestampShownAsMissing(m: CacheMetadata, ttl: int, now: int)
    requires m.downloadTimestamp == Some(0)
    ensures Render(m, ttl, now).downloadTime.None? && Render(m, ttl, now).expiryTime.None?
    ensures GraceStatus(m, ttl, now) != ValidLabel
    ensures 0 <= now <= ttl ==> !Expired(CacheState(m, true), ttl, now)
  {
  }

  /** The displayed expiry is the download time plus the TTL whenever a
      download time is displayed, and "N/A" exactly when it is not. */
  lemma ExpiryShownWithDownload(m: CacheMetadata, ttl: int, now: int)
    ensures Render(m, ttl, now).expiryTime.Some? <==> Render(m, ttl, now).downloadTime.Some?
    ensures Render(m, ttl, now).downloadTime.Some? ==>
              Render(m, ttl, now).expiryTime.value == Render(m, ttl, now).downloadTime.value + ttl
  {
  }

  /** After a reset, an image file that survived makes the first expired
      request a grace serve, although no download timestamp exists. */
  lemma GraceServeWithoutTimestamp(ttl: int, now: int, outcome: FetchOutcome)
    ensures Decide(CacheState(Defaults, true), ttl, now) == ServeUnderGrace
    ensures var r := HandleRequest(CacheState(Defaults, true), ttl, now, outcome);
            r.meta.gracePeriodUsed && r.meta.downloadTimestamp.None? && r.imageExists
  {
  }

  /** With no image file, a request fetches; when that fetch fails, the page
      can still say "Valid", since the label never looks at the image file. */
  lemma ValidLabelWithoutImage(s: CacheState, ttl: int, now: int, outcome: FetchOutcome)
    requires !s.imageExists && !s.meta.gracePeriodUsed && !Succeeds(outcome)
    requires Truthy(s.meta.downloadTimestamp) && now < s.meta.downloadTimestamp.value + ttl
    ensures Decide(s, ttl, now) == FetchFirst
    ensures var r := HandleRequest(s, ttl, now, outcome);
            !r.imageExists && GraceStatus(r.meta, ttl, now) == ValidLabel
  {
  }

  /** The three branches of `main_page`'s freshness check. */
  datatype Decision = ServeCached | ServeUnderGrace | FetchFirst

  function Decide(s: CacheState, ttl: int, now: int): (d: Decision)
    ensures d == ServeCached <==> !Expired(s, ttl, now)
    ensures d == ServeUnderGrace ==> !s.meta.gracePeriodUsed && s.imageExists
    ensures d == FetchFirst ==> s.meta.gracePeriodUsed || !s.imageExists
  {
    if !Expired(s, ttl, now) then ServeCached
    else if !s.meta.gracePeriodUsed && s.imageExists then ServeUnderGrace
    else FetchFirst
  }

  /** The state after one `main_page` request at `now` whose fetch, if one is
      made, has the given outcome. */
  function HandleRequest(s: CacheState, ttl: int, now: int, outcome: FetchOutcome): (r: CacheState)
    // one access is recorded, whatever the branch
    ensures r.meta.accessCount == s.meta.accessCount + 1
    ensures r.meta.imageAccessCount == s.meta.imageAccessCount + 1
    ensures r.meta.lastAccessTime == Some(now)
    // a fresh cache: nothing but the access changes
    ensures !Expired(s, ttl, now) ==> r == CacheState(AfterAccess(s.meta, now), s.imageExists)
    // grace serve: the flag is set, no fetch
    ensures Decide(s, ttl, now) == ServeUnderGrace ==>
              r.meta.gracePeriodUsed && r.meta.downloadTimestamp == s.meta.downloadTimestamp && r.imageExists
    // failed fetch: nothing but the access changes
    ensures Decide(s, ttl, now) == FetchFirst && !Succeeds(outcome) ==>
              r == CacheState(AfterAccess(s.meta, now), s.imageExists)
    // successful fetch: new timestamp, grace cleared, image present
    ensures Decide(s, ttl, now) == FetchFirst && Succeeds(outcome) ==>
              r.imageExists && r.meta.downloadTimestamp == Some(now) && !r.meta.gracePeriodUsed
  {
    var served := match Decide(s, ttl, now)
      case ServeCached => s
      case ServeUnderGrace => CacheState(s.meta.(gracePeriodUsed := true), s.imageExists)
      case FetchFirst => AfterFetch(s, now, outcome);
    CacheState(AfterAccess(served.meta, now), served.imageExists)
  }

  /** After a grace serve, a later request finds the cache still expired and
      takes the fetch branch: the grace serve cannot be repeated. */
  lemma GraceThenFetch(s: CacheState, ttl: int, now: int, outcome: FetchOutcome, later: int)
    requires Decide(s, ttl, now) == ServeUnderGrace && now <= later
    ensures Decide(HandleRequest(s, ttl, now, outcome), ttl, later) == FetchFirst
  {
    var r := HandleRequest(s, ttl, now, outcome);
    assert r.imageExists == s.imageExists && r.meta.downloadTimestamp == s.meta.downloadTimestamp;
    ExpiredStaysExpired(s, ttl, now, later);
  }

  /** A request that fetches successfully leaves a cache that is not expired
      at that instant, for a TTL that is not negative. */
  lemma FreshAfterFetchingRequest(s: CacheState, ttl: int, now: int, outcome: FetchOutcome)
    requires Decide(s, ttl, now) == FetchFirst && Succeeds(outcome) && ttl >= 0
    ensures !Expired(HandleRequest(s, ttl, now, outcome), ttl, now)
    ensures Decide(HandleRequest(s, ttl, now, outcome), ttl, now) == ServeCached
  {
  }

  /** `main_page`: 500 without a cache; otherwise the freshness decision, one
      recorded access, and the rendered page. */
  method MainPage(cache: ImageCache?, now: int, outcome: FetchOutcome) returns (r: Result<Page>)
    modifies cache
    ensures cache == null ==> r == Err(CacheNotInitialized)
    ensures cache != null ==> cache.State() == HandleRequest(old(cache.State()), cache.ttl, now, outcome)
    ensures cache != null ==> r == Ok(Render(cache.Meta(), cache.ttl, now))
    ensures cache != null ==> cache.Persisted()
    ensures cache != null ==>
              cache.metadataFile == if cache.storageWritable then Stored(Encode(cache.Meta())) else old(cache.metadataFile)
  {
    if cache == null {
      return Err(CacheNotInitialized);
    }
    if cache.IsCacheExpired(now) {
      if !cache.gracePeriodUsed && cache.imageExists {
        cache.gracePeriodUsed := true;
        cache.SaveMetadata();
      } else {
        var success := cache.FetchAndCacheImage(now, outcome);
      }
    }
    cache.RecordAccess(now);
    r := Ok(Render(cache.Meta(), cache.ttl, now));
  }

  /** `get_image`: 404 unless there is a cache whose image file exists. */
  function GetImage(cache: ImageCache?): (r: Result<FileResponse>)
    reads cache
    ensures r.Ok? <==> cache != null && cache.imageExists
    ensures r.Ok? ==> r.value == ImageFile
    ensures r.Err? ==> r.error == ImageNotAvailable
  {
    if cache == null || !cache.imageExists then Err(ImageNotAvailable) else Ok(ImageFile)
  }

  /** `lifespan` startup: open the cache with the default TTL and fetch when it
      is expired. */
  method Lifespan(file: MetadataFile, imageExists: bool, storageWritable: bool, now: int, outcome: FetchOutcome)
    returns (cache: ImageCache)
    ensures fresh(cache) && cache.ttl == DefaultTtl && cache.storageWritable == storageWritable
    ensures var start := CacheState(Opened(file), imageExists);
            cache.State() == if Expired(start, DefaultTtl, now) then AfterFetch(start, now, outcome) else start
    ensures var loaded := if NeedsReset(file) && storageWritable then Stored(Encode(Defaults)) else file;
            var fetched := Expired(CacheState(Opened(file), imageExists), DefaultTtl, now) && Succeeds(outcome);
            cache.metadataFile == if fetched && storageWritable then Stored(Encode(cache.Meta())) else loaded
    ensures cache.Persisted()
  {
    cache := new ImageCache(DefaultTtl, file, imageExists, storageWritable);
    if cache.IsCacheExpired(now) {
      var fetched := cache.FetchAndCacheImage(now, outcome);
    }
  }
}
