/** The image cache of the todo frontend (todo_app/app/cache.py): the rules
    for expiry, access recording and fetching on plain values, and the
    `ImageCache` object whose methods apply them to its fields and persist the
    result after every change. */
module Cache {
  import opened Metadata

  /** The TTL, in seconds, of a cache built without one. */
  const DefaultTtl := 600

  /** The HTTP status of a successful image download. */
  const StatusOk := 200

  /** What the image source answered: an HTTP response with its status, or a
      transport error raised before any response arrived. */
  datatype FetchOutcome = Response(status: int) | TransportError

  predicate Succeeds(outcome: FetchOutcome)
  {
    outcome.Response? && outcome.status == StatusOk
  }

  /** The cache as the freshness rules see it: the metadata and whether the
      image file exists. */
  datatype CacheState = CacheState(meta: CacheMetadata, imageExists: bool)

  /** `is_cache_expired`: no image file, no download timestamp, or an age
      strictly greater than the TTL. */
  predicate Expired(s: CacheState, ttl: int, now: int)
  {
    || !s.imageExists
    || s.meta.downloadTimestamp.None?
    || now - s.meta.downloadTimestamp.value > ttl
  }

  /** `record_access`: both counters go up by one and the access time becomes
      `now`; the grace flag and the download timestamp stay. */
  function AfterAccess(m: CacheMetadata, now: int): (r: CacheMetadata)
    ensures r.accessCount == m.accessCount + 1
    ensures r.imageAccessCount == m.imageAccessCount + 1
    ensures r.lastAccessTime == Some(now)
    ensures r.gracePeriodUsed == m.gracePeriodUsed && r.downloadTimestamp == m.downloadTimestamp
  {
    m.(accessCount := m.accessCount + 1,
       imageAccessCount := m.imageAccessCount + 1,
       lastAccessTime := Some(now))
  }

  /** `fetch_and_cache_image`: a 200 response writes the image, stamps the
      download with `now` and clears the grace flag; the counters and the last
      access time are kept. Any other outcome leaves everything as it was. */
  function AfterFetch(s: CacheState, now: int, outcome: FetchOutcome): (r: CacheState)
    ensures Succeeds(outcome) ==> r.imageExists && r.meta.downloadTimestamp == Some(now) && !r.meta.gracePeriodUsed
    ensures Succeeds(outcome) ==> r.meta.accessCount == s.meta.accessCount
    ensures Succeeds(outcome) ==> r.meta.imageAccessCount == s.meta.imageAccessCount
    ensures Succeeds(outcome) ==> r.meta.lastAccessTime == s.meta.lastAccessTime
    ensures !Succeeds(outcome) ==> r == s
  {
    if Succeeds(outcome) then
      CacheState(s.meta.(downloadTimestamp := Some(now), gracePeriodUsed := false), true)
    else
      s
  }

  /** With an image and a timestamp, the cache is still fresh at an age of
      exactly the TTL and expired one second later. */
  lemma ExpiryBoundary(s: CacheState, ttl: int)
    requires s.imageExists && s.meta.downloadTimestamp.Some?
    ensures !Expired(s, ttl, s.meta.downloadTimestamp.value + ttl)
    ensures Expired(s, ttl, s.meta.downloadTimestamp.value + ttl + 1)
  {
  }

  /** With the state unchanged, an expired cache stays expired as time passes. */
  lemma ExpiredStaysExpired(s: CacheState, ttl: int, now: int, later: int)
    requires now <= later && Expired(s, ttl, now)
    ensures Expired(s, ttl, later)
  {
  }

  /** Right after a successful fetch the cache is not expired, for any TTL that
      is not negative. */
  lemma FreshAfterFetch(s: CacheState, ttl: int, now: int, outcome: FetchOutcome)
    requires Succeeds(outcome) && ttl >= 0
    ensures !Expired(AfterFetch(s, now, outcome), ttl, now)
  {
  }

  /** The cache object. The five metadata fields, the image file's existence
      and the metadata file's contents are fields; `storageWritable` says
      whether writes to the metadata file succeed. */
  class ImageCache {
    const ttl: int
    const storageWritable: bool
    var gracePeriodUsed: bool
    var accessCount: int
    var imageAccessCount: int
    var lastAccessTime: Option<int>
    var downloadTimestamp: Option<int>
    var imageExists: bool
    var metadataFile: MetadataFile

    function Meta(): CacheMetadata
      reads this
    {
      CacheMetadata(gracePeriodUsed, accessCount, imageAccessCount, lastAccessTime, downloadTimestamp)
    }

    function State(): CacheState
      reads this
    {
      CacheState(Meta(), imageExists)
    }

    /** Reopening the cache over its metadata file would restore the fields
        held in memory, whenever writes to that file succeed. */
    ghost predicate Persisted()
      reads this
    {
      storageWritable ==> Opened(metadataFile) == Meta()
    }

    /** `__init__`: start from the defaults, then load the metadata file. */
    constructor (ttl: int, file: MetadataFile, imageExists: bool, storageWritable: bool)
      ensures this.ttl == ttl && this.storageWritable == storageWritable
      ensures this.imageExists == imageExists
      ensures Meta() == Opened(file)
      ensures metadataFile == if NeedsReset(file) && storageWritable then Stored(Encode(Defaults)) else file
      ensures Persisted()
    {
      this.ttl := ttl;
      this.storageWritable := storageWritable;
      this.imageExists := imageExists;
      metadataFile := file;
      gracePeriodUsed := false;
      accessCount := 0;
      imageAccessCount := 0;
      lastAccessTime := None;
      downloadTimestamp := None;
      new;
      LoadMetadata();
    }

    /** `_load_metadata`: take the stored record, or reset when the file is
        missing, unreadable or malformed. */
    method LoadMetadata()
      modifies this
      ensures Meta() == Opened(old(metadataFile))
      ensures metadataFile == if NeedsReset(old(metadataFile)) && storageWritable then Stored(Encode(Defaults)) else old(metadataFile)
      ensures imageExists == old(imageExists)
      ensures Persisted()
    {
      match metadataFile
      case Stored(doc) =>
        match Decode(doc) {
          case Some(m) =>
            gracePeriodUsed := m.gracePeriodUsed;
            accessCount := m.accessCount;
            lastAccessTime := m.lastAccessTime;
            downloadTimestamp := m.downloadTimestamp;
            imageAccessCount := m.imageAccessCount;
          case None =>
            ResetMetadata();
        }
      case _ =>
        ResetMetadata();
    }

    /** `_reset_metadata`: all five fields back to their defaults, then saved. */
    method ResetMetadata()
      modifies this
      ensures Meta() == Defaults
      ensures metadataFile == if storageWritable then Stored(Encode(Defaults)) else old(metadataFile)
      ensures imageExists == old(imageExists)
      ensures Persisted()
    {
      gracePeriodUsed := false;
      accessCount := 0;
      lastAccessTime := None;
      downloadTimestamp := None;
      imageAccessCount := 0;
      SaveMetadata();
    }

    /** `_save_metadata`: write the five fields as a JSON record; a failed
        write changes nothing. */
    method SaveMetadata()
      modifies this`metadataFile
      ensures metadataFile == if storageWritable then Stored(Encode(Meta())) else old(metadataFile)
      ensures Persisted()
    {
      if storageWritable {
        metadataFile := Stored(Encode(Meta()));
        ReopenAfterSave(Meta());
      }
    }

    /** `record_access`. */
    method RecordAccess(now: int)
      modifies this
      ensures Meta() == AfterAccess(old(Meta()), now)
      ensures imageExists == old(imageExists)
      ensures metadataFile == if storageWritable then Stored(Encode(Meta())) else old(metadataFile)
      ensures Persisted()
    {
      accessCount := accessCount + 1;
      imageAccessCount := imageAccessCount + 1;
      lastAccessTime := Some(now);
      SaveMetadata();
    }

    /** `is_cache_expired`: a missing image or timestamp means expired;
        otherwise expired exactly when the download is more than `ttl` seconds
        before `now`. */
    function IsCacheExpired(now: int): (expired: bool)
      reads this
      ensures !imageExists || downloadTimestamp.None? ==> expired
      ensures imageExists && downloadTimestamp.Some? ==> (expired <==> downloadTimestamp.value + ttl < now)
    {
      Expired(State(), ttl, now)
    }

    /** `fetch_and_cache_image`, with the download as an injected outcome. */
    method FetchAndCacheImage(now: int, outcome: FetchOutcome) returns (ok: bool)
      modifies this
      ensures ok == Succeeds(outcome)
      ensures State() == AfterFetch(old(State()), now, outcome)
      ensures metadataFile == if ok && storageWritable then Stored(Encode(Meta())) else old(metadataFile)
      ensures old(Persisted()) ==> Persisted()
    {
      ok := false;
      match outcome
      case Response(status) =>
        if status == StatusOk {
          imageExists := true;
          downloadTimestamp := Some(now);
          gracePeriodUsed := false;
          SaveMetadata();
          ok := true;
        }
      case TransportError =>
    }
  }
}
