# Image cache of the todo frontend, in Dafny

The todo frontend shows one external image and keeps it in a small on-disk
cache. `ImageCache` (todo_app/app/cache.py) holds five metadata fields:

- the grace flag;
- the total access count;
- the per-image access count;
- the last access time;
- the download timestamp.

The cache also knows whether the image file exists. It loads its fields from
`cache_metadata.json`, falling back to defaults when that file is missing or
malformed, and saves them after every change.

The `main_page` route (todo_app/app/routes/frontend.py) drives the cache on
every request:

1. It checks expiry (age strictly greater than the TTL).
2. When the cache is expired, it either serves the old image once under the
   grace period or fetches a new one.
3. It records one access.
4. It renders the download and expiry times and a status label.

`get_image` refuses with 404 when there is no image. `lifespan` opens the
cache at startup and fetches when it is expired.

The project has four modules:

- `Metadata` (metadata.dfy): the five fields as a record. It also holds the
  JSON document the metadata file stores, `Decode`/`Encode` between the two,
  and `Opened`, the metadata a cache holds once opened over a given file.
- `Cache` (cache.dfy): the expiry, access and fetch rules as functions on
  values, and the class `ImageCache`. Its fields are the five metadata
  fields, the image file's existence and the metadata file's contents. Its
  methods mirror the source's methods and are proved against those functions.
  Each one that saves leaves `Persisted()` true: when writes succeed,
  reopening the cache over its metadata file restores the fields in memory.
- `Frontend` (frontend.dfy): `MainPage`, `GetImage` and `Lifespan`. It also
  holds the page values (times, counts, label) and `HandleRequest`, the
  state change of one request as a function, which `MainPage` is proved to
  perform.
- `RequestTrace` (request_trace.dfy): replays a sequence of requests. It
  proves that grace is served at most once between successful fetches and
  that every request records exactly one access.

Time is an integer `now` (whole seconds) passed to each operation. The image
download is an injected `FetchOutcome`: an HTTP response with its status, or
a transport error. Only status 200 succeeds. Whether the metadata file can be
written is the constant `storageWritable`. A failed write leaves the file as
it was.

The model reproduces these behaviours of the code as they are:

- A successful fetch does not reset `image_access_count`, although the field
  is commented as the per-image access count (todo_app/app/cache.py:18). The
  code only sets the timestamp and clears the grace flag
  (todo_app/app/cache.py:97-100).
  `CountersAfterRequests` proves that the per-image count rises by one per
  request, whatever fetches happen.
- The status label is not "not expired". It says "Valid" only for a truthy
  timestamp (0 counts as missing) with `now < download + ttl`. The expiry
  test is `now - download > ttl`. So at exactly `download + ttl` the cache is
  fresh and the label says "Expired" (`LabelExpiredAtTtlBoundary`).
- There is no separate "consume grace" operation. `main_page` tests the flag
  and the image file itself, sets the flag and saves.
- When a fetch fails, `main_page` still records the access and renders the
  page. Only `get_image` reports a missing image.
- After a metadata reset, an image file that is still present makes the
  first expired request a grace serve, with no download timestamp at all
  (`GraceServeWithoutTimestamp`).
- The label never looks at the image file: a cache without an image whose
  fetch fails can still be labelled "Valid" (`ValidLabelWithoutImage`).

## Model

| member | source | states |
|---|---|---|
| `Metadata.Decode` | todo_app/app/cache.py:29-35 | a parsed document loads exactly when it is an object whose metadata keys hold values of the right kind; each present key's value is taken and each missing key gets its default |
| `Metadata.Encode` | todo_app/app/cache.py:53-60 | the saved record holds exactly the five metadata keys, each with a value of its field's kind |
| `Metadata.Opened` | todo_app/app/cache.py:25-50 | a missing, unreadable or malformed file opens to the defaults (grace false, counts 0, no timestamps); a well-formed record opens to the values it holds, with missing keys defaulted |
| `Metadata.RoundTrip` | todo_app/app/cache.py:29-60 | decoding the record `_save_metadata` writes gives back all five fields unchanged |
| `Metadata.ReopenAfterSave` | todo_app/app/cache.py:25-60 | a cache reopened over a file it saved needs no reset and restores the saved fields |
| `Metadata.EmptyRecordLoadsDefaults` | todo_app/app/cache.py:31-35 | a record with no keys loads as the defaults, the same as a missing file |
| `Metadata.MissingKeysDefaulted` | todo_app/app/cache.py:31-35 | each key is defaulted on its own: a record holding only an access count keeps that count and defaults the other four fields |
| `Metadata.MalformedLikeMissing` | todo_app/app/cache.py:38-43 | a malformed document, an unreadable file and a missing file all open to the same default state |
| `Metadata.ExtraKeysIgnored` | todo_app/app/cache.py:30-35 | keys other than the five never change what is loaded |
| `Cache.AfterAccess` | todo_app/app/cache.py:67-71 | recording an access raises both counters by exactly one, sets the last access time to now and keeps the grace flag and download timestamp |
| `Cache.AfterFetch` | todo_app/app/cache.py:93-105 | a 200 response marks the image present, sets the timestamp to now and clears the grace flag, keeping both counters and the access time; any other status or a transport error changes nothing |
| `Cache.ExpiryBoundary` | todo_app/app/cache.py:80-82 | with an image and a timestamp, the cache is not expired at age exactly ttl and is expired one second later |
| `Cache.ExpiredStaysExpired` | todo_app/app/cache.py:74-82 | with the state unchanged, an expired cache stays expired at every later time |
| `Cache.FreshAfterFetch` | todo_app/app/cache.py:97-99 | right after a successful fetch, with ttl at least 0, the cache is not expired |
| `Cache.ImageCache.constructor` | todo_app/app/cache.py:11-23 | the new cache holds `Opened(file)`; the metadata file is rewritten with the defaults exactly when a reset was needed and writes succeed; the stored file reloads to the fields in memory |
| `Cache.ImageCache.LoadMetadata` | todo_app/app/cache.py:25-43 | the fields become `Opened` of the old file; a reset happens, and is saved, exactly when the file is missing, unreadable or malformed |
| `Cache.ImageCache.ResetMetadata` | todo_app/app/cache.py:45-51 | all five fields become the defaults, and the defaults are saved |
| `Cache.ImageCache.SaveMetadata` | todo_app/app/cache.py:53-65 | the metadata file becomes the encoded fields when writes succeed and is left as it was otherwise; afterwards the file reloads to the fields in memory |
| `Cache.ImageCache.RecordAccess` | todo_app/app/cache.py:67-71 | the fields become `AfterAccess` of the old fields; the image flag is unchanged; the change is saved |
| `Cache.ImageCache.IsCacheExpired` | todo_app/app/cache.py:74-82 | expired when the image is missing or there is no timestamp; otherwise expired exactly when `download + ttl < now` |
| `Cache.ImageCache.FetchAndCacheImage` | todo_app/app/cache.py:84-105 | returns true exactly for a 200 response; the state becomes `AfterFetch` of the old state; the file is saved only on success |
| `Frontend.GraceLabelIffGraceUsed` | todo_app/app/routes/frontend.py:79 | the label is one of the three strings, and it is "Grace period" exactly when the grace flag is set |
| `Frontend.ValidLabelIffNotExpired` | todo_app/app/routes/frontend.py:79 | with no grace, an image and a truthy timestamp, and away from the instant download + ttl, the label is "Valid" exactly when the cache is not expired |
| `Frontend.ValidLabelMeansNotExpired` | todo_app/app/routes/frontend.py:79 | with the image present, a "Valid" label always means not expired |
| `Frontend.LabelExpiredAtTtlBoundary` | todo_app/app/routes/frontend.py:79 | at exactly download + ttl the cache is not expired, yet the label says "Expired" |
| `Frontend.ZeroTimestampShownAsMissing` | todo_app/app/routes/frontend.py:76-79 | a timestamp of 0 is falsy: no download or expiry time is shown and the label is never "Valid", although the cache can be unexpired |
| `Frontend.ExpiryShownWithDownload` | todo_app/app/routes/frontend.py:76-77 | the expiry is shown exactly when the download time is, and then equals download + ttl; otherwise both are "N/A" |
| `Frontend.Decide` | todo_app/app/routes/frontend.py:60-72 | a request serves the cache as it is exactly when it is not expired; a grace serve needs the flag clear and the image present; a fetch happens only when the flag is set or the image is missing |
| `Frontend.HandleRequest` | todo_app/app/routes/frontend.py:60-74 | one request raises both counters by one and stamps the access time. A fresh cache or a failed fetch changes nothing else. A grace serve sets the flag without fetching. A successful fetch sets the timestamp to now, clears the flag and marks the image present |
| `Frontend.GraceThenFetch` | todo_app/app/routes/frontend.py:62-68 | after a grace serve, any later request takes the fetch branch |
| `Frontend.FreshAfterFetchingRequest` | todo_app/app/routes/frontend.py:66-70 | a request whose fetch succeeds leaves the cache unexpired at that instant when ttl is at least 0 |
| `Frontend.MainPage` | todo_app/app/routes/frontend.py:56-79 | without a cache the answer is 500 "Cache not initialized". Otherwise the cache's new state is `HandleRequest` of its old state, the page is rendered from the new fields, and the metadata file holds their encoding when writes succeed and is left as it was when they fail |
| `Frontend.GetImage` | todo_app/app/routes/frontend.py:97-99 | the JPEG file is served exactly when there is a cache and its image exists; otherwise the answer is 404 "Image not available" |
| `Frontend.Lifespan` | todo_app/app/routes/frontend.py:27-37 | startup opens a cache with ttl 600 and the given write mode over the given file; it fetches exactly when that cache is expired; the metadata file holds the new fields after a successful fetch with writes succeeding, and otherwise what opening left (the defaults on a writable reset, else the original file) |
| `Frontend.GraceServeWithoutTimestamp` | todo_app/app/routes/frontend.py:60-65 | with the defaults loaded and the image file present, the first request is a grace serve that leaves no download timestamp |
| `Frontend.ValidLabelWithoutImage` | todo_app/app/routes/frontend.py:66-79 | with no image, no grace and a truthy unexpired timestamp, the request fetches; when the fetch fails the image is still missing and the label is "Valid" |
| `RequestTrace.Events` | todo_app/app/routes/frontend.py:60-74 | every request in a sequence takes exactly one branch: one event per request |
| `RequestTrace.GraceFlagKept` | todo_app/app/routes/frontend.py:62-70 | with the grace flag set, a request that does not fetch successfully keeps the flag and is not a grace serve |
| `RequestTrace.NoGraceBeforeFetch` | todo_app/app/routes/frontend.py:62-70 | once the grace flag is set, no grace serve happens before a successful fetch |
| `RequestTrace.GraceOncePerFetch` | todo_app/app/routes/frontend.py:62-70 | between any two grace serves in a sequence of requests lies a successful fetch |
| `RequestTrace.CountersAfterRequests` | todo_app/app/routes/frontend.py:74 | after N requests both counters have risen by exactly N, since fetches never reset the per-image count; the access time is that of the last request |
| `RequestTrace.AccessCountFromFreshCache` | todo_app/app/cache.py:41-51 | from a cache opened without usable metadata, the total access count after N requests is N |
| `RequestTrace.Scenario` | todo_app/app/routes/frontend.py:60-74 | with ttl 600: a first fetch, a cached serve at exactly the TTL, a grace serve, a failed fetch, then a successful fetch; afterwards both counts are 5 |

## Left out

- The HTTP download itself is left out: the aiohttp session, the `IMG_URL`
  lookup and the image bytes. The fetch is an injected outcome, and a 200
  response always writes the image.
- A write error on the image file after a 200 response is not modelled. The
  source catches it like a transport error.
- `Metadata.Decode`: a present key whose value has the wrong JSON kind is
  treated as malformed, and the model resets all five fields and rewrites the
  file. The source keeps whatever value it loaded. For a count that is not a
  number (a string, null) it then fails at `record_access`. Several kinds it
  tolerates without failing, and keeps the other stored fields:
  - a grace flag of null, 0, 1 or any other value, used by truthiness;
  - any `last_access_time`, which `record_access` overwrites before the page
    shows it;
  - a JSON `true` or `false` count, which adds as 1 or 0.
- Timestamps are whole seconds, not `time.time()` floats.
- One request reads the clock once (`now`). The source reads it separately
  for the expiry check, the fetch, the access record and the label.
- `time.ctime` formatting is left out: a shown time is the instant itself,
  and None stands for "N/A". The Jinja template, `backend_api` and
  `namespace` are left out too.
- `Cache.ImageCache.SaveMetadata`: whether writes succeed is the constant
  `storageWritable`, fixed for the cache's lifetime. In the source one save
  can fail and a later one succeed, so the file can fall behind memory and
  then catch up; the model has no such intermittent failure.
- Logging and the `print` on a failed save are left out. A failed save is a
  no-op on the file, and the fields in memory stay as they are.
- The cache directory, its creation and the file paths are left out. The
  metadata file is the field `metadataFile`, and the image file is the
  boolean `imageExists`.
- Concurrency and the global `cache` variable are left out. The cache is one
  object passed to each route, so simultaneous requests are not modelled.
- `lifespan` after its `yield` only logs, and `healthz` does not touch the
  cache. Neither is modelled.
- The todo backend is not part of this model: storage, routes, models, the
  NATS client and the app wiring. Neither are the broadcaster and the
  browser script.
