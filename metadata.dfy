/** The persisted metadata of the image cache: its five fields, the JSON record
    that `cache_metadata.json` holds, and what opening a cache over a given
    metadata file yields (todo_app/app/cache.py). */
module Metadata {

  datatype Option<+T> = None | Some(value: T)

  /** A JSON document, as far as the metadata file needs one. Timestamps are
      whole seconds here, so every JSON number is an integer. */
  datatype Json =
    | JNull
    | JBool(b: bool)
    | JInt(i: int)
    | JStr(s: string)
    | JArray(items: seq<Json>)
    | JObject(fields: map<string, Json>)

  /** What sits at the metadata path when the cache is opened. */
  datatype MetadataFile =
    | Absent            // no file at the path
    | Unreadable        // the file cannot be opened or is not valid JSON
    | Stored(doc: Json) // the file parses to this document

  /** The five fields an `ImageCache` keeps and persists. */
  datatype CacheMetadata = CacheMetadata(
    gracePeriodUsed: bool,
    accessCount: int,
    imageAccessCount: int,
    lastAccessTime: Option<int>,
    downloadTimestamp: Option<int>)

  const GracePeriodUsedKey := "grace_period_used"
  const AccessCountKey := "access_count"
  const LastAccessTimeKey := "last_access_time"
  const DownloadTimestampKey := "download_timestamp"
  const ImageAccessCountKey := "image_access_count"

  const MetadataKeys: set<string> :=
    {GracePeriodUsedKey, AccessCountKey, LastAccessTimeKey, DownloadTimestampKey, ImageAccessCountKey}

  /** Grace unused, both counts zero, no timestamps. */
  const Defaults := CacheMetadata(false, 0, 0, None, None)

  function EncodeFlag(b: bool): Json { JBool(b) }
  function EncodeCount(n: int): Json { JInt(n) }
  function EncodeTime(t: Option<int>): Json { if t.None? then JNull else JInt(t.value) }

  function DecodeFlag(j: Json): Option<bool> { if j.JBool? then Some(j.b) else None }
  function DecodeCount(j: Json): Option<int> { if j.JInt? then Some(j.i) else None }
  function DecodeTime(j: Json): Option<Option<int>>
  {
    match j
    case JNull => Some(None)
    case JInt(t) => Some(Some(t))
    case _ => None
  }

  /** `dict.get(key, default)` followed by a type check: the decoded value of a
      present key, `default` for a missing one, None for a value of the wrong kind. */
  function Lookup<T>(fields: map<string, Json>, key: string, default: T, decode: Json -> Option<T>): Option<T>
  {
    if key in fields then decode(fields[key]) else Some(default)
  }

  /** A present key holds `encoded`; a missing key means the field has its default. */
  predicate TakenOrDefaulted(fields: map<string, Json>, key: string, encoded: Json, default: Json)
  {
    if key in fields then fields[key] == encoded else encoded == default
  }

  /** Every field of `m` comes from `fields` when its key is present and is
      the default when its key is missing. */
  predicate Describes(fields: map<string, Json>, m: CacheMetadata)
  {
    && TakenOrDefaulted(fields, GracePeriodUsedKey, EncodeFlag(m.gracePeriodUsed), EncodeFlag(false))
    && TakenOrDefaulted(fields, AccessCountKey, EncodeCount(m.accessCount), EncodeCount(0))
    && TakenOrDefaulted(fields, LastAccessTimeKey, EncodeTime(m.lastAccessTime), EncodeTime(None))
    && TakenOrDefaulted(fields, DownloadTimestampKey, EncodeTime(m.downloadTimestamp), EncodeTime(None))
    && TakenOrDefaulted(fields, ImageAccessCountKey, EncodeCount(m.imageAccessCount), EncodeCount(0))
  }

  /** Each metadata key that is present holds a value of its field's kind. */
  predicate WellTyped(fields: map<string, Json>)
  {
    && (GracePeriodUsedKey in fields ==> fields[GracePeriodUsedKey].JBool?)
    && (AccessCountKey in fields ==> fields[AccessCountKey].JInt?)
    && (LastAccessTimeKey in fields ==> fields[LastAccessTimeKey].JNull? || fields[LastAccessTimeKey].JInt?)
    && (DownloadTimestampKey in fields ==> fields[DownloadTimestampKey].JNull? || fields[DownloadTimestampKey].JInt?)
    && (ImageAccessCountKey in fields ==> fields[ImageAccessCountKey].JInt?)
  }

  /** The record `_load_metadata` reads out of a parsed document, or None when
      the document is not an object of well-typed fields. Keys other than the
      five are ignored. */
  function Decode(doc: Json): (r: Option<CacheMetadata>)
    ensures r.Some? <==> doc.JObject? && WellTyped(doc.fields)
    ensures r.Some? ==> Describes(doc.fields, r.value)
  {
    if !doc.JObject? then None
    else
      var f := doc.fields;
      match (Lookup(f, GracePeriodUsedKey, false, DecodeFlag),
             Lookup(f, AccessCountKey, 0, DecodeCount),
             Lookup(f, LastAccessTimeKey, None, DecodeTime),
             Lookup(f, DownloadTimestampKey, None, DecodeTime),
             Lookup(f, ImageAccessCountKey, 0, DecodeCount))
      case (Some(grace), Some(count), Some(last), Some(downloaded), Some(imageCount)) =>
        Some(CacheMetadata(grace, count, imageCount, last, downloaded))
      case _ => None
  }

  /** The record `_save_metadata` writes: exactly the five keys. */
  function Encode(m: CacheMetadata): (doc: Json)
    ensures doc.JObject? && doc.fields.Keys == MetadataKeys && WellTyped(doc.fields)
  {
    JObject(map[
      GracePeriodUsedKey := EncodeFlag(m.gracePeriodUsed),
      AccessCountKey := EncodeCount(m.accessCount),
      LastAccessTimeKey := EncodeTime(m.lastAccessTime),
      DownloadTimestampKey := EncodeTime(m.downloadTimestamp),
      ImageAccessCountKey := EncodeCount(m.imageAccessCount)])
  }

  /** Whether opening over `file` falls back to `_reset_metadata`. */
  predicate NeedsReset(file: MetadataFile)
  {
    !(file.Stored? && Decode(file.doc).Some?)
  }

  /** The metadata an `ImageCache` holds once opened over `file`: the stored
      record when there is a well-formed one, the defaults otherwise. */
  function Opened(file: MetadataFile): (m: CacheMetadata)
    ensures NeedsReset(file) ==> m == Defaults
    ensures !NeedsReset(file) ==> Describes(file.doc.fields, m)
  {
    match file
    case Stored(doc) => if Decode(doc).Some? then Decode(doc).value else Defaults
    case _ => Defaults
  }

  /** A record is fully determined by a map that describes it and holds all
      five keys. */
  lemma DescribedByAllKeys(fields: map<string, Json>, m: CacheMetadata, n: CacheMetadata)
    requires MetadataKeys <= fields.Keys
    requires Describes(fields, m) && Describes(fields, n)
    ensures m == n
  {
    assert GracePeriodUsedKey in fields && AccessCountKey in fields && LastAccessTimeKey in fields;
    assert DownloadTimestampKey in fields && ImageAccessCountKey in fields;
    assert m.lastAccessTime == n.lastAccessTime by {
      if m.lastAccessTime.Some? || n.lastAccessTime.Some? {
        assert EncodeTime(m.lastAccessTime) == EncodeTime(n.lastAccessTime);
      }
    }
    assert m.downloadTimestamp == n.downloadTimestamp by {
      if m.downloadTimestamp.Some? || n.downloadTimestamp.Some? {
        assert EncodeTime(m.downloadTimestamp) == EncodeTime(n.downloadTimestamp);
      }
    }
  }

  /** Round trip: loading what `_save_metadata` wrote gives back all five fields. */
  lemma RoundTrip(m: CacheMetadata)
    ensures Decode(Encode(m)) == Some(m)
  {
    var doc := Encode(m);
    assert Describes(doc.fields, m);
    DescribedByAllKeys(doc.fields, Decode(doc).value, m);
  }

  /** Reopening the cache over a file it saved restores the saved fields
      without a reset. */
  lemma ReopenAfterSave(m: CacheMetadata)
    ensures !NeedsReset(Stored(Encode(m)))
    ensures Opened(Stored(Encode(m))) == m
  {
    RoundTrip(m);
  }

  /** A record with no keys loads as the defaults, the same as no file. */
  lemma EmptyRecordLoadsDefaults()
    ensures Decode(JObject(map[])) == Some(Defaults)
    ensures Opened(Stored(JObject(map[]))) == Opened(Absent)
  {
  }

  /** Each missing key is defaulted on its own: a record holding only an
      access count keeps that count and defaults the other four fields. */
  lemma MissingKeysDefaulted(count: int)
    ensures Opened(Stored(JObject(map[AccessCountKey := JInt(count)]))) == Defaults.(accessCount := count)
  {
  }

  /** A malformed document, an unreadable file and a missing file all open to
      the same state. */
  lemma MalformedLikeMissing(doc: Json)
    requires !doc.JObject? || !WellTyped(doc.fields)
    ensures Opened(Stored(doc)) == Opened(Unreadable) == Opened(Absent) == Defaults
  {
  }

  /** Keys other than the five metadata keys never change what is loaded. */
  lemma ExtraKeysIgnored(fields: map<string, Json>, key: string, value: Json)
    requires key !in MetadataKeys
    ensures Decode(JObject(fields[key := value])) == Decode(JObject(fields))
  {
    var g := fields[key := value];
    assert forall k :: k in MetadataKeys ==> (k in g <==> k in fields);
    assert forall k :: k in MetadataKeys && k in fields ==> g[k] == fields[k];
    match Decode(JObject(fields))
    case None =>
    case Some(m) =>
      assert Describes(g, m);
  }
}
