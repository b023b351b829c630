/** The endpoints of both deployments as state transitions over the cache.

    The stream, manifest and listing requests see two clock readings, as
    those handlers do: `now`, read by the handler itself (the stored timestamp,
    the freshness test and the listed ages use it), and `sweepNow`, read a
    moment later by the cleanup sweep. The delete request reads no clock and
    does not sweep. The extractor is an input: its outcome is consulted only
    on a cache miss. */
module Service {
  import opened Wrappers
  import opened Formats
  import opened Manifest
  import opened TtlCache

  /** The `formats` field of an extraction result: missing (read as the empty
      list), explicitly null (iterating it raises), or a list. */
  datatype FormatsField = FormatsMissing | FormatsNull | FormatsList(items: seq<RawFormat>)

  /** What a successful extraction reports about a video. */
  datatype Info = Info(title: Option<string>, formats: FormatsField)

  /** The extractor's outcome: `None` when extraction raised. */
  type Extraction = Option<Info>

  datatype ApiError =
    | ExtractionFailed   // 500: extraction or response building raised
    | NoManifest         // 404: no m3u8 or DASH format for the video
    | CacheKeyNotFound   // 404: delete of an id that is not cached

  datatype Reply<+T> = Ok(value: T) | Err(error: ApiError)

  /** The cache after a request, and what the request answers. */
  datatype Step<+T> = Step(cache: Cache, reply: Reply<T>)

  /** The payload of the manifest endpoint. */
  datatype ManifestInfo = ManifestInfo(title: Option<string>, id: string, m3u8Formats: seq<Format>)

  /** The raw records the cleaning iterates over, or `None` when iterating
      them raises. */
  function RawFormatList(info: Info): (r: Option<seq<RawFormat>>)
    ensures r.None? <==> info.formats.FormatsNull?
    ensures info.formats.FormatsMissing? ==> r == Some([])
    ensures info.formats.FormatsList? ==> r == Some(info.formats.items)
  {
    match info.formats
    case FormatsMissing => Some([])
    case FormatsNull => None
    case FormatsList(items) => Some(items)
  }

  /** The miss path up to the store: the response data built from an
      extraction, or `None` when anything in the try block raises. */
  function BuildResponse(edition: Edition, id: string, extraction: Extraction): (r: Option<StreamInfo>)
    ensures r.Some? <==> extraction.Some? && !extraction.value.formats.FormatsNull?
    ensures r.Some? ==>
      && r.value.id == id
      && r.value.title == extraction.value.title
      && r.value.formats == CleanFormats(RawFormatList(extraction.value).value, edition)
  {
    match extraction
    case None => None
    case Some(info) =>
      match RawFormatList(info)
      case None => None
      case Some(raws) => Some(StreamInfo(info.title, id, CleanFormats(raws, edition)))
  }

  /** The stream endpoint of either deployment: sweep, answer from the cache
      on a fresh hit, otherwise extract, clean, store and answer. */
  function GetStreams(edition: Edition, cache: Cache, id: string, now: nat, sweepNow: nat, extraction: Extraction)
    : (s: Step<StreamInfo>)
    // the only error is the extraction failure
    ensures s.reply.Ok? || s.reply == Err(ExtractionFailed)
    // a hit returns the stored data and writes nothing beyond the sweep
    ensures Lookup(Sweep(cache, sweepNow), id, now).Some? ==>
      s == Step(Sweep(cache, sweepNow), Ok(Sweep(cache, sweepNow)[id].data))
    // a miss answers with the response built from the extraction
    ensures Lookup(Sweep(cache, sweepNow), id, now).None? ==>
      (s.reply.Ok? <==> BuildResponse(edition, id, extraction).Some?) &&
      (s.reply.Ok? ==> s.reply.value == BuildResponse(edition, id, extraction).value)
    // a failure stores nothing
    ensures s.reply.Err? ==> s.cache == Sweep(cache, sweepNow)
    // what is answered is what the cache now serves for the id; a failure leaves no hit
    ensures s.reply.Ok? ==> Lookup(s.cache, id, now) == Some(s.reply.value)
    ensures s.reply.Err? ==> Lookup(s.cache, id, now) == None
    // on a miss that succeeds the stored entry is (now, data, duration by format count)
    ensures Lookup(Sweep(cache, sweepNow), id, now).None? && s.reply.Ok? ==>
      s.cache[id] == Entry(now, s.reply.value, CacheDuration(|s.reply.value.formats|))
    // other ids are as the sweep left them
    ensures s.cache.Keys - {id} == Sweep(cache, sweepNow).Keys - {id}
    ensures forall other :: other in s.cache && other != id ==> other in cache && s.cache[other] == cache[other]
  {
    var swept := Sweep(cache, sweepNow);
    match Lookup(swept, id, now)
    case Some(data) => Step(swept, Ok(data))
    case None =>
      match BuildResponse(edition, id, extraction)
      case None => Step(swept, Err(ExtractionFailed))
      case Some(data) =>
        StoreThenLookup(swept, id, now, data, now);
        Step(Store(swept, id, now, data), Ok(data))
  }

  /** The manifest endpoint of app.py: the same fetch as the stream endpoint
      (same cache, same store), then the manifest view of the formats; an
      empty view is not found. */
  function GetM3u8Streams(cache: Cache, id: string, now: nat, sweepNow: nat, extraction: Extraction)
    : (s: Step<ManifestInfo>)
    // the cache moves exactly as for the stream endpoint, even when the view is empty
    ensures s.cache == GetStreams(App, cache, id, now, sweepNow, extraction).cache
    ensures GetStreams(App, cache, id, now, sweepNow, extraction).reply.Err? ==> s.reply == Err(ExtractionFailed)
    ensures GetStreams(App, cache, id, now, sweepNow, extraction).reply.Ok? ==>
      var data := GetStreams(App, cache, id, now, sweepNow, extraction).reply.value;
      && (s.reply.Ok? || s.reply == Err(NoManifest))
      && (s.reply == Err(NoManifest) <==> forall f :: f in data.formats ==> !IsManifest(f))
      && (s.reply.Ok? ==>
            && s.reply.value.title == data.title
            && s.reply.value.id == id
            && s.reply.value.m3u8Formats != []
            && s.reply.value.m3u8Formats == ManifestFormats(data.formats))
  {
    var fetched := GetStreams(App, cache, id, now, sweepNow, extraction);
    match fetched.reply
    case Err(e) => Step(fetched.cache, Err(e))
    case Ok(data) =>
      var m3u8 := ManifestFormats(data.formats);
      ManifestEmptyIff(data.formats);
      if m3u8 == [] then Step(fetched.cache, Err(NoManifest))
      else Step(fetched.cache, Ok(ManifestInfo(data.title, id, m3u8)))
  }

  /** The delete endpoint: no sweep; removes the id if present. */
  function DeleteCache(cache: Cache, id: string): (s: Step<()>)
    ensures s.reply.Ok? <==> id in cache
    ensures s.reply.Err? ==> s.reply.error == CacheKeyNotFound && s.cache == cache
    ensures s.cache.Keys == cache.Keys - {id}
    ensures forall other :: other in s.cache ==> s.cache[other] == cache[other]
  {
    if id in cache then Step(Remove(cache, id), Ok(())) else Step(cache, Err(CacheKeyNotFound))
  }

  /** The listing endpoint: the handler reads its clock, the sweep runs, and
      every surviving entry is reported with age, remaining time and duration. */
  function ListCache(cache: Cache, now: nat, sweepNow: nat): (s: Step<map<string, CacheStat>>)
    ensures s.cache == Sweep(cache, sweepNow)
    ensures s.reply.Ok? && s.reply.value.Keys == s.cache.Keys
    ensures forall id :: id in s.reply.value ==>
      && s.reply.value[id].durationSec == cache[id].duration
      && s.reply.value[id].ageSec == now - cache[id].timestamp
      && s.reply.value[id].remainingSec == cache[id].duration - (now - cache[id].timestamp)
    ensures now <= sweepNow ==> forall id :: id in s.reply.value ==> s.reply.value[id].remainingSec > 0
  {
    var swept := Sweep(cache, sweepNow);
    SnapshotAfterSweepHasTimeLeft(cache, now, sweepNow);
    Step(swept, Ok(Snapshot(swept, now)))
  }

  // ---------------------------------------------------------------------------
  // The cache invariant every endpoint keeps.

  /** An entry as only a successful miss can create it: keyed by its own id,
      holding cleaned formats, with the duration its format count earns. */
  ghost predicate ValidEntry(id: string, e: Entry, edition: Edition) {
    && e.data.id == id
    && e.duration == CacheDuration(|e.data.formats|)
    && forall f :: f in e.data.formats ==> IsClean(f, edition)
  }

  ghost predicate WellFormed(cache: Cache, edition: Edition) {
    forall id :: id in cache ==> ValidEntry(id, cache[id], edition)
  }

  /** The stream endpoint keeps the invariant and always answers with data
      for the requested id made of cleaned records. */
  lemma GetStreamsKeepsWellFormed(edition: Edition, cache: Cache, id: string, now: nat, sweepNow: nat, extraction: Extraction)
    requires WellFormed(cache, edition)
    ensures var s := GetStreams(edition, cache, id, now, sweepNow, extraction);
      && WellFormed(s.cache, edition)
      && (s.reply.Ok? ==> ValidEntry(id, s.cache[id], edition) && s.cache[id].data == s.reply.value)
  {
  }

  /** The manifest endpoint keeps the invariant of app.py's cache. */
  lemma GetM3u8StreamsKeepsWellFormed(cache: Cache, id: string, now: nat, sweepNow: nat, extraction: Extraction)
    requires WellFormed(cache, App)
    ensures WellFormed(GetM3u8Streams(cache, id, now, sweepNow, extraction).cache, App)
  {
  }

  /** Deleting and listing keep the invariant. */
  lemma DeleteAndListKeepWellFormed(cache: Cache, edition: Edition, id: string, now: nat, sweepNow: nat)
    requires WellFormed(cache, edition)
    ensures WellFormed(DeleteCache(cache, id).cache, edition)
    ensures WellFormed(ListCache(cache, now, sweepNow).cache, edition)
  {
  }

  /** In a well-formed cache every duration is one of the two policy values,
      and the listing reports it. */
  lemma WellFormedDurations(cache: Cache, edition: Edition, now: nat, sweepNow: nat)
    requires WellFormed(cache, edition)
    ensures forall id :: id in ListCache(cache, now, sweepNow).reply.value ==>
      ListCache(cache, now, sweepNow).reply.value[id].durationSec in {DEFAULT_CACHE_DURATION, LONG_CACHE_DURATION}
  {
  }

  // ---------------------------------------------------------------------------
  // Request sequences.

  /** On a hit the extractor is never consulted: any two extraction outcomes
      give the same step. */
  lemma HitIgnoresExtraction(edition: Edition, cache: Cache, id: string, now: nat, sweepNow: nat, x1: Extraction, x2: Extraction)
    requires Lookup(Sweep(cache, sweepNow), id, now).Some?
    ensures GetStreams(edition, cache, id, now, sweepNow, x1) == GetStreams(edition, cache, id, now, sweepNow, x2)
  {
  }

  /** A repeated request for an id answered at `t0` is answered from the cache,
      with the same data, as long as both clock readings of the later request
      fall within the stored duration; its extraction outcome is irrelevant. */
  lemma RepeatWithinDurationHits(edition: Edition, cache: Cache, id: string, t0: nat, x0: Extraction, t: nat, x: Extraction)
    requires GetStreams(edition, cache, id, t0, t0, x0).reply.Ok?
    requires t0 <= t
    requires t - GetStreams(edition, cache, id, t0, t0, x0).cache[id].timestamp
             < GetStreams(edition, cache, id, t0, t0, x0).cache[id].duration
    ensures var s0 := GetStreams(edition, cache, id, t0, t0, x0);
      GetStreams(edition, s0.cache, id, t, t, x) == Step(Sweep(s0.cache, t), s0.reply)
  {
  }

  /** A request whose extraction fails can be retried: the next request at
      the same time with a successful extraction answers and caches fresh data. */
  lemma FailureIsRetryable(edition: Edition, cache: Cache, id: string, now: nat, info: Info)
    requires GetStreams(edition, cache, id, now, now, None).reply.Err?
    requires !info.formats.FormatsNull?
    ensures var s := GetStreams(edition, GetStreams(edition, cache, id, now, now, None).cache, id, now, now, Some(info));
      && s.reply.Ok?
      && s.reply.value == BuildResponse(edition, id, Some(info)).value
  {
  }

  /** Deleting an id twice: the second delete reports not found and changes
      nothing, whatever the first one did. */
  lemma DeleteTwice(cache: Cache, id: string)
    ensures var once := DeleteCache(cache, id);
      DeleteCache(once.cache, id) == Step(once.cache, Err(CacheKeyNotFound))
  {
  }

  /** After a delete the id misses, at any time. */
  lemma DeleteThenMiss(cache: Cache, id: string, now: nat)
    ensures Lookup(DeleteCache(cache, id).cache, id, now) == None
  {
  }

  /** The end-to-end scenario: fifteen playable formats earn the long
      duration, the listing shows it, a request 700 seconds later is a hit,
      and a request at 14201 seconds misses and goes back to the extractor. */
  lemma RichResultScenario(edition: Edition, title: Option<string>, raws: seq<RawFormat>, later: Extraction)
    requires |raws| == 15
    requires forall i :: 0 <= i < |raws| ==> Playable(raws[i])
    ensures var first := GetStreams(edition, map[], "abc", 0, 0, Some(Info(title, FormatsList(raws))));
      && first.reply.Ok?
      && |first.reply.value.formats| == 15
      && ListCache(first.cache, 0, 0).reply.value["abc"].durationSec == LONG_CACHE_DURATION
      && GetStreams(edition, first.cache, "abc", 700, 700, later).reply == first.reply
      && GetStreams(edition, first.cache, "abc", 14201, 14201, later)
         == GetStreams(edition, map[], "abc", 14201, 14201, later)
  {
    CleanKeepsAllPlayable(raws, edition);
    var first := GetStreams(edition, map[], "abc", 0, 0, Some(Info(title, FormatsList(raws))));
    assert first.cache["abc"].duration == LONG_CACHE_DURATION;
    assert "abc" in Sweep(first.cache, 700);
    assert Sweep(first.cache, 14201) == map[];
  }
}
