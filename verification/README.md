# Stream-info cache of the ytdl services, in Dafny

The repository serves YouTube stream information through two near-identical
FastAPI services: `app.py` and `api/index.py`. Both put the same logic in front
of a slow extractor call:

- an **adaptive-TTL cache**, a map `video_id -> (timestamp, data, duration)`;
- a **cleaning step** that turns the extractor's raw format records into the
  cleaned records that are cached and returned;
- in `app.py` only, a **manifest view** that keeps the HLS/DASH formats.

This project models that logic with immutable datatypes and pure functions.
Time is a whole number of seconds passed in as a parameter. Every endpoint is
a function from the cache before the request to a `Step`: the cache after the
request plus a reply, which is `Ok(value)` or `Err(ApiError)`.

Modules:

- `Wrappers` (`wrappers.dfy`): `Option`.
- `Formats` (`formats.dfy`): raw and cleaned format records, the `Edition`
  flag, and cleaning. `App` keeps the `protocol` key; `ApiIndex` drops it, as
  api/index.py does.
- `Manifest` (`manifest.dfy`): substring search (Python's `in` on strings) and
  the m3u8/DASH filter.
- `TtlCache` (`ttl_cache.dfy`): entries, the expiry sweep, the freshness
  lookup, the duration policy (600 s, or 14200 s from 12 cleaned formats),
  store, remove and the listing snapshot.
- `Service` (`service.dfy`): the endpoints `GetStreams`, `GetM3u8Streams`,
  `DeleteCache` and `ListCache`. Also the cache invariant they all keep, and
  lemmas about sequences of requests.

Modelling choices:

- **Two clock readings per request.** The stream, manifest and listing
  handlers read `time.time()` (`now`) and then sweep; `cleanup_cache` reads the
  clock again (`sweepNow`). `delete_cache` reads no clock and does not sweep,
  so `DeleteCache` takes no time. Both readings are parameters, and no
  operation assumes an order between them. Lemmas that need the sweep's
  reading to be no earlier than the handler's say so in a `requires` or as the
  antecedent `now <= sweepNow ==>` of an `ensures`.
- **The extractor is an input.** `Extraction = Option<Info>`, where `None`
  means `extract_info` raised. The `formats` field of `Info` has three cases:
  - missing, which `info.get("formats", [])` reads as the empty list;
  - explicitly null, where iterating it raises inside the `try` and gives the
    500 reply;
  - a list.

  The extraction outcome is only read on a cache miss.
  `HitIgnoresExtraction` states that a hit gives the same step whatever the
  extractor would have returned.
- **Missing keys and `None` values.** A raw field that is absent and one that
  is `None` are the same `Option.None`, because the code only reads fields
  with `dict.get`. The cleaned record's `protocol` is different: app.py always
  writes the key and api/index.py never does. So it is `ProtocolField =
  NoProtocolKey | ProtocolKey(Option<string>)`.
- **The manifest endpoint stores before filtering.** app.py's m3u8 handler
  stores the full result in the shared cache before it applies the manifest
  filter. So a 404 for "no manifest" still leaves the fresh entry cached.
  `GetM3u8Streams` states that its cache effect is exactly the stream
  endpoint's.
- **Sweep count.** `cleanup_cache` only prints how many entries it removed;
  `SweepExpired` returns that count.
- **One fetch path.** The m3u8 handler repeats the fetch logic of the stream
  handler instead of calling it. The model reuses `GetStreams` because the two
  fetch paths of app.py behave the same.

## Model

| member | source | states |
|---|---|---|
| TtlCache.CacheDuration | app.py:99-101 | the duration is always 600 or 14200, and it is 14200 exactly when the cleaned format count is at least 12 |
| TtlCache.CacheDurationMonotone | api/index.py:104-106 | more formats never earn a shorter duration; a rich result (12 or more) is cached strictly longer than a poor one |
| TtlCache.Sweep | app.py:43-45 | an entry is removed iff `now - ts >= dur`; survivors keep their exact tuple and no key is added |
| TtlCache.SweepExpired | app.py:40-46 | `cleanup_cache`'s two-phase loop (collect the expired ids, then delete each) leaves exactly the cache `Sweep` describes, and counts the expired entries it removed |
| TtlCache.ExpiredCountIsRemoved | api/index.py:46-51 | the logged count of expired entries equals the number of entries that disappear |
| TtlCache.SweepBoundary | api/index.py:46 | at `ts + dur - 1` an entry survives the sweep; at `ts + dur` it is removed |
| TtlCache.SweepIdempotent | app.py:40-45 | a second sweep at the same time removes nothing |
| TtlCache.SweepLater | api/index.py:42-48 | a later sweep removes a superset, and an earlier sweep followed by a later one equals the later one alone |
| TtlCache.Lookup | app.py:58-60 | a lookup hits iff the id is present and `now - ts < dur`, and a hit yields the stored data |
| TtlCache.LookupAfterSweep | app.py:54-62 | sweeping at the lookup's own time never changes what the lookup returns |
| TtlCache.SurvivorIsFresh | api/index.py:56-62 | when the sweep reads the clock no earlier than the handler, every survivor passes the handler's freshness test |
| TtlCache.Store | app.py:104 | the stored entry is exactly `(now, data, duration)`, the duration being 14200 for at least 12 formats and 600 otherwise; it overwrites the old entry and keeps every other key |
| TtlCache.StoreThenLookup | api/index.py:60-64 | a lookup of the stored id returns exactly the stored data while `now - ts < duration`, and misses once `now - ts >= duration` |
| TtlCache.StoreFrame | api/index.py:109 | storing under one id leaves every lookup of another id unchanged |
| TtlCache.Remove | app.py:208-209 | removing deletes exactly that id, shrinks the cache by one when present, and changes nothing when absent |
| TtlCache.Snapshot | app.py:221-228 | the listing has one row per cached id; `age = now - ts`, `age + remaining = duration`, and `duration_sec = dur` |
| TtlCache.SnapshotAfterSweepHasTimeLeft | api/index.py:138-148 | after a sweep that read the clock no earlier than the listing, every row has positive remaining time |
| Formats.Project | app.py:77-86 | the cleaned record copies format id, ext, resolution, fps, acodec, vcodec and url; it carries the `protocol` key with the raw value in app.py and no key in api/index.py |
| Formats.Playable | app.py:88 | the cleaning condition: the url is present and non-empty and the ext is not `mhtml` (a missing ext passes) |
| Formats.CleanFormats | app.py:76-89 | cleaning never lengthens the list; every output record has a non-empty url and ext other than `mhtml`; every output is the projection of a playable input and every playable input's projection is in the output |
| Formats.CleanAppend | app.py:87-88 | cleaning distributes over concatenation, so output order follows input order |
| Formats.CleanSingleton | app.py:88 | one raw record is kept, projected, exactly when its url is non-empty and its ext is not `mhtml` |
| Formats.CleanKeepsAllPlayable | api/index.py:90-92 | when every raw record is playable, nothing is dropped and position `i` of the output is the projection of input `i` |
| Formats.CleanDropsAllUnplayable | api/index.py:92 | when no raw record is playable, the cleaned list is empty |
| Formats.WithoutProtocol | api/index.py:81-89 | a record of api/index.py has no `protocol` key and otherwise matches the app.py record |
| Formats.CleanEditionsAgree | api/index.py:80-93 | both deployments keep the same records in the same order, differing only in the `protocol` key, so they agree on the format count that drives the duration |
| Manifest.Contains | app.py:184 | the substring test is true iff the pattern occurs contiguously at some index |
| Manifest.IsManifest | app.py:183-188 | the manifest condition: a truthy url and one of a `.m3u8` url, ext `m3u8`, protocol `m3u8_native` or protocol `http_dash_segments` |
| Manifest.ManifestFormats | app.py:180-189 | the view never lengthens the list; it keeps exactly the formats with a url and either a `.m3u8` url, ext `m3u8`, or protocol `m3u8_native` or `http_dash_segments` |
| Manifest.ManifestAppend | app.py:180-181 | the filter distributes over concatenation, so it keeps input order |
| Manifest.ManifestIdempotent | app.py:180-189 | filtering the view again changes nothing |
| Manifest.ManifestEmptyIff | app.py:191-192 | the view is empty exactly when no format is a manifest |
| Manifest.CleanUrlGuardRedundant | app.py:183 | on cleaned records the url guard never rejects; one of the four markers decides |
| Manifest.HlsBesideProgressive | app.py:186 | given one HLS record and one progressive record, the view is the HLS record alone |
| Service.RawFormatList | app.py:87 | a missing `formats` field reads as the empty list; a null one raises |
| Service.BuildResponse | app.py:75-96 | the miss path builds `{title, id, formats}` with the requested id, the extractor's title and the cleaned formats; it fails iff extraction raised or `formats` is null |
| Service.GetStreams | app.py:51-112 | the only error is extraction failure (500). A hit returns the stored data and writes nothing beyond the sweep. A miss stores `(now, data, duration)`. A failure stores nothing. What is answered is what the cache now serves for the id, and a failure leaves no hit. Other ids are as the sweep left them |
| Service.GetM3u8Streams | app.py:117-201 | the cache moves exactly as for the stream endpoint. Extraction failure gives 500. No manifest format gives 404, not an empty list; a non-empty view always gives a reply with the fetched title, the requested id and the non-empty manifest view |
| Service.DeleteCache | app.py:205-213 | delete succeeds iff the id is cached and removes only that id; otherwise it reports not-found and leaves the cache unchanged |
| Service.ListCache | app.py:216-228 | the listing covers exactly the post-sweep ids, with `age = now - ts`, `remaining = dur - age` and `duration_sec = dur`; remaining is positive when the sweep read the clock no earlier |
| Service.GetStreamsKeepsWellFormed | api/index.py:53-120 | the stream endpoint keeps every entry keyed by its own id, holding clean records, with the duration its count earns; a successful reply is that entry's data |
| Service.GetM3u8StreamsKeepsWellFormed | app.py:162-171 | the manifest endpoint keeps the same cache invariant |
| Service.DeleteAndListKeepWellFormed | api/index.py:123-148 | deleting and listing keep the cache invariant |
| Service.WellFormedDurations | api/index.py:141-148 | in a well-formed cache every listed `duration_sec` is 600 or 14200 |
| Service.HitIgnoresExtraction | app.py:58-62 | on a hit the extractor's outcome is never consulted |
| Service.RepeatWithinDurationHits | api/index.py:60-64 | a repeated request within the stored duration is answered from the cache with the same data |
| Service.FailureIsRetryable | app.py:110-112 | after a failed extraction, the next request with a successful extraction answers with fresh data |
| Service.DeleteTwice | api/index.py:126-132 | a second delete of the same id reports not-found and changes nothing |
| Service.DeleteThenMiss | app.py:205-209 | after a delete the id misses at any time |
| Service.RichResultScenario | app.py:98-104 | 15 playable formats earn 14200 s and the listing shows it; a request 700 s later is a hit; a request at 14201 s misses and behaves as on an empty cache |

## Left out

- HTTP routing, CORS, FastAPI's exception-to-status mapping and the detail
  texts of the errors. These are plumbing. Errors are `ApiError` values.
- `ThreadPoolExecutor` and `asyncio` off-loading. The handlers run
  concurrently, and two misses for one id may both extract. Each request is
  modelled as one atomic step.
- `YoutubeDL`/`extract_info`, the proxy and yt-dlp options, and the watch-URL
  construction. These are foreign network calls, so their outcome is the
  `Extraction` input.
- `print` logging. The sweep's removed count is still returned by
  `SweepExpired`.
- Floating-point time and the `int(...)` truncation in the listing. Time is a
  whole number of seconds, so ages and remaining times are exact integers.
  With fractional time the listing can show `remaining_sec == 0` just before
  expiry and `age_sec + remaining_sec == duration_sec - 1` (at age 10.5, say);
  `Snapshot`'s `age + remaining = duration` and `ListCache`'s positive
  remaining time hold only because time is an integer here.
- The insertion order of Python dicts. The cache and the listing are Dafny
  maps, which have no order.
- Raw records whose fields have unexpected types (a non-string url, a
  non-dict record). Their fields are typed as `Option<string>`, with `fps` as
  `Option<real>`.
- Single-stream selection: neither service file picks one best stream, so
  there is nothing of that kind to model.
