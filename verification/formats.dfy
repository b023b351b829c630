/** Format records and the cleaning step shared by both services.

    The extractor returns loosely typed dictionaries; every field the services
    read is modelled as an `Option`, `None` standing for both a missing key and
    an explicit `None` value (the services read them with `dict.get`, which
    does not tell the two apart). */
module Formats {
  import opened Wrappers

  /** One raw format record as reported by the extractor. */
  datatype RawFormat = RawFormat(
    formatId: Option<string>,
    ext: Option<string>,
    resolution: Option<string>,
    fps: Option<real>,
    acodec: Option<string>,
    vcodec: Option<string>,
    url: Option<string>,
    protocol: Option<string>)

  /** Whether a cleaned record carries a `protocol` key at all (app.py does,
      api/index.py does not), and if so the value it carries. */
  datatype ProtocolField = NoProtocolKey | ProtocolKey(protocol: Option<string>)

  /** A cleaned record, as stored in the cache and returned to clients.
      `url` is a plain string: cleaning only admits records whose url is set
      and non-empty. */
  datatype Format = Format(
    itag: Option<string>,
    ext: Option<string>,
    resolution: Option<string>,
    fps: Option<real>,
    acodec: Option<string>,
    vcodec: Option<string>,
    url: string,
    protocol: ProtocolField)

  /** The two deployments of the service. They differ only in whether the
      cleaned record keeps the `protocol` key. */
  datatype Edition = App | ApiIndex {
    predicate KeepsProtocol() {
      App?
    }
  }

  /** The payload of `/stream/{video_id}`: title, requested id, cleaned formats. */
  datatype StreamInfo = StreamInfo(title: Option<string>, id: string, formats: seq<Format>)

  /** The container tag of thumbnail storyboards, which are never playable. */
  const STORYBOARD_EXT := "mhtml"

  /** The cleaning filter: the url is truthy (present and non-empty) and the
      extension is not the storyboard one. A missing extension passes. */
  predicate Playable(raw: RawFormat) {
    && raw.url.Some?
    && raw.url.value != ""
    && raw.ext != Some(STORYBOARD_EXT)
  }

  /** The projection of a playable raw record onto the fields the service keeps. */
  function Project(raw: RawFormat, edition: Edition): (f: Format)
    requires Playable(raw)
    ensures f.url == raw.url.value && f.ext == raw.ext && f.itag == raw.formatId
    ensures f.resolution == raw.resolution && f.fps == raw.fps
    ensures f.acodec == raw.acodec && f.vcodec == raw.vcodec
    ensures edition.KeepsProtocol() ==> f.protocol == ProtocolKey(raw.protocol)
    ensures !edition.KeepsProtocol() ==> f.protocol == NoProtocolKey
  {
    Format(
      raw.formatId, raw.ext, raw.resolution, raw.fps, raw.acodec, raw.vcodec,
      raw.url.value,
      if edition.KeepsProtocol() then ProtocolKey(raw.protocol) else NoProtocolKey)
  }

  /** What every record leaving the cleaning step satisfies. */
  predicate IsClean(f: Format, edition: Edition) {
    && f.url != ""
    && f.ext != Some(STORYBOARD_EXT)
    && (f.protocol.ProtocolKey? <==> edition.KeepsProtocol())
  }

  /** The cleaning comprehension: one projected record per playable raw
      record, in input order. */
  function CleanFormats(raws: seq<RawFormat>, edition: Edition): (r: seq<Format>)
    ensures |r| <= |raws|
    ensures forall f :: f in r ==> IsClean(f, edition)
    ensures forall f :: f in r ==> exists raw :: raw in raws && Playable(raw) && f == Project(raw, edition)
    ensures forall raw :: raw in raws && Playable(raw) ==> Project(raw, edition) in r
  {
    if |raws| == 0 then []
    else
      var rest := CleanFormats(raws[1..], edition);
      assert forall raw :: raw in raws ==> raw == raws[0] || raw in raws[1..];
      if Playable(raws[0]) then [Project(raws[0], edition)] + rest else rest
  }

  /** Cleaning distributes over concatenation, so each output record sits in
      the same relative order as the raw record it came from. */
  lemma {:induction false} CleanAppend(a: seq<RawFormat>, b: seq<RawFormat>, edition: Edition)
    ensures CleanFormats(a + b, edition) == CleanFormats(a, edition) + CleanFormats(b, edition)
  {
    if |a| == 0 {
      assert a + b == b;
    } else {
      assert (a + b)[0] == a[0];
      assert (a + b)[1..] == a[1..] + b;
      CleanAppend(a[1..], b, edition);
    }
  }

  /** A single record is kept, projected, exactly when it is playable. */
  lemma CleanSingleton(raw: RawFormat, edition: Edition)
    ensures Playable(raw) ==> CleanFormats([raw], edition) == [Project(raw, edition)]
    ensures !Playable(raw) ==> CleanFormats([raw], edition) == []
  {
  }

  /** When every raw record is playable, nothing is dropped: the output is the
      input projected position by position. */
  lemma {:induction false} CleanKeepsAllPlayable(raws: seq<RawFormat>, edition: Edition)
    requires forall i :: 0 <= i < |raws| ==> Playable(raws[i])
    ensures |CleanFormats(raws, edition)| == |raws|
    ensures forall i :: 0 <= i < |raws| ==> CleanFormats(raws, edition)[i] == Project(raws[i], edition)
  {
    if |raws| > 0 {
      CleanKeepsAllPlayable(raws[1..], edition);
    }
  }

  /** When no raw record is playable, the cleaned list is empty. */
  lemma {:induction false} CleanDropsAllUnplayable(raws: seq<RawFormat>, edition: Edition)
    requires forall i :: 0 <= i < |raws| ==> !Playable(raws[i])
    ensures CleanFormats(raws, edition) == []
  {
    if |raws| > 0 {
      CleanDropsAllUnplayable(raws[1..], edition);
    }
  }

  /** A cleaned record with the `protocol` key dropped, as api/index.py builds it. */
  function WithoutProtocol(f: Format): (g: Format)
    ensures g.protocol == NoProtocolKey
    ensures g.(protocol := f.protocol) == f
  {
    f.(protocol := NoProtocolKey)
  }

  /** The two deployments clean the same records, in the same order, and
      differ only in the `protocol` key; in particular they agree on the
      format count that drives the cache duration. */
  lemma {:induction false} CleanEditionsAgree(raws: seq<RawFormat>)
    ensures |CleanFormats(raws, App)| == |CleanFormats(raws, ApiIndex)|
    ensures forall i :: 0 <= i < |CleanFormats(raws, App)| ==>
      WithoutProtocol(CleanFormats(raws, App)[i]) == CleanFormats(raws, ApiIndex)[i]
  {
    if |raws| > 0 {
      var restA, restB := CleanFormats(raws[1..], App), CleanFormats(raws[1..], ApiIndex);
      CleanEditionsAgree(raws[1..]);
      if Playable(raws[0]) {
        var a, b := CleanFormats(raws, App), CleanFormats(raws, ApiIndex);
        assert a == [Project(raws[0], App)] + restA;
        assert b == [Project(raws[0], ApiIndex)] + restB;
        forall i | 0 <= i < |a|
          ensures WithoutProtocol(a[i]) == b[i]
        {
          if i > 0 {
            assert a[i] == restA[i - 1] && b[i] == restB[i - 1];
          }
        }
      }
    }
  }
}
