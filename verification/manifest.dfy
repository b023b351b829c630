/** The m3u8 / DASH manifest view of app.py: the cleaned formats that point at
    a streaming manifest rather than a single media file. */
module Manifest {
  import opened Wrappers
  import opened Formats

  const M3U8_SUFFIX := ".m3u8"
  const M3U8_EXT := "m3u8"
  const HLS_PROTOCOL := "m3u8_native"
  const DASH_PROTOCOL := "http_dash_segments"

  /** `sub` occurs in `s` starting at index `i`. */
  predicate OccursAt(s: string, sub: string, i: int) {
    0 <= i && i + |sub| <= |s| && s[i..i + |sub|] == sub
  }

  /** An occurrence in `s[1..]` is an occurrence in `s` one place further on. */
  lemma OccursShift(s: string, sub: string)
    requires |s| > 0
    ensures forall j :: 0 <= j ==> (OccursAt(s[1..], sub, j) <==> OccursAt(s, sub, j + 1))
  {
  }

  /** Python's `sub in s` on strings: a contiguous occurrence anywhere. */
  function Contains(s: string, sub: string): (b: bool)
    ensures b <==> exists i :: OccursAt(s, sub, i)
    decreases |s|
  {
    if |s| < |sub| then false
    else if s[..|sub|] == sub then
      assert OccursAt(s, sub, 0);
      true
    else
      var rest := Contains(s[1..], sub);
      OccursShift(s, sub);
      assert !OccursAt(s, sub, 0);
      assert rest ==> exists i :: OccursAt(s, sub, i) by {
        if rest {
          var j :| OccursAt(s[1..], sub, j);
          assert OccursAt(s, sub, j + 1);
        }
      }
      assert (exists i :: OccursAt(s, sub, i)) ==> rest by {
        if exists i :: OccursAt(s, sub, i) {
          var i :| OccursAt(s, sub, i);
          assert i != 0 && OccursAt(s[1..], sub, i - 1);
        }
      }
      rest
  }

  /** The manifest test applied to each cached format: a truthy url and one of
      an `.m3u8` url, the `m3u8` extension, or an HLS or DASH protocol. */
  predicate IsManifest(f: Format) {
    && f.url != ""
    && (|| Contains(f.url, M3U8_SUFFIX)
        || f.ext == Some(M3U8_EXT)
        || f.protocol == ProtocolKey(Some(HLS_PROTOCOL))
        || f.protocol == ProtocolKey(Some(DASH_PROTOCOL)))
  }

  /** The manifest comprehension: the manifest formats, in input order. */
  function ManifestFormats(formats: seq<Format>): (r: seq<Format>)
    ensures |r| <= |formats|
    ensures forall f :: f in r ==> f in formats && IsManifest(f)
    ensures forall f :: f in formats && IsManifest(f) ==> f in r
  {
    if |formats| == 0 then []
    else
      var rest := ManifestFormats(formats[1..]);
      assert forall f :: f in formats ==> f == formats[0] || f in formats[1..];
      if IsManifest(formats[0]) then [formats[0]] + rest else rest
  }

  /** The view is empty exactly when no format is a manifest: the case the
      endpoint reports as not found. */
  lemma ManifestEmptyIff(formats: seq<Format>)
    ensures ManifestFormats(formats) == [] <==> forall f :: f in formats ==> !IsManifest(f)
  {
  }

  /** The filter distributes over concatenation, so it keeps input order. */
  lemma {:induction false} ManifestAppend(a: seq<Format>, b: seq<Format>)
    ensures ManifestFormats(a + b) == ManifestFormats(a) + ManifestFormats(b)
  {
    if |a| == 0 {
      assert a + b == b;
    } else {
      assert (a + b)[0] == a[0];
      assert (a + b)[1..] == a[1..] + b;
      ManifestAppend(a[1..], b);
    }
  }

  /** Filtering twice is filtering once. */
  lemma {:induction false} ManifestIdempotent(formats: seq<Format>)
    ensures ManifestFormats(ManifestFormats(formats)) == ManifestFormats(formats)
  {
    if |formats| > 0 {
      ManifestIdempotent(formats[1..]);
      var rest := ManifestFormats(formats[1..]);
      if IsManifest(formats[0]) {
        assert ([formats[0]] + rest)[0] == formats[0];
        assert ([formats[0]] + rest)[1..] == rest;
      }
    }
  }

  /** On cleaned records the url guard never rejects anything: the record is a
      manifest exactly when one of the four manifest markers is present. */
  lemma CleanUrlGuardRedundant(f: Format, edition: Edition)
    requires IsClean(f, edition)
    ensures IsManifest(f) <==>
      (|| Contains(f.url, M3U8_SUFFIX)
       || f.ext == Some(M3U8_EXT)
       || f.protocol == ProtocolKey(Some(HLS_PROTOCOL))
       || f.protocol == ProtocolKey(Some(DASH_PROTOCOL)))
  {
  }

  /** An HLS record next to a progressive one: the view is the HLS record alone. */
  lemma HlsBesideProgressive(hls: Format, progressive: Format)
    requires hls.url != "" && hls.protocol == ProtocolKey(Some(HLS_PROTOCOL))
    requires !Contains(progressive.url, M3U8_SUFFIX) && progressive.ext != Some(M3U8_EXT)
    requires progressive.protocol == ProtocolKey(Some("https"))
    ensures ManifestFormats([hls, progressive]) == [hls]
  {
  }
}
