/** Subtitle tracks: which tracks of a sources answer become subtitles, and
    Kotlin's `distinctBy { it.url }` on the collected list. */
module Subtitles {
  import opened Wrappers
  import opened Text
  import opened Media

  /** A track entry of the sources answer; `file` and `label` (here `trackLabel`) may be null. */
  datatype TrackItem = TrackItem(file: Option<string>, kind: string, trackLabel: Option<string>)

  /** `it.kind == "captions" && !it.file.isNullOrEmpty() && it.file.endsWith(".vtt")`. */
  predicate IsCaption(t: TrackItem) {
    t.kind == "captions" && t.file.Some? && t.file.value != [] && EndsWith(t.file.value, ".vtt")
  }

  /** `Track(track.file, track.label ?: "Subtitle")`. */
  function ToTrack(t: TrackItem): Track
    requires t.file.Some?
  {
    Track(t.file.value, t.trackLabel.GetOr("Subtitle"))
  }

  /** The caption tracks of a sources answer, in order: never more than the
      entries, each on a non-empty ".vtt" URL. */
  function CaptionTracks(items: seq<TrackItem>): (r: seq<Track>)
    ensures |r| <= |items|
    ensures forall i :: 0 <= i < |r| ==> r[i].url != [] && EndsWith(r[i].url, ".vtt")
  {
    if items == [] then []
    else
      var last := items[|items| - 1];
      CaptionTracks(items[..|items| - 1]) + (if IsCaption(last) then [ToTrack(last)] else [])
  }

  /** Exactly the caption entries become tracks, each with its label or
      "Subtitle". */
  lemma {:induction false} CaptionTracksMembers(items: seq<TrackItem>, t: Track)
    ensures t in CaptionTracks(items) <==> exists i :: 0 <= i < |items| && IsCaption(items[i]) && ToTrack(items[i]) == t
  {
    if items != [] {
      var init := items[..|items| - 1];
      var last := items[|items| - 1];
      var tail := if IsCaption(last) then [ToTrack(last)] else [];
      assert CaptionTracks(items) == CaptionTracks(init) + tail;
      CaptionTracksMembers(init, t);
      if t in CaptionTracks(init) {
        var i :| 0 <= i < |init| && IsCaption(init[i]) && ToTrack(init[i]) == t;
        assert items[i] == init[i];
      } else if t in tail {
        assert IsCaption(items[|items| - 1]) && ToTrack(items[|items| - 1]) == t;
      } else {
        forall i | 0 <= i < |items| && IsCaption(items[i])
          ensures ToTrack(items[i]) != t
        {
          if i < |init| {
            assert init[i] == items[i];
          }
        }
      }
    }
  }

  predicate HasUrl(ts: seq<Track>, u: string) {
    exists i :: 0 <= i < |ts| && ts[i].url == u
  }

  /** `distinctBy { it.url }`: keeps a track when no track kept before it
      has its URL. */
  function DistinctByUrl(ts: seq<Track>): (r: seq<Track>)
    ensures |r| <= |ts|
    ensures forall i :: 0 <= i < |r| ==> r[i] in ts
  {
    if ts == [] then []
    else
      var kept := DistinctByUrl(ts[..|ts| - 1]);
      var t := ts[|ts| - 1];
      if HasUrl(kept, t.url) then kept else kept + [t]
  }

  /** The reference meaning: a track is kept exactly when it is the first of
      the list with its URL. */
  function FirstOfEachUrl(ts: seq<Track>): seq<Track> {
    if ts == [] then []
    else
      var init := ts[..|ts| - 1];
      FirstOfEachUrl(init) + (if HasUrl(init, ts[|ts| - 1].url) then [] else [ts[|ts| - 1]])
  }

  predicate NoDuplicateUrls(ts: seq<Track>) {
    forall i, j :: 0 <= i < j < |ts| ==> ts[i].url != ts[j].url
  }

  /** Deduplication keeps exactly the URLs of the input. */
  lemma {:induction false} DistinctSameUrls(ts: seq<Track>, u: string)
    ensures HasUrl(DistinctByUrl(ts), u) <==> HasUrl(ts, u)
  {
    if ts != [] {
      var init := ts[..|ts| - 1];
      var kept := DistinctByUrl(init);
      DistinctSameUrls(init, u);
      DistinctSameUrls(init, ts[|ts| - 1].url);
      if HasUrl(init, u) {
        var i :| 0 <= i < |init| && init[i].url == u;
        assert ts[i].url == u;
      }
      if HasUrl(kept, u) {
        var i :| 0 <= i < |kept| && kept[i].url == u;
        assert (kept + [ts[|ts| - 1]])[i].url == u;
      }
      if HasUrl(ts, u) && !HasUrl(init, u) {
        assert ts[|ts| - 1].url == u;
      }
      if !HasUrl(kept, ts[|ts| - 1].url) {
        assert (kept + [ts[|ts| - 1]])[|kept|].url == ts[|ts| - 1].url;
        forall i | 0 <= i < |kept| ensures (kept + [ts[|ts| - 1]])[i] == kept[i] {
        }
      }
    }
  }

  /** Deduplication is the first-occurrence filter. */
  lemma {:induction false} DistinctIsFirstOfEachUrl(ts: seq<Track>)
    ensures DistinctByUrl(ts) == FirstOfEachUrl(ts)
  {
    if ts != [] {
      DistinctIsFirstOfEachUrl(ts[..|ts| - 1]);
      DistinctSameUrls(ts[..|ts| - 1], ts[|ts| - 1].url);
    }
  }

  /** No URL appears twice after deduplication. */
  lemma {:induction false} DistinctHasNoDuplicates(ts: seq<Track>)
    ensures NoDuplicateUrls(DistinctByUrl(ts))
  {
    if ts != [] {
      var kept := DistinctByUrl(ts[..|ts| - 1]);
      DistinctHasNoDuplicates(ts[..|ts| - 1]);
      var t := ts[|ts| - 1];
      if !HasUrl(kept, t.url) {
        var r := kept + [t];
        forall i, j | 0 <= i < j < |r| ensures r[i].url != r[j].url {
          if j == |kept| {
            assert r[i] == kept[i];
          }
        }
      }
    }
  }

  /** A list without duplicate URLs is left as it is. */
  lemma {:induction false} DistinctOfDistinct(ts: seq<Track>)
    requires NoDuplicateUrls(ts)
    ensures DistinctByUrl(ts) == ts
  {
    if ts != [] {
      var init := ts[..|ts| - 1];
      var t := ts[|ts| - 1];
      forall i, j | 0 <= i < j < |init| ensures init[i].url != init[j].url {
        assert init[i] == ts[i] && init[j] == ts[j];
      }
      DistinctOfDistinct(init);
      forall i | 0 <= i < |init| ensures init[i].url != t.url {
        assert init[i] == ts[i];
      }
      assert !HasUrl(init, t.url);
      assert DistinctByUrl(ts) == init + [t];
      assert init + [t] == ts;
    }
  }

  /** Deduplicating twice is deduplicating once. */
  lemma DistinctIdempotent(ts: seq<Track>)
    ensures DistinctByUrl(DistinctByUrl(ts)) == DistinctByUrl(ts)
  {
    DistinctHasNoDuplicates(ts);
    DistinctOfDistinct(DistinctByUrl(ts));
  }
}
