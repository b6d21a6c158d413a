/** `videosFromHlsUrl` (HiAnime.kt:256-324): expands an HLS master playlist
    into one video per variant stream.

    The playlist is scanned line by line. A line starting with
    `#EXT-X-STREAM-INF:` (section 4.3.4.2 of RFC 8216) yields a variant when
    the next line exists, does not start with '#' once trimmed, and resolves
    against the master's base URL. Its label is "<prefix> - <quality>", the
    quality taken from the RESOLUTION attribute, else from a BANDWIDTH
    threshold table, else "Quality N". The attributes are read with plain
    substring operations, not with an attribute-list parser. With no variant
    found, the master URL itself is the one entry, labelled "<prefix> -
    Default". The list is finally sorted, stably and in descending order, on
    the integer before the first 'p' of the whole label. Every label starts
    with the same prefix, so that key is the same for all of them and the sort
    never changes the order (HlsKeepsPlaylistOrder). */
module Playlist {
  import opened Wrappers
  import opened Text
  import opened Numbers
  import opened Media
  import StableSort

  const STREAM_INF: string := "#EXT-X-STREAM-INF:"

  /** Resolution of a (relative or absolute) reference against a base URL,
      as OkHttp's `HttpUrl.resolve` does it (section 5.2 of RFC 3986); None
      when the reference cannot be resolved. Left uninterpreted. */
  type Resolver = (HttpUrl, string) -> Option<string>

  datatype HlsError = PlaylistUnreachable | InvalidMasterUrl

  /** The base URL variants are resolved against: the master URL with its last
      path segment removed when that segment contains a '.'. OkHttp's
      `removePathSegment` leaves one empty segment when it removes the only one. */
  function MasterBase(u: HttpUrl): (r: HttpUrl)
    ensures r.origin == u.origin && r.query == u.query && r.fragment == u.fragment
    ensures |u.segments| > 0 ==> |r.segments| > 0
    ensures (|u.segments| == 0 || '.' !in u.segments[|u.segments| - 1]) ==> r == u
    ensures |u.segments| > 1 && '.' in u.segments[|u.segments| - 1] ==> r.segments == u.segments[..|u.segments| - 1]
    ensures |u.segments| == 1 && '.' in u.segments[0] ==> r.segments == [""]
  {
    var segs := u.segments;
    if |segs| > 0 && '.' in segs[|segs| - 1] then
      u.(segments := if |segs| == 1 then [""] else segs[..|segs| - 1])
    else u
  }

  /** `line.substringAfter("NAME=", "").substringBefore(",").ifBlank { null }`. */
  function Attribute(line: string, name: string): (r: Option<string>)
    ensures r.Some? ==> !IsBlank(r.value) && ',' !in r.value
  {
    var v := SubstringBefore(SubstringAfter(line, name + "=", ""), ",");
    SubstringBeforeExcludes(SubstringAfter(line, name + "=", ""), ',');
    if IsBlank(v) then None else Some(v)
  }

  /** The bandwidth table: bits per second to a nominal height. */
  function BandwidthLabel(bw: int): string {
    if bw >= 1500000 then "1080p"
    else if bw >= 800000 then "720p"
    else if bw >= 350000 then "480p"
    else "360p"
  }

  /** "Quality N", N being one more than the number of variants emitted. */
  function PositionalLabel(emitted: nat): string {
    "Quality " + NatToString(emitted + 1)
  }

  /** The two attributes a stream-info line is read for. */
  datatype StreamInf = StreamInf(resolution: Option<string>, bandwidth: Option<string>)

  function ReadStreamInf(line: string): StreamInf {
    StreamInf(Attribute(line, "RESOLUTION"), Attribute(line, "BANDWIDTH"))
  }

  /** The quality part of a variant's label: the height after the 'x' of the
      resolution, else the bandwidth's row in the table, else positional. */
  function QualityLabel(info: StreamInf, emitted: nat): (r: string)
    ensures EndsWith(r, "p") || StartsWith(r, "Quality ")
  {
    match info.resolution
    case Some(resolution) => Trim(SubstringAfter(resolution, "x", "")) + "p"
    case None =>
      match info.bandwidth
      case Some(bandwidth) =>
        (match ParseLong(bandwidth)
         case Some(bw) => BandwidthLabel(bw)
         case None => PositionalLabel(emitted))
      case None => PositionalLabel(emitted)
  }

  predicate IsStreamInf(line: string) {
    StartsWith(line, STREAM_INF)
  }

  /** The trimmed line after line `i`, unless there is none or it starts with '#'. */
  function UriLine(lines: seq<string>, i: nat): Option<string>
    requires i < |lines|
  {
    if i + 1 < |lines| && !StartsWith(Trim(lines[i + 1]), "#") then Some(Trim(lines[i + 1])) else None
  }

  /** The URL of the variant that line `i` yields, if it yields one. */
  function VariantUrl(lines: seq<string>, i: nat, base: HttpUrl, resolve: Resolver): Option<string>
    requires i < |lines|
  {
    if IsStreamInf(lines[i]) && UriLine(lines, i).Some? then resolve(base, UriLine(lines, i).value) else None
  }

  /** For each line of the playlist, the URL of the variant it yields, if any. */
  function LineUrls(lines: seq<string>, base: HttpUrl, resolve: Resolver): (urls: seq<Option<string>>)
    ensures |urls| == |lines|
    ensures forall i :: 0 <= i < |lines| ==> urls[i] == VariantUrl(lines, i, base, resolve)
  {
    seq(|lines|, i requires 0 <= i < |lines| => VariantUrl(lines, i, base, resolve))
  }

  /** The attributes each line is read for (used on stream-info lines only). */
  function LineInfos(lines: seq<string>): (infos: seq<StreamInf>)
    ensures |infos| == |lines|
    ensures forall i :: 0 <= i < |lines| ==> infos[i] == ReadStreamInf(lines[i])
  {
    seq(|lines|, i requires 0 <= i < |lines| => ReadStreamInf(lines[i]))
  }

  /** The video that line `i` yields when `emitted` videos came before it. */
  function Variant(infos: seq<StreamInf>, urls: seq<Option<string>>, i: nat, emitted: nat, prefix: string): Video
    requires i < |infos| == |urls| && urls[i].Some?
  {
    Video(urls[i].value, prefix + " - " + QualityLabel(infos[i], emitted), urls[i].value, [])
  }

  /** The videos emitted by the scan of the first `k` lines, `urls` giving the
      variant URL of each line. */
  function Emitted(infos: seq<StreamInf>, urls: seq<Option<string>>, k: nat, prefix: string): seq<Video>
    requires k <= |infos| == |urls|
  {
    if k == 0 then []
    else
      var acc := Emitted(infos, urls, k - 1, prefix);
      if urls[k - 1].Some? then acc + [Variant(infos, urls, k - 1, |acc|, prefix)] else acc
  }

  /** The indices, below `k`, of the lines that yield a variant. */
  function Accepted(urls: seq<Option<string>>, k: nat): seq<nat>
    requires k <= |urls|
  {
    if k == 0 then [] else Accepted(urls, k - 1) + (if urls[k - 1].Some? then [k - 1] else [])
  }

  function DefaultVideo(master: string, prefix: string): Video {
    Video(master, prefix + " - " + "Default", master, [])
  }

  /** `it.quality.substringBefore("p").toIntOrNull() ?: 0`. */
  function SortKey(v: Video): (r: int)
    ensures INT_MIN <= r <= INT_MAX
  {
    ParseInt(SubstringBefore(v.quality, "p")).GetOr(0)
  }

  /** The list before sorting: the variants found, or the master alone. */
  function Found(text: string, master: string, prefix: string, base: HttpUrl, resolve: Resolver): seq<Video> {
    var lines := Lines(text);
    var emitted := Emitted(LineInfos(lines), LineUrls(lines, base, resolve), |lines|, prefix);
    if emitted == [] then [DefaultVideo(master, prefix)] else emitted
  }

  /** What `videosFromHlsUrl(master, prefix, headers)` returns or throws, given
      the outcome of fetching the playlist and of parsing the master URL. The
      response status is not checked: any body is scanned. */
  function HlsVideos(fetch: Fetch<string>, master: string, masterUrl: Option<HttpUrl>, prefix: string, resolve: Resolver)
    : (r: Result<seq<Video>, HlsError>)
    ensures r.Failure? <==> fetch.NetworkError? || masterUrl.None?
    ensures r.Success? ==>
              && |r.value| >= 1
              && multiset(r.value) == multiset(Found(fetch.value, master, prefix, MasterBase(masterUrl.value), resolve))
  {
    match fetch
    case NetworkError => Failure(PlaylistUnreachable)
    case Body(text) =>
      if masterUrl.None? then Failure(InvalidMasterUrl)
      else
        var found := Found(text, master, prefix, MasterBase(masterUrl.value), resolve);
        StableSort.SortDescIsPermutation(found, SortKey);
        assert found[0] in multiset(found);
        Success(StableSort.SortDesc(found, SortKey))
  }

  /** `videosFromHlsUrl` as the source runs it: the fetch, the base URL, the
      scan, the fallback, then the in-place sort. */
  method VideosFromHlsUrl(fetch: Fetch<string>, master: string, masterUrl: Option<HttpUrl>, prefix: string, resolve: Resolver)
    returns (r: Result<seq<Video>, HlsError>)
    ensures r == HlsVideos(fetch, master, masterUrl, prefix, resolve)
  {
    if fetch.NetworkError? {
      return Failure(PlaylistUnreachable);
    }
    var masterPlaylist := fetch.value;
    if masterUrl.None? {
      return Failure(InvalidMasterUrl);
    }
    var masterBase := MasterBase(masterUrl.value);
    var lines := Lines(masterPlaylist);
    var videoList := ScanPlaylist(lines, masterBase, prefix, resolve);
    if videoList == [] {
      videoList := [DefaultVideo(master, prefix)];
    }
    videoList := StableSort.SortDesc(videoList, SortKey);
    return Success(videoList);
  }

  /** What the body of the `forEachIndexed` loop adds for line `i`, when
      `emitted` videos are already in the list. */
  function LineVideo(lines: seq<string>, i: nat, emitted: nat, prefix: string, base: HttpUrl, resolve: Resolver): Option<Video>
    requires i < |lines|
  {
    var url := VariantUrl(lines, i, base, resolve);
    if url.Some? then Some(Video(url.value, prefix + " - " + QualityLabel(ReadStreamInf(lines[i]), emitted), url.value, []))
    else None
  }

  /** `videoList.add(v)` when there is a `v`. */
  function AddIfPresent(videos: seq<Video>, v: Option<Video>): seq<Video> {
    if v.Some? then videos + [v.value] else videos
  }

  /** The video line `k` yields after `emitted` others, stated on the
      per-line URLs and attributes. */
  function Step(infos: seq<StreamInf>, urls: seq<Option<string>>, k: nat, emitted: nat, prefix: string): Option<Video>
    requires k < |infos| == |urls|
  {
    if urls[k].Some? then Some(Variant(infos, urls, k, emitted, prefix)) else None
  }

  /** The rest of the scan from line `k`, with `acc` already collected. */
  function ScanFrom(infos: seq<StreamInf>, urls: seq<Option<string>>, k: nat, acc: seq<Video>, prefix: string): seq<Video>
    requires k <= |infos| == |urls|
    decreases |urls| - k
  {
    if k == |urls| then acc
    else ScanFrom(infos, urls, k + 1, AddIfPresent(acc, Step(infos, urls, k, |acc|, prefix)), prefix)
  }

  /** The `forEachIndexed` loop over the playlist's lines: it collects the
      videos of the fold `Emitted`. */
  method ScanPlaylist(lines: seq<string>, masterBase: HttpUrl, prefix: string, resolve: Resolver) returns (videoList: seq<Video>)
    ensures videoList == Emitted(LineInfos(lines), LineUrls(lines, masterBase, resolve), |lines|, prefix)
  {
    ghost var infos := LineInfos(lines);
    ghost var urls := LineUrls(lines, masterBase, resolve);
    assert |infos| == |urls| == |lines|;
    videoList := [];
    var index := 0;
    while index < |lines|
      invariant 0 <= index <= |lines|
      invariant ScanFrom(infos, urls, index, videoList, prefix) == ScanFrom(infos, urls, 0, [], prefix)
    {
      var video := ScanLine(lines, index, |videoList|, prefix, masterBase, resolve);
      ScanFromStep(infos, urls, index, videoList, video, prefix);
      videoList := AddIfPresent(videoList, video);
      index := index + 1;
    }
    assert ScanFrom(infos, urls, index, videoList, prefix) == videoList;
    assert Emitted(infos, urls, 0, prefix) == [];
    ScanIsEmitted(infos, urls, 0, prefix);
  }

  /** One iteration of the loop leaves the rest of the scan unchanged. */
  lemma ScanFromStep(infos: seq<StreamInf>, urls: seq<Option<string>>, k: nat, acc: seq<Video>, v: Option<Video>, prefix: string)
    requires k < |infos| == |urls| && v == Step(infos, urls, k, |acc|, prefix)
    ensures ScanFrom(infos, urls, k + 1, AddIfPresent(acc, v), prefix) == ScanFrom(infos, urls, k, acc, prefix)
  {
  }

  /** The body of the `forEachIndexed` loop for line `index`: the video it
      adds, if any, after `emitted` videos. */
  method ScanLine(lines: seq<string>, index: nat, emitted: nat, prefix: string, masterBase: HttpUrl, resolve: Resolver)
    returns (video: Option<Video>)
    requires index < |lines|
    ensures video == Step(LineInfos(lines), LineUrls(lines, masterBase, resolve), index, emitted, prefix)
  {
    video := LineVideo(lines, index, emitted, prefix, masterBase, resolve);
    LineVideoIsStep(lines, index, emitted, prefix, masterBase, resolve);
  }

  /** Scanning on from line `k` with the videos of the first `k` lines gives
      the videos of all lines. */
  lemma {:induction false} ScanIsEmitted(infos: seq<StreamInf>, urls: seq<Option<string>>, k: nat, prefix: string)
    requires k <= |infos| == |urls|
    decreases |urls| - k
    ensures ScanFrom(infos, urls, k, Emitted(infos, urls, k, prefix), prefix) == Emitted(infos, urls, |urls|, prefix)
  {
    if k < |urls| {
      EmittedStep(infos, urls, k, prefix);
      ScanIsEmitted(infos, urls, k + 1, prefix);
    }
  }

  lemma EmittedStep(infos: seq<StreamInf>, urls: seq<Option<string>>, k: nat, prefix: string)
    requires k < |infos| == |urls|
    ensures Emitted(infos, urls, k + 1, prefix) == AddIfPresent(Emitted(infos, urls, k, prefix), Step(infos, urls, k, |Emitted(infos, urls, k, prefix)|, prefix))
  {
  }

  lemma LineVideoIsStep(lines: seq<string>, k: nat, n: nat, prefix: string, base: HttpUrl, resolve: Resolver)
    requires k < |lines|
    ensures LineVideo(lines, k, n, prefix, base, resolve) == Step(LineInfos(lines), LineUrls(lines, base, resolve), k, n, prefix)
  {
  }

  /** The accepted lines are listed in increasing order, and every line below
      `k` that yields a variant is listed. */
  lemma {:induction false} AcceptedInOrder(urls: seq<Option<string>>, k: nat)
    requires k <= |urls|
    ensures forall j :: 0 <= j < |Accepted(urls, k)| ==> Accepted(urls, k)[j] < k && urls[Accepted(urls, k)[j]].Some?
    ensures forall i, j :: 0 <= i < j < |Accepted(urls, k)| ==> Accepted(urls, k)[i] < Accepted(urls, k)[j]
    ensures forall i :: 0 <= i < k && urls[i].Some? ==> i in Accepted(urls, k)
  {
    if k > 0 {
      AcceptedInOrder(urls, k - 1);
      var a' := Accepted(urls, k - 1);
      if urls[k - 1].Some? {
        assert Accepted(urls, k) == a' + [k - 1];
      } else {
        assert Accepted(urls, k) == a';
      }
    }
  }

  /** One video per accepted line. */
  lemma {:induction false} EmittedLength(infos: seq<StreamInf>, urls: seq<Option<string>>, k: nat, prefix: string)
    requires k <= |infos| == |urls|
    ensures |Emitted(infos, urls, k, prefix)| == |Accepted(urls, k)|
  {
    if k > 0 {
      EmittedLength(infos, urls, k - 1, prefix);
    }
  }

  /** The j-th video comes from the j-th accepted line, labelled with j
      variants before it. */
  lemma {:induction false} EmittedAt(infos: seq<StreamInf>, urls: seq<Option<string>>, k: nat, prefix: string, j: nat)
    requires k <= |infos| == |urls|
    requires j < |Accepted(urls, k)|
    ensures Accepted(urls, k)[j] < k && urls[Accepted(urls, k)[j]].Some?
    ensures j < |Emitted(infos, urls, k, prefix)|
    ensures Emitted(infos, urls, k, prefix)[j] == Variant(infos, urls, Accepted(urls, k)[j], j, prefix)
  {
    assert k > 0;
    var a := Accepted(urls, k - 1);
    var acc := Emitted(infos, urls, k - 1, prefix);
    EmittedLength(infos, urls, k - 1, prefix);
    if urls[k - 1].Some? {
      var v := Variant(infos, urls, k - 1, |acc|, prefix);
      assert Accepted(urls, k) == a + [k - 1];
      assert Emitted(infos, urls, k, prefix) == acc + [v];
      if j < |a| {
        EmittedAt(infos, urls, k - 1, prefix, j);
        assert Accepted(urls, k)[j] == a[j];
        assert Emitted(infos, urls, k, prefix)[j] == acc[j];
      } else {
        assert Accepted(urls, k)[j] == k - 1;
        assert Emitted(infos, urls, k, prefix)[j] == v;
      }
    } else {
      assert Accepted(urls, k) == a;
      assert Emitted(infos, urls, k, prefix) == acc;
      EmittedAt(infos, urls, k - 1, prefix, j);
    }
  }

  /** What the scan of a whole playlist emits, video by video: the j-th video
      comes from the j-th accepted line `i`, a stream-info line followed by a
      line that, trimmed, is no tag or comment and resolves to the video's URL;
      the label is the prefix and the quality read from line `i`, counting j
      videos before it. */
  lemma ScannedVideo(lines: seq<string>, base: HttpUrl, resolve: Resolver, prefix: string, j: nat)
    requires j < |Accepted(LineUrls(lines, base, resolve), |lines|)|
    ensures var urls := LineUrls(lines, base, resolve);
            var i := Accepted(urls, |lines|)[j];
            var e := Emitted(LineInfos(lines), urls, |lines|, prefix);
            && i + 1 < |lines| && j < |e|
            && IsStreamInf(lines[i])
            && !StartsWith(Trim(lines[i + 1]), "#")
            && resolve(base, Trim(lines[i + 1])) == Some(e[j].url)
            && e[j] == Video(e[j].url, prefix + " - " + QualityLabel(ReadStreamInf(lines[i]), j), e[j].url, [])
  {
    EmittedAt(LineInfos(lines), LineUrls(lines, base, resolve), |lines|, prefix, j);
  }

  /** Conversely, a stream-info line followed by a line that, trimmed, is no
      tag or comment and resolves, is accepted. */
  lemma ScannedLine(lines: seq<string>, base: HttpUrl, resolve: Resolver, i: nat)
    requires i + 1 < |lines| && IsStreamInf(lines[i])
    requires !StartsWith(Trim(lines[i + 1]), "#") && resolve(base, Trim(lines[i + 1])).Some?
    ensures i in Accepted(LineUrls(lines, base, resolve), |lines|)
  {
    AcceptedInOrder(LineUrls(lines, base, resolve), |lines|);
  }

  /** A reachable playlist at a parsable URL never yields an empty list, and
      when no line yields a variant the master alone is returned. */
  lemma HlsNeverEmpty(fetch: Fetch<string>, master: string, masterUrl: Option<HttpUrl>, prefix: string, resolve: Resolver)
    ensures fetch.Body? && masterUrl.Some? &&
            Accepted(LineUrls(Lines(fetch.value), MasterBase(masterUrl.value), resolve), |Lines(fetch.value)|) == [] ==>
              HlsVideos(fetch, master, masterUrl, prefix, resolve) == Success([DefaultVideo(master, prefix)])
  {
    if fetch.Body? && masterUrl.Some? {
      var lines := Lines(fetch.value);
      var base := MasterBase(masterUrl.value);
      EmittedLength(LineInfos(lines), LineUrls(lines, base, resolve), |lines|, prefix);
    }
  }


  /** `substringAfter(NAME=)` then `substringBefore(",")`: an attribute's value
      is what follows the FIRST occurrence of "NAME=", up to the next comma. */
  lemma AttributeValue(line: string, name: string, pre: string, v: string, rest: string)
    requires line == pre + name + "=" + v + rest
    requires forall j :: 0 <= j < |pre| ==> !IsAt(line, name + "=", j)
    requires ',' !in v && !IsBlank(v) && (rest == [] || rest[0] == ',')
    ensures Attribute(line, name) == Some(v)
  {
    var key := name + "=";
    assert line == pre + key + (v + rest);
    assert line[|pre|..|pre| + |key|] == key;
    FirstOccurrence(line, key, |pre|);
    var after := SubstringAfter(line, key, "");
    assert line == line[..|pre|] + key + after;
    assert |after| == |v + rest|;
    assert after == line[|pre| + |key|..] == v + rest;
    forall j | 0 <= j < |v| ensures !IsAt(after, ",", j) {
      CharAt(after, ',', j);
    }
    if rest == [] {
      forall j | 0 <= j <= |after| ensures !IsAt(after, ",", j) {
        CharAt(after, ',', j);
      }
      NoOccurrence(after, ",");
      assert after == v;
    } else {
      CharAt(after, ',', |v|);
      FirstOccurrence(after, ",", |v|);
      assert SubstringBefore(after, ",") == after[..|v|] == v;
    }
  }

  /** "BANDWIDTH=" also matches inside "AVERAGE-BANDWIDTH=": on a line where
      the average comes first, its value is read as the bandwidth. */
  lemma AverageBandwidthReadAsBandwidth(line: string, pre: string, v: string, rest: string)
    requires line == pre + "AVERAGE-BANDWIDTH=" + v + rest
    requires forall j :: 0 <= j < |pre| ==> !IsAt(line, "BANDWIDTH=", j)
    requires ',' !in v && !IsBlank(v) && (rest == [] || rest[0] == ',')
    ensures Attribute(line, "BANDWIDTH") == Some(v)
  {
    var pre' := pre + "AVERAGE-";
    var key := "BANDWIDTH" + "=";
    assert key == "BANDWIDTH=";
    assert line == pre' + "BANDWIDTH" + "=" + v + rest;
    forall j | 0 <= j < |pre'| ensures !IsAt(line, key, j) {
      if |pre| <= j {
        assert line[j] == "AVERAGE-"[j - |pre|];
        assert line[j..j + |key|][0] == line[j] != key[0];
      }
    }
    AttributeValue(line, "BANDWIDTH", pre', v, rest);
  }

  /** With a resolution "WxH", the quality is H, trimmed, followed by "p"
      (the text after the FIRST 'x'). */
  lemma ResolutionLabel(info: StreamInf, emitted: nat, w: string, h: string)
    requires info.resolution == Some(w + "x" + h) && 'x' !in w
    ensures QualityLabel(info, emitted) == Trim(h) + "p"
  {
    var res := w + "x" + h;
    CharAt(res, 'x', |w|);
    forall j | 0 <= j < |w| ensures !IsAt(res, "x", j) {
      CharAt(res, 'x', j);
    }
    FirstOccurrence(res, "x", |w|);
  }

  /** Without a resolution, a bandwidth written as a decimal number is looked
      up in the table. */
  lemma BandwidthLabelOf(info: StreamInf, emitted: nat, bw: nat)
    requires info.resolution.None? && info.bandwidth == Some(NatToString(bw)) && bw <= LONG_MAX
    ensures QualityLabel(info, emitted) == BandwidthLabel(bw)
    ensures QualityLabel(info, emitted) == (if bw >= 1500000 then "1080p" else if bw >= 800000 then "720p"
                                           else if bw >= 350000 then "480p" else "360p")
  {
    ParseIntToString(bw, LONG_MIN, LONG_MAX);
  }

  /** A bandwidth that is not a number, or no attribute at all, gives the
      positional label, which numbers the variants from 1 without repeats. */
  lemma PositionalLabels(info: StreamInf, m: nat, n: nat)
    requires info.resolution.None?
    requires info.bandwidth.None? || ParseLong(info.bandwidth.value).None?
    ensures QualityLabel(info, m) == PositionalLabel(m)
    ensures PositionalLabel(m) == PositionalLabel(n) ==> m == n
  {
    if PositionalLabel(m) == PositionalLabel(n) {
      var pre := "Quality ";
      assert NatToString(m + 1) == PositionalLabel(m)[|pre|..];
      assert NatToString(n + 1) == PositionalLabel(n)[|pre|..];
    }
  }

  /** The sort key all labels "<prefix> - ..." share. */
  function PrefixKey(prefix: string): int {
    if 'p' in prefix then ParseInt(SubstringBefore(prefix, "p")).GetOr(0) else 0
  }

  /** The key of any label built on `prefix` is the prefix's key: the first
      'p' lies inside the prefix, or after the " - " that follows it. */
  lemma LabelKeyIsPrefixKey(prefix: string, quality: string, url: string, videoUrl: string, tracks: seq<Track>)
    ensures SortKey(Video(url, prefix + " - " + quality, videoUrl, tracks)) == PrefixKey(prefix)
  {
    var lbl := prefix + " - " + quality;
    var b := SubstringBefore(lbl, "p");
    IndexOfIsFirst(prefix, "p");
    SubstringBeforeIsFirst(lbl, "p");
    if 'p' in prefix {
      var i := IndexOf(prefix, "p");
      if i == -1 {
        var j :| 0 <= j < |prefix| && prefix[j] == 'p';
        CharAt(prefix, 'p', j);
        assert false;
      }
      CharAt(prefix, 'p', i);
      CharAt(lbl, 'p', i);
      forall j | 0 <= j < i ensures !IsAt(lbl, "p", j) {
        CharAt(prefix, 'p', j);
        CharAt(lbl, 'p', j);
      }
      FirstOccurrence(lbl, "p", i);
      assert b == prefix[..i];
    } else {
      if b != lbl {
        CharAt(lbl, 'p', |b|);
      }
      assert b[|prefix|] == ' ';
      NotANumber(b, |prefix|, INT_MIN, INT_MAX);
    }
  }

  /** Every video of `vs` has sort key `n`. */
  predicate AllKeyed(vs: seq<Video>, n: int) {
    forall j :: 0 <= j < |vs| ==> SortKey(vs[j]) == n
  }

  lemma KeyedAppend(vs: seq<Video>, v: Option<Video>, n: int)
    requires AllKeyed(vs, n) && (v.Some? ==> SortKey(v.value) == n)
    ensures AllKeyed(AddIfPresent(vs, v), n)
  {
    if v.Some? {
      forall j | 0 <= j < |vs| + 1 ensures SortKey((vs + [v.value])[j]) == n {
        if j < |vs| {
          assert (vs + [v.value])[j] == vs[j];
        }
      }
    }
  }

  /** A variant's sort key is its prefix's key. */
  lemma VariantKey(infos: seq<StreamInf>, urls: seq<Option<string>>, i: nat, emitted: nat, prefix: string)
    requires i < |infos| == |urls| && urls[i].Some?
    ensures SortKey(Variant(infos, urls, i, emitted, prefix)) == PrefixKey(prefix)
  {
    LabelKeyIsPrefixKey(prefix, QualityLabel(infos[i], emitted), urls[i].value, urls[i].value, []);
  }

  lemma EmittedKeysStep(infos: seq<StreamInf>, urls: seq<Option<string>>, k: nat, prefix: string)
    requires 0 < k <= |infos| == |urls|
    requires AllKeyed(Emitted(infos, urls, k - 1, prefix), PrefixKey(prefix))
    ensures AllKeyed(Emitted(infos, urls, k, prefix), PrefixKey(prefix))
  {
    var acc := Emitted(infos, urls, k - 1, prefix);
    EmittedStep(infos, urls, k - 1, prefix);
    if urls[k - 1].Some? {
      VariantKey(infos, urls, k - 1, |acc|, prefix);
    }
    KeyedAppend(acc, Step(infos, urls, k - 1, |acc|, prefix), PrefixKey(prefix));
  }

  /** Every variant the scan emits has the prefix's key. */
  lemma {:induction false} EmittedKeys(infos: seq<StreamInf>, urls: seq<Option<string>>, k: nat, prefix: string)
    requires k <= |infos| == |urls|
    ensures AllKeyed(Emitted(infos, urls, k, prefix), PrefixKey(prefix))
  {
    if k > 0 {
      EmittedKeys(infos, urls, k - 1, prefix);
      EmittedKeysStep(infos, urls, k, prefix);
    }
  }

  /** Every video found, variant or default, has the prefix's key. */
  lemma FoundKeys(text: string, master: string, prefix: string, base: HttpUrl, resolve: Resolver)
    ensures AllKeyed(Found(text, master, prefix, base, resolve), PrefixKey(prefix))
  {
    var lines := Lines(text);
    var emitted := Emitted(LineInfos(lines), LineUrls(lines, base, resolve), |lines|, prefix);
    if emitted == [] {
      LabelKeyIsPrefixKey(prefix, "Default", master, master, []);
      assert Found(text, master, prefix, base, resolve) == [DefaultVideo(master, prefix)];
    } else {
      EmittedKeys(LineInfos(lines), LineUrls(lines, base, resolve), |lines|, prefix);
      assert Found(text, master, prefix, base, resolve) == emitted;
    }
  }

  /** The descending sort never reorders: the result is the playlist order
      (or the master alone), whatever the qualities are. */
  lemma HlsKeepsPlaylistOrder(text: string, master: string, masterUrl: HttpUrl, prefix: string, resolve: Resolver)
    ensures HlsVideos(Body(text), master, Some(masterUrl), prefix, resolve)
         == Success(Found(text, master, prefix, MasterBase(masterUrl), resolve))
  {
    var found := Found(text, master, prefix, MasterBase(masterUrl), resolve);
    FoundKeys(text, master, prefix, MasterBase(masterUrl), resolve);
    StableSort.EqualKeysKeepOrder(found, SortKey, PrefixKey(prefix));
  }
}
