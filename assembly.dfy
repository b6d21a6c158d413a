/** The per-episode video list, `fetchVideoList`: the episode id, the server
    list, the fold over the SUB servers (`processServerList`) that collects
    videos, subtitle tracks and the set of source URLs already handled, and
    the final step that fails on an empty list or hands every video the same
    deduplicated subtitle list.

    Every answer from the network is an input: the `Web` value says what each
    request returns, and OkHttp's URL parsing and resolution are functions in
    it too. */
module Assembly {
  import opened Wrappers
  import opened Text
  import opened Media
  import opened Subtitles
  import opened Playlist
  import opened Episodes

  /** An entry of `sources` in the sources answer. */
  datatype SourceItem = SourceItem(file: string, mediaType: string)

  /** The decoded sources answer of one server. */
  datatype SourceDto = SourceDto(sources: seq<SourceItem>, tracks: seq<TrackItem>, encrypted: bool)

  /** The outcome of a server's sources request: a transport failure, a
      response that is not successful, a body that does not decode, or the
      decoded answer. */
  datatype SourceFetch = SourceNetworkError | SourceHttpError(code: int) | SourceUndecodable | SourceDecoded(dto: SourceDto)

  /** A `div.servers-sub div.item` element: its `data-id` attribute ("" when
      absent) and the text of its link, if it has one. */
  datatype ServerItem = ServerItem(dataId: string, linkText: Option<string>)

  /** The outcome of the server-list request: the request fails (transport
      or non-success status), the answer is unusable (undecodable, or
      `status` false), or it lists the SUB servers. */
  datatype ServerListFetch = ServerListUnreachable | ServerListRejected | ServerList(subServers: seq<ServerItem>)

  /** What each request answers, and OkHttp's URL parsing and resolution. */
  datatype Web = Web(
    serverList: string -> ServerListFetch,
    sources: string -> SourceFetch,
    playlist: string -> Fetch<string>,
    parseUrl: string -> Option<HttpUrl>,
    resolve: Resolver)

  /** The ways `fetchVideoList` fails. */
  datatype VideoError = MissingEpisodeId | ServerListUnavailable | ServerListInvalid | NoPlayableSource

  /** The three lists `processServerList` grows: `videos`, `subtitles` and
      `handledSourceUrls`. */
  datatype Collected = Collected(videos: seq<Video>, subtitles: seq<Track>, handled: set<string>)

  const NOTHING_COLLECTED := Collected([], [], {})

  /** `serverItem.selectFirst("a")?.text() ?: "Server $serverId"`. */
  function ServerName(server: ServerItem): string {
    server.linkText.GetOr("Server " + server.dataId)
  }

  /** `videosFromHlsUrl(file, prefix, headers)` on this network. */
  function HlsFor(web: Web, file: string, prefix: string): Result<seq<Video>, HlsError> {
    HlsVideos(web.playlist(file), file, web.parseUrl(file), prefix, web.resolve)
  }

  predicate IsHlsSource(source: SourceItem) {
    source.mediaType == "hls" && EndsWith(source.file, ".m3u8")
  }

  /** The handling of `sources[0]`, with `prefix` the "name SUFFIX" text. It
      keeps the subtitles, only appends videos, and records a non-empty URL
      as handled whatever its type and whether or not its playlist could be
      read. */
  function SourceStep(c: Collected, source: SourceItem, prefix: string, web: Web): (r: Collected)
    ensures r.subtitles == c.subtitles
    ensures c.videos <= r.videos
    ensures r.handled == c.handled + (if source.file != [] then {source.file} else {})
  {
    if source.file == [] || source.file in c.handled then c
    else
      var handled := c.handled + {source.file};
      if IsHlsSource(source) then
        var hls := HlsFor(web, source.file, prefix);
        Collected(c.videos + (if hls.Success? then hls.value else []), c.subtitles, handled)
      else if source.mediaType == "mp4" then
        Collected(c.videos + [Video(source.file, prefix + " - MP4", source.file, [])], c.subtitles, handled)
      else Collected(c.videos, c.subtitles, handled)
  }

  /** One iteration of `processServerList`'s `forEach`. It only appends
      videos and subtitles, and adds to the handled set exactly the source
      URL the server claims, if any. */
  function ServerStep(c: Collected, server: ServerItem, typeSuffix: string, web: Web): (r: Collected)
    ensures c.videos <= r.videos && c.subtitles <= r.subtitles
    ensures r.handled == c.handled + ClaimOf(server, web)
  {
    if server.dataId == [] then c
    else match web.sources(server.dataId)
      case SourceDecoded(dto) =>
        if dto.encrypted then c
        else
          var c' := if dto.sources == [] then c else SourceStep(c, dto.sources[0], ServerName(server) + " " + typeSuffix, web);
          c'.(subtitles := c'.subtitles + CaptionTracks(dto.tracks))
      case _ => c
  }

  /** The state after the first `k` servers. The fold only appends videos
      and subtitles; the handled set is the initial one plus the URLs the
      servers claimed. */
  function ProcessAll(servers: seq<ServerItem>, k: nat, typeSuffix: string, web: Web, init: Collected): (r: Collected)
    requires k <= |servers|
    ensures init.videos <= r.videos && init.subtitles <= r.subtitles
    ensures r.handled == init.handled + Claimed(servers, k, web)
  {
    if k == 0 then init
    else
      ClaimedStep(servers, k, web);
      ServerStep(ProcessAll(servers, k - 1, typeSuffix, web, init), servers[k - 1], typeSuffix, web)
  }

  /** Gives every video the subtitle list (`video.copy(subtitleTracks = …)`). */
  function WithSubtitles(videos: seq<Video>, tracks: seq<Track>): seq<Video> {
    seq(|videos|, i requires 0 <= i < |videos| => videos[i].(subtitleTracks := tracks))
  }

  /** The end of `fetchVideoList`'s `map`: it fails exactly when no video
      was collected, and otherwise returns one video per collected one. */
  function Finish(c: Collected): (r: Result<seq<Video>, VideoError>)
    ensures r.Failure? <==> c.videos == []
    ensures r.Failure? ==> r.error == NoPlayableSource
    ensures r.Success? ==> |r.value| == |c.videos|
  {
    if c.videos == [] then Failure(NoPlayableSource)
    else Success(WithSubtitles(c.videos, DistinctByUrl(c.subtitles)))
  }

  /** What `fetchVideoList(episode)` emits for an episode stored under `url`:
      without an episode id it fails with `MissingEpisodeId`, and a success
      holds at least one video. */
  function VideoList(url: string, web: Web): (r: Result<seq<Video>, VideoError>)
    ensures EpisodeId(url).None? ==> r == Failure(MissingEpisodeId)
    ensures r.Success? ==> |r.value| >= 1
  {
    match EpisodeId(url)
    case None => Failure(MissingEpisodeId)
    case Some(id) =>
      match web.serverList(id)
      case ServerListUnreachable => Failure(ServerListUnavailable)
      case ServerListRejected => Failure(ServerListInvalid)
      case ServerList(servers) => Finish(ProcessAll(servers, |servers|, "SUB", web, NOTHING_COLLECTED))
  }

  // ---------------------------------------------------------------------------
  // The imperative code

  /** The body of `processServerList`'s `forEach` for one server. */
  method ProcessServer(server: ServerItem, typeSuffix: string, web: Web,
                       videos0: seq<Video>, subtitles0: seq<Track>, handled0: set<string>)
    returns (videos: seq<Video>, subtitles: seq<Track>, handled: set<string>)
    ensures Collected(videos, subtitles, handled) == ServerStep(Collected(videos0, subtitles0, handled0), server, typeSuffix, web)
  {
    videos, subtitles, handled := videos0, subtitles0, handled0;
    var serverId := server.dataId;
    var serverName := ServerName(server);
    if serverId == [] {
      return;
    }
    var sourceResponse := web.sources(serverId);
    if !sourceResponse.SourceDecoded? {
      return;
    }
    var sourceData := sourceResponse.dto;
    if !sourceData.encrypted {
      if sourceData.sources != [] {
        var source := sourceData.sources[0];
        if source.file != [] && source.file !in handled {
          handled := handled + {source.file};
          if source.mediaType == "hls" && EndsWith(source.file, ".m3u8") {
            var hls := VideosFromHlsUrl(web.playlist(source.file), source.file, web.parseUrl(source.file),
                                        serverName + " " + typeSuffix, web.resolve);
            if hls.Success? {
              videos := videos + hls.value;
            }
          } else if source.mediaType == "mp4" {
            videos := videos + [Video(source.file, serverName + " " + typeSuffix + " - MP4", source.file, [])];
          }
        }
      }
      subtitles := subtitles + CaptionTracks(sourceData.tracks);
    }
  }

  /** `processServerList(servers, typeSuffix)`: the fold over the servers. */
  method ProcessServerList(servers: seq<ServerItem>, typeSuffix: string, web: Web,
                           videos0: seq<Video>, subtitles0: seq<Track>, handled0: set<string>)
    returns (videos: seq<Video>, subtitles: seq<Track>, handled: set<string>)
    ensures Collected(videos, subtitles, handled) == ProcessAll(servers, |servers|, typeSuffix, web, Collected(videos0, subtitles0, handled0))
  {
    videos, subtitles, handled := videos0, subtitles0, handled0;
    for i := 0 to |servers|
      invariant Collected(videos, subtitles, handled) == ProcessAll(servers, i, typeSuffix, web, Collected(videos0, subtitles0, handled0))
    {
      videos, subtitles, handled := ProcessServer(servers[i], typeSuffix, web, videos, subtitles, handled);
    }
  }

  /** `fetchVideoList`, from the episode id to the finished list. */
  method FetchVideoList(url: string, web: Web) returns (r: Result<seq<Video>, VideoError>)
    ensures r == VideoList(url, web)
  {
    var episodeId := EpisodeId(url);
    if episodeId.None? {
      return Failure(MissingEpisodeId);
    }
    var answer := web.serverList(episodeId.value);
    if answer.ServerListUnreachable? {
      return Failure(ServerListUnavailable);
    } else if answer.ServerListRejected? {
      return Failure(ServerListInvalid);
    }
    var videos, subtitles, handled := ProcessServerList(answer.subServers, "SUB", web, [], [], {});
    if videos == [] {
      return Failure(NoPlayableSource);
    }
    var uniqueSubtitles := DistinctByUrl(subtitles);
    var result := AttachSubtitles(videos, uniqueSubtitles);
    return Success(result);
  }

  /** `videos.map { video -> video.copy(subtitleTracks = tracks) }`. */
  method AttachSubtitles(videos: seq<Video>, tracks: seq<Track>) returns (result: seq<Video>)
    ensures result == WithSubtitles(videos, tracks)
  {
    result := [];
    for i := 0 to |videos|
      invariant result == WithSubtitles(videos[..i], tracks)
    {
      result := result + [videos[i].(subtitleTracks := tracks)];
    }
    assert videos[..|videos|] == videos;
  }

  // ---------------------------------------------------------------------------
  // One server

  /** A server without an id, or whose sources request fails, is refused or
      does not decode, contributes nothing; so does an encrypted one, which
      contributes no subtitle tracks either. */
  lemma SkippedServer(c: Collected, server: ServerItem, typeSuffix: string, web: Web)
    requires || server.dataId == []
             || !web.sources(server.dataId).SourceDecoded?
             || web.sources(server.dataId).dto.encrypted
    ensures ServerStep(c, server, typeSuffix, web) == c
  {
  }

  /** A decoded, unencrypted server appends its caption tracks, whether or
      not its source was new, and adds its source's URL to the handled set. */
  lemma DecodedServer(c: Collected, server: ServerItem, typeSuffix: string, web: Web)
    requires server.dataId != [] && web.sources(server.dataId).SourceDecoded?
    requires !web.sources(server.dataId).dto.encrypted
    ensures var dto := web.sources(server.dataId).dto;
            var r := ServerStep(c, server, typeSuffix, web);
            && r.subtitles == c.subtitles + CaptionTracks(dto.tracks)
            && r.handled == c.handled + (if dto.sources != [] && dto.sources[0].file != [] then {dto.sources[0].file} else {})
  {
  }

  /** A URL already handled adds nothing: each source is expanded at most
      once per call. */
  lemma DuplicateSource(c: Collected, source: SourceItem, prefix: string, web: Web)
    requires source.file in c.handled
    ensures SourceStep(c, source, prefix, web) == c
  {
  }

  /** A new mp4 source adds exactly one video, "name SUFFIX - MP4", on its URL. */
  lemma Mp4Source(c: Collected, source: SourceItem, prefix: string, web: Web)
    requires source.file != [] && source.file !in c.handled && source.mediaType == "mp4"
    ensures SourceStep(c, source, prefix, web).videos == c.videos + [Video(source.file, prefix + " - MP4", source.file, [])]
  {
  }

  /** A new HLS source adds the playlist's variants (at least one) when the
      playlist is read, and nothing when reading it fails. */
  lemma HlsSource(c: Collected, source: SourceItem, prefix: string, web: Web)
    requires source.file != [] && source.file !in c.handled && IsHlsSource(source)
    ensures var r := SourceStep(c, source, prefix, web);
            var hls := HlsFor(web, source.file, prefix);
            && (hls.Success? ==> r.videos == c.videos + hls.value && |r.videos| > |c.videos|)
            && (hls.Failure? ==> r.videos == c.videos)
            && (hls.Failure? <==> web.playlist(source.file).NetworkError? || web.parseUrl(source.file).None?)
  {
    HlsNeverEmpty(web.playlist(source.file), source.file, web.parseUrl(source.file), prefix, web.resolve);
  }

  /** A source of another type, or "hls" without the ".m3u8" suffix, adds no
      video. */
  lemma OtherSource(c: Collected, source: SourceItem, prefix: string, web: Web)
    requires !IsHlsSource(source) && source.mediaType != "mp4"
    ensures SourceStep(c, source, prefix, web).videos == c.videos
  {
  }

  /** Only `sources[0]` counts: dropping every later source changes nothing. */
  lemma OnlyFirstSource(c: Collected, server: ServerItem, typeSuffix: string, web: Web, dto: SourceDto)
    requires server.dataId != [] && web.sources(server.dataId) == SourceDecoded(dto)
    ensures var firstOnly := dto.(sources := dto.sources[..if dto.sources == [] then 0 else 1]);
            var web' := web.(sources := id => if id == server.dataId then SourceDecoded(firstOnly) else web.sources(id));
            ServerStep(c, server, typeSuffix, web') == ServerStep(c, server, typeSuffix, web)
  {
  }

  // ---------------------------------------------------------------------------
  // The fold

  /** The source URL a server would expand, if it reaches that point. */
  function Claim(server: ServerItem, web: Web): Option<string> {
    if server.dataId == [] then None
    else match web.sources(server.dataId)
      case SourceDecoded(dto) =>
        if dto.encrypted || dto.sources == [] || dto.sources[0].file == [] then None else Some(dto.sources[0].file)
      case _ => None
  }

  /** The URLs the first `k` servers claim. */
  function Claimed(servers: seq<ServerItem>, k: nat, web: Web): set<string>
    requires k <= |servers|
  {
    set i | 0 <= i < k && Claim(servers[i], web).Some? :: Claim(servers[i], web).value
  }

  function ClaimOf(server: ServerItem, web: Web): set<string> {
    if Claim(server, web).Some? then {Claim(server, web).value} else {}
  }

  lemma ClaimedStep(servers: seq<ServerItem>, k: nat, web: Web)
    requires 0 < k <= |servers|
    ensures Claimed(servers, k, web) == Claimed(servers, k - 1, web) + ClaimOf(servers[k - 1], web)
  {
  }



  /** A later server whose source URL an earlier server already claimed adds
      no video (its captions are still collected). */
  lemma SourceExpandedOnce(servers: seq<ServerItem>, i: nat, j: nat, typeSuffix: string, web: Web, init: Collected)
    requires i < j < |servers|
    requires Claim(servers[i], web).Some? && Claim(servers[j], web) == Claim(servers[i], web)
    ensures ProcessAll(servers, j + 1, typeSuffix, web, init).videos == ProcessAll(servers, j, typeSuffix, web, init).videos
  {
    var before := ProcessAll(servers, j, typeSuffix, web, init);
    var server := servers[j];
    var dto := web.sources(server.dataId).dto;
    assert Claim(servers[i], web).value in Claimed(servers, j, web);
    DuplicateSource(before, dto.sources[0], ServerName(server) + " " + typeSuffix, web);
  }

  // ---------------------------------------------------------------------------
  // The result

  /** The call fails exactly when no video was collected; otherwise it
      returns the same videos, in the same order, each carrying the
      deduplicated subtitle list. */
  lemma FinishedVideos(c: Collected)
    ensures Finish(c).Success? ==>
              var vs := Finish(c).value;
              && |vs| == |c.videos|
              && forall i :: 0 <= i < |vs| ==>
                   && vs[i].url == c.videos[i].url && vs[i].quality == c.videos[i].quality
                   && vs[i].videoUrl == c.videos[i].videoUrl
                   && vs[i].subtitleTracks == DistinctByUrl(c.subtitles)
  {
  }

  /** Every returned video carries the same subtitle list, without repeated
      URLs and with every collected URL in it. */
  lemma SharedSubtitles(c: Collected, i: nat, u: string)
    requires Finish(c).Success? && i < |Finish(c).value|
    ensures var tracks := Finish(c).value[i].subtitleTracks;
            && tracks == Finish(c).value[0].subtitleTracks
            && NoDuplicateUrls(tracks)
            && (HasUrl(tracks, u) <==> HasUrl(c.subtitles, u))
  {
    DistinctHasNoDuplicates(c.subtitles);
    DistinctSameUrls(c.subtitles, u);
  }

  /** Without an episode id the call fails before any request: the answer
      does not depend on the network. */
  lemma MissingIdBeforeAnyRequest(url: string, web1: Web, web2: Web)
    requires EpisodeId(url).None?
    ensures VideoList(url, web1) == VideoList(url, web2) == Failure(MissingEpisodeId)
  {
  }

}
