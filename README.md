# HiAnime extension core, modelled in Dafny

This project models the core of the HiAnime (hianime.to) anime source
extension: how it turns an episode into a list of playable videos, and how it
builds a search request from the user's filters.

- **Playlist** (`playlist.dfy`) models `videosFromHlsUrl`. It expands an HLS master playlist into one video per
  `#EXT-X-STREAM-INF` variant. It labels each variant from RESOLUTION, else from a BANDWIDTH table, else
  "Quality N". With no variant, the master alone is returned. The list is then sorted. **StableSort**
  (`sorting.dfy`) models Kotlin's stable `sortByDescending`.
- **Assembly** (`assembly.dfy`) models `fetchVideoList`. It reads the episode id and the SUB server list. The
  `processServerList` fold collects videos, caption tracks and the set of source URLs already handled. The last
  step fails when no video was found, and otherwise gives every video the caption list deduplicated by URL.
  **Subtitles** (`subtitles.dfy`) holds the caption filter and `distinctBy { it.url }`.
- **Episodes** (`episodes.dfy`) models the anime/episode id extraction and `parseEpisodesFromAjax`. That
  function keeps the complete episode elements and reverses them.
- **Details** (`details.dfy`) models `parseStatus`.
- **Filters** (`filters.dfy`) models the filter classes, the option lists, `FILTER_LIST`, `SearchParameters`
  and `getSearchParameters`. **Search** (`search.dfy`) models the private
  `searchAnimeRequest(page, query, params)`.
- **Text**, **Numbers**, **Media** and **Wrappers** hold the Kotlin string functions the core uses, `toString`
  and `toIntOrNull`/`toLongOrNull` on integers, the app's `Video`/`Track` values, and `Option`/`Result`.

Every network answer is an input. The `Web` value gives, for each request, its outcome. OkHttp's URL parsing
and resolution are uninterpreted functions in it.

Behaviour of the code worth stating explicitly:

- An encrypted server contributes nothing, not even its subtitle tracks (`Assembly.SkippedServer`).
- The quality sort is keyed on the integer before the first 'p' of the WHOLE label "<server> SUB - 1080p". All
  labels of one call share their prefix, so they share the key and the stable sort never reorders anything
  (`Playlist.HlsKeepsPlaylistOrder`).
- `videosFromHlsUrl` rethrows its failures, but `processServerList` catches them. A source whose playlist
  cannot be read therefore still counts as handled and adds no video (`Assembly.HlsSource`,
  `Assembly.SourceStep`).
- The playlist response's HTTP status is not checked: any body is scanned.

## Model

| member | source | states |
|---|---|---|
| Playlist.VideosFromHlsUrl | src/en/hianime2/src/en/zoro/src/eu/kanade/tachiyomi/animeextension/en/hianime/HiAnime.kt:256-324 | The fetch, base URL, scan, fallback and sort return the result HlsVideos specifies: a failure when the playlist cannot be read or the master URL does not parse, otherwise the sorted videos. |
| Playlist.ScanPlaylist | src/en/hianime2/src/en/zoro/src/eu/kanade/tachiyomi/animeextension/en/hianime/HiAnime.kt:269-306 | The `forEachIndexed` loop returns exactly the videos Emitted specifies for all lines of the playlist. |
| Playlist.ScanLine | src/en/hianime2/src/en/zoro/src/eu/kanade/tachiyomi/animeextension/en/hianime/HiAnime.kt:270-303 | The body of one iteration yields exactly the video the scan specifies for that line, given the number of videos found so far. |
| Playlist.ScanIsEmitted | src/en/hianime2/src/en/zoro/src/eu/kanade/tachiyomi/animeextension/en/hianime/HiAnime.kt:269-306 | Resuming the scan at any line, with the videos of the earlier lines collected, gives the videos of the whole playlist. |
| Playlist.AcceptedInOrder | src/en/hianime2/src/en/zoro/src/eu/kanade/tachiyomi/animeextension/en/hianime/HiAnime.kt:290-304 | The lines that yield a variant are listed in increasing order. Every listed line yields a URL, and every line that yields a URL is listed. |
| Playlist.EmittedLength | src/en/hianime2/src/en/zoro/src/eu/kanade/tachiyomi/animeextension/en/hianime/HiAnime.kt:301-303 | There is exactly one video per line that yields a variant URL. |
| Playlist.EmittedAt | src/en/hianime2/src/en/zoro/src/eu/kanade/tachiyomi/animeextension/en/hianime/HiAnime.kt:269-306 | The j-th video is the variant of the j-th accepted line. Its quality label counts the j videos before it. |
| Playlist.ScannedVideo | src/en/hianime2/src/en/zoro/src/eu/kanade/tachiyomi/animeextension/en/hianime/HiAnime.kt:270-303 | Each video comes from a stream-info line. The next line, once trimmed, does not start with '#' and resolves to the video's URL. The label is "<prefix> - <quality>". |
| Playlist.ScannedLine | src/en/hianime2/src/en/zoro/src/eu/kanade/tachiyomi/animeextension/en/hianime/HiAnime.kt:290-303 | Conversely, such a stream-info line always yields a video. |
| Playlist.HlsVideos | src/en/hianime2/src/en/zoro/src/eu/kanade/tachiyomi/animeextension/en/hianime/HiAnime.kt:256-324 | The call fails exactly when the playlist is unreachable or the master URL does not parse. A success holds at least one video and is a permutation of the scanned videos (or of the master alone). |
| Playlist.HlsNeverEmpty | src/en/hianime2/src/en/zoro/src/eu/kanade/tachiyomi/animeextension/en/hianime/HiAnime.kt:307-314 | With no accepted stream-info line, the result is the master alone, labelled "<prefix> - Default". |
| Playlist.AttributeValue | src/en/hianime2/src/en/zoro/src/eu/kanade/tachiyomi/animeextension/en/hianime/HiAnime.kt:272-273 | An attribute's value is the text after the first "NAME=" up to the next comma. |
| Playlist.MasterBase | src/en/hianime2/src/en/zoro/src/eu/kanade/tachiyomi/animeextension/en/hianime/HiAnime.kt:262-266 | The base URL keeps the origin, query and fragment. It drops the last path segment exactly when that segment contains a '.' (leaving one empty segment when it was the only one), and otherwise is the master URL unchanged. |
| Playlist.Attribute | src/en/hianime2/src/en/zoro/src/eu/kanade/tachiyomi/animeextension/en/hianime/HiAnime.kt:272-273 | A value found is not blank and holds no comma. |
| Playlist.AverageBandwidthReadAsBandwidth | src/en/hianime2/src/en/zoro/src/eu/kanade/tachiyomi/animeextension/en/hianime/HiAnime.kt:273 | An AVERAGE-BANDWIDTH attribute placed before BANDWIDTH is read as the bandwidth, because of the plain substring search. |
| Playlist.ResolutionLabel | src/en/hianime2/src/en/zoro/src/eu/kanade/tachiyomi/animeextension/en/hianime/HiAnime.kt:276 | With a RESOLUTION "WxH", the quality is the trimmed height followed by "p". |
| Playlist.BandwidthLabelOf | src/en/hianime2/src/en/zoro/src/eu/kanade/tachiyomi/animeextension/en/hianime/HiAnime.kt:277-286 | With no resolution and a numeric bandwidth, the quality follows the 1500000/800000/350000 threshold table. |
| Playlist.PositionalLabels | src/en/hianime2/src/en/zoro/src/eu/kanade/tachiyomi/animeextension/en/hianime/HiAnime.kt:280-287 | With neither attribute usable, the quality is "Quality N", where N is one more than the number of videos already found. Distinct counts give distinct labels. |
| Playlist.QualityLabel | src/en/hianime2/src/en/zoro/src/eu/kanade/tachiyomi/animeextension/en/hianime/HiAnime.kt:275-288 | Every quality label either ends in "p" or is "Quality N". |
| Playlist.LabelKeyIsPrefixKey | src/en/hianime2/src/en/zoro/src/eu/kanade/tachiyomi/animeextension/en/hianime/HiAnime.kt:313-315 | The sort key of every label "<prefix> - ..." depends on the prefix alone. |
| Playlist.SortKey | src/en/hianime2/src/en/zoro/src/eu/kanade/tachiyomi/animeextension/en/hianime/HiAnime.kt:313-315 | The sort key (`toIntOrNull() ?: 0` of the text before the first 'p') is a 32-bit integer. |
| Playlist.FoundKeys | src/en/hianime2/src/en/zoro/src/eu/kanade/tachiyomi/animeextension/en/hianime/HiAnime.kt:308-315 | Every video the scan or the fallback produces has the prefix's sort key. |
| Playlist.HlsKeepsPlaylistOrder | src/en/hianime2/src/en/zoro/src/eu/kanade/tachiyomi/animeextension/en/hianime/HiAnime.kt:313-316 | The sort returns the videos in playlist order, or the master alone. |
| StableSort.SortDescIsSorted | src/en/hianime2/src/en/zoro/src/eu/kanade/tachiyomi/animeextension/en/hianime/HiAnime.kt:313-315 | `sortByDescending` orders by non-increasing key. |
| StableSort.SortDescIsPermutation | src/en/hianime2/src/en/zoro/src/eu/kanade/tachiyomi/animeextension/en/hianime/HiAnime.kt:313-315 | The sort neither drops, duplicates nor invents elements. |
| StableSort.SortDescIsStable | src/en/hianime2/src/en/zoro/src/eu/kanade/tachiyomi/animeextension/en/hianime/HiAnime.kt:313-315 | Elements with equal keys keep their relative order. |
| StableSort.EqualKeysKeepOrder | src/en/hianime2/src/en/zoro/src/eu/kanade/tachiyomi/animeextension/en/hianime/HiAnime.kt:313-315 | When every key is equal, the sort is the identity. |
| Numbers.ParseIntToString | src/en/hianime2/src/en/zoro/src/eu/kanade/tachiyomi/animeextension/en/hianime/HiAnime.kt:402 | The page number, printed, parses back to itself whenever it fits the integer range. |
| Numbers.NotANumber | src/en/hianime2/src/en/zoro/src/eu/kanade/tachiyomi/animeextension/en/hianime/HiAnime.kt:314 | A text holding a non-digit, other than a leading sign, is not an integer (`toIntOrNull` gives null). |
| Episodes.IdAfterLastOf | src/en/hianime2/src/en/zoro/src/eu/kanade/tachiyomi/animeextension/en/hianime/HiAnime.kt:153-156 | The id is the text after the LAST marker, up to the first '?'. |
| Episodes.NoMarkerNoId | src/en/hianime2/src/en/zoro/src/eu/kanade/tachiyomi/animeextension/en/hianime/HiAnime.kt:78-80 | A URL without the marker yields no id, and the source throws. |
| Episodes.IdIsAfterLastMarker | src/en/hianime2/src/en/zoro/src/eu/kanade/tachiyomi/animeextension/en/hianime/HiAnime.kt:78-80 | Any id found is non-empty, free of '?', and follows the last occurrence of the marker. |
| Episodes.AnimeId | src/en/hianime2/src/en/zoro/src/eu/kanade/tachiyomi/animeextension/en/hianime/HiAnime.kt:78-80 | An anime id found is non-empty, free of '?', and follows the last '-' of the URL. |
| Episodes.EpisodeId | src/en/hianime2/src/en/zoro/src/eu/kanade/tachiyomi/animeextension/en/hianime/HiAnime.kt:153-156 | An episode id found is non-empty, free of '?', and follows the last "ep=" of the URL. |
| Episodes.ParseEpisodesFromAjax | src/en/hianime2/src/en/zoro/src/eu/kanade/tachiyomi/animeextension/en/hianime/HiAnime.kt:112-144 | The loop returns the complete elements' episodes, reversed. |
| Episodes.Kept | src/en/hianime2/src/en/zoro/src/eu/kanade/tachiyomi/animeextension/en/hianime/HiAnime.kt:115-132 | There are never more episodes than elements, and every episode kept has a non-empty URL and name. |
| Episodes.Reverse | src/en/hianime2/src/en/zoro/src/eu/kanade/tachiyomi/animeextension/en/hianime/HiAnime.kt:143 | `reversed()` keeps the length and puts element n-1-i at position i. |
| Episodes.KeptMembers | src/en/hianime2/src/en/zoro/src/eu/kanade/tachiyomi/animeextension/en/hianime/HiAnime.kt:115-132 | An episode is kept exactly when some element with href, title and order number gives it. |
| Episodes.KeptConcat | src/en/hianime2/src/en/zoro/src/eu/kanade/tachiyomi/animeextension/en/hianime/HiAnime.kt:115-132 | The kept episodes of two runs of elements are those of the first run, then those of the second. |
| Episodes.AllCompleteKept | src/en/hianime2/src/en/zoro/src/eu/kanade/tachiyomi/animeextension/en/hianime/HiAnime.kt:115-132 | When every element is complete, each element gives its episode in document order. |
| Episodes.AllCompleteReversed | src/en/hianime2/src/en/zoro/src/eu/kanade/tachiyomi/animeextension/en/hianime/HiAnime.kt:112-144 | When every element is complete, the result is the elements' episodes, last element first. |
| Episodes.IncompleteSkipped | src/en/hianime2/src/en/zoro/src/eu/kanade/tachiyomi/animeextension/en/hianime/HiAnime.kt:121-124 | An element missing its href, title or order number is skipped, wherever it appears. |
| Details.ParseStatus | src/en/hianime2/src/en/zoro/src/eu/kanade/tachiyomi/animeextension/en/hianime/HiAnime.kt:361-366 | The status is always one of UNKNOWN, ONGOING or COMPLETED. |
| Details.StatusOf | src/en/hianime2/src/en/zoro/src/eu/kanade/tachiyomi/animeextension/en/hianime/HiAnime.kt:361-366 | On a normalised text, COMPLETED exactly for "finished airing"/"completed" and ONGOING exactly for "currently airing"/"ongoing"; the result is always one of the three codes. |
| Details.StatusCodes | src/en/hianime2/src/en/zoro/src/eu/kanade/tachiyomi/animeextension/en/hianime/HiAnime.kt:361-366 | COMPLETED exactly for "finished airing"/"completed", and ONGOING exactly for "currently airing"/"ongoing", after trim and lowercase. Everything else is UNKNOWN. |
| Details.StatusIgnoresCase | src/en/hianime2/src/en/zoro/src/eu/kanade/tachiyomi/animeextension/en/hianime/HiAnime.kt:362 | A status text and its lower-case form map to the same code. |
| Details.StatusIgnoresPadding | src/en/hianime2/src/en/zoro/src/eu/kanade/tachiyomi/animeextension/en/hianime/HiAnime.kt:362 | Surrounding whitespace does not change the code. |
| Subtitles.CaptionTracksMembers | src/en/hianime2/src/en/zoro/src/eu/kanade/tachiyomi/animeextension/en/hianime/HiAnime.kt:219-225 | A track is collected exactly when some "captions" entry with a non-empty ".vtt" file gives it, labelled with its label or "Subtitle". |
| Subtitles.CaptionTracks | src/en/hianime2/src/en/zoro/src/eu/kanade/tachiyomi/animeextension/en/hianime/HiAnime.kt:219-225 | There are never more tracks than entries, and every collected subtitle URL is a non-empty ".vtt" address. |
| Subtitles.DistinctSameUrls | src/en/hianime2/src/en/zoro/src/eu/kanade/tachiyomi/animeextension/en/hianime/HiAnime.kt:249 | `distinctBy { it.url }` keeps exactly the URLs of its input. |
| Subtitles.DistinctByUrl | src/en/hianime2/src/en/zoro/src/eu/kanade/tachiyomi/animeextension/en/hianime/HiAnime.kt:249 | Deduplication never lengthens the list and keeps only tracks of its input. |
| Subtitles.DistinctIsFirstOfEachUrl | src/en/hianime2/src/en/zoro/src/eu/kanade/tachiyomi/animeextension/en/hianime/HiAnime.kt:249 | Deduplication keeps exactly the first track of each URL, in order. |
| Subtitles.DistinctHasNoDuplicates | src/en/hianime2/src/en/zoro/src/eu/kanade/tachiyomi/animeextension/en/hianime/HiAnime.kt:249 | No URL appears twice after deduplication. |
| Subtitles.DistinctOfDistinct | src/en/hianime2/src/en/zoro/src/eu/kanade/tachiyomi/animeextension/en/hianime/HiAnime.kt:249 | A list without repeated URLs is left as it is. |
| Subtitles.DistinctIdempotent | src/en/hianime2/src/en/zoro/src/eu/kanade/tachiyomi/animeextension/en/hianime/HiAnime.kt:249 | Deduplicating twice is the same as deduplicating once. |
| Assembly.ProcessServer | src/en/hianime2/src/en/zoro/src/eu/kanade/tachiyomi/animeextension/en/hianime/HiAnime.kt:178-235 | One iteration changes the three collections exactly as ServerStep specifies. |
| Assembly.ProcessServerList | src/en/hianime2/src/en/zoro/src/eu/kanade/tachiyomi/animeextension/en/hianime/HiAnime.kt:177-236 | The `forEach` leaves the collections as ProcessAll specifies over all servers. |
| Assembly.FetchVideoList | src/en/hianime2/src/en/zoro/src/eu/kanade/tachiyomi/animeextension/en/hianime/HiAnime.kt:151-253 | The method returns what VideoList specifies. |
| Assembly.AttachSubtitles | src/en/hianime2/src/en/zoro/src/eu/kanade/tachiyomi/animeextension/en/hianime/HiAnime.kt:248-252 | The `map` copies every video with the given subtitle list. |
| Assembly.SkippedServer | src/en/hianime2/src/en/zoro/src/eu/kanade/tachiyomi/animeextension/en/hianime/HiAnime.kt:182-234 | A server that adds nothing: it has no id, its request fails or is not successful, its body does not decode, or it is encrypted. Such a server adds no video and no track. |
| Assembly.DecodedServer | src/en/hianime2/src/en/zoro/src/eu/kanade/tachiyomi/animeextension/en/hianime/HiAnime.kt:200-225 | A decoded, unencrypted server appends its caption tracks even when its source is a duplicate, and adds its first source's URL, if non-empty, to the handled set. |
| Assembly.SourceStep | src/en/hianime2/src/en/zoro/src/eu/kanade/tachiyomi/animeextension/en/hianime/HiAnime.kt:201-216 | Handling a source keeps the subtitles and only appends videos. It records a non-empty URL as handled whatever its type and whether or not its playlist could be read. |
| Assembly.DuplicateSource | src/en/hianime2/src/en/zoro/src/eu/kanade/tachiyomi/animeextension/en/hianime/HiAnime.kt:202 | A source URL already handled changes nothing. |
| Assembly.Mp4Source | src/en/hianime2/src/en/zoro/src/eu/kanade/tachiyomi/animeextension/en/hianime/HiAnime.kt:213-214 | A new mp4 source appends exactly one video "<name> SUB - MP4" on its URL. |
| Assembly.HlsSource | src/en/hianime2/src/en/zoro/src/eu/kanade/tachiyomi/animeextension/en/hianime/HiAnime.kt:203-212 | A new HLS source appends the playlist's videos (at least one) on success. It appends nothing when the playlist is unreachable or its URL invalid, the failures being caught. |
| Assembly.OtherSource | src/en/hianime2/src/en/zoro/src/eu/kanade/tachiyomi/animeextension/en/hianime/HiAnime.kt:203-216 | A source of another type, or "hls" without ".m3u8", adds no video. |
| Assembly.OnlyFirstSource | src/en/hianime2/src/en/zoro/src/eu/kanade/tachiyomi/animeextension/en/hianime/HiAnime.kt:201 | Only `sources[0]` matters: dropping the later sources changes nothing. |
| Assembly.ServerStep | src/en/hianime2/src/en/zoro/src/eu/kanade/tachiyomi/animeextension/en/hianime/HiAnime.kt:178-235 | One server only appends videos and subtitles, and adds to the handled set exactly the source URL it claims, if any. |
| Assembly.ProcessAll | src/en/hianime2/src/en/zoro/src/eu/kanade/tachiyomi/animeextension/en/hianime/HiAnime.kt:173-236 | The fold only appends videos and subtitles. The handled set is the initial one plus the source URLs the servers claimed. |
| Assembly.SourceExpandedOnce | src/en/hianime2/src/en/zoro/src/eu/kanade/tachiyomi/animeextension/en/hianime/HiAnime.kt:175-202 | A later server claiming an already claimed source URL adds no video. |
| Assembly.Finish | src/en/hianime2/src/en/zoro/src/eu/kanade/tachiyomi/animeextension/en/hianime/HiAnime.kt:243-252 | The call fails with "no playable source" exactly when no video was collected, and otherwise returns one video per collected video. |
| Assembly.FinishedVideos | src/en/hianime2/src/en/zoro/src/eu/kanade/tachiyomi/animeextension/en/hianime/HiAnime.kt:248-252 | A success returns the collected videos in order, unchanged apart from the subtitle list, which is the deduplicated one. |
| Assembly.SharedSubtitles | src/en/hianime2/src/en/zoro/src/eu/kanade/tachiyomi/animeextension/en/hianime/HiAnime.kt:248-252 | Every returned video carries the same subtitle list. It has no repeated URL and has every collected URL. |
| Assembly.MissingIdBeforeAnyRequest | src/en/hianime2/src/en/zoro/src/eu/kanade/tachiyomi/animeextension/en/hianime/HiAnime.kt:153-156 | Without an episode id, the call fails before any request, whatever the network answers. |
| Assembly.VideoList | src/en/hianime2/src/en/zoro/src/eu/kanade/tachiyomi/animeextension/en/hianime/HiAnime.kt:151-253 | Without an episode id the call fails with `MissingEpisodeId`. A successful call returns at least one video. |
| Search.SearchQueryParameters | src/en/hianime2/src/en/zoro/src/eu/kanade/tachiyomi/animeextension/en/hianime/HiAnime.kt:397-414 | The query always has the keyword and the page, and the page parses back to the number. Each filter parameter is present exactly when its field differs from its default, and then carries the field's value. |
| Search.SearchQuery | src/en/hianime2/src/en/zoro/src/eu/kanade/tachiyomi/animeextension/en/hianime/HiAnime.kt:401-411 | The query starts with the keyword and the page, and holds at most the eight filter parameters besides. |
| Search.SearchRequest | src/en/hianime2/src/en/zoro/src/eu/kanade/tachiyomi/animeextension/en/hianime/HiAnime.kt:397-414 | The request always targets "<base>/filter", its query starting with the keyword and the page. |
| Search.FieldParameter | src/en/hianime2/src/en/zoro/src/eu/kanade/tachiyomi/animeextension/en/hianime/HiAnime.kt:404-411 | Each optional parameter is present exactly when its field is not at its default. |
| Search.NonDefaultLookup | src/en/hianime2/src/en/zoro/src/eu/kanade/tachiyomi/animeextension/en/hianime/HiAnime.kt:404-411 | Among distinctly named fields, a field is found exactly when it differs from its default. |
| Search.DefaultSearchQuery | src/en/hianime2/src/en/zoro/src/eu/kanade/tachiyomi/animeextension/en/hianime/HiAnime.kt:401-411 | Default parameters add nothing beyond the keyword and the page. |
| Search.UntouchedFiltersSearch | src/en/hianime2/src/en/zoro/src/eu/kanade/tachiyomi/animeextension/en/hianime/HiAnime.kt:391-394 | A search from a fresh filter list sends only the keyword and the page. |
| Filters.SelectValue | src/en/hianime2/src/eu/kanade/tachiyomi/animeextension/en/hianime/HiAnimeFilters.kt:19 | `getValue()` yields a value exactly when the chosen index is within the options. Otherwise the source throws. |
| Filters.NewGroup | src/en/hianime2/src/eu/kanade/tachiyomi/animeextension/en/hianime/HiAnimeFilters.kt:22-35 | A group filter holds one unticked checkbox per (name, value) pair, in order. |
| Filters.CheckedValuesMembers | src/en/hianime2/src/eu/kanade/tachiyomi/animeextension/en/hianime/HiAnimeFilters.kt:30-33 | A value is in the group's value exactly when some ticked box carries it. |
| Filters.CheckedValuesConcat | src/en/hianime2/src/eu/kanade/tachiyomi/animeextension/en/hianime/HiAnimeFilters.kt:30-33 | Ticked values keep the order of their boxes. |
| Filters.CheckedValues | src/en/hianime2/src/eu/kanade/tachiyomi/animeextension/en/hianime/HiAnimeFilters.kt:30-32 | There are never more values than boxes, and none when no box is ticked. |
| Filters.GroupValue | src/en/hianime2/src/eu/kanade/tachiyomi/animeextension/en/hianime/HiAnimeFilters.kt:30-33 | With no box ticked, the group's value is "". |
| Filters.GroupValueSplits | src/en/hianime2/src/eu/kanade/tachiyomi/animeextension/en/hianime/HiAnimeFilters.kt:30-33 | When some box is ticked and no value holds a comma, splitting the joined value on "," gives back the ticked values. |
| Filters.FirstSelectWins | src/en/hianime2/src/eu/kanade/tachiyomi/animeextension/en/hianime/HiAnimeFilters.kt:174-187 | The first select filter with the query decides the parameter. |
| Filters.FirstSelectValue | src/en/hianime2/src/eu/kanade/tachiyomi/animeextension/en/hianime/HiAnimeFilters.kt:174-187 | Without a select filter for the query, the default is used. A missing value means the first select filter for the query has its index out of range. |
| Filters.FirstGroupWins | src/en/hianime2/src/eu/kanade/tachiyomi/animeextension/en/hianime/HiAnimeFilters.kt:188-189 | The first group filter with the query decides the genres. |
| Filters.FirstGroupValue | src/en/hianime2/src/eu/kanade/tachiyomi/animeextension/en/hianime/HiAnimeFilters.kt:188-189 | Without a group filter for the query, the default ("" for genres) is used. |
| Filters.OnlySeparatorsGiveDefaults | src/en/hianime2/src/eu/kanade/tachiyomi/animeextension/en/hianime/HiAnimeFilters.kt:170-190 | A list with no query filter gives the default parameters, as the empty list does. |
| Filters.GetSearchParameters | src/en/hianime2/src/eu/kanade/tachiyomi/animeextension/en/hianime/HiAnimeFilters.kt:170-191 | An empty filter list gives `SearchParameters()`. A missing result means some select filter has its index out of range, where the source throws. |
| Filters.OptionListsStartWithDefault | src/en/hianime2/src/eu/kanade/tachiyomi/animeextension/en/hianime/HiAnimeFilters.kt:38-101 | Every select option list starts, at the index the filter starts on, with its default value. |
| Filters.FreshListGivesDefaults | src/en/hianime2/src/eu/kanade/tachiyomi/animeextension/en/hianime/HiAnimeFilters.kt:147-190 | Untouched filters laid out as `FILTER_LIST` give the default parameters, provided each option list starts with its default. |
| Filters.UntouchedFiltersGiveDefaults | src/en/hianime2/src/eu/kanade/tachiyomi/animeextension/en/hianime/HiAnimeFilters.kt:147-168 | A fresh `FILTER_LIST` gives exactly `SearchParameters()`. |

## Left out

- Network, Rx `Observable`s, OkHttp calls and headers are left out: every answer is an input of the model (`Web`, `Fetch`).
- The network is modelled as deterministic per request: `Web.sources` answers by server id, so two server items with the same data-id get the same answer, whereas the source issues a separate request for each.
- Jsoup HTML parsing and JSON decoding are left out. Their results (elements' attributes and texts, decoded DTOs) are inputs.
- OkHttp's `toHttpUrlOrNull` and `HttpUrl.resolve` are uninterpreted functions. `MasterBase` models the path edit only.
- Percent-encoding of query parameters is left out. The request is modelled as its (name, value) pairs in order.
- Exception messages and `println` logging are left out. Each error path is a distinct `VideoError`/`HlsError` or `None`.
- `episode_number` (`toFloatOrNull`) is left out: floating point.
- `setUrlWithoutDomain(href)` is left out, since the source overwrites the url with `href` right after.
- The commented-out DUB pass is left out. Only the SUB servers are processed, as in the code.
- Lower-casing and digits are ASCII only: Kotlin's Unicode `lowercase` and digit classes are not modelled. Whitespace follows Kotlin's `Char.isWhitespace`, Unicode spaces included.
- Filters.SelectValue: a chosen index out of range, where the source throws `IndexOutOfBoundsException`, is modelled as None.
- The popular/latest listings, anime-details parsing beyond `parseStatus`, and the preferences are not part of this model.
