/** The values the extension hands to the app, and the URL shape it works on. */
module Media {
  import opened Wrappers

  /** A subtitle track: its file URL and its display label. */
  datatype Track = Track(url: string, lang: string)

  /** A playable stream. `quality` is the label the app shows; the extension
      always sets `videoUrl` to the same text as `url`. */
  datatype Video = Video(url: string, quality: string, videoUrl: string, subtitleTracks: seq<Track>)

  /** A parsed absolute http(s) URL, with its path as a list of segments (an
      http URL always has at least one, possibly empty, segment). */
  datatype HttpUrl = HttpUrl(origin: string, segments: seq<string>, query: Option<string>, fragment: Option<string>)

  /** The outcome of one blocking HTTP call: a transport failure (the source's
      IOException), or the response body. */
  datatype Fetch<+T> = NetworkError | Body(value: T)
}
