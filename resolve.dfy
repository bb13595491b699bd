/**
 * Choosing the media url from a youtube_dl `extract_info` result. The two
 * pipeline variants carry the same `get_yt_dl_url`; it is modelled once here.
 */
module Resolve {
  import opened Wrappers
  import opened Media

  /**
   * The part of an `extract_info` result that is read: its own `url`, when it
   * has one, and, for a playlist, its list of `entries`.
   */
  datatype Info = Info(url: Option<string>, entries: Option<seq<Info>>)

  /** `video['url']`, which raises KeyError when the key is absent. */
  function UrlOf(video: Info): Result<string, Error>
  {
    match video.url
    case Some(u) => Success(u)
    case None => Failure(MissingUrl)
  }

  /**
   * The url of the video: that of the first playlist entry when the result has
   * `entries`, that of the result itself otherwise.
   */
  function VideoUrl(result: Info): Result<string, Error>
  {
    match result.entries
    case Some(videos) =>
      if videos == [] then Failure(EmptyPlaylist) else UrlOf(videos[0])
    case None => UrlOf(result)
  }

  /**
   * A playlist resolves to the `url` of its first entry, whatever url the
   * playlist itself carries; the entry's own `entries`, if any, are not looked into.
   */
  lemma PlaylistResolvesToFirstEntry(own: Option<string>, first: Info, rest: seq<Info>)
    ensures VideoUrl(Info(own, Some([first] + rest))) == UrlOf(first)
  {
  }

  /** The url is found exactly when the chosen video carries one. */
  lemma VideoUrlFound(result: Info)
    ensures VideoUrl(result).Success? <==>
      if result.entries.Some?
      then result.entries.value != [] && result.entries.value[0].url.Some?
      else result.url.Some?
  {
  }

  /**
   * What is returned, or raised: the chosen video's url; IndexError for an
   * empty playlist; KeyError for a chosen video without a url.
   */
  lemma VideoUrlOutcome(result: Info)
    ensures VideoUrl(result) == Failure(EmptyPlaylist) <==> result.entries == Some([])
    ensures VideoUrl(result) == Failure(MissingUrl) <==>
      if result.entries.Some?
      then result.entries.value != [] && result.entries.value[0].url.None?
      else result.url.None?
    ensures VideoUrl(result).Success? ==>
      VideoUrl(result).value ==
        if result.entries.Some? then result.entries.value[0].url.value else result.url.value
  {
  }
}
