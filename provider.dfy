/** The data provider, seen from the dashboard: the four list requests it
 *  issues and the parts of the JSON responses it reads.
 *
 *  A response field reached by a chain of subscripts such as
 *  `item["snippet"]["title"]` is one `Option` field here: `None` stands for
 *  "some key on that path is absent", which makes the subscript raise
 *  KeyError. A `statistics` object is kept as the map from field name to the
 *  count text the provider sends, because the dashboard reads it with
 *  `.get(name, 0)`. */
module Provider {
  import opened Results
  import opened Numbers

  /** `youtube.search().list(part=…, q=…, type=…, maxResults=…)` */
  datatype SearchRequest = SearchRequest(part: string, q: string, kind: string, maxResults: nat)

  /** `youtube.channels().list(part=…, id=…)` */
  datatype ChannelsRequest = ChannelsRequest(part: string, id: string)

  /** `youtube.playlistItems().list(part=…, playlistId=…, maxResults=…)` */
  datatype PlaylistItemsRequest = PlaylistItemsRequest(part: string, playlistId: string, maxResults: nat)

  /** `youtube.videos().list(part=…, id=…)`; `id` is a comma-joined id list. */
  datatype VideosRequest = VideosRequest(part: string, id: string)

  /** A response body; `items` is None when the body has no "items" key. */
  datatype Response<T> = Response(items: Option<seq<T>>)

  /** A search hit: `snippet.channelId`. */
  datatype SearchItem = SearchItem(channelId: Option<string>)

  /** A channel: `snippet.title`, `snippet.description`, `statistics`,
   *  `contentDetails.relatedPlaylists.uploads`. */
  datatype ChannelItem = ChannelItem(
    title: Option<string>,
    description: Option<string>,
    statistics: Option<map<string, string>>,
    uploads: Option<string>)

  /** An entry of the uploads playlist: `snippet.title`, `contentDetails.videoId`. */
  datatype PlaylistItem = PlaylistItem(title: Option<string>, videoId: Option<string>)

  /** A video: `snippet.title`, `statistics`. */
  datatype VideoItem = VideoItem(title: Option<string>, statistics: Option<map<string, string>>)

  /** `not response.get("items")`: the key is absent or the list is empty. */
  predicate NoItems<T>(response: Response<T>)
  {
    response.items.None? || response.items.value == []
  }

  /** What `request.execute()` gives: the body, or the exception it raised. */
  type Reply<T> = Result<Response<T>, Fault>

  /** `int(statistics.get(key, 0))`: an absent count is 0, a present one must
   *  parse as an integer or the call raises ValueError. */
  function Count(statistics: map<string, string>, key: string): (r: Result<int, Fault>)
    ensures key !in statistics ==> r == Ok(0)
    ensures key in statistics ==>
              (r.Ok? <==> ParseInt(statistics[key]).Some?) &&
              (r.Ok? ==> ParseInt(statistics[key]) == Some(r.value)) &&
              (r.Err? ==> r.error == ValueError)
  {
    if key !in statistics then Ok(0)
    else
      match ParseInt(statistics[key])
      case Some(n) => Ok(n)
      case None => Err(ValueError)
  }

  /** `int(statistics.get(key, 0))` does not raise. */
  predicate CountParses(statistics: map<string, string>, key: string)
  {
    key !in statistics || ParseInt(statistics[key]).Some?
  }

  /** n is the count that `statistics` gives for key: the parsed text when
   *  the key is present, and 0 when it is absent. */
  predicate CountIs(statistics: map<string, string>, key: string, n: int)
  {
    if key in statistics then ParseInt(statistics[key]) == Some(n) else n == 0
  }

  /** A count the provider sent as `str(n)` is read back as n. */
  lemma CountRoundTrip(statistics: map<string, string>, key: string, n: int)
    requires key in statistics && statistics[key] == IntText(n)
    ensures Count(statistics, key) == Ok(n)
  {
    ParseIntRoundTrip(n);
  }
}
