/** Listing the most recent uploads of a channel (`get_videos`): one request
 *  for the uploads playlist, one video record per returned entry, and an
 *  empty list whenever anything raises. */
module Uploads {
  import opened Results
  import opened Provider

  const WatchPrefix := "https://www.youtube.com/watch?v="

  /** A video record: `Video_Title`, `Video_ID`, `Video_URL`. */
  datatype Video = Video(title: string, id: string, url: string)

  /** The watch URL of a video: the fixed prefix, then the id, unescaped. */
  function WatchUrl(id: string): string
  {
    WatchPrefix + id
  }

  /** The video id a watch URL carries, if it is one. */
  function VideoIdOf(url: string): Option<string>
  {
    if |url| >= |WatchPrefix| && url[..|WatchPrefix|] == WatchPrefix
    then Some(url[|WatchPrefix|..]) else None
  }

  /** Every watch URL carries back its id, so distinct ids get distinct URLs. */
  lemma WatchUrlRoundTrip(id: string)
    ensures VideoIdOf(WatchUrl(id)) == Some(id)
  {
    var url := WatchUrl(id);
    assert url[..|WatchPrefix|] == WatchPrefix;
    assert url[|WatchPrefix|..] == id;
  }

  /** The request `get_videos` issues. */
  function PlaylistQuery(playlistId: string, maxResults: nat): PlaylistItemsRequest
  {
    PlaylistItemsRequest("snippet,contentDetails", playlistId, maxResults)
  }

  /** The dict appended for one playlist entry; an absent title or video id
   *  raises KeyError. */
  function VideoRecord(item: PlaylistItem): (r: Result<Video, Fault>)
    ensures r.Ok? <==> item.title.Some? && item.videoId.Some?
    ensures r.Ok? ==>
              && r.value.title == item.title.value
              && r.value.id == item.videoId.value
              && VideoIdOf(r.value.url) == Some(r.value.id)
    ensures r.Err? ==> r.error == KeyError
  {
    if item.title.None? || item.videoId.None? then Err(KeyError)
    else
      WatchUrlRoundTrip(item.videoId.value);
      Ok(Video(item.title.value, item.videoId.value, WatchUrl(item.videoId.value)))
  }

  /** What `get_videos` returns for a reply: the records of all entries, or
   *  the empty list when the call raised, the body has no "items" key, or an
   *  entry lacks a field. */
  function VideosOf(reply: Reply<PlaylistItem>): seq<Video>
  {
    if reply.Err? || reply.value.items.None? then []
    else
      match MapAll(VideoRecord, reply.value.items.value)
      case Ok(videos) => videos
      case Err(_) => []
  }

  /** `get_videos`: one record per playlist entry, in response order, each
   *  with its watch URL; everything or nothing. */
  lemma VideosOfSpec(reply: Reply<PlaylistItem>)
    ensures var videos := VideosOf(reply);
            if reply.Ok? && reply.value.items.Some? &&
               (forall j :: 0 <= j < |reply.value.items.value| ==>
                  VideoRecord(reply.value.items.value[j]).Ok?)
            then
              var items := reply.value.items.value;
              && |videos| == |items|
              && (forall j :: 0 <= j < |items| ==>
                    && videos[j].title == items[j].title.value
                    && videos[j].id == items[j].videoId.value
                    && videos[j].url == WatchUrl(videos[j].id))
            else videos == []
  {
    if reply.Ok? && reply.value.items.Some? {
      MapAllSpec(VideoRecord, reply.value.items.value);
    }
  }

  /** `get_videos(youtube, playlist_id, max_results=20)`: the loop appends
   *  one record per entry and gives up with `[]` on the first exception. */
  method GetVideos(list: PlaylistItemsRequest -> Reply<PlaylistItem>, playlistId: string,
                   maxResults: nat := 20)
    returns (videos: seq<Video>)
    ensures videos == VideosOf(list(PlaylistQuery(playlistId, maxResults)))
  {
    videos := [];
    var reply := list(PlaylistQuery(playlistId, maxResults));
    if reply.Err? || reply.value.items.None? {
      return [];
    }
    var items := reply.value.items.value;
    var j := 0;
    while j < |items|
      invariant 0 <= j <= |items|
      invariant MapAll(VideoRecord, items[..j]) == Ok(videos)
    {
      assert items[..j + 1][..j] == items[..j];
      var record := VideoRecord(items[j]);
      if record.Err? {
        MapAllSpec(VideoRecord, items);
        return [];
      }
      videos := videos + [record.value];
      j := j + 1;
    }
    assert items[..j] == items;
  }
}
