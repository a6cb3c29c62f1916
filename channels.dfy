/** Resolving a channel name to a channel id, and fetching the channel's
 *  profile. Both fetchers catch only HttpError: any other exception (a
 *  transport failure, an absent key, a count that is not a number) escapes
 *  to the caller, which is an `Err` here. */
module Channels {
  import opened Results
  import opened Numbers
  import opened Provider

  const PlaylistKey := "Playlist_ID"

  /** The channel record: the dict built from the first channel item. */
  datatype ChannelInfo = ChannelInfo(
    channelName: string,
    description: string,
    subscribers: int,
    totalViews: int,
    totalVideos: int,
    playlistId: string)
  {
    /** The dict's items in insertion order, each value as `str()` renders
     *  it; the uploads playlist id is the last item and the only one under
     *  the key Playlist_ID. */
    function Items(): (r: seq<(string, string)>)
      ensures |r| == 6 && r[5] == (PlaylistKey, playlistId)
      ensures forall i :: 0 <= i < 5 ==> r[i].0 != PlaylistKey
    {
      [("Channel_Name", channelName),
       ("Description", description),
       ("Subscribers", IntText(subscribers)),
       ("Total_Views", IntText(totalViews)),
       ("Total_Videos", IntText(totalVideos)),
       (PlaylistKey, playlistId)]
    }
  }

  /** The one search the resolver issues: channels only, one result. */
  function SearchQuery(name: string): SearchRequest
  {
    SearchRequest("snippet", name, "channel", 1)
  }

  /** The one channels request the profile fetcher issues. */
  function ChannelsQuery(channelId: string): ChannelsRequest
  {
    ChannelsRequest("snippet,contentDetails,statistics", channelId)
  }

  /** `get_channel_id_from_name`: the first hit's channel id; None when the
   *  search has no hits or raised HttpError; any other exception escapes. */
  function GetChannelIdFromName(search: SearchRequest -> Reply<SearchItem>, name: string)
    : (r: Result<Option<string>, Fault>)
    ensures var reply := search(SearchQuery(name));
            && (r == Ok(None) <==> reply == Err(HttpError) || (reply.Ok? && NoItems(reply.value)))
            && (r.Ok? && r.value.Some? <==>
                  reply.Ok? && !NoItems(reply.value) && reply.value.items.value[0].channelId.Some?)
            && (r.Ok? && r.value.Some? ==> r.value.value == reply.value.items.value[0].channelId.value)
            && (reply.Ok? && !NoItems(reply.value) && reply.value.items.value[0].channelId.None? ==>
                  r == Err(KeyError))
            && (reply.Err? && reply.error != HttpError ==> r == Err(reply.error))
            && (r.Err? ==> r.error != HttpError)
  {
    match search(SearchQuery(name))
    case Err(HttpError) => Ok(None)
    case Err(e) => Err(e)
    case Ok(response) =>
      if NoItems(response) then Ok(None)
      else
        match response.items.value[0].channelId
        case Some(id) => Ok(Some(id))
        case None => Err(KeyError)
  }

  /** The dict literal of `get_channel_stats`, its entries evaluated in
   *  order: an absent title, description, statistics object or uploads id
   *  raises KeyError, a count that does not parse raises ValueError, and an
   *  absent count is 0. */
  function ChannelRecord(item: ChannelItem): (r: Result<ChannelInfo, Fault>)
    ensures r.Ok? <==>
              && item.title.Some? && item.description.Some?
              && item.statistics.Some? && item.uploads.Some?
              && CountParses(item.statistics.value, "subscriberCount")
              && CountParses(item.statistics.value, "viewCount")
              && CountParses(item.statistics.value, "videoCount")
    ensures r.Ok? ==>
              && r.value.channelName == item.title.value
              && r.value.description == item.description.value
              && r.value.playlistId == item.uploads.value
              && CountIs(item.statistics.value, "subscriberCount", r.value.subscribers)
              && CountIs(item.statistics.value, "viewCount", r.value.totalViews)
              && CountIs(item.statistics.value, "videoCount", r.value.totalVideos)
    ensures r.Err? ==> r.error == KeyError || r.error == ValueError
    ensures item.title.None? || item.description.None? || item.statistics.None? ==> r == Err(KeyError)
    ensures item.title.Some? && item.description.Some? && item.statistics.Some? ==>
              var statistics := item.statistics.value;
              && (r == Err(ValueError) <==>
                    !(&& CountParses(statistics, "subscriberCount")
                      && CountParses(statistics, "viewCount")
                      && CountParses(statistics, "videoCount")))
              && (r == Err(KeyError) <==>
                    && CountParses(statistics, "subscriberCount")
                    && CountParses(statistics, "viewCount")
                    && CountParses(statistics, "videoCount")
                    && item.uploads.None?)
  {
    if item.title.None? || item.description.None? || item.statistics.None? then Err(KeyError)
    else
      var statistics := item.statistics.value;
      match Count(statistics, "subscriberCount")
      case Err(e) => Err(e)
      case Ok(subscribers) =>
        match Count(statistics, "viewCount")
        case Err(e) => Err(e)
        case Ok(views) =>
          match Count(statistics, "videoCount")
          case Err(e) => Err(e)
          case Ok(videos) =>
            if item.uploads.None? then Err(KeyError)
            else Ok(ChannelInfo(item.title.value, item.description.value,
                                subscribers, views, videos, item.uploads.value))
  }

  /** `get_channel_stats`: the record of the first channel item; None when
   *  there is no item or the request raised HttpError; any other exception,
   *  including the shaping errors of ChannelRecord, escapes. */
  function GetChannelStats(channels: ChannelsRequest -> Reply<ChannelItem>, channelId: string)
    : (r: Result<Option<ChannelInfo>, Fault>)
    ensures var reply := channels(ChannelsQuery(channelId));
            && (r == Ok(None) <==> reply == Err(HttpError) || (reply.Ok? && NoItems(reply.value)))
            && (reply.Ok? && !NoItems(reply.value) ==>
                  var record := ChannelRecord(reply.value.items.value[0]);
                  && (r.Ok? <==> record.Ok?) && (r.Ok? ==> r.value == Some(record.value))
                  && (record.Err? ==> r == Err(record.error)))
            && (reply.Err? && reply.error != HttpError ==> r == Err(reply.error))
            && (r.Err? ==> r.error != HttpError)
  {
    match channels(ChannelsQuery(channelId))
    case Err(HttpError) => Ok(None)
    case Err(e) => Err(e)
    case Ok(response) =>
      if NoItems(response) then Ok(None)
      else
        match ChannelRecord(response.items.value[0])
        case Ok(info) => Ok(Some(info))
        case Err(e) => Err(e)
  }
}
