/** Fetching per-video statistics (`get_video_stats`): the id list is cut
 *  into contiguous slices of at most 50 ids, one provider call per slice,
 *  and the rows of all slices are accumulated in order. Any exception, in
 *  any slice, discards everything: the result is the empty table. */
module Batching {
  import opened Results
  import opened Provider

  /** The provider's ceiling on ids per statistics request. */
  const BatchSize := 50

  /** A row of the statistics table: `Video_Title`, `Views`, `Likes`, `Comments`. */
  datatype VideoStats = VideoStats(title: string, views: int, likes: int, comments: int)

  function Min(a: int, b: int): int { if a <= b then a else b }

  /** `len(range(0, n, 50))`: the number of slices of an n-id list. */
  function SliceCount(n: nat): nat
  {
    (n + BatchSize - 1) / BatchSize
  }

  /** The slice starting at offset 50k is not empty. */
  lemma SliceStartsInside(n: nat, k: nat)
    requires k < SliceCount(n)
    ensures BatchSize * k < n
  {
    assert BatchSize * SliceCount(n) <= n + BatchSize - 1;
    assert BatchSize * (k + 1) <= BatchSize * SliceCount(n);
  }

  /** `video_ids[50 * k : 50 * k + 50]`. */
  function Slice(ids: seq<string>, k: nat): (s: seq<string>)
    requires k < SliceCount(|ids|)
    ensures 0 < |s| <= BatchSize
  {
    SliceStartsInside(|ids|, k);
    ids[BatchSize * k .. Min(BatchSize * k + BatchSize, |ids|)]
  }

  /** The slices `get_video_stats` requests, in request order. */
  function Slices(ids: seq<string>): seq<seq<string>>
  {
    seq(SliceCount(|ids|), k requires 0 <= k < SliceCount(|ids|) => Slice(ids, k))
  }

  /** Concatenation of a sequence of sequences. */
  function Flatten<T>(xss: seq<seq<T>>): seq<T>
  {
    if xss == [] then [] else Flatten(xss[..|xss| - 1]) + xss[|xss| - 1]
  }

  /** `",".join(ids)`. */
  function Join(ids: seq<string>): string
  {
    if |ids| <= 1 then (if ids == [] then "" else ids[0])
    else Join(ids[..|ids| - 1]) + "," + ids[|ids| - 1]
  }

  /** The request for one slice. */
  function StatsQuery(slice: seq<string>): VideosRequest
  {
    VideosRequest("snippet,statistics", Join(slice))
  }

  /** The requests `get_video_stats` issues when no slice fails. */
  function Requests(ids: seq<string>): (r: seq<VideosRequest>)
    ensures |r| == |Slices(ids)|
  {
    seq(|Slices(ids)|, k requires 0 <= k < |Slices(ids)| => StatsQuery(Slices(ids)[k]))
  }

  /** The row appended for one video; an absent title or statistics object
   *  raises KeyError, a count that is not a number ValueError, and an
   *  absent count is 0. */
  function StatsRow(item: VideoItem): (r: Result<VideoStats, Fault>)
    ensures r.Ok? <==>
              && item.title.Some? && item.statistics.Some?
              && CountParses(item.statistics.value, "viewCount")
              && CountParses(item.statistics.value, "likeCount")
              && CountParses(item.statistics.value, "commentCount")
    ensures r.Ok? ==>
              && r.value.title == item.title.value
              && CountIs(item.statistics.value, "viewCount", r.value.views)
              && CountIs(item.statistics.value, "likeCount", r.value.likes)
              && CountIs(item.statistics.value, "commentCount", r.value.comments)
    ensures r.Err? ==> r.error == KeyError || r.error == ValueError
  {
    if item.title.None? || item.statistics.None? then Err(KeyError)
    else
      var statistics := item.statistics.value;
      match Count(statistics, "viewCount")
      case Err(e) => Err(e)
      case Ok(views) =>
        match Count(statistics, "likeCount")
        case Err(e) => Err(e)
        case Ok(likes) =>
          match Count(statistics, "commentCount")
          case Err(e) => Err(e)
          case Ok(comments) => Ok(VideoStats(item.title.value, views, likes, comments))
  }

  /** The rows of one slice's reply; a raised call or a body without "items"
   *  fails. */
  function SliceRows(reply: Reply<VideoItem>): Result<seq<VideoStats>, Fault>
  {
    match reply
    case Err(e) => Err(e)
    case Ok(response) =>
      if response.items.None? then Err(KeyError) else MapAll(StatsRow, response.items.value)
  }

  /** The rows of the given slices, accumulated in request order, or the
   *  first exception. */
  function CollectRows(fetch: VideosRequest -> Reply<VideoItem>, slices: seq<seq<string>>)
    : Result<seq<VideoStats>, Fault>
  {
    if slices == [] then Ok([])
    else
      match CollectRows(fetch, slices[..|slices| - 1])
      case Err(e) => Err(e)
      case Ok(rows) =>
        match SliceRows(fetch(StatsQuery(slices[|slices| - 1])))
        case Err(e) => Err(e)
        case Ok(more) => Ok(rows + more)
  }

  /** The table `get_video_stats` returns: all rows, or none at all. */
  function StatsTable(fetch: VideosRequest -> Reply<VideoItem>, ids: seq<string>): seq<VideoStats>
  {
    match CollectRows(fetch, Slices(ids))
    case Ok(rows) => rows
    case Err(_) => []
  }

  /** The slices start at offsets 0, 50, 100, ...; there are ceil(N/50) of
   *  them, none empty, none longer than 50, and together they are the id
   *  list again. */
  lemma SlicesPartition(ids: seq<string>)
    ensures |Slices(ids)| == SliceCount(|ids|)
    ensures BatchSize * (|Slices(ids)| - 1) < |ids| <= BatchSize * |Slices(ids)|
    ensures forall k :: 0 <= k < |Slices(ids)| ==>
              Slices(ids)[k] == ids[BatchSize * k .. Min(BatchSize * k + BatchSize, |ids|)]
    ensures forall k :: 0 <= k < |Slices(ids)| ==> 0 < |Slices(ids)[k]| <= BatchSize
    ensures Flatten(Slices(ids)) == ids
  {
    var n := SliceCount(|ids|);
    if n > 0 {
      SliceStartsInside(|ids|, n - 1);
    }
    FlattenSlicesPrefix(ids, n);
    assert Slices(ids)[..n] == Slices(ids);
  }

  lemma {:induction false} FlattenSlicesPrefix(ids: seq<string>, k: nat)
    requires k <= SliceCount(|ids|)
    ensures Flatten(Slices(ids)[..k]) == ids[..Min(BatchSize * k, |ids|)]
  {
    if k > 0 {
      FlattenSlicesPrefix(ids, k - 1);
      SliceStartsInside(|ids|, k - 1);
      var slices := Slices(ids)[..k];
      assert slices[..k - 1] == Slices(ids)[..k - 1];
      assert slices[k - 1] == Slice(ids, k - 1);
      assert ids[..BatchSize * (k - 1)] + Slice(ids, k - 1) == ids[..Min(BatchSize * k, |ids|)];
    }
  }

  /** Accumulation succeeds exactly when every slice's reply yields rows. */
  lemma {:induction false} CollectRowsOk(fetch: VideosRequest -> Reply<VideoItem>,
                                         slices: seq<seq<string>>)
    ensures CollectRows(fetch, slices).Ok? <==>
              forall k :: 0 <= k < |slices| ==> SliceRows(fetch(StatsQuery(slices[k]))).Ok?
  {
    if slices != [] {
      var init := slices[..|slices| - 1];
      CollectRowsOk(fetch, init);
      assert forall k :: 0 <= k < |init| ==> init[k] == slices[k];
    }
  }

  /** Accumulation succeeds exactly when every slice's reply yields rows,
   *  and then the table is those rows, slice after slice. */
  lemma {:induction false} CollectRowsSpec(fetch: VideosRequest -> Reply<VideoItem>,
                                           slices: seq<seq<string>>)
    ensures CollectRows(fetch, slices).Ok? <==>
              forall k :: 0 <= k < |slices| ==> SliceRows(fetch(StatsQuery(slices[k]))).Ok?
    ensures CollectRows(fetch, slices).Ok? ==>
              CollectRows(fetch, slices).value ==
                Flatten(seq(|slices|, k requires 0 <= k < |slices| =>
                              SliceRows(fetch(StatsQuery(slices[k]))).value))
  {
    CollectRowsOk(fetch, slices);
    if slices != [] && CollectRows(fetch, slices).Ok? {
      var init := slices[..|slices| - 1];
      CollectRowsSpec(fetch, init);
      assert forall k :: 0 <= k < |init| ==> init[k] == slices[k];
      var all := seq(|slices|, k requires 0 <= k < |slices| =>
                       SliceRows(fetch(StatsQuery(slices[k]))).value);
      assert all[..|all| - 1] ==
             seq(|init|, k requires 0 <= k < |init| => SliceRows(fetch(StatsQuery(init[k]))).value);
    }
  }

  /** One slice's rows: one per returned item, in provider order. */
  lemma SliceRowsSpec(reply: Reply<VideoItem>)
    ensures SliceRows(reply).Ok? <==>
              reply.Ok? && reply.value.items.Some? &&
              forall j :: 0 <= j < |reply.value.items.value| ==> StatsRow(reply.value.items.value[j]).Ok?
    ensures SliceRows(reply).Ok? ==>
              var items := reply.value.items.value;
              |SliceRows(reply).value| == |items| &&
              forall j :: 0 <= j < |items| ==> SliceRows(reply).value[j] == StatsRow(items[j]).value
  {
    if reply.Ok? && reply.value.items.Some? {
      MapAllSpec(StatsRow, reply.value.items.value);
    }
  }

  /** All or nothing: if some slice's reply fails (the call raised, the body
   *  has no "items", or an item does not shape), the table is empty even
   *  when earlier slices had rows; otherwise it is the rows of slice 1,
   *  then slice 2, and so on. */
  lemma StatsTableAllOrNothing(fetch: VideosRequest -> Reply<VideoItem>, ids: seq<string>)
    ensures var slices := Slices(ids);
            if forall k :: 0 <= k < |slices| ==> SliceRows(fetch(StatsQuery(slices[k]))).Ok?
            then StatsTable(fetch, ids) ==
                   Flatten(seq(|slices|, k requires 0 <= k < |slices| =>
                                 SliceRows(fetch(StatsQuery(slices[k]))).value))
            else StatsTable(fetch, ids) == []
  {
    CollectRowsSpec(fetch, Slices(ids));
  }

  lemma {:induction false} FlattenLength<T, U>(xss: seq<seq<T>>, yss: seq<seq<U>>)
    requires |xss| == |yss|
    requires forall k :: 0 <= k < |xss| ==> |xss[k]| == |yss[k]|
    ensures |Flatten(xss)| == |Flatten(yss)|
  {
    if xss != [] {
      FlattenLength(xss[..|xss| - 1], yss[..|yss| - 1]);
    }
  }

  /** When the provider answers every slice with one well-formed item per
   *  requested id, the table has exactly one row per id. */
  lemma StatsTableOneRowPerId(fetch: VideosRequest -> Reply<VideoItem>, ids: seq<string>)
    requires forall k :: 0 <= k < |Slices(ids)| ==>
               var reply := fetch(StatsQuery(Slices(ids)[k]));
               && reply.Ok? && reply.value.items.Some?
               && |reply.value.items.value| == |Slices(ids)[k]|
               && forall j :: 0 <= j < |reply.value.items.value| ==> StatsRow(reply.value.items.value[j]).Ok?
    ensures |StatsTable(fetch, ids)| == |ids|
  {
    var slices := Slices(ids);
    forall k | 0 <= k < |slices|
      ensures SliceRows(fetch(StatsQuery(slices[k]))).Ok?
      ensures |SliceRows(fetch(StatsQuery(slices[k]))).value| == |slices[k]|
    {
      SliceRowsSpec(fetch(StatsQuery(slices[k])));
    }
    var rows := seq(|slices|, k requires 0 <= k < |slices| => SliceRows(fetch(StatsQuery(slices[k]))).value);
    StatsTableAllOrNothing(fetch, ids);
    FlattenLength(rows, slices);
    SlicesPartition(ids);
  }

  /** `get_video_stats`: for i in range(0, len(ids), 50) request the slice
   *  ids[i:i+50] and append one row per returned item; on any exception
   *  return the empty table. `issued` records the requests made: those of
   *  the slices up to and including the first that failed, or all of them. */
  method GetVideoStats(fetch: VideosRequest -> Reply<VideoItem>, videoIds: seq<string>)
    returns (table: seq<VideoStats>, ghost issued: seq<VideosRequest>)
    ensures table == StatsTable(fetch, videoIds)
    ensures |issued| <= |Slices(videoIds)| && issued == Requests(videoIds)[..|issued|]
    ensures 0 < |issued| ==> CollectRows(fetch, Slices(videoIds)[..|issued| - 1]).Ok?
    ensures |issued| < |Slices(videoIds)| ==> CollectRows(fetch, Slices(videoIds)[..|issued|]).Err?
    ensures CollectRows(fetch, Slices(videoIds)).Ok? ==> issued == Requests(videoIds)
  {
    var stats: seq<VideoStats> := [];
    issued := [];
    ghost var slices := Slices(videoIds);
    SliceCountCovers(|videoIds|);
    var i := 0;
    ghost var k := 0;
    while i < |videoIds|
      invariant i == BatchSize * k && k <= |slices|
      invariant k == |slices| ==> i >= |videoIds|
      invariant issued == Requests(videoIds)[..k]
      invariant CollectRows(fetch, slices[..k]) == Ok(stats)
    {
      RequestAt(videoIds, k, issued);
      var rows := FetchSlice(fetch, videoIds[i..Min(i + BatchSize, |videoIds|)]);
      issued := issued + [StatsQuery(slices[k])];
      if rows.Err? {
        CollectRowsFailed(fetch, slices, k);
        return [], issued;
      }
      CollectStep(fetch, slices, k, stats, rows.value);
      stats := stats + rows.value;
      i := i + BatchSize;
      k := k + 1;
    }
    assert slices[..k] == slices;
    assert Requests(videoIds)[..k] == Requests(videoIds);
    table := stats;
  }

  /** One pass of the outer loop: request the statistics of one slice of
   *  ids and shape one row per returned item. */
  method FetchSlice(fetch: VideosRequest -> Reply<VideoItem>, slice: seq<string>)
    returns (rows: Result<seq<VideoStats>, Fault>)
    ensures rows == SliceRows(fetch(StatsQuery(slice)))
  {
    var request := StatsQuery(slice);
    var reply := fetch(request);
    if reply.Err? {
      return Err(reply.error);
    }
    if reply.value.items.None? {
      return Err(KeyError);
    }
    rows := ShapeRows(reply.value.items.value);
  }

  /** The inner loop of `get_video_stats`: one row per item of a reply, in
   *  order, stopping at the first item that raises. */
  method ShapeRows(items: seq<VideoItem>) returns (rows: Result<seq<VideoStats>, Fault>)
    ensures rows == MapAll(StatsRow, items)
  {
    var shaped := [];
    var j := 0;
    while j < |items|
      invariant 0 <= j <= |items|
      invariant MapAll(StatsRow, items[..j]) == Ok(shaped)
    {
      var row := StatsRow(items[j]);
      if row.Err? {
        MapAllFirstError(StatsRow, items, j);
        return Err(row.error);
      }
      MapAllStep(StatsRow, items[..j], items[j]);
      assert items[..j + 1] == items[..j] + [items[j]];
      shaped := shaped + [row.value];
      j := j + 1;
    }
    assert items[..j] == items;
    return Ok(shaped);
  }

  /** The slices cover the whole id list. */
  lemma SliceCountCovers(n: nat)
    ensures n <= BatchSize * SliceCount(n)
  {
  }

  /** The k-th request is that of the ids at offsets 50k to 50k + 49, and
   *  it extends the requests issued before it. */
  lemma RequestAt(ids: seq<string>, k: nat, issued: seq<VideosRequest>)
    requires k < |Slices(ids)| && issued == Requests(ids)[..k]
    ensures BatchSize * k < |ids|
    ensures Slices(ids)[k] == ids[BatchSize * k .. Min(BatchSize * k + BatchSize, |ids|)]
    ensures issued + [StatsQuery(Slices(ids)[k])] == Requests(ids)[..k + 1]
  {
    SliceStartsInside(|ids|, k);
  }

  /** One more slice whose rows shape extends the accumulated table. */
  lemma CollectStep(fetch: VideosRequest -> Reply<VideoItem>, slices: seq<seq<string>>, k: nat,
                    rows: seq<VideoStats>, more: seq<VideoStats>)
    requires k < |slices| && CollectRows(fetch, slices[..k]) == Ok(rows)
    requires SliceRows(fetch(StatsQuery(slices[k]))) == Ok(more)
    ensures CollectRows(fetch, slices[..k + 1]) == Ok(rows + more)
  {
    assert slices[..k + 1][..k] == slices[..k];
  }

  /** Once a slice fails, accumulation over all the slices fails. */
  lemma {:induction false} CollectRowsFailed(fetch: VideosRequest -> Reply<VideoItem>,
                                             slices: seq<seq<string>>, k: nat)
    requires k < |slices| && CollectRows(fetch, slices[..k]).Ok?
    requires SliceRows(fetch(StatsQuery(slices[k]))).Err?
    ensures CollectRows(fetch, slices[..k + 1]).Err?
    ensures CollectRows(fetch, slices).Err?
  {
    assert slices[..k + 1][..k] == slices[..k];
    CollectRowsFailedAfter(fetch, slices, k + 1);
  }

  /** Once a prefix of the slices fails, every longer prefix fails too. */
  lemma {:induction false} CollectRowsFailedAfter(fetch: VideosRequest -> Reply<VideoItem>,
                                             slices: seq<seq<string>>, m: nat)
    requires m <= |slices| && CollectRows(fetch, slices[..m]).Err?
    ensures CollectRows(fetch, slices).Err?
    decreases |slices| - m
  {
    if m < |slices| {
      assert slices[..m + 1][..m] == slices[..m];
      CollectRowsFailedAfter(fetch, slices, m + 1);
    } else {
      assert slices[..m] == slices;
    }
  }
}
