# YouTube data dashboard — a Dafny model of its data logic

The dashboard is a Streamlit script. It looks up a YouTube channel by name and fetches the channel's profile and its most recent uploads. It then fetches view, like and comment counts for those videos and renders a PDF report. This project models the script's own logic between its calls into the YouTube Data API and reportlab, and proves properties of it:

- **Name resolution and the channel profile** (`get_channel_id_from_name`, `get_channel_stats`): the first search hit or channel item, or None. Both catch only `HttpError`, so a missing key or a count that is not a number escapes to the caller.
- **The uploads listing** (`get_videos`): one record per playlist entry, each with its watch URL. Any exception gives the empty list.
- **Statistics batching** (`get_video_stats`): the id list is cut into slices of at most 50 ids, with one request per slice. The rows are accumulated in request order, and any exception in any slice gives the empty table.
- **The PDF report** (`generate_pdf_report`): a vertical cursor on a 612×792 point page, pages broken below y = 100. The canvas is modelled as the sequence of calls it records: drawn strings with their coordinates, page breaks, and the save.

The API client is a function parameter per request kind (`search`, `channels`, `list`, `fetch`). Each returns the JSON body or the exception the call raised (`Fault`).

Modules, in dependency order:

- `Results` (results.dfy): `Option`, `Result`, `Fault`, and `MapAll`, which shapes every item of a response and stops at the first one that raises.
- `Numbers` (numbers.dfy): `int()` on count strings, `str(n)`, and the `{n:,}` thousands format.
- `Provider` (provider.dfy): requests, response records, and `.get(key, 0)` on a statistics object.
- `Channels` (channels.dfy): the resolver, the channel record, and the profile fetcher.
- `Uploads` (uploads.dfy): `get_videos`.
- `Batching` (batching.dfy): `get_video_stats`.
- `Layout` (layout.dfy): the report as a sequence of events, and its properties.
- `Report` (report.dfy): the recording canvas, and `generate_pdf_report` as methods with the source's two loops.

## Model

| member | source | states |
|---|---|---|
| Results.MapAllSpec | Youtube_Data_Dashboard2.py:94-101 | shaping a response's items succeeds iff every item shapes; the result then has one record per item, in item order |
| Results.MapAllStep | Youtube_Data_Dashboard2.py:119-125 | appending an item that shapes appends its record to the accumulated list |
| Results.MapAllFirstError | Youtube_Data_Dashboard2.py:119-125 | the exception that ends the loop is that of the first item that raises |
| Numbers.DecimalDigits | Youtube_Data_Dashboard2.py:146 | `str(n)` of a non-negative n is ASCII digits only, at least one, with a leading zero only for 0 |
| Numbers.DecimalValue | Youtube_Data_Dashboard2.py:146 | the digits `str(n)` writes denote n |
| Numbers.ParseIntRoundTrip | Youtube_Data_Dashboard2.py:71-73 | `int(str(n)) == n` for every integer, negative ones included |
| Numbers.InsertCommasLength | Youtube_Data_Dashboard2.py:157 | grouping a d-digit string adds (d-1)/3 commas |
| Numbers.InsertCommasRemove | Youtube_Data_Dashboard2.py:157 | taking the commas out of a grouped digit string gives the digits back |
| Numbers.InsertCommasPositions | Youtube_Data_Dashboard2.py:157 | the commas stand exactly at every fourth position from the right, so every group after the first has three digits |
| Numbers.ThousandsTextSpec | Youtube_Data_Dashboard2.py:157 | `f"{n:,}"` without its commas is `str(n)`, which `int()` reads back as n; the digit groups obey the three-digit rule; the sign stays in front |
| Provider.Count | Youtube_Data_Dashboard2.py:71-73 | `int(statistics.get(key, 0))`: an absent count is 0, a present one succeeds iff it parses and is then its value, and otherwise the error is ValueError |
| Provider.CountRoundTrip | Youtube_Data_Dashboard2.py:122 | a count the provider sent as `str(n)` is read as n |
| Channels.ChannelInfo.Items | Youtube_Data_Dashboard2.py:68-75 | the channel dict has six entries in insertion order; Playlist_ID is the last entry and the only one with that key |
| Channels.GetChannelIdFromName | Youtube_Data_Dashboard2.py:36-51 | None iff the search raised HttpError or returned no items; otherwise the first hit's channelId; a missing channelId escapes as KeyError, any other provider failure escapes unchanged, and an escaping error is never HttpError |
| Channels.ChannelRecord | Youtube_Data_Dashboard2.py:67-75 | the record exists iff title, description, statistics and uploads id are present and the three counts parse; its fields are those values, with absent counts 0; a missing title, description or statistics object is KeyError; with those present, ValueError exactly when a count does not parse, and KeyError exactly when the counts parse but the uploads id is missing |
| Channels.GetChannelStats | Youtube_Data_Dashboard2.py:56-79 | None iff the request raised HttpError or returned no items; otherwise the first item's record, or its shaping error, which escapes; any other provider failure escapes unchanged |
| Uploads.WatchUrlRoundTrip | Youtube_Data_Dashboard2.py:100 | every watch URL is the fixed prefix followed by the id and gives the id back, so distinct ids give distinct URLs |
| Uploads.VideoRecord | Youtube_Data_Dashboard2.py:95-101 | a record exists iff the entry has a title and a video id; it carries both, and its URL carries the id; otherwise KeyError |
| Uploads.VideosOfSpec | Youtube_Data_Dashboard2.py:94-105 | when every entry shapes: one record per playlist entry, in response order, with the watch URL of its id; otherwise, or when the call raised or the body has no items, the empty list |
| Uploads.GetVideos | Youtube_Data_Dashboard2.py:84-105 | the append loop returns exactly VideosOf of the reply to the one request it issues (default maxResults 20) |
| Batching.SliceStartsInside | Youtube_Data_Dashboard2.py:113 | every offset `range(0, n, 50)` yields lies inside the list |
| Batching.Slice | Youtube_Data_Dashboard2.py:116 | each slice has between 1 and 50 ids |
| Batching.Requests | Youtube_Data_Dashboard2.py:113-117 | one request per slice |
| Batching.StatsRow | Youtube_Data_Dashboard2.py:120-125 | a row exists iff the item has a title and statistics and its counts parse; absent counts are 0; otherwise KeyError or ValueError |
| Batching.SlicesPartition | Youtube_Data_Dashboard2.py:113-116 | there are ceil(N/50) slices, at offsets 0, 50, 100, …, each of 1 to 50 ids, and together they are the id list |
| Batching.FlattenSlicesPrefix | Youtube_Data_Dashboard2.py:113-116 | the first k slices together are the first min(50k, N) ids |
| Batching.CollectRowsOk | Youtube_Data_Dashboard2.py:111-125 | accumulation succeeds iff every slice's reply yields rows |
| Batching.CollectRowsSpec | Youtube_Data_Dashboard2.py:111-125 | accumulation succeeds iff every slice's reply yields rows; the table is then those rows, slice after slice |
| Batching.SliceRowsSpec | Youtube_Data_Dashboard2.py:118-125 | a slice yields rows iff its call succeeded, the body has items and every item shapes; then one row per item, in provider order |
| Batching.StatsTableAllOrNothing | Youtube_Data_Dashboard2.py:111-129 | if every slice yields rows, the table is their concatenation in slice order; otherwise it is empty, discarding rows already collected |
| Batching.StatsTableOneRowPerId | Youtube_Data_Dashboard2.py:113-125 | when every slice is answered with one well-formed item per requested id, the table has exactly one row per id |
| Batching.GetVideoStats | Youtube_Data_Dashboard2.py:110-129 | the loop returns StatsTable; the requests it issues are the first requests of the slice order; every slice before the last issued one succeeded; it stops early only when the slices so far fail; when no slice fails it issues exactly one request per slice, ceil(N/50) in all |
| Batching.FetchSlice | Youtube_Data_Dashboard2.py:114-125 | one pass of the outer loop gives the rows of that slice's reply, or its exception |
| Batching.ShapeRows | Youtube_Data_Dashboard2.py:119-125 | the inner append loop gives MapAll over the items: all rows, or the first item's exception |
| Batching.RequestAt | Youtube_Data_Dashboard2.py:114-117 | the k-th request joins the ids at offsets 50k to 50k+49 and extends the requests issued before it |
| Batching.CollectRowsFailed | Youtube_Data_Dashboard2.py:127-129 | once a slice fails, the accumulation over all slices fails |
| Layout.Truncate | Youtube_Data_Dashboard2.py:156 | `title[:70]`: a prefix of the title, the whole title if it has at most 70 characters, otherwise exactly 70 |
| Layout.NextCursor | Youtube_Data_Dashboard2.py:158-161 | after a row the cursor is exactly 30 lower when that stays at or above 100, and exactly 742 (the top of a new page) when it would fall below; it is never below 100 |
| Layout.FieldsLayoutSpec | Youtube_Data_Dashboard2.py:143-147 | one `key: value` line per field other than Playlist_ID, in insertion order, 20 points apart from y = 692 down |
| Layout.KeptSpec | Youtube_Data_Dashboard2.py:144-145 | the printed fields are exactly the fields whose key is not Playlist_ID |
| Layout.KeptAppend | Youtube_Data_Dashboard2.py:144-145 | the field filter keeps order across concatenation |
| Layout.ChannelFieldsPrinted | Youtube_Data_Dashboard2.py:143-152 | for the channel record the report prints its first five fields and never the playlist id; the section header is at y = 572 |
| Layout.RowStartsBounds | Youtube_Data_Dashboard2.py:154-161 | the first row is drawn at the starting cursor; every later row starts at or above 100, and, when the first row starts no higher than 772, no higher than 742 |
| Layout.RowsLayoutDraws | Youtube_Data_Dashboard2.py:154-157 | the rows draw exactly two strings each, in row order: the title at the row's cursor and the counts line 12 points below |
| Layout.RowsLayoutPageBreaks | Youtube_Data_Dashboard2.py:158-161 | the number of new pages equals the number of rows after which the cursor falls below 100 |
| Layout.FieldsLayoutDrawsOnly | Youtube_Data_Dashboard2.py:144-147 | the field loop only draws strings and never breaks a page |
| Layout.ReportParts | Youtube_Data_Dashboard2.py:139-163 | the report is the header part (title, fields, section title), then the rows, then the save; the header part draws one string per printed field plus two |
| Layout.ReportEventsSpec | Youtube_Data_Dashboard2.py:139-163 | the title comes first and the save last; the report draws one string per printed field, plus the title and section header, plus two per row; it has exactly as many new pages as low rows |
| Layout.ReportRowTexts | Youtube_Data_Dashboard2.py:154-157 | after the header part, row k's two lines are drawn at row k's cursor and 12 points below it |
| Layout.ReportRowLines | Youtube_Data_Dashboard2.py:156-157 | row k's lines in the report are its title cut to 70 characters and `Views: … \| Likes: … \| Comments: …` with comma-grouped counts |
| Report.Canvas.constructor | Youtube_Data_Dashboard2.py:136 | the new canvas has recorded nothing |
| Report.Canvas.DrawString | Youtube_Data_Dashboard2.py:140 | `drawString` records one drawn string |
| Report.Canvas.ShowPage | Youtube_Data_Dashboard2.py:160 | `showPage` records one page break |
| Report.Canvas.Save | Youtube_Data_Dashboard2.py:163 | `save` records the save |
| Report.GeneratePdfReport | Youtube_Data_Dashboard2.py:134-165 | the canvas records exactly ReportEvents for the channel fields and the rows' texts |
| Report.DrawFields | Youtube_Data_Dashboard2.py:143-147 | the field loop records FieldsLayout and leaves the cursor 20 lower per printed field |
| Report.DrawRows | Youtube_Data_Dashboard2.py:154-161 | the row loop records RowsLayout of the rows' texts |
| Report.DrawRow | Youtube_Data_Dashboard2.py:155-161 | one row records its two lines, then a page break exactly when the cursor falls below 100; the new cursor is NextCursor |

## Left out

- The Streamlit UI and the module-level orchestration (Youtube_Data_Dashboard2.py:13-31, 167-240) are not modelled. This covers widgets, spinners, messages and the download buttons. The `st.error` messages in the four fetchers are presentation and are not modelled either.
- The Google API client is not modelled. Building the client and executing requests is network I/O. Each request kind is a function parameter returning the body or a `Fault`. HttpError and TransportError stand for the exceptions the client raises.
- A provider is a pure function, so within one run the reply depends only on the request: two slices that carry the same ids get the same reply. The list of requests `GetVideoStats` returns (`issued`) is a ghost log the method keeps itself beside each call. It is not observed from the client.
- The plotly charts and the CSV export are left out. They belong to rendering and pandas.
- The statistics table is a sequence of `VideoStats` rows in fixed column order. `pd.DataFrame()` and its columns are not modelled, so an empty frame is the empty sequence.
- reportlab itself is not modelled: fonts (`setFont`), glyph rendering, and the BytesIO buffer (`seek`, `return buffer`). The canvas records only drawn strings with their coordinates, page breaks and the save. `generate_pdf_report` returns that record.
- The report takes `channel_info.items()` as (key, `str(value)`) pairs. For the record the dashboard builds, `ChannelInfo.Items` gives them.
- Provider.Count: `int()` is modelled as an optional sign followed by ASCII digits. Python also accepts surrounding whitespace, underscores between digits and non-ASCII digits. Those inputs count as ValueError here.
- JSON values of unexpected types are not modelled: a count that is a number instead of a string, a title that is not a string, or `items` that is not a list. Response records are typed, so the TypeErrors they would raise are not modelled.
- A chain of subscripts such as `item["snippet"]["title"]` is one optional field. Which key on the path is absent is not distinguished, because every case raises the same KeyError.
- `maxResults` is passed through to the provider. How many items the provider returns for it is the provider's business, and the model places no bound on it.
- `",".join(ids)` is modelled exactly, with no property proved about it. Ids are not escaped, as in the source.
- The page width (612) is unused by the source's drawing and appears only as a constant.
- reportlab's `letter` page size is a pair of floats, and the cursor `y` is a float in the source. The model uses `int`. Nothing is lost, because the height is the whole number 792 and every step of the cursor (50, 20, 30, 12) is a whole number.
- Title truncation counts characters as Dafny's `char` does: a Unicode scalar value. Python's `[:70]` counts code points. The two agree on the strings the provider sends, which hold no lone surrogates.
