/** The layout of the PDF report (`generate_pdf_report`) on a US Letter page,
 *  612 by 792 points, as the sequence of events the canvas records: drawn
 *  strings with their coordinates, page breaks, and the final save. A
 *  vertical cursor y runs down the page: the channel fields step it by 20,
 *  the section header by 20 and 30, each statistics row by 30, and when it
 *  falls below 100 a new page starts and it goes back to 742. */
module Layout {
  import opened Numbers
  import opened Channels
  import opened Batching

  const PageWidth := 612
  const PageHeight := 792
  /** The cursor never goes below this before a page break. */
  const BottomMargin := 100
  /** Titles in the statistics rows keep this many characters. */
  const TitleWidth := 70
  const ReportTitle := "\U{1F4CA} YouTube Channel Report"
  const SectionTitle := "Video Performance Summary"

  /** What the canvas records: a `drawString`, a `showPage`, the `save`. */
  datatype Event = Draw(x: int, y: int, text: string) | NewPage | Saved

  /** `f"{key}: {value}"` */
  function FieldLine(field: (string, string)): string
  {
    field.0 + ": " + field.1
  }

  /** The channel fields the report prints: all but Playlist_ID, in order. */
  function Kept(info: seq<(string, string)>): seq<(string, string)>
  {
    if info == [] then []
    else (if info[0].0 != PlaylistKey then [info[0]] else []) + Kept(info[1..])
  }

  /** The field lines drawn from cursor y down, 20 points apart. */
  function FieldsLayout(info: seq<(string, string)>, y: int): seq<Event>
  {
    if info == [] then []
    else if info[0].0 != PlaylistKey then [Draw(50, y, FieldLine(info[0]))] + FieldsLayout(info[1..], y - 20)
    else FieldsLayout(info[1..], y)
  }

  /** `row['Video_Title'][:70]` */
  function Truncate(title: string): (r: string)
    ensures |r| <= TitleWidth && |r| <= |title| && r == title[..|r|]
    ensures |title| <= TitleWidth ==> r == title
    ensures |title| > TitleWidth ==> |r| == TitleWidth
  {
    if |title| <= TitleWidth then title else title[..TitleWidth]
  }

  /** `f"Views: {v:,} | Likes: {l:,} | Comments: {c:,}"` */
  function StatsLine(row: VideoStats): string
  {
    "Views: " + ThousandsText(row.views) + " | Likes: " + ThousandsText(row.likes) +
    " | Comments: " + ThousandsText(row.comments)
  }

  /** The two strings drawn for one statistics row. */
  datatype RowText = RowText(title: string, stats: string)

  /** The title cut to 70 characters and the counts line of a row. */
  function TextOf(row: VideoStats): RowText
  {
    RowText(Truncate(row.title), StatsLine(row))
  }

  /** The texts of the table's rows, in row order. */
  function Texts(rows: seq<VideoStats>): seq<RowText>
  {
    seq(|rows|, k requires 0 <= k < |rows| => TextOf(rows[k]))
  }

  /** The two lines of one statistics row drawn at cursor y. */
  function RowLines(text: RowText, y: int): seq<Event>
  {
    [Draw(50, y, text.title), Draw(60, y - 12, text.stats)]
  }

  /** Whether the row drawn at cursor y ends its page. */
  predicate BreaksAfter(y: int)
  {
    y - 30 < BottomMargin
  }

  /** The cursor after a row drawn at y: 30 lower, or the top of a new page. */
  function NextCursor(y: int): (r: int)
    ensures r >= BottomMargin
    ensures !BreaksAfter(y) ==> r == y - 30
    ensures BreaksAfter(y) ==> r == PageHeight - 50
  {
    if BreaksAfter(y) then PageHeight - 50 else y - 30
  }

  /** The events of one statistics row drawn at cursor y: its two lines,
   *  then a page break if the cursor falls below the bottom margin. */
  function RowEvents(text: RowText, y: int): seq<Event>
  {
    RowLines(text, y) + (if BreaksAfter(y) then [NewPage] else [])
  }

  /** The events of the statistics rows from cursor y on. */
  function RowsLayout(rows: seq<RowText>, y: int): seq<Event>
  {
    if rows == [] then []
    else RowEvents(rows[0], y) + RowsLayout(rows[1..], NextCursor(y))
  }

  /** The cursor of the section header. */
  function SectionY(info: seq<(string, string)>): int
  {
    PageHeight - 100 - 20 * |Kept(info)| - 20
  }

  /** Everything `generate_pdf_report` draws, in order, for the channel
   *  fields info and the texts of the table's rows. */
  function ReportEvents(info: seq<(string, string)>, rows: seq<RowText>): seq<Event>
  {
    [Draw(50, PageHeight - 50, ReportTitle)] +
    FieldsLayout(info, PageHeight - 100) +
    [Draw(50, SectionY(info), SectionTitle)] +
    RowsLayout(rows, SectionY(info) - 30) +
    [Saved]
  }

  /** Moving one step's events from what remains to what is done keeps the
   *  whole unchanged. */
  lemma Regroup<T>(done: seq<T>, step: seq<T>, rest: seq<T>, remaining: seq<T>, whole: seq<T>)
    requires done + remaining == whole && remaining == step + rest
    ensures (done + step) + rest == whole
  {
  }

  /** One channel field: printed, unless it is Playlist_ID, and the cursor
   *  steps down 20 for it. */
  lemma FieldsStep(info: seq<(string, string)>, i: nat, y: int)
    requires i < |info|
    ensures var kept := info[i].0 != PlaylistKey;
            && FieldsLayout(info[i..], y) ==
                 (if kept then [Draw(50, y, FieldLine(info[i]))] else []) +
                 FieldsLayout(info[i + 1..], if kept then y - 20 else y)
            && |Kept(info[i..])| == (if kept then 1 else 0) + |Kept(info[i + 1..])|
  {
    assert info[i..][1..] == info[i + 1..];
  }

  /** One statistics row: its two lines, then a page break if it ends low. */
  lemma RowsStep(rows: seq<RowText>, k: nat, y: int)
    requires k < |rows|
    ensures RowsLayout(rows[k..], y) == RowEvents(rows[k], y) + RowsLayout(rows[k + 1..], NextCursor(y))
  {
    assert rows[k..][1..] == rows[k + 1..];
  }

  // ---------------------------------------------------------------------
  // Layout properties

  /** The field lines: one per kept field, in order, 20 points apart from
   *  the starting cursor down; Playlist_ID never appears. */
  lemma {:induction false} FieldsLayoutSpec(info: seq<(string, string)>, y: int)
    ensures |FieldsLayout(info, y)| == |Kept(info)|
    ensures forall j :: 0 <= j < |Kept(info)| ==>
              FieldsLayout(info, y)[j] == Draw(50, y - 20 * j, FieldLine(Kept(info)[j]))
  {
    if info != [] {
      FieldsLayoutSpec(info[1..], if info[0].0 != PlaylistKey then y - 20 else y);
    }
  }

  /** The cursor at which each statistics row is drawn. */
  function RowStarts(rows: seq<RowText>, y: int): (s: seq<int>)
    ensures |s| == |rows|
  {
    if rows == [] then [] else [y] + RowStarts(rows[1..], NextCursor(y))
  }

  /** The first row is drawn at the starting cursor; every later row starts
   *  at or above the bottom margin, and, when the report starts at most 20
   *  points below the top, no lower than the top of a page. */
  lemma {:induction false} RowStartsBounds(rows: seq<RowText>, y: int)
    ensures |rows| > 0 ==> RowStarts(rows, y)[0] == y
    ensures forall k :: 1 <= k < |rows| ==> BottomMargin <= RowStarts(rows, y)[k]
    ensures y <= PageHeight - 20 ==>
              forall k :: 1 <= k < |rows| ==> RowStarts(rows, y)[k] <= PageHeight - 50
  {
    if rows != [] {
      var next := NextCursor(y);
      RowStartsBounds(rows[1..], next);
      assert forall k :: 1 <= k < |rows| ==> RowStarts(rows, y)[k] == RowStarts(rows[1..], next)[k - 1];
    }
  }

  /** The drawn strings among some events. */
  function Draws(events: seq<Event>): seq<Event>
  {
    if events == [] then []
    else (if events[0].Draw? then [events[0]] else []) + Draws(events[1..])
  }

  lemma {:induction false} DrawsAppend(a: seq<Event>, b: seq<Event>)
    ensures Draws(a + b) == Draws(a) + Draws(b)
  {
    if a == [] {
      assert a + b == b;
    } else {
      assert (a + b)[1..] == a[1..] + b;
      DrawsAppend(a[1..], b);
    }
  }

  /** One row draws its two lines and nothing else. */
  lemma RowEventsDraws(row: RowText, y: int)
    ensures Draws(RowEvents(row, y)) == RowLines(row, y)
  {
    var lines := RowLines(row, y);
    var brk := if BreaksAfter(y) then [NewPage] else [];
    DrawsAppend(lines, brk);
    assert Draws(brk) == [];
    assert lines[1..][1..] == [];
  }

  /** The lines of the rows from cursor y on, without the page breaks. */
  function RowDraws(rows: seq<RowText>, y: int): seq<Event>
  {
    if rows == [] then [] else RowLines(rows[0], y) + RowDraws(rows[1..], NextCursor(y))
  }

  /** Page breaks are the only events of the rows that are not drawn strings. */
  lemma {:induction false} RowsLayoutDrawsOnly(rows: seq<RowText>, y: int)
    ensures Draws(RowsLayout(rows, y)) == RowDraws(rows, y)
  {
    if rows != [] {
      DrawsAppend(RowEvents(rows[0], y), RowsLayout(rows[1..], NextCursor(y)));
      RowEventsDraws(rows[0], y);
      RowsLayoutDrawsOnly(rows[1..], NextCursor(y));
    }
  }

  lemma {:induction false} RowDrawsLength(rows: seq<RowText>, y: int)
    ensures |RowDraws(rows, y)| == 2 * |rows|
  {
    if rows != [] {
      RowDrawsLength(rows[1..], NextCursor(y));
    }
  }

  /** Row k's two lines sit at positions 2k and 2k + 1 of the rows' lines,
   *  at row k's cursor. */
  lemma {:induction false} RowDrawsAt(rows: seq<RowText>, y: int, k: nat)
    requires k < |rows|
    ensures |RowDraws(rows, y)| == 2 * |rows|
    ensures RowDraws(rows, y)[2 * k] == Draw(50, RowStarts(rows, y)[k], rows[k].title)
    ensures RowDraws(rows, y)[2 * k + 1] == Draw(60, RowStarts(rows, y)[k] - 12, rows[k].stats)
  {
    RowDrawsLength(rows, y);
    if k > 0 {
      var next := NextCursor(y);
      RowDrawsAt(rows[1..], next, k - 1);
      assert rows[1..][k - 1] == rows[k];
    }
  }

  /** Row k's title at its cursor and its counts line 12 points below: two
   *  lines per row, in row order. */
  lemma RowDrawsSpec(rows: seq<RowText>, y: int)
    ensures |RowDraws(rows, y)| == 2 * |rows|
    ensures forall k :: 0 <= k < |rows| ==>
              && RowDraws(rows, y)[2 * k] == Draw(50, RowStarts(rows, y)[k], rows[k].title)
              && RowDraws(rows, y)[2 * k + 1] == Draw(60, RowStarts(rows, y)[k] - 12, rows[k].stats)
  {
    RowDrawsLength(rows, y);
    forall k | 0 <= k < |rows|
      ensures RowDraws(rows, y)[2 * k] == Draw(50, RowStarts(rows, y)[k], rows[k].title)
      ensures RowDraws(rows, y)[2 * k + 1] == Draw(60, RowStarts(rows, y)[k] - 12, rows[k].stats)
    {
      RowDrawsAt(rows, y, k);
    }
  }

  /** The rows' drawn strings: two per row and nothing else, in row order;
   *  row k's title at its cursor and its counts line 12
   *  points below. */
  lemma RowsLayoutDraws(rows: seq<RowText>, y: int)
    ensures |Draws(RowsLayout(rows, y))| == 2 * |rows|
    ensures forall k :: 0 <= k < |rows| ==>
              && Draws(RowsLayout(rows, y))[2 * k] ==
                   Draw(50, RowStarts(rows, y)[k], rows[k].title)
              && Draws(RowsLayout(rows, y))[2 * k + 1] ==
                   Draw(60, RowStarts(rows, y)[k] - 12, rows[k].stats)
  {
    RowsLayoutDrawsOnly(rows, y);
    RowDrawsSpec(rows, y);
  }

  /** The number of page breaks among some events. */
  function PageBreaks(events: seq<Event>): nat
  {
    if events == [] then 0 else (if events[0] == NewPage then 1 else 0) + PageBreaks(events[1..])
  }

  lemma {:induction false} PageBreaksAppend(a: seq<Event>, b: seq<Event>)
    ensures PageBreaks(a + b) == PageBreaks(a) + PageBreaks(b)
  {
    if a == [] {
      assert a + b == b;
    } else {
      assert (a + b)[1..] == a[1..] + b;
      PageBreaksAppend(a[1..], b);
    }
  }

  /** The number of rows, by their cursors, after which the cursor falls
   *  below the bottom margin. */
  function LowRows(starts: seq<int>): nat
  {
    if starts == [] then 0 else (if BreaksAfter(starts[0]) then 1 else 0) + LowRows(starts[1..])
  }

  /** The rows start exactly as many new pages as there are rows after which
   *  the cursor falls below 100. */
  lemma {:induction false} RowsLayoutPageBreaks(rows: seq<RowText>, y: int)
    ensures PageBreaks(RowsLayout(rows, y)) == LowRows(RowStarts(rows, y))
  {
    if rows != [] {
      var next := NextCursor(y);
      var lines := RowLines(rows[0], y);
      var brk := if BreaksAfter(y) then [NewPage] else [];
      RowsLayoutPageBreaks(rows[1..], next);
      PageBreaksAppend(RowEvents(rows[0], y), RowsLayout(rows[1..], next));
      PageBreaksAppend(lines, brk);
      assert PageBreaks(lines) == 0 by {
        assert lines[1..][1..] == [];
      }
      assert PageBreaks(brk) == (if BreaksAfter(y) then 1 else 0) by {
        if BreaksAfter(y) {
          assert brk[1..] == [];
        }
      }
      assert RowStarts(rows, y)[1..] == RowStarts(rows[1..], next);
    }
  }

  /** The field lines are all drawn strings; none is a page break. */
  lemma {:induction false} FieldsLayoutDrawsOnly(info: seq<(string, string)>, y: int)
    ensures Draws(FieldsLayout(info, y)) == FieldsLayout(info, y)
    ensures PageBreaks(FieldsLayout(info, y)) == 0
  {
    if info != [] {
      var y' := if info[0].0 != PlaylistKey then y - 20 else y;
      FieldsLayoutDrawsOnly(info[1..], y');
      if info[0].0 != PlaylistKey {
        var head := [Draw(50, y, FieldLine(info[0]))];
        DrawsAppend(head, FieldsLayout(info[1..], y'));
        PageBreaksAppend(head, FieldsLayout(info[1..], y'));
        assert head[1..] == [];
      }
    }
  }

  /** The report's events in their five parts. */
  lemma ReportParts(info: seq<(string, string)>, rows: seq<RowText>)
    ensures var head := [Draw(50, PageHeight - 50, ReportTitle)] + FieldsLayout(info, PageHeight - 100) +
                        [Draw(50, SectionY(info), SectionTitle)];
            && |Draws(head)| == |Kept(info)| + 2
            && PageBreaks(head) == 0
            && ReportEvents(info, rows) == head + RowsLayout(rows, SectionY(info) - 30) + [Saved]
  {
    var title := [Draw(50, PageHeight - 50, ReportTitle)];
    var fields := FieldsLayout(info, PageHeight - 100);
    var section := [Draw(50, SectionY(info), SectionTitle)];
    FieldsLayoutDrawsOnly(info, PageHeight - 100);
    FieldsLayoutSpec(info, PageHeight - 100);
    DrawsAppend(title, fields);
    DrawsAppend(title + fields, section);
    PageBreaksAppend(title, fields);
    PageBreaksAppend(title + fields, section);
    assert title[1..] == [] && section[1..] == [];
  }

  /** The whole report: the title first and the save last; one drawn string
   *  per printed field, the section header, two per row; and exactly as many
   *  new pages as rows after which the cursor falls below 100. */
  lemma ReportEventsSpec(info: seq<(string, string)>, rows: seq<RowText>)
    ensures ReportEvents(info, rows)[0] == Draw(50, PageHeight - 50, ReportTitle)
    ensures ReportEvents(info, rows)[|ReportEvents(info, rows)| - 1] == Saved
    ensures |Draws(ReportEvents(info, rows))| == |Kept(info)| + 2 + 2 * |rows|
    ensures PageBreaks(ReportEvents(info, rows)) == LowRows(RowStarts(rows, SectionY(info) - 30))
  {
    var head := [Draw(50, PageHeight - 50, ReportTitle)] + FieldsLayout(info, PageHeight - 100) +
                [Draw(50, SectionY(info), SectionTitle)];
    var body := RowsLayout(rows, SectionY(info) - 30);
    ReportParts(info, rows);
    RowsLayoutDraws(rows, SectionY(info) - 30);
    RowsLayoutPageBreaks(rows, SectionY(info) - 30);
    DrawsAppend(head, body);
    DrawsAppend(head + body, [Saved]);
    PageBreaksAppend(head, body);
    PageBreaksAppend(head + body, [Saved]);
    assert [Saved][1..] == [];
  }

  /** Among the report's drawn strings, after the title, the printed fields
   *  and the section header, come the two lines of each row in turn, at
   *  that row's cursor. */
  lemma ReportRowTexts(info: seq<(string, string)>, rows: seq<RowText>, k: nat)
    requires k < |rows|
    ensures var d := Draws(ReportEvents(info, rows));
            var at := RowStarts(rows, SectionY(info) - 30)[k];
            var i := |Kept(info)| + 2 + 2 * k;
            && i + 1 < |d|
            && d[i] == Draw(50, at, rows[k].title)
            && d[i + 1] == Draw(60, at - 12, rows[k].stats)
  {
    var head := [Draw(50, PageHeight - 50, ReportTitle)] + FieldsLayout(info, PageHeight - 100) +
                [Draw(50, SectionY(info), SectionTitle)];
    var body := RowsLayout(rows, SectionY(info) - 30);
    ReportParts(info, rows);
    RowsLayoutDraws(rows, SectionY(info) - 30);
    DrawsAppend(head, body);
    DrawsAppend(head + body, [Saved]);
    assert Draws([Saved]) == [] by {
      assert [Saved][1..] == [];
    }
    var dh, db := Draws(head), Draws(body);
    assert Draws(ReportEvents(info, rows)) == dh + db;
    assert (dh + db)[|dh| + 2 * k] == db[2 * k];
    assert (dh + db)[|dh| + 2 * k + 1] == db[2 * k + 1];
  }

  /** Row k's lines in the report: its title cut to the first 70 characters,
   *  and its counts with comma-grouped thousands 12 points below. */
  lemma ReportRowLines(info: seq<(string, string)>, rows: seq<VideoStats>, k: nat)
    requires k < |rows|
    ensures var d := Draws(ReportEvents(info, Texts(rows)));
            var at := RowStarts(Texts(rows), SectionY(info) - 30)[k];
            var i := |Kept(info)| + 2 + 2 * k;
            && i + 1 < |d|
            && d[i] == Draw(50, at, Truncate(rows[k].title))
            && d[i + 1] == Draw(60, at - 12, StatsLine(rows[k]))
  {
    ReportRowTexts(info, Texts(rows), k);
    assert Texts(rows)[k] == RowText(Truncate(rows[k].title), StatsLine(rows[k]));
  }

  /** The printed fields are exactly the fields of info other than
   *  Playlist_ID. */
  lemma {:induction false} KeptSpec(info: seq<(string, string)>)
    ensures |Kept(info)| <= |info|
    ensures forall j :: 0 <= j < |Kept(info)| ==> Kept(info)[j].0 != PlaylistKey && Kept(info)[j] in info
    ensures forall i :: 0 <= i < |info| && info[i].0 != PlaylistKey ==> info[i] in Kept(info)
  {
    if info != [] {
      KeptSpec(info[1..]);
      assert forall p :: p in info[1..] ==> p in info;
      assert forall i :: 1 <= i < |info| ==> info[i] == info[1..][i - 1];
    }
  }

  /** Kept is an order-preserving filter: it keeps the fields of a
   *  concatenation part by part. */
  lemma {:induction false} KeptAppend(a: seq<(string, string)>, b: seq<(string, string)>)
    ensures Kept(a + b) == Kept(a) + Kept(b)
  {
    if a == [] {
      assert a + b == b;
    } else {
      assert (a + b)[1..] == a[1..] + b;
      KeptAppend(a[1..], b);
    }
  }

  /** Fields none of which is Playlist_ID are all printed. */
  lemma {:induction false} KeptAll(info: seq<(string, string)>)
    requires forall i :: 0 <= i < |info| ==> info[i].0 != PlaylistKey
    ensures Kept(info) == info
  {
    if info != [] {
      KeptAll(info[1..]);
    }
  }

  /** For the channel record the dashboard builds, the report prints its
   *  first five fields, in order, and never the uploads playlist id; the
   *  section header then sits at y = 572 and the first row at 542. */
  lemma ChannelFieldsPrinted(channel: ChannelInfo)
    ensures Kept(channel.Items()) == channel.Items()[..5]
    ensures SectionY(channel.Items()) == 572
  {
    var items := channel.Items();
    assert items == items[..5] + [items[5]];
    KeptAppend(items[..5], [items[5]]);
    KeptAll(items[..5]);
    assert [items[5]][1..] == [];
  }
}
