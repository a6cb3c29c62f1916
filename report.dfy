/** The PDF report itself: a canvas that records the calls made on it, and
 *  `generate_pdf_report` drawing the layout of module Layout onto it. */
module Report {
  import opened Channels
  import opened Batching
  import opened Layout

  /** A canvas that records every call made on it, in order. */
  class Canvas {
    var events: seq<Event>

    constructor ()
      ensures events == []
    {
      events := [];
    }

    method DrawString(x: int, y: int, text: string)
      modifies this
      ensures events == old(events) + [Draw(x, y, text)]
    {
      events := events + [Draw(x, y, text)];
    }

    method ShowPage()
      modifies this
      ensures events == old(events) + [NewPage]
    {
      events := events + [NewPage];
    }

    method Save()
      modifies this
      ensures events == old(events) + [Saved]
    {
      events := events + [Saved];
    }
  }

  /** `generate_pdf_report(channel_info, df)`; `info` is `channel_info.items()`
   *  with each value as `str()` renders it, `rows` the table's rows. The two
   *  loops of the source are the methods DrawFields and DrawRows. */
  method GeneratePdfReport(info: seq<(string, string)>, rows: seq<VideoStats>) returns (c: Canvas)
    ensures fresh(c)
    ensures c.events == ReportEvents(info, Texts(rows))
  {
    c := new Canvas();
    var height := PageHeight;
    c.DrawString(50, height - 50, ReportTitle);
    var y := height - 100;
    y := DrawFields(c, info, y);
    y := y - 20;
    assert y == SectionY(info);
    c.DrawString(50, y, SectionTitle);
    ghost var header := c.events;
    assert header == [Draw(50, PageHeight - 50, ReportTitle)] + FieldsLayout(info, PageHeight - 100) +
                     [Draw(50, SectionY(info), SectionTitle)];
    y := y - 30;
    DrawRows(c, rows, y);
    c.Save();
  }

  /** The channel-field loop: `key: value` for every field but Playlist_ID,
   *  the cursor stepping down 20 per printed field. */
  method DrawFields(c: Canvas, info: seq<(string, string)>, y0: int) returns (y: int)
    modifies c
    ensures c.events == old(c.events) + FieldsLayout(info, y0)
    ensures y == y0 - 20 * |Kept(info)|
  {
    ghost var whole := c.events + FieldsLayout(info, y0);
    y := y0;
    var i := 0;
    while i < |info|
      invariant 0 <= i <= |info|
      invariant c.events + FieldsLayout(info[i..], y) == whole
      invariant y - 20 * |Kept(info[i..])| == y0 - 20 * |Kept(info)|
    {
      FieldsStep(info, i, y);
      ghost var before := c.events;
      ghost var step := if info[i].0 != PlaylistKey then [Draw(50, y, FieldLine(info[i]))] else [];
      Regroup(before, step, FieldsLayout(info[i + 1..], if step == [] then y else y - 20),
              FieldsLayout(info[i..], y), whole);
      if info[i].0 != PlaylistKey {
        c.DrawString(50, y, FieldLine(info[i]));
        y := y - 20;
      }
      assert c.events == before + step;
      i := i + 1;
    }
    assert info[i..] == [];
  }

  /** The statistics-row loop: two lines per row, the cursor stepping down
   *  30 per row, and a new page whenever it falls below 100. */
  method DrawRows(c: Canvas, rows: seq<VideoStats>, y0: int)
    modifies c
    ensures c.events == old(c.events) + RowsLayout(Texts(rows), y0)
  {
    ghost var texts := Texts(rows);
    ghost var whole := c.events + RowsLayout(texts, y0);
    var y := y0;
    var k := 0;
    while k < |rows|
      invariant 0 <= k <= |rows|
      invariant c.events + RowsLayout(texts[k..], y) == whole
    {
      RowsStep(texts, k, y);
      Regroup(c.events, RowEvents(texts[k], y), RowsLayout(texts[k + 1..], NextCursor(y)),
              RowsLayout(texts[k..], y), whole);
      y := DrawRow(c, rows[k], y);
      k := k + 1;
    }
    assert texts[k..] == [];
  }

  /** One pass of the row loop: the title cut to 70 characters at the
   *  cursor, the statistics line 12 points below, the cursor down 30, and a
   *  new page with the cursor back at the top when it falls below 100. */
  method DrawRow(c: Canvas, row: VideoStats, y: int) returns (next: int)
    modifies c
    ensures c.events == old(c.events) + RowEvents(TextOf(row), y)
    ensures next == NextCursor(y)
  {
    c.DrawString(50, y, Truncate(row.title));
    c.DrawString(60, y - 12, StatsLine(row));
    next := y - 30;
    if next < 100 {
      c.ShowPage();
      next := PageHeight - 50;
    }
  }
}
