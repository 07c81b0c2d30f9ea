/**
 * The page-break arithmetic of `handleDownloadPDF`: where each data row and
 * each repeated header row of the exported table is drawn. Lengths are in
 * half-millimetres so that the source's `lineHeight * 1.5` stays whole.
 * Text wrapping is the PDF library's; it enters as two line-count functions.
 */
module Pdf {
  import opened Wrappers
  import opened Tables

  /** `lineHeight = 7` (mm). */
  const LineHeight: int := 14
  /** `margin = 10` (mm). */
  const Margin: int := 20
  /** The report title is drawn at `yPos = 15` (mm). */
  const TitleTop: int := 30
  /** "Structured Table Data:" sits two line heights below the title. */
  const SubtitleTop: int := TitleTop + 2 * LineHeight
  /** The first header row sits one and a half line heights below that heading. */
  const FirstHeaderTop: int := SubtitleTop + 3 * LineHeight / 2
  /** On a continuation page the heading is at the margin and the header row 1.5 line heights below. */
  const ContinuedHeaderTop: int := Margin + 3 * LineHeight / 2
  /**
   * An A4 page, the PDF library's default, is 841.89 pt, a hair over 297 mm;
   * 297 mm is used here. Every cursor value is a whole number of
   * half-millimetres, so no cursor lies between the two heights and each
   * comparison comes out the same on either.
   */
  const A4Height: int := 594

  /** `lineHeight * (n || 1)`: the height of the header row when its text wraps to `n` lines. */
  function HeaderHeight(headerLines: nat): (h: int)
    ensures h >= LineHeight && h >= LineHeight * headerLines
    ensures h == LineHeight || h == LineHeight * headerLines
  {
    LineHeight * (if headerLines == 0 then 1 else headerLines)
  }

  /** `pageHeight - margin - lineHeight * 2`: a row starts a new page when the cursor is below this. */
  function BreakLine(pageHeight: int): int
  {
    pageHeight - Margin - 2 * LineHeight
  }

  /**
   * `maxRowHeight`: one line height, raised to the height of any cell that
   * wraps to more lines; the maximum over the cells, and never below one line.
   */
  function RowHeightOf(row: seq<Cell>, cellLines: Cell -> nat): (h: int)
    ensures h >= LineHeight
    ensures forall i :: 0 <= i < |row| ==> h >= LineHeight * cellLines(row[i])
    ensures h == LineHeight || exists i :: 0 <= i < |row| && h == LineHeight * cellLines(row[i])
  {
    if row == [] then LineHeight
    else
      var before := RowHeightOf(row[..|row| - 1], cellLines);
      var last := LineHeight * cellLines(row[|row| - 1]);
      if last > before then last else before
  }

  /** The `row.forEach` loop that computes `maxRowHeight`. */
  method RowHeight(row: seq<Cell>, cellLines: Cell -> nat) returns (h: int)
    ensures h == RowHeightOf(row, cellLines)
  {
    h := LineHeight;
    var i := 0;
    while i < |row|
      invariant 0 <= i <= |row|
      invariant h == RowHeightOf(row[..i], cellLines)
    {
      assert row[..i + 1][..i] == row[..i];
      var cellHeight := LineHeight * cellLines(row[i]);
      if cellHeight > h {
        h := cellHeight;
      }
      i := i + 1;
    }
    assert row[..|row|] == row;
  }

  /** Where a data row is drawn, and whether a new page was started just before it. */
  datatype RowPlacement = RowPlacement(page: nat, top: int, newPage: bool)

  /** Where the header row is drawn on a page; `continued` marks the "(Continued)" heading above it. */
  datatype HeaderPlacement = HeaderPlacement(page: nat, top: int, continued: bool)

  /** The vertical layout of the table part of the report. */
  datatype Layout = Layout(headers: seq<HeaderPlacement>, rows: seq<RowPlacement>)

  /** The drawing cursor: `yPos` and the current page. */
  datatype Cursor = Cursor(y: int, page: nat)

  /** The cursor once the first header row is drawn: `hh` below the first header's top, on page 1. */
  function Start(hh: int): Cursor
  {
    Cursor(FirstHeaderTop + hh, 1)
  }

  /**
   * Where the next row goes: a cursor past the break line starts a new page,
   * whose "(Continued)" heading and header row push the row down to
   * `ContinuedHeaderTop + hh`; otherwise the row goes at the cursor.
   */
  function Place(c: Cursor, hh: int, pageHeight: int): RowPlacement
  {
    if c.y > BreakLine(pageHeight) then RowPlacement(c.page + 1, ContinuedHeaderTop + hh, true)
    else RowPlacement(c.page, c.y, false)
  }

  /** The cursor after the rows have been drawn. */
  function CursorAfter(rows: seq<seq<Cell>>, cellLines: Cell -> nat, hh: int, pageHeight: int): Cursor
  {
    if rows == [] then Start(hh)
    else
      var p := Place(CursorAfter(rows[..|rows| - 1], cellLines, hh, pageHeight), hh, pageHeight);
      Cursor(p.top + RowHeightOf(rows[|rows| - 1], cellLines), p.page)
  }

  /** Where each of the rows is drawn, in order. */
  function Placements(rows: seq<seq<Cell>>, cellLines: Cell -> nat, hh: int, pageHeight: int): (ps: seq<RowPlacement>)
    ensures |ps| == |rows|
  {
    if rows == [] then []
    else
      var init := rows[..|rows| - 1];
      Placements(init, cellLines, hh, pageHeight) + [Place(CursorAfter(init, cellLines, hh, pageHeight), hh, pageHeight)]
  }

  /** The header rows of a report of `pages` pages: one per page, the first under the report heading. */
  function HeaderPlacements(pages: nat): seq<HeaderPlacement>
  {
    seq(pages, k requires 0 <= k < pages =>
      HeaderPlacement(k + 1, if k == 0 then FirstHeaderTop else ContinuedHeaderTop, k > 0))
  }

  /** The layout that `handleDownloadPDF` gives a table, as a function of the table. */
  function TableLayout(headers: seq<Cell>, rows: seq<seq<Cell>>, pageHeight: int,
                       headerLines: seq<Cell> -> nat, cellLines: Cell -> nat): Layout
  {
    var hh := HeaderHeight(headerLines(headers));
    Layout(HeaderPlacements(CursorAfter(rows, cellLines, hh, pageHeight).page),
           Placements(rows, cellLines, hh, pageHeight))
  }

  /**
   * `handleDownloadPDF`, its drawing left out: the same refusals as the CSV
   * export, then the layout of the table. `headerLines` is the number of
   * lines the joined headers wrap to, `cellLines` the number of lines a cell
   * wraps to in its column.
   */
  method DownloadPdf(data: Option<ExportData>, pageHeight: int,
                     headerLines: seq<Cell> -> nat, cellLines: Cell -> nat) returns (r: Export<Layout>)
    ensures r.Ignored? <==> data.None?
    ensures r.Refused? <==> data.Some? && !Exportable(TableSource(data.value))
    ensures r.Exported? ==>
      && data.Some? && Exportable(TableSource(data.value))
      && r.file == TableLayout(Headers(TableSource(data.value)), Rows(TableSource(data.value)),
                               pageHeight, headerLines, cellLines)
  {
    if data.None? {
      return Ignored;
    }
    var source := TableSource(data.value);
    if !Exportable(source) {
      return Refused;
    }
    var layout := LayOutTable(Headers(source), Rows(source), pageHeight, headerLines, cellLines);
    r := Exported(layout);
  }

  /** The `rows.forEach` loop of `handleDownloadPDF`: it moves the cursor and starts new pages. */
  method LayOutTable(headers: seq<Cell>, rows: seq<seq<Cell>>, pageHeight: int,
                     headerLines: seq<Cell> -> nat, cellLines: Cell -> nat) returns (layout: Layout)
    ensures layout == TableLayout(headers, rows, pageHeight, headerLines, cellLines)
  {
    var hh := HeaderHeight(headerLines(headers));
    var page: nat := 1;
    var headerRows := [HeaderPlacement(1, FirstHeaderTop, false)];
    var yPos := FirstHeaderTop + hh;
    var placed: seq<RowPlacement> := [];
    var i := 0;
    assert headerRows == HeaderPlacements(1);
    while i < |rows|
      invariant 0 <= i <= |rows| && page >= 1
      invariant Cursor(yPos, page) == CursorAfter(rows[..i], cellLines, hh, pageHeight)
      invariant placed == Placements(rows[..i], cellLines, hh, pageHeight)
      invariant headerRows == HeaderPlacements(page)
    {
      LayoutStep(rows, cellLines, hh, pageHeight, i);
      ghost var next := Place(Cursor(yPos, page), hh, pageHeight);
      var startsPage := yPos > BreakLine(pageHeight);
      if startsPage {
        HeaderPlacementsSnoc(page);
        page := page + 1;
        headerRows := headerRows + [HeaderPlacement(page, ContinuedHeaderTop, true)];
        yPos := ContinuedHeaderTop + hh;
      }
      assert RowPlacement(page, yPos, startsPage) == next;
      placed := placed + [RowPlacement(page, yPos, startsPage)];
      var h := RowHeight(rows[i], cellLines);
      yPos := yPos + h;
      i := i + 1;
    }
    assert rows[..|rows|] == rows;
    layout := Layout(headerRows, placed);
  }

  /** A page break adds one "(Continued)" header row for the new page. */
  lemma HeaderPlacementsSnoc(pages: nat)
    requires pages >= 1
    ensures HeaderPlacements(pages + 1) == HeaderPlacements(pages) + [HeaderPlacement(pages + 1, ContinuedHeaderTop, true)]
  {
  }

  /** One more row: its placement is appended, and the cursor moves past it. */
  lemma LayoutStep(rows: seq<seq<Cell>>, cellLines: Cell -> nat, hh: int, pageHeight: int, i: int)
    requires 0 <= i < |rows|
    ensures
      var p := Place(CursorAfter(rows[..i], cellLines, hh, pageHeight), hh, pageHeight);
      && CursorAfter(rows[..i + 1], cellLines, hh, pageHeight) == Cursor(p.top + RowHeightOf(rows[i], cellLines), p.page)
      && Placements(rows[..i + 1], cellLines, hh, pageHeight) == Placements(rows[..i], cellLines, hh, pageHeight) + [p]
  {
    assert rows[..i + 1][..i] == rows[..i];
  }

  // ---------------------------------------------------------------------
  // What the layout guarantees, and what it does not.
  // ---------------------------------------------------------------------

  lemma {:induction false} PlacementAt(rows: seq<seq<Cell>>, cellLines: Cell -> nat, hh: int, pageHeight: int, i: int)
    requires 0 <= i < |rows|
    ensures Placements(rows, cellLines, hh, pageHeight)[i]
         == Place(CursorAfter(rows[..i], cellLines, hh, pageHeight), hh, pageHeight)
  {
    var init := rows[..|rows| - 1];
    if i < |rows| - 1 {
      PlacementAt(init, cellLines, hh, pageHeight, i);
      assert init[..i] == rows[..i];
    } else {
      assert init == rows[..i];
    }
  }

  /**
   * Before data row `i`, with the cursor at `c`: a new page (with its
   * repeated header row) is started exactly when `c.y` is past the break
   * line; the row is drawn at the cursor or just under the new header; the
   * cursor then moves down by the row's height.
   */
  lemma BreakRule(rows: seq<seq<Cell>>, cellLines: Cell -> nat, hh: int, pageHeight: int, i: int)
    requires 0 <= i < |rows|
    ensures
      var c := CursorAfter(rows[..i], cellLines, hh, pageHeight);
      var p := Placements(rows, cellLines, hh, pageHeight)[i];
      && (p.newPage <==> c.y > BreakLine(pageHeight))
      && p.top == (if p.newPage then ContinuedHeaderTop + hh else c.y)
      && p.page == (if p.newPage then c.page + 1 else c.page)
      && CursorAfter(rows[..i + 1], cellLines, hh, pageHeight) == Cursor(p.top + RowHeightOf(rows[i], cellLines), p.page)
  {
    PlacementAt(rows, cellLines, hh, pageHeight, i);
    assert rows[..i + 1][..i] == rows[..i];
  }

  /**
   * A row that does not start a page starts at or above the break line, so
   * only a row at most two line heights tall is sure to end above the
   * bottom margin: the check looks at the cursor, not at the row's height.
   */
  lemma RowStartBound(rows: seq<seq<Cell>>, cellLines: Cell -> nat, hh: int, pageHeight: int, i: int)
    requires 0 <= i < |rows|
    ensures var p := Placements(rows, cellLines, hh, pageHeight)[i];
      && (!p.newPage ==> p.top <= BreakLine(pageHeight))
      && (!p.newPage && RowHeightOf(rows[i], cellLines) <= 2 * LineHeight ==>
            p.top + RowHeightOf(rows[i], cellLines) <= pageHeight - Margin)
  {
    BreakRule(rows, cellLines, hh, pageHeight, i);
  }

  /** From one row to the next, the page either stays and the cursor moves down, or a new page starts. */
  lemma {:induction false} NextRow(rows: seq<seq<Cell>>, cellLines: Cell -> nat, hh: int, pageHeight: int, k: int)
    requires 0 <= k && k + 1 < |rows|
    ensures var ps := Placements(rows, cellLines, hh, pageHeight);
      && (!ps[k + 1].newPage ==> ps[k + 1].page == ps[k].page && ps[k + 1].top == ps[k].top + RowHeightOf(rows[k], cellLines))
      && (ps[k + 1].newPage ==> ps[k + 1].page == ps[k].page + 1)
  {
    BreakRule(rows, cellLines, hh, pageHeight, k);
    BreakRule(rows, cellLines, hh, pageHeight, k + 1);
  }

  /** Pages never go back, and on one page the rows are drawn strictly top to bottom. */
  lemma {:induction false} TopsIncreaseWithinPage(rows: seq<seq<Cell>>, cellLines: Cell -> nat, hh: int, pageHeight: int, i: int, j: int)
    requires 0 <= i < j < |rows|
    ensures var ps := Placements(rows, cellLines, hh, pageHeight);
      && ps[i].page <= ps[j].page
      && (ps[i].page == ps[j].page ==> ps[i].top < ps[j].top)
  {
    NextRow(rows, cellLines, hh, pageHeight, j - 1);
    if i < j - 1 {
      TopsIncreaseWithinPage(rows, cellLines, hh, pageHeight, i, j - 1);
    }
  }

  /** The number of rows that start a new page. */
  function NewPages(ps: seq<RowPlacement>): nat
  {
    if ps == [] then 0
    else NewPages(ps[..|ps| - 1]) + (if ps[|ps| - 1].newPage then 1 else 0)
  }

  /**
   * The report has one page more than there are page breaks, and the header
   * row is drawn once on each of its pages, on every page a row lands on.
   */
  lemma {:induction false} HeaderOnEveryPage(rows: seq<seq<Cell>>, cellLines: Cell -> nat, hh: int, pageHeight: int)
    ensures var pages := CursorAfter(rows, cellLines, hh, pageHeight).page;
      var ps := Placements(rows, cellLines, hh, pageHeight);
      && pages == 1 + NewPages(ps)
      && |HeaderPlacements(pages)| == pages
      && (forall i :: 0 <= i < |ps| ==> 1 <= ps[i].page <= pages && HeaderPlacements(pages)[ps[i].page - 1].page == ps[i].page)
  {
    var ps := Placements(rows, cellLines, hh, pageHeight);
    var pages := CursorAfter(rows, cellLines, hh, pageHeight).page;
    if rows != [] {
      var init := rows[..|rows| - 1];
      HeaderOnEveryPage(init, cellLines, hh, pageHeight);
      assert ps[..|ps| - 1] == Placements(init, cellLines, hh, pageHeight);
      var last := |rows| - 1;
      BreakRule(rows, cellLines, hh, pageHeight, last);
      assert rows[..last + 1] == rows;
      assert rows[..last] == init;
      forall i | 0 <= i < |ps|
        ensures 1 <= ps[i].page <= pages
      {
        if i < last {
          assert ps[i] == Placements(init, cellLines, hh, pageHeight)[i];
        }
      }
    }
  }

  /**
   * The check does not keep a tall row on its page: on an A4 page, a first
   * row whose cell wraps to 60 lines starts at 46.5 mm and is 420 mm tall,
   * so it runs far past the bottom of the page (true of the library's
   * exact A4 height as well, since 420 mm lies far past either).
   */
  lemma TallRowOverrunsPage()
    ensures var rows := [[Some("x")]];
      var cellLines := (c: Cell) => 60;
      var hh := HeaderHeight(1);
      var p := Placements(rows, cellLines, hh, A4Height)[0];
      !p.newPage && p.page == 1 && p.top + RowHeightOf(rows[0], cellLines) > A4Height
  {
    var rows := [[Some("x")]];
    var cellLines := (c: Cell) => 60;
    var hh := HeaderHeight(1);
    BreakRule(rows, cellLines, hh, A4Height, 0);
    assert rows[..0] == [];
    assert RowHeightOf(rows[0], cellLines) == 840 by {
      assert rows[0][..0] == [];
    }
  }
}
