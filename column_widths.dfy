/**
  The column-width rule of the grid (dbviewer.py, `auto_adjust_column_widths`): a column
  is as wide as its header text or its widest sampled cell, at least 100 and at most 300
  pixels. Only the first ten rows are sampled. Cells are given as the text `str(value)`
  the grid shows.
 */
module ColumnWidths {

  const MIN_WIDTH := 100
  const MAX_WIDTH := 300
  const SAMPLE_ROWS := 10

  function Min(a: int, b: int): int { if a <= b then a else b }
  function Max(a: int, b: int): int { if a >= b then a else b }

  /** `len(header) * 10 + 30`: the estimate for the header text. */
  function HeaderWidth(header: string): int {
    |header| * 10 + 30
  }

  /** `len(cell_content) * 8 + 20`: the estimate for one cell's text. */
  function ContentWidth(cell: string): int {
    |cell| * 8 + 20
  }

  /** `min(10, len(data))`: how many rows are sampled. */
  function SampleCount(data: seq<seq<string>>): (n: nat)
    ensures n <= |data| && n <= SAMPLE_ROWS
    ensures n == SAMPLE_ROWS || n == |data|
  {
    Min(SAMPLE_ROWS, |data|)
  }

  /**
    The running maximum, starting at 0, of the cell widths of column `col` over the first
    `n` rows, skipping rows too short to have that column.
   */
  function SampleUpTo(data: seq<seq<string>>, col: nat, n: nat): (w: int)
    requires n <= |data|
    ensures w >= 0
    ensures forall k | 0 <= k < n && col < |data[k]| :: ContentWidth(data[k][col]) <= w
    ensures w != 0 ==> exists k | 0 <= k < n && col < |data[k]| :: w == ContentWidth(data[k][col])
    ensures w == 0 <==> forall k | 0 <= k < n :: col >= |data[k]|
  {
    if n == 0 then 0
    else
      var previous := SampleUpTo(data, col, n - 1);
      if col < |data[n - 1]| then Max(previous, ContentWidth(data[n - 1][col])) else previous
  }

  /** The sample width of column `col`: the widest of its first ten cells, or 0. */
  function SampleWidth(data: seq<seq<string>>, col: nat): int {
    SampleUpTo(data, col, SampleCount(data))
  }

  /**
    `min(max(header_width, sample_width, 100), 300)`: the largest of the three estimates,
    capped at 300.
   */
  function ColumnWidth(header: string, sample: int): (w: int)
    ensures MIN_WIDTH <= w <= MAX_WIDTH
    ensures w >= Min(HeaderWidth(header), MAX_WIDTH) && w >= Min(sample, MAX_WIDTH)
    ensures w == MAX_WIDTH || w == MIN_WIDTH || w == HeaderWidth(header) || w == sample
    ensures w <= Max(Max(HeaderWidth(header), sample), MIN_WIDTH)
  {
    Min(Max(Max(HeaderWidth(header), sample), MIN_WIDTH), MAX_WIDTH)
  }

  /** The width handed to `setColumnWidth` for each column, in column order. */
  function Widths(data: seq<seq<string>>, headers: seq<string>): (ws: seq<int>)
    ensures |ws| == |headers|
    ensures forall i | 0 <= i < |headers| :: MIN_WIDTH <= ws[i] <= MAX_WIDTH
  {
    seq(|headers|, i requires 0 <= i < |headers| => ColumnWidth(headers[i], SampleWidth(data, i)))
  }

  /** Every width is at least the header estimate and every sampled cell's estimate, unless capped. */
  lemma {:induction false} WidthsCoverSample(data: seq<seq<string>>, headers: seq<string>, i: nat, k: nat)
    requires i < |headers| && k < SampleCount(data) && i < |data[k]|
    ensures Widths(data, headers)[i] >= Min(ContentWidth(data[k][i]), MAX_WIDTH)
    ensures Widths(data, headers)[i] >= Min(HeaderWidth(headers[i]), MAX_WIDTH)
  {
  }

  /** A row beyond the tenth never changes a width. */
  lemma {:induction false} WidthsIgnoreLaterRows(data: seq<seq<string>>, more: seq<seq<string>>, headers: seq<string>)
    requires |data| >= SAMPLE_ROWS
    ensures Widths(data + more, headers) == Widths(data, headers)
  {
    forall col: nat, n: nat | n <= SAMPLE_ROWS
      ensures SampleUpTo(data + more, col, n) == SampleUpTo(data, col, n)
    {
      SamplePrefix(data, more, col, n);
    }
  }

  /** The running maximum over the first `n` rows depends on those rows only. */
  lemma {:induction false} SamplePrefix(data: seq<seq<string>>, more: seq<seq<string>>, col: nat, n: nat)
    requires n <= |data|
    ensures SampleUpTo(data + more, col, n) == SampleUpTo(data, col, n)
  {
    if n > 0 {
      SamplePrefix(data, more, col, n - 1);
      assert (data + more)[n - 1] == data[n - 1];
    }
  }

  /**
    `auto_adjust_column_widths(data, headers)`: the widths set on the grid, one per header,
    computed by the source's two nested loops.
   */
  method AutoAdjustColumnWidths(data: seq<seq<string>>, headers: seq<string>) returns (widths: seq<int>)
    ensures widths == Widths(data, headers)
  {
    widths := [];
    for colIdx := 0 to |headers|
      invariant |widths| == colIdx
      invariant forall i | 0 <= i < colIdx :: widths[i] == ColumnWidth(headers[i], SampleWidth(data, i))
    {
      var headerWidth := HeaderWidth(headers[colIdx]);
      var sampleWidth := 0;
      for rowIdx := 0 to Min(SAMPLE_ROWS, |data|)
        invariant sampleWidth == SampleUpTo(data, colIdx, rowIdx)
      {
        if rowIdx < |data| && colIdx < |data[rowIdx]| {
          var contentWidth := ContentWidth(data[rowIdx][colIdx]);
          sampleWidth := Max(sampleWidth, contentWidth);
        }
      }
      var columnWidth := Max(Max(headerWidth, sampleWidth), MIN_WIDTH);
      widths := widths + [Min(columnWidth, MAX_WIDTH)];
    }
  }
}
