/** The browser's viewport: keeping the selection on screen and laying columns out over the full width. */
module Viewport {

  function Min(a: int, b: int): int { if a < b then a else b }

  function Max(a: int, b: int): int { if a > b then a else b }

  function Bound(n: int, length: nat): (r: int)
    ensures 0 <= r && (length > 0 ==> r < length)
    ensures 0 <= n < length ==> r == n
  {
    Max(0, Min(n, length - 1))
  }

  function Distance(a: int, b: int): int { if a < b then b - a else a - b }

  /** A selection is moved into its list by the shortest way. */
  lemma BoundIsNearest(n: int, length: nat, k: int)
    ensures length == 0 ==> Bound(n, length) == 0
    ensures 0 <= k < length ==> Distance(Bound(n, length), n) <= Distance(k, n)
  {
  }

  function SidebarWidth(width: int, focus: int): int {
    if width < 64 then (if focus == 0 then width else 0) else Min(28, Max(20, width / 5))
  }

  function BodyHeight(height: int): int { Max(1, height - 6) }

  function GridWidth(width: int, focus: int): int { Max(1, width - SidebarWidth(width, focus)) }

  // ---------------------------------------------------------------- scrolling

  /** The first visible line after making the selected line visible. */
  function Scrolled(top: int, selected: int, count: nat, body: int): int {
    var t := Max(0, Min(top, Max(0, count - body)));
    var t1 := if selected < t then selected else t;
    if selected >= t1 + body then selected - body + 1 else t1
  }

  /** The selection is in the window, the window is within the list, and scrolling again changes nothing. */
  lemma ScrolledShowsSelection(top: int, selected: int, count: nat, body: int)
    requires body >= 1 && 0 <= selected && (count > 0 ==> selected < count) && (count == 0 ==> selected == 0)
    ensures var t := Scrolled(top, selected, count, body);
            && 0 <= t <= Max(0, count - body) && t <= selected < t + body
            && Scrolled(t, selected, count, body) == t
  {
  }

  /** Scrolling moves the window no further than needed: no other position that shows the selection is nearer. */
  lemma ScrolledIsNearest(top: int, selected: int, count: nat, body: int, other: int)
    requires body >= 1 && 0 <= selected && (count > 0 ==> selected < count) && (count == 0 ==> selected == 0)
    requires 0 <= other <= Max(0, count - body) && other <= selected < other + body
    ensures Distance(Scrolled(top, selected, count, body), top) <= Distance(other, top)
  {
  }

  /** The fixed sizes: 20 to 28 columns of sidebar on wide windows, all or nothing on narrow ones, and the frame. */
  lemma FixedSizes(width: int, height: int, focus: int)
    ensures width >= 64 ==> 20 <= SidebarWidth(width, focus) <= 28
    ensures 100 <= width < 145 ==> SidebarWidth(width, focus) == width / 5
    ensures width < 64 ==> SidebarWidth(width, focus) == if focus == 0 then width else 0
    ensures BodyHeight(height) == if height >= 7 then height - 6 else 1
  {
  }

  lemma ScrolledStays(top: int, selected: int, count: nat, body: int)
    requires body >= 1 && 0 <= top <= Max(0, count - body) && top <= selected < top + body
    ensures Scrolled(top, selected, count, body) == top
  {
  }

  // ---------------------------------------------------------------- columns

  predicate Widths(desired: seq<int>) { forall i :: 0 <= i < |desired| ==> desired[i] >= 12 }

  function ColumnWidth(desired: seq<int>, grid: int, c: nat): (w: int)
    requires c < |desired|
    ensures w <= grid && w <= desired[c] && (w == grid || w == desired[c])
  {
    Min(grid, desired[c])
  }

  /** Width of the columns from `start` up to, not including, `end`. */
  function Span(desired: seq<int>, grid: int, start: nat, end: nat): int
    requires end <= |desired|
    decreases end - start
  {
    if start >= end then 0 else ColumnWidth(desired, grid, start) + Span(desired, grid, start + 1, end)
  }

  lemma {:induction false} SpanSplits(desired: seq<int>, grid: int, start: nat, middle: nat, end: nat)
    requires start <= middle <= end <= |desired|
    ensures Span(desired, grid, start, end) == Span(desired, grid, start, middle) + Span(desired, grid, middle, end)
    decreases middle - start
  {
    if start < middle {
      SpanSplits(desired, grid, start + 1, middle, end);
    }
  }

  lemma {:induction false} SpanIsPositive(desired: seq<int>, grid: int, start: nat, end: nat)
    requires start <= end <= |desired| && grid >= 1 && Widths(desired)
    ensures Span(desired, grid, start, end) >= end - start
    decreases end - start
  {
    if start < end {
      SpanIsPositive(desired, grid, start + 1, end);
    }
  }

  /** The leftmost column from which everything up to the selected column fits. */
  predicate IsLeftmost(desired: seq<int>, grid: int, left: int, col: nat)
    requires col < |desired|
  {
    && 0 <= left <= col
    && (left < col ==> Span(desired, grid, left, col + 1) <= grid)
    && (left > 0 ==> Span(desired, grid, left - 1, col + 1) > grid)
  }

  /** There is one such column, so clamping cannot move an already clamped view. */
  lemma LeftmostIsUnique(desired: seq<int>, grid: int, a: int, b: int, col: nat)
    requires col < |desired| && grid >= 1 && Widths(desired)
    requires IsLeftmost(desired, grid, a, col) && IsLeftmost(desired, grid, b, col)
    ensures a == b
  {
    if a < b {
      WiderSpan(desired, grid, a, b - 1, col + 1);
    } else if b < a {
      WiderSpan(desired, grid, b, a - 1, col + 1);
    }
  }

  lemma WiderSpan(desired: seq<int>, grid: int, a: nat, b: nat, end: nat)
    requires a <= b <= end <= |desired| && grid >= 1 && Widths(desired)
    ensures Span(desired, grid, a, end) >= Span(desired, grid, b, end)
  {
    SpanSplits(desired, grid, a, b, end);
    SpanIsPositive(desired, grid, a, b);
  }

  lemma ShorterSpan(desired: seq<int>, grid: int, start: nat, a: nat, b: nat)
    requires start <= a <= b <= |desired| && grid >= 1 && Widths(desired)
    ensures Span(desired, grid, start, a) <= Span(desired, grid, start, b)
  {
    SpanSplits(desired, grid, start, a, b);
    SpanIsPositive(desired, grid, a, b);
  }

  datatype Cell = Cell(index: nat, width: int)

  function Total(cells: seq<Cell>): int {
    if cells == [] then 0 else Total(cells[..|cells| - 1]) + cells[|cells| - 1].width
  }

  lemma {:induction false} TotalTo(cells: seq<Cell>, k: nat)
    requires k < |cells|
    ensures Total(cells[..k + 1]) == Total(cells[..k]) + cells[k].width
  {
    assert cells[..k + 1][..k] == cells[..k];
  }

  lemma TotalMore(cells: seq<Cell>, cell: Cell)
    ensures Total(cells + [cell]) == Total(cells) + cell.width
  {
    assert (cells + [cell])[..|cells|] == cells;
  }

  lemma NoWidth(desired: seq<int>, grid: int, start: nat)
    ensures start <= |desired| ==> Span(desired, grid, start, start) == 0
    ensures Total([]) == 0
  {
  }

  lemma OneWider(desired: seq<int>, grid: int, start: nat, end: nat)
    requires start <= end < |desired| && grid >= 1 && Widths(desired)
    ensures Span(desired, grid, start, end + 1) == Span(desired, grid, start, end) + ColumnWidth(desired, grid, end)
    ensures ColumnWidth(desired, grid, end) >= 1
    ensures start == end ==> ColumnWidth(desired, grid, end) <= grid
  {
    SpanSplits(desired, grid, start, end, end + 1);
    NoWidth(desired, grid, end + 1);
  }

  lemma TotalAfterUpdate(cells: seq<Cell>, i: nat, cell: Cell)
    requires i < |cells|
    ensures Total(cells[i := cell][..i + 1]) == Total(cells[..i]) + cell.width
  {
    TotalTo(cells[i := cell], i);
    assert cells[i := cell][..i] == cells[..i];
  }

  lemma {:induction false} TotalsGrow(cells: seq<Cell>, j: nat, k: nat)
    requires j <= k <= |cells| && forall i :: 0 <= i < |cells| ==> cells[i].width >= 1
    ensures Total(cells[..j]) <= Total(cells[..k]) - (k - j)
    decreases k - j
  {
    if j < k {
      TotalsGrow(cells, j, k - 1);
      TotalTo(cells, k - 1);
    }
  }

  /** A horizontal position relative to the grid hits this cell. */
  predicate Hits(cells: seq<Cell>, x: int, k: nat)
    requires k < |cells|
  {
    Total(cells[..k]) <= x < Total(cells[..k]) + cells[k].width
  }

  predicate HitsAt(cells: seq<Cell>, start: int, x: int, k: nat)
    requires k < |cells|
  {
    Hits(cells, x - start, k)
  }

  /** Every position within the total width hits exactly one cell. */
  lemma ExactlyOneHit(cells: seq<Cell>, x: int) returns (k: nat)
    requires forall i :: 0 <= i < |cells| ==> cells[i].width >= 1
    requires 0 <= x < Total(cells)
    ensures k < |cells| && Hits(cells, x, k)
    ensures forall j: nat :: j < |cells| && Hits(cells, x, j) ==> j == k
  {
    assert cells[..|cells|] == cells;
    k := FirstHit(cells, x, |cells|);
    forall j: nat | j < |cells| && Hits(cells, x, j) ensures j == k {
      TotalTo(cells, j);
      TotalTo(cells, k);
      if j < k {
        TotalsGrow(cells, j + 1, k);
      } else if k < j {
        TotalsGrow(cells, k + 1, j);
      }
    }
  }

  lemma {:induction false} FirstHit(cells: seq<Cell>, x: int, n: nat) returns (k: nat)
    requires n <= |cells| && 0 <= x < Total(cells[..n])
    ensures k < n && Hits(cells, x, k)
  {
    TotalTo(cells, n - 1);
    if Total(cells[..n - 1]) <= x {
      k := n - 1;
    } else {
      k := FirstHit(cells, x, n - 1);
    }
  }

  /** What the first i of the cells receive when each gets a share and the first few one more. */
  function Given(i: nat, share: nat, extra: nat): int { i * share + Min(i, extra) }

  lemma GivenMore(i: nat, share: nat, extra: nat)
    ensures Given(i + 1, share, extra) == Given(i, share, extra) + share + if i < extra then 1 else 0
  {
    assert (i + 1) * share == i * share + share;
  }

  lemma NothingGiven(cells: seq<Cell>, narrow: seq<Cell>, share: nat, extra: nat)
    ensures Total(cells[..0]) == Total(narrow[..0]) + Given(0, share, extra)
  {
  }

  lemma Shares(spare: nat, n: nat)
    requires n > 0
    ensures Given(n, spare / n, spare % n) == spare
  {
  }

  /** The fields of the terminal model that decide what is visible. */
  class Screen {
    var width: int
    var height: int
    var focus: int
    var structureTab: bool
    var row: int
    var col: int
    var top: int
    var left: int
    var table: int
    var tableTop: int
    var structureTop: int
    var rows: nat
    var tables: nat
    var structureLines: nat
    var desired: seq<int>

    ghost predicate Valid()
      reads this
    {
      width >= 1 && height >= 1 && left >= 0 && Widths(desired)
    }

    function Grid(): (g: int)
      reads this
      ensures g >= 1
    {
      GridWidth(width, focus)
    }

    function Body(): (b: int)
      reads this
      ensures b >= 1
    {
      BodyHeight(height)
    }

    /** Every selection is within its list and on screen. */
    ghost predicate Clamped()
      reads this
    {
      && table == Bound(table, tables) && row == Bound(row, rows) && col == Bound(col, |desired|)
      && 0 <= top <= Max(0, rows - Body()) && top <= row < top + Body()
      && 0 <= tableTop <= Max(0, tables - Body()) && tableTop <= table < tableTop + Body()
      && (|desired| == 0 ==> left == 0)
      && (|desired| > 0 ==> IsLeftmost(desired, Grid(), left, col))
      && (structureTab ==> 0 <= structureTop <= Max(0, structureLines - Body()))
    }

    /** Everything that a clamp may move. */
    ghost function Position(): (int, int, int, int, int, int, int)
      reads this
    {
      (row, col, top, left, table, tableTop, structureTop)
    }

    method ColumnsWidth(start: nat, end: nat) returns (w: int)
      ensures w == Span(desired, Grid(), start, Min(end + 1, |desired|))
    {
      w := 0;
      var c := start;
      while c <= end && c < |desired|
        invariant start <= c && (c == start || c <= Min(end + 1, |desired|))
        invariant w + Span(desired, Grid(), c, Min(end + 1, |desired|))
                  == Span(desired, Grid(), start, Min(end + 1, |desired|))
        decreases |desired| - c
      {
        w := w + ColumnWidth(desired, Grid(), c);
        c := c + 1;
      }
    }

    method Clamp()
      requires Valid()
      modifies this
      ensures Valid() && Clamped()
      ensures width == old(width) && height == old(height) && focus == old(focus) && structureTab == old(structureTab)
      ensures rows == old(rows) && tables == old(tables) && structureLines == old(structureLines)
      ensures desired == old(desired)
      ensures row == Bound(old(row), rows) && col == Bound(old(col), |desired|) && table == Bound(old(table), tables)
      ensures top == Scrolled(old(top), row, rows, Body()) && tableTop == Scrolled(old(tableTop), table, tables, Body())
      ensures !structureTab ==> structureTop == old(structureTop)
      ensures structureTab ==> structureTop == Bound(old(structureTop), Max(0, structureLines - Body()) + 1)
      ensures old(Clamped()) ==> Position() == old(Position())
    {
      hide Scrolled;
      ghost var wasClamped, wasLeft, wasCol := Clamped(), left, col;
      ClampLines();
      left := Min(left, col);
      SettleLeft();
      if wasClamped && |desired| > 0 {
        LeftmostIsUnique(desired, Grid(), left, wasLeft, wasCol);
      }
      if structureTab {
        structureTop := Max(0, Min(structureTop, Max(0, structureLines - Body())));
      }
    }

    method ClampLines()
      modifies this`table, this`row, this`col, this`top, this`tableTop
      ensures row == Bound(old(row), rows) && col == Bound(old(col), |desired|) && table == Bound(old(table), tables)
      ensures top == Scrolled(old(top), row, rows, Body()) && tableTop == Scrolled(old(tableTop), table, tables, Body())
      ensures 0 <= top <= Max(0, rows - Body()) && top <= row < top + Body()
      ensures 0 <= tableTop <= Max(0, tables - Body()) && tableTop <= table < tableTop + Body()
      ensures old(Clamped()) ==>
                row == old(row) && col == old(col) && table == old(table) && top == old(top)
                && tableTop == old(tableTop)
    {
      if Clamped() {
        ScrolledStays(top, row, rows, Body());
        ScrolledStays(tableTop, table, tables, Body());
      }
      table := Bound(table, tables);
      row := Bound(row, rows);
      col := Bound(col, |desired|);
      ScrolledShowsSelection(top, row, rows, Body());
      ScrolledShowsSelection(tableTop, table, tables, Body());
      top := Scroll(top, row, rows);
      tableTop := Scroll(tableTop, table, tables);
    }

    method Scroll(from: int, selected: int, count: nat) returns (t: int)
      ensures t == Scrolled(from, selected, count, Body())
    {
      t := Max(0, Min(from, Max(0, count - Body())));
      if selected < t { t := selected; }
      if selected >= t + Body() { t := selected - Body() + 1; }
    }

    /** Moves the left edge right until the selected column fits, then left as far as room allows. */
    method SettleLeft()
      requires Valid() && left <= col && (|desired| > 0 ==> col < |desired|) && (|desired| == 0 ==> col == 0)
      modifies this`left
      ensures Valid() && (|desired| == 0 ==> left == 0) && (|desired| > 0 ==> IsLeftmost(desired, Grid(), left, col))
    {
      var w := ColumnsWidth(left, col);
      if |desired| == 0 { return; }
      while left < col && w > Grid()
        invariant 0 <= left <= col && w == Span(desired, Grid(), left, col + 1)
        decreases col - left
      {
        w := w - ColumnWidth(desired, Grid(), left);
        left := left + 1;
      }
      assert Span(desired, Grid(), col + 1, col + 1) == 0;
      while left > 0 && w + ColumnWidth(desired, Grid(), left - 1) <= Grid()
        invariant 0 <= left <= col && w == Span(desired, Grid(), left, col + 1)
        invariant left == col || w <= Grid()
        decreases left
      {
        left := left - 1;
        w := w + ColumnWidth(desired, Grid(), left);
      }
    }

    /**
     The complete columns that fit from the left edge, widened evenly until they fill the
     grid exactly.
     */
    method VisibleColumns() returns (cells: seq<Cell>)
      requires Valid()
      ensures cells == [] <==> left >= |desired|
      ensures forall i :: 0 <= i < |cells| ==> cells[i].index == left + i && left + i < |desired|
      ensures forall i :: 0 <= i < |cells| ==> cells[i].width >= ColumnWidth(desired, Grid(), cells[i].index) >= 1
      ensures cells != [] ==> Total(cells) == Grid()
      ensures forall i, j :: 0 <= i < j < |cells| ==>
                0 <= (cells[i].width - ColumnWidth(desired, Grid(), cells[i].index))
                     - (cells[j].width - ColumnWidth(desired, Grid(), cells[j].index)) <= 1
      ensures cells != [] && left + |cells| < |desired| ==> Span(desired, Grid(), left, left + |cells| + 1) > Grid()
    {
      hide Span, ColumnWidth, Total;
      var available, used := Grid(), 0;
      cells := [];
      var c := left;
      NoWidth(desired, Grid(), left);
      while c < |desired|
        invariant left <= c && (left <= |desired| ==> c <= |desired|) && |cells| == c - left
        invariant c > |desired| ==> c == left
        invariant c <= |desired| ==> used == Span(desired, Grid(), left, c)
        invariant used == Total(cells) && used <= available
        invariant forall i :: 0 <= i < |cells| ==> cells[i].index == left + i < |desired|
        invariant forall i :: 0 <= i < |cells| ==> cells[i].width == ColumnWidth(desired, Grid(), cells[i].index) >= 1
        decreases |desired| - c
      {
        var preferred := ColumnWidth(desired, Grid(), c);
        OneWider(desired, Grid(), left, c);
        if used + preferred > available && |cells| > 0 { break; }
        TotalMore(cells, Cell(c, preferred));
        cells := cells + [Cell(c, preferred)];
        used := used + preferred;
        c := c + 1;
      }
      if |cells| == 0 { return; }
      assert c < |desired| ==> Span(desired, Grid(), left, c + 1) > Grid();
      cells := Widen(cells, available - used);
      assert left + |cells| == c;
    }

    method Widen(narrow: seq<Cell>, spare: nat) returns (cells: seq<Cell>)
      requires narrow != []
      ensures |cells| == |narrow| && Total(cells) == Total(narrow) + spare
      ensures forall i :: 0 <= i < |cells| ==> cells[i].index == narrow[i].index && cells[i].width >= narrow[i].width
      ensures forall i :: 0 <= i < |cells| ==>
                cells[i].width == narrow[i].width + spare / |narrow| + if i < spare % |narrow| then 1 else 0
    {
      hide Total, Given;
      cells := narrow;
      var n := |narrow|;
      var share, extra := spare / n, spare % n;
      Shares(spare, n);
      var i := 0;
      assert narrow[..n] == narrow;
      NothingGiven(cells, narrow, share, extra);
      while i < n
        invariant 0 <= i <= n == |cells|
        invariant forall k :: i <= k < n ==> cells[k] == narrow[k]
        invariant forall k :: 0 <= k < i ==> cells[k].index == narrow[k].index
        invariant forall k :: 0 <= k < i ==> cells[k].width == narrow[k].width + share + if k < extra then 1 else 0
        invariant Total(cells[..i]) == Total(narrow[..i]) + Given(i, share, extra)
      {
        hide Total, Given;
        var w := cells[i].width + share;
        if i < extra { w := w + 1; }
        TotalAfterUpdate(cells, i, Cell(cells[i].index, w));
        cells := cells[i := Cell(cells[i].index, w)];
        TotalTo(narrow, i);
        GivenMore(i, share, extra);
        i := i + 1;
      }
      assert cells[..n] == cells;
    }

    /** After a clamp the selected column is among the visible ones. */
    method SelectionIsVisible() returns (cells: seq<Cell>)
      requires Valid() && Clamped() && |desired| > 0
      ensures left <= col < left + |cells| && cells[col - left].index == col
      ensures Total(cells) == Grid()
    {
      cells := VisibleColumns();
      if left + |cells| <= col {
        ShorterSpan(desired, Grid(), left, left + |cells| + 1, col + 1);
      }
    }

    /** The cell under a click in the grid; there is exactly one for each position in the grid. */
    method HitTest(cells: seq<Cell>, x: int) returns (k: nat)
      requires forall i :: 0 <= i < |cells| ==> cells[i].width >= 1
      requires SidebarWidth(width, focus) <= x < SidebarWidth(width, focus) + Total(cells)
      ensures k < |cells| && HitsAt(cells, SidebarWidth(width, focus), x, k)
      ensures forall j: nat :: j < |cells| && HitsAt(cells, SidebarWidth(width, focus), x, j) ==> j == k
    {
      var pos := SidebarWidth(width, focus);
      ghost var hit := ExactlyOneHit(cells, x - pos);
      k := 0;
      while !(x >= pos && x < pos + cells[k].width)
        invariant 0 <= k <= hit && pos == SidebarWidth(width, focus) + Total(cells[..k])
        decreases hit - k
      {
        TotalTo(cells, k);
        if k == hit {
          assert false;
        }
        pos := pos + cells[k].width;
        k := k + 1;
      }
      ghost var start := SidebarWidth(width, focus);
      assert Hits(cells, x - start, k);
      forall j: nat | j < |cells| && HitsAt(cells, start, x, j) ensures j == k {
        assert Hits(cells, x - start, j);
      }
    }
  }

  /** Sidebar and grid fill the window exactly, unless a narrow window shows only the sidebar. */
  lemma GridFillsWindow(width: int, focus: int)
    requires width >= 1
    ensures SidebarWidth(width, focus) + GridWidth(width, focus) == width <==> !(width < 64 && focus == 0)
  {
  }
}
