/**
 * The background grid of dots: `Rows` by `Cols` absolutely positioned dots,
 * each stored in the dot-element array at its row-major index.
 */
module DotGrid {

  const Rows: nat := 40
  const Cols: nat := 60

  /** Number of dots in the grid. */
  const DotCount: nat := Rows * Cols

  /**
   * Layout of one dot: its row and column, the slot it takes in the dot-element
   * array, and its `left` and `top` positions in percent of the container.
   */
  datatype DotLayout = DotLayout(row: nat, col: nat, index: nat, left: real, top: real)

  /** Row-major slot of the dot in row `i`, column `j`. */
  function DotIndex(i: nat, j: nat): nat {
    i * Cols + j
  }

  /** Row of the dot stored in slot `k`. */
  function RowOf(k: nat): nat {
    k / Cols
  }

  /** Column of the dot stored in slot `k`. */
  function ColOf(k: nat): nat {
    k % Cols
  }

  /** Position `n` of `total` equal steps, as a percentage; always short of 100. */
  function Percent(n: nat, total: nat): (r: real)
    requires n < total
    ensures 0.0 <= r < 100.0
    ensures n == 0 <==> r == 0.0
  {
    (n as real / total as real) * 100.0
  }

  /** The layout the nested loops give the dot in row `i`, column `j`. */
  function Layout(i: nat, j: nat): (d: DotLayout)
    requires i < Rows && j < Cols
    ensures d.row == i && d.col == j && d.index == DotIndex(i, j)
    ensures d.index < DotCount
    ensures 0.0 <= d.left < 100.0 && 0.0 <= d.top < 100.0
  {
    DotIndexInRange(i, j);
    DotLayout(i, j, DotIndex(i, j), Percent(j, Cols), Percent(i, Rows))
  }

  /** The whole grid, slot by slot. */
  function Grid(): (g: seq<DotLayout>)
    ensures |g| == DotCount
  {
    seq(DotCount, k requires 0 <= k < DotCount =>
      SlotInGrid(k);
      Layout(RowOf(k), ColOf(k)))
  }

  /** A dot of the grid has a slot inside the dot-element array. */
  lemma DotIndexInRange(i: nat, j: nat)
    requires i < Rows && j < Cols
    ensures DotIndex(i, j) < DotCount
  {
  }

  /** Reading the row and column back from a dot's slot gives that dot. */
  lemma DotIndexRoundTrip(i: nat, j: nat)
    requires j < Cols
    ensures RowOf(DotIndex(i, j)) == i && ColOf(DotIndex(i, j)) == j
  {
  }

  /** Distinct dots never share a slot. */
  lemma DotIndexInjective(i1: nat, j1: nat, i2: nat, j2: nat)
    requires j1 < Cols && j2 < Cols
    requires DotIndex(i1, j1) == DotIndex(i2, j2)
    ensures i1 == i2 && j1 == j2
  {
  }

  /** Every slot of the dot-element array belongs to exactly one dot of the grid. */
  lemma SlotInGrid(k: nat)
    requires k < DotCount
    ensures RowOf(k) < Rows && ColOf(k) < Cols
    ensures DotIndex(RowOf(k), ColOf(k)) == k
  {
  }

  /** The grid holds the dot of row `i`, column `j` at that dot's slot. */
  lemma GridAt(i: nat, j: nat)
    requires i < Rows && j < Cols
    ensures DotIndex(i, j) < |Grid()| && Grid()[DotIndex(i, j)] == Layout(i, j)
  {
  }

  /** The nested loops that build the dots, row by row, pushing each dot in turn. */
  method GenerateDots() returns (dots: seq<DotLayout>)
    ensures dots == Grid()
    ensures |dots| == Rows * Cols
    ensures forall k :: 0 <= k < |dots| ==> dots[k].index == k
  {
    dots := [];
    var i := 0;
    while i < Rows
      invariant 0 <= i <= Rows
      invariant i * Cols <= DotCount
      invariant dots == Grid()[..i * Cols]
    {
      var j := 0;
      while j < Cols
        invariant 0 <= j <= Cols
        invariant i * Cols + j <= DotCount
        invariant dots == Grid()[..i * Cols + j]
      {
        var index := i * Cols + j;
        GridAt(i, j);
        dots := dots + [DotLayout(i, j, index, (j as real / Cols as real) * 100.0, (i as real / Rows as real) * 100.0)];
        j := j + 1;
      }
      i := i + 1;
    }
  }
}
