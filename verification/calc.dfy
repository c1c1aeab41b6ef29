/** Row-major grid arithmetic: converting between a linear block number and its
    (column, row) coordinates, and listing the block numbers of the selection box that
    opens at a clicked block. The box is three columns wide and `ceil(models / 3)` rows
    tall; nothing clamps it to the grid, so an anchor near the right edge runs over
    into the following row. */
module Calc {
  import opened PyOps

  /** Width of the selection box, in columns. */
  const BoxWidth: int := 3

  /** A grid position: `x` is the column, `y` the row. */
  datatype Coord = Coord(x: int, y: int)

  /** The linear index of column `x` in row `y` of a grid `columns` wide; row-major,
      so consecutive columns of a row get consecutive numbers. */
  function BlockNumber(x: int, y: int, columns: int): int
  {
    x + y * columns
  }

  /** The coordinates of block `n`, using Python's floor `%` and floor division.
      A grid of zero columns divides by zero. */
  function BlockCoordinates(n: int, columns: int): (r: Result<Coord>)
    ensures columns == 0 <==> r == Err(ZeroDivisionError)
    ensures r.Ok? ==> r.value.x + r.value.y * columns == n
    ensures columns > 0 && r.Ok? ==> 0 <= r.value.x < columns
    ensures columns < 0 && r.Ok? ==> columns < r.value.x <= 0
  {
    if columns == 0 then Err(ZeroDivisionError)
    else Ok(Coord(Mod(n, columns), FloorDiv(n, columns)))
  }

  /** Round trip: the coordinates of any block number lead back to it. */
  lemma CoordinatesRoundTrip(n: int, columns: int)
    requires columns != 0
    ensures BlockCoordinates(n, columns).Ok?
    ensures var c := BlockCoordinates(n, columns).value; BlockNumber(c.x, c.y, columns) == n
  {
  }

  /** Inverse round trip: a position whose column lies inside the grid is recovered
      from its block number, for any row. */
  lemma NumberRoundTrip(x: int, y: int, columns: int)
    requires 0 <= x < columns
    ensures BlockCoordinates(BlockNumber(x, y, columns), columns) == Ok(Coord(x, y))
  {
    DivModUnique(BlockNumber(x, y, columns), columns, y, x);
  }

  /** The number of rows of the selection box for `models` options. */
  function BoxRowCount(models: int): (rows: nat)
    ensures models <= 0 ==> rows == 0
    ensures models > 0 ==> BoxWidth * rows - BoxWidth < models <= BoxWidth * rows
  {
    var c := CeilDiv(models, BoxWidth);
    if c > 0 then c else 0
  }

  /** The block numbers of `rows` rows of the box, starting at row `y`, each row
      holding columns `x0`, `x0 + 1`, `x0 + 2` in that order. */
  function BoxRows(x0: int, y: int, rows: nat, columns: int): (r: seq<int>)
    decreases rows
    ensures |r| == BoxWidth * rows
  {
    if rows == 0 then []
    else
      var row := [BlockNumber(x0, y, columns), BlockNumber(x0 + 1, y, columns),
                  BlockNumber(x0 + 2, y, columns)];
      row + BoxRows(x0, y + 1, rows - 1, columns)
  }

  /** Row-major order: cell `k` of the rows is column `x0 + k % 3` of row `y + k / 3`. */
  lemma {:induction false} BoxRowsPosition(x0: int, y: int, rows: nat, columns: int, k: int)
    requires 0 <= k < BoxWidth * rows
    decreases rows
    ensures BoxRows(x0, y, rows, columns)[k]
      == BlockNumber(x0 + k % BoxWidth, y + k / BoxWidth, columns)
  {
    if k >= BoxWidth {
      BoxRowsPosition(x0, y + 1, rows - 1, columns, k - BoxWidth);
    }
  }

  /** The selection box anchored at `anchor`: rows outer, columns inner, each cell
      turned back into a block number with no bounds check. */
  function SelectBoxBlockNumbers(anchor: int, columns: int, models: int): (r: Result<seq<int>>)
    ensures columns == 0 <==> r == Err(ZeroDivisionError)
    ensures r.Ok? ==> |r.value| == BoxWidth * BoxRowCount(models)
  {
    var rows := BoxRowCount(models);
    match BlockCoordinates(anchor, columns)
    case Err(e) => Err(e)
    case Ok(c) => Ok(BoxRows(c.x, c.y, rows, columns))
  }

  /** Element `k` of the box is column `x0 + k % 3`, row `y0 + k / 3`, counted from
      the anchor's coordinates. */
  lemma SelectBoxPosition(anchor: int, columns: int, models: int, k: int)
    requires columns != 0
    requires 0 <= k < BoxWidth * BoxRowCount(models)
    ensures var a := BlockCoordinates(anchor, columns).value;
      SelectBoxBlockNumbers(anchor, columns, models).value[k]
        == BlockNumber(a.x + k % BoxWidth, a.y + k / BoxWidth, columns)
  {
    var a := BlockCoordinates(anchor, columns).value;
    BoxRowsPosition(a.x, a.y, BoxRowCount(models), columns, k);
  }

  /** With at least one option, the box starts at the clicked block itself. */
  lemma SelectBoxStartsAtAnchor(anchor: int, columns: int, models: int)
    requires columns != 0
    requires models > 0
    ensures |SelectBoxBlockNumbers(anchor, columns, models).value| > 0
    ensures SelectBoxBlockNumbers(anchor, columns, models).value[0] == anchor
  {
  }

  /** The missing clamp: when the anchor sits in one of the last two columns, the
      box cell just past the right edge gets the number of the first block of the
      next row. */
  lemma SelectBoxSpillsIntoNextRow(anchor: int, columns: int, models: int)
    requires columns > 0
    requires models > 0
    requires BlockCoordinates(anchor, columns).value.x >= columns - 2
    ensures var a := BlockCoordinates(anchor, columns).value;
      var k := columns - a.x;
      0 < k < BoxWidth
      && SelectBoxBlockNumbers(anchor, columns, models).value[k] == BlockNumber(0, a.y + 1, columns)
      && BlockCoordinates(BlockNumber(0, a.y + 1, columns), columns) == Ok(Coord(0, a.y + 1))
  {
    var a := BlockCoordinates(anchor, columns).value;
    var k := columns - a.x;
    SelectBoxPosition(anchor, columns, models, k);
    assert a.x + k == columns;
    assert columns + a.y * columns == 0 + (a.y + 1) * columns;
    NumberRoundTrip(0, a.y + 1, columns);
  }

  /** Every cell of the box lands where the box drew it exactly when the box fits
      between the anchor and the right edge. */
  lemma SelectBoxInRowIff(anchor: int, columns: int, models: int)
    requires columns > 0
    requires models > 0
    ensures var a := BlockCoordinates(anchor, columns).value;
      var box := SelectBoxBlockNumbers(anchor, columns, models).value;
      (forall k :: 0 <= k < |box| ==>
        BlockCoordinates(box[k], columns) == Ok(Coord(a.x + k % BoxWidth, a.y + k / BoxWidth)))
      <==> a.x + BoxWidth <= columns
  {
    var a := BlockCoordinates(anchor, columns).value;
    var box := SelectBoxBlockNumbers(anchor, columns, models).value;
    if a.x + BoxWidth <= columns {
      forall k | 0 <= k < |box|
        ensures BlockCoordinates(box[k], columns) == Ok(Coord(a.x + k % BoxWidth, a.y + k / BoxWidth))
      {
        SelectBoxPosition(anchor, columns, models, k);
        NumberRoundTrip(a.x + k % BoxWidth, a.y + k / BoxWidth, columns);
      }
    } else {
      SelectBoxSpillsIntoNextRow(anchor, columns, models);
      var k := columns - a.x;
      assert BlockCoordinates(box[k], columns) == Ok(Coord(0, a.y + 1));
      assert Coord(0, a.y + 1) != Coord(a.x + k % BoxWidth, a.y + k / BoxWidth);
    }
  }

  /** Two rows of the box spelled out cell by cell. */
  lemma BoxRowsTwo(x0: int, y: int, columns: int)
    ensures BoxRows(x0, y, 2, columns)
      == [BlockNumber(x0, y, columns), BlockNumber(x0 + 1, y, columns), BlockNumber(x0 + 2, y, columns),
          BlockNumber(x0, y + 1, columns), BlockNumber(x0 + 1, y + 1, columns), BlockNumber(x0 + 2, y + 1, columns)]
  {
  }

  /** With four to six options the box is the anchor and the two blocks after it, then
      the same three blocks one grid row further on, wherever the anchor sits. */
  lemma SelectBoxOfTwoRows(anchor: int, columns: int, models: int)
    requires columns != 0
    requires 3 < models <= 6
    ensures SelectBoxBlockNumbers(anchor, columns, models)
      == Ok([anchor, anchor + 1, anchor + 2,
             anchor + columns, anchor + columns + 1, anchor + columns + 2])
  {
    var a := BlockCoordinates(anchor, columns).value;
    assert BoxRowCount(models) == 2;
    BoxRowsTwo(a.x, a.y, columns);
    assert a.x + (a.y + 1) * columns == anchor + columns;
  }

  /** Ten columns, anchor 2, six options: two rows of three starting at column 2. */
  lemma SelectBoxExampleTwo()
    ensures SelectBoxBlockNumbers(2, 10, 6) == Ok([2, 3, 4, 12, 13, 14])
  {
    SelectBoxOfTwoRows(2, 10, 6);
  }

  /** Ten columns, anchor 9 in the last column: 10 and 11, which the box means as
      columns 10 and 11 of row 0, are the first blocks of row 1. */
  lemma SelectBoxExampleLastColumn()
    ensures SelectBoxBlockNumbers(9, 10, 6) == Ok([9, 10, 11, 19, 20, 21])
  {
    SelectBoxOfTwoRows(9, 10, 6);
  }
}
