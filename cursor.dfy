/**
 * The table cursor: either a cell of the grid or a column header above it,
 * moved by direction and step count and always clamped back into the grid.
 */
module Cursors {
  import opened Wrappers
  import opened Saturating

  datatype CursorDir = U | D | L | R

  /** `Cell(x, y)` focuses column x of row y; `Column(x)` focuses the header of column x. */
  datatype Cursor = Cell(x: Usize, y: Usize) | Column(x: Usize)

  function ToXY(c: Cursor): (xy: (Usize, Option<Usize>))
    ensures xy.0 == c.x
    ensures xy.1.Some? <==> c.Cell?
    ensures c.Cell? ==> xy.1.value == c.y
  {
    match c
    case Cell(x, y) => (x, Some(y))
    case Column(x) => (x, None)
  }

  function ColumnIndex(c: Cursor): (i: Option<Usize>)
    ensures i.Some? <==> c.Column?
    ensures i.Some? ==> i.value == c.x
  {
    match c
    case Cell(_, _) => None
    case Column(x) => Some(x)
  }

  predicate IsInColumnMode(c: Cursor)
    ensures IsInColumnMode(c) <==> ColumnIndex(c).Some?
  {
    c.Column?
  }

  predicate IsInCellMode(c: Cursor)
    ensures IsInCellMode(c) <==> !IsInColumnMode(c)
    ensures IsInCellMode(c) <==> ToXY(c).1.Some?
  {
    c.Cell?
  }

  /** The largest index below `bound`, or 0 when there is none. */
  function MaxIndex(bound: nat): nat
  {
    SaturatingSub(bound, 1)
  }

  /** The cursor lies within a grid of `boundX` columns and `boundY` rows. */
  predicate InBounds(c: Cursor, boundX: nat, boundY: nat)
  {
    c.x <= MaxIndex(boundX) && (c.Cell? ==> c.y <= MaxIndex(boundY))
  }

  /** `clamp`: pulls each coordinate down to the last index of its axis. */
  function Clamp(c: Cursor, boundX: nat, boundY: nat): (r: Cursor)
    ensures r.Cell? == c.Cell?
    ensures InBounds(r, boundX, boundY)
    ensures InBounds(c, boundX, boundY) ==> r == c
    ensures c.x > MaxIndex(boundX) ==> r.x == MaxIndex(boundX)
    ensures c.x <= MaxIndex(boundX) ==> r.x == c.x
    ensures c.Cell? && c.y > MaxIndex(boundY) ==> r.y == MaxIndex(boundY)
    ensures c.Cell? && c.y <= MaxIndex(boundY) ==> r.y == c.y
  {
    var maxIdxX := MaxIndex(boundX);
    var maxIdxY := MaxIndex(boundY);
    match c
    case Cell(x, y) => Cell(if maxIdxX < x then maxIdxX else x, if maxIdxY < y then maxIdxY else y)
    case Column(x) => Column(if maxIdxX < x then maxIdxX else x)
  }

  /** Clamping twice is clamping once. */
  lemma ClampIdempotent(c: Cursor, boundX: nat, boundY: nat)
    ensures Clamp(Clamp(c, boundX, boundY), boundX, boundY) == Clamp(c, boundX, boundY)
  {
  }

  /** The move `shift` makes for a nonzero step count, before clamping. */
  function Step(c: Cursor, dir: CursorDir, n: Usize): (r: Cursor)
    requires n > 0
    // Up: a cell moves up n rows, or leaves the grid into the header row; a header stays.
    ensures dir == U && c.Cell? && n <= c.y ==> r == Cell(c.x, c.y - n)
    ensures dir == U && c.Cell? && n > c.y ==> r == Column(c.x)
    ensures dir == U && c.Column? ==> r == c
    // Down: a cell moves down n rows; a header enters the grid at row n - 1.
    ensures dir == D && c.Cell? ==> r == Cell(c.x, SaturatingAdd(c.y, n))
    ensures dir == D && c.Column? ==> r == Cell(c.x, n - 1)
    // Left and right: only x changes, and the mode stays.
    ensures (dir == L || dir == R) ==> r.Cell? == c.Cell? && (c.Cell? ==> r.y == c.y)
    ensures dir == L ==> r.x == SaturatingSub(c.x, n)
    ensures dir == R ==> r.x == SaturatingAdd(c.x, n)
  {
    match dir
    case U =>
      (match c
       case Cell(x, y) =>
         (match CheckedSub(y, n)
          case Some(yp) => Cell(x, yp)
          case None => Column(x))
       case Column(_) => c)
    case D =>
      (match c
       case Cell(x, y) => Cell(x, SaturatingAdd(y, n))
       case Column(x) => Cell(x, SaturatingSub(n, 1)))
    case L =>
      (match c
       case Cell(x, y) => Cell(SaturatingSub(x, n), y)
       case Column(x) => Column(SaturatingSub(x, n)))
    case R =>
      (match c
       case Cell(x, y) => Cell(SaturatingAdd(x, n), y)
       case Column(x) => Column(SaturatingAdd(x, n)))
  }

  /** `shift`: move by `n` in direction `dir`, then clamp, even when `n` is 0. */
  function Shift(c: Cursor, dir: CursorDir, n: Usize, boundX: nat, boundY: nat): (r: Cursor)
    ensures InBounds(r, boundX, boundY)
    ensures n == 0 ==> r == Clamp(c, boundX, boundY)
    ensures n > 0 ==> r == Clamp(Step(c, dir, n), boundX, boundY)
    ensures (dir == L || dir == R) ==> r.Cell? == c.Cell?
  {
    var moved := if n > 0 then Step(c, dir, n) else c;
    Clamp(moved, boundX, boundY)
  }

  /** Moving up `n` rows within the grid and then down `n` rows returns to the same cell. */
  lemma UpThenDownRestoresCell(x: Usize, y: Usize, n: Usize, boundX: nat, boundY: nat)
    requires InBounds(Cell(x, y), boundX, boundY)
    requires 0 < n <= y
    ensures Shift(Shift(Cell(x, y), U, n, boundX, boundY), D, n, boundX, boundY) == Cell(x, y)
  {
    var up := Shift(Cell(x, y), U, n, boundX, boundY);
    assert up == Cell(x, y - n);
  }

  /** Entering the grid from a header by `n` rows and leaving by `n` rows returns to the header. */
  lemma DownThenUpRestoresColumn(x: Usize, n: Usize, boundX: nat, boundY: nat)
    requires x <= MaxIndex(boundX)
    requires 0 < n <= boundY
    ensures Shift(Shift(Column(x), D, n, boundX, boundY), U, n, boundX, boundY) == Column(x)
  {
    var down := Shift(Column(x), D, n, boundX, boundY);
    assert down == Cell(x, n - 1);
  }

  /** The worked examples: up from the top-left cell, down from a header. */
  lemma ShiftExamples()
    ensures Shift(Cell(0, 0), U, 1, 5, 5) == Column(0)
    ensures Shift(Column(2), D, 1, 5, 5) == Cell(2, 0)
  {
  }
}
