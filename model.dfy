/**
 * The table model: the record store, the cursor, and the per-column width
 * cache that is rebuilt lazily after the store changes.
 */
module TableModel {
  import opened Wrappers
  import opened Saturating
  import opened Cursors
  import opened DataStore
  import opened Util

  /** A column's width under its sizing policy, given its measured content width `mccw`. */
  function ResolveWidth(sizing: Sizing, mccw: nat): (w: nat)
    ensures sizing.Auto? ==> w == mccw
    ensures sizing.Fixed? ==> w == sizing.width
    ensures sizing.Lower? ==> w >= mccw && w >= sizing.min && (w == mccw || w == sizing.min)
    ensures sizing.Upper? ==> w <= mccw && w <= sizing.max && (w == mccw || w == sizing.max)
    ensures sizing.Bound? && sizing.min <= sizing.max ==>
      sizing.min <= w <= sizing.max
      && (mccw < sizing.min ==> w == sizing.min)
      && (mccw > sizing.max ==> w == sizing.max)
      && (sizing.min <= mccw <= sizing.max ==> w == mccw)
    ensures sizing.Bound? && sizing.min > sizing.max ==> w == sizing.max
  {
    match sizing
    case Auto => mccw
    case Fixed(width) => width
    case Lower(minWidth) => Max(mccw, minWidth)
    case Upper(maxWidth) => Min(mccw, maxWidth)
    case Bound(minWidth, maxWidth) => Min(Max(mccw, minWidth), maxWidth)
  }

  function ColumnWidth(column: Column, records: seq<Record>): nat
  {
    ResolveWidth(column.sizing, MaxContentWidth(column, records))
  }

  /** The widths a fresh cache holds: one per column, in column order. */
  function ColumnWidths(columns: seq<Column>, records: seq<Record>): (ws: seq<nat>)
    ensures |ws| == |columns|
    ensures forall i :: 0 <= i < |columns| ==> ws[i] == ColumnWidth(columns[i], records)
  {
    seq(|columns|, i requires 0 <= i < |columns| => ColumnWidth(columns[i], records))
  }

  /** Reordering the records leaves every column width as it was. */
  lemma ColumnWidthsPermutation(columns: seq<Column>, r1: seq<Record>, r2: seq<Record>)
    requires multiset(r1) == multiset(r2)
    ensures ColumnWidths(columns, r1) == ColumnWidths(columns, r2)
  {
    forall i | 0 <= i < |columns| ensures ColumnWidth(columns[i], r1) == ColumnWidth(columns[i], r2) {
      MaxContentWidthPermutation(columns[i], r1, r2);
    }
  }

  /** Sorting never changes the widths, so the cache it marks stale is in fact still right. */
  lemma SortKeepsColumnWidths(columns: seq<Column>, records: seq<Record>, key: ColumnKey, descending: bool)
    ensures ColumnWidths(columns, SortRecords(records, key, descending)) == ColumnWidths(columns, records)
  {
    ColumnWidthsPermutation(columns, SortRecords(records, key, descending), records);
  }

  /** The sum of a sequence of widths, added from the left. */
  function Sum(ws: seq<nat>): nat
  {
    if ws == [] then 0 else ws[0] + Sum(ws[1..])
  }

  lemma {:induction false} SumPrefixStep(ws: seq<nat>, i: nat)
    requires i < |ws|
    ensures Sum(ws[..i + 1]) == Sum(ws[..i]) + ws[i]
  {
    if i > 0 {
      SumPrefixStep(ws[1..], i - 1);
      assert ws[..i + 1][1..] == ws[1..][..i];
      assert ws[..i][1..] == ws[1..][..i - 1];
    }
  }

  class Model {
    const data: Data
    var cursor: Cursor
    var cachedContentWidths: seq<nat>
    var dirty: bool

    /** A clean cache holds exactly the widths the current columns and records resolve to. */
    ghost predicate Valid()
      reads this, data
    {
      !dirty ==> cachedContentWidths == ColumnWidths(data.columns, data.records)
    }

    /** `with_data`: the cursor starts on the top-left cell and the cache is built. */
    constructor WithData(d: Data)
      ensures data == d && d.columns == old(d.columns) && d.records == old(d.records)
      ensures Valid() && !dirty
      ensures cursor == Cell(0, 0)
      ensures cachedContentWidths == ColumnWidths(d.columns, d.records)
    {
      data := d;
      cursor := Cell(0, 0);
      cachedContentWidths := [];
      dirty := true;
      new;
      Recache();
    }

    method MoveCursor(dir: CursorDir, n: Usize)
      modifies this`cursor
      ensures cursor == Shift(old(cursor), dir, n, |data.columns|, |data.records|)
      ensures InBounds(cursor, |data.columns|, |data.records|)
    {
      cursor := Shift(cursor, dir, n, |data.columns|, |data.records|);
    }

    method MoveCursorUp(n: Usize)
      modifies this`cursor
      ensures cursor == Shift(old(cursor), U, n, |data.columns|, |data.records|)
    {
      MoveCursor(U, n);
    }

    method MoveCursorDown(n: Usize)
      modifies this`cursor
      ensures cursor == Shift(old(cursor), D, n, |data.columns|, |data.records|)
    {
      MoveCursor(D, n);
    }

    method MoveCursorLeft(n: Usize)
      modifies this`cursor
      ensures cursor == Shift(old(cursor), L, n, |data.columns|, |data.records|)
    {
      MoveCursor(L, n);
    }

    method MoveCursorRight(n: Usize)
      modifies this`cursor
      ensures cursor == Shift(old(cursor), R, n, |data.columns|, |data.records|)
    {
      MoveCursor(R, n);
    }

    predicate IsCursorAtColumn(x: Usize)
      reads this
      ensures IsCursorAtColumn(x) <==> cursor == Cursor.Column(x)
    {
      match cursor
      case Column(cx) => cx == x
      case Cell(_, _) => false
    }

    predicate IsCursorAtCell(x: Usize, y: Usize)
      reads this
      ensures IsCursorAtCell(x, y) <==> cursor == Cell(x, y)
    {
      match cursor
      case Cell(cx, cy) => cx == x && cy == y
      case Column(_) => false
    }

    /** `recache`: a clean cache is left alone; a dirty one is rebuilt column by column. */
    method Recache()
      requires Valid()
      modifies this`cachedContentWidths, this`dirty
      ensures Valid() && !dirty
      ensures cachedContentWidths == ColumnWidths(data.columns, data.records)
      ensures !old(dirty) ==> cachedContentWidths == old(cachedContentWidths)
    {
      if dirty { dirty := false; } else { return; }

      cachedContentWidths := [];
      var columns := data.columns;
      var records := data.records;
      for i := 0 to |columns|
        invariant !dirty
        invariant |cachedContentWidths| == i
        invariant forall k :: 0 <= k < i ==> cachedContentWidths[k] == ColumnWidth(columns[k], records)
      {
        var column := columns[i];
        var contentWidth: nat;
        match column.sizing {
          case Auto =>
            contentWidth := MaxColumnContentWidth(column, records);
          case Fixed(width) =>
            contentWidth := width;
          case Lower(minWidth) =>
            var mccw := MaxColumnContentWidth(column, records);
            contentWidth := Max(mccw, minWidth);
          case Upper(maxWidth) =>
            var mccw := MaxColumnContentWidth(column, records);
            contentWidth := Min(mccw, maxWidth);
          case Bound(minWidth, maxWidth) =>
            var mccw := MaxColumnContentWidth(column, records);
            contentWidth := Min(Max(mccw, minWidth), maxWidth);
        }
        cachedContentWidths := cachedContentWidths + [contentWidth];
      }
      assert |cachedContentWidths| == |data.columns|;
    }

    /** The widths of all columns plus one separator between each neighbouring pair. */
    function TotalDisplayWidth(columnSepWidth: nat): (w: nat)
      reads this
      ensures |cachedContentWidths| <= 1 ==> w == Sum(cachedContentWidths)
      ensures w >= Sum(cachedContentWidths)
    {
      var totalSepWidth := SaturatingSub(|cachedContentWidths|, 1) * columnSepWidth;
      Sum(cachedContentWidths) + totalSepWidth
    }

    /** Where column `columnIndex` starts: the widths and separators before it; nothing past the last column. */
    function ColumnOffset(columnIndex: nat, columnSepWidth: nat): (offset: Option<nat>)
      reads this
      ensures offset.None? <==> columnIndex >= |cachedContentWidths|
      ensures columnIndex == 0 < |cachedContentWidths| ==> offset == Some(0)
    {
      if columnIndex >= |cachedContentWidths| then None
      else Some(Sum(cachedContentWidths[..columnIndex]) + columnSepWidth * columnIndex)
    }

    /** The size the table asks for: its total width, and one row per record. */
    function RequiredSize(columnSepWidth: nat): (size: (nat, nat))
      reads this, data
      ensures size.0 == TotalDisplayWidth(columnSepWidth)
      ensures size.1 == |data.records|
    {
      (TotalDisplayWidth(columnSepWidth), |data.records|)
    }

    /** `mutate_columns`: an arbitrary edit of the columns, after which the cache is stale. */
    method MutateColumns<T>(edit: seq<Column> -> (seq<Column>, T)) returns (result: T)
      modifies this`dirty, data`columns
      ensures (data.columns, result) == edit(old(data.columns))
      ensures dirty && Valid()
    {
      var edited := edit(data.columns);
      data.columns := edited.0;
      result := edited.1;
      dirty := true;
    }

    /** `mutate_records`: an arbitrary edit of the records, after which the cache is stale. */
    method MutateRecords<T>(edit: seq<Record> -> (seq<Record>, T)) returns (result: T)
      modifies this`dirty, data`records
      ensures (data.records, result) == edit(old(data.records))
      ensures dirty && Valid()
    {
      var edited := edit(data.records);
      data.records := edited.0;
      result := edited.1;
      dirty := true;
    }

    /** Sorts the records and marks the cache stale, although the widths do not change. */
    method SortByColumnIndex(columnIndex: nat, descending: bool)
      modifies this`dirty, data
      ensures data.columns == old(data.columns)
      ensures columnIndex >= |data.columns| ==> data.records == old(data.records)
      ensures columnIndex < |data.columns| ==>
        data.records == SortRecords(old(data.records), data.columns[columnIndex].key, descending)
      ensures ColumnWidths(data.columns, data.records) == ColumnWidths(old(data.columns), old(data.records))
      ensures dirty && Valid()
    {
      ghost var before := data.records;
      data.SortByColumnIndex(columnIndex, descending);
      ColumnWidthsPermutation(data.columns, data.records, before);
      dirty := true;
    }

    /** `iter_cached_widths`: the cached widths in column order. */
    function IterCachedWidths(): (ws: seq<nat>)
      reads this, data
      ensures |ws| == |cachedContentWidths| && forall i :: 0 <= i < |ws| ==> ws[i] == cachedContentWidths[i]
      ensures Valid() && !dirty ==> ws == ColumnWidths(data.columns, data.records)
    {
      cachedContentWidths
    }
  }

  /** Each column starts one width and one separator after the previous one. */
  lemma ColumnOffsetStep(m: Model, i: nat, columnSepWidth: nat)
    requires i + 1 < |m.cachedContentWidths|
    ensures m.ColumnOffset(i + 1, columnSepWidth).value
            == m.ColumnOffset(i, columnSepWidth).value + m.cachedContentWidths[i] + columnSepWidth
  {
    SumPrefixStep(m.cachedContentWidths, i);
  }

  /** The last column ends exactly at the total display width. */
  lemma LastColumnEndsAtTotalWidth(m: Model, columnSepWidth: nat)
    requires |m.cachedContentWidths| > 0
    ensures var last := |m.cachedContentWidths| - 1;
            m.ColumnOffset(last, columnSepWidth).value + m.cachedContentWidths[last]
            == m.TotalDisplayWidth(columnSepWidth)
  {
    var ws := m.cachedContentWidths;
    SumPrefixStep(ws, |ws| - 1);
    assert ws[..|ws|] == ws;
  }
}
