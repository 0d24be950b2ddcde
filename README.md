# diargos table core in Dafny

This project models the layout and navigation core of diargos, a terminal
viewer for tables of file metadata. It covers the four Rust files that hold
the core's logic:

- `src/util.rs`: measuring a string's width in characters, taking the maximum
  content width of a column, and trimming a string to a column with room for
  an ellipsis.
- `src/cursor.rs`: the two-mode cursor, either on a cell or on a column
  header, with its directional shift and clamping.
- `src/data.rs`: column sizing policies and their normalisation, record value
  lookup by column key, the stable sort of records by a column's value, and
  the column iterator.
- `src/model.rs`: the `Model` object. It owns the store and the cursor, and
  keeps a lazily rebuilt cache of column widths with a dirty flag. It also
  answers width, offset and size queries.

Modules, one per source file plus three helpers:

| module | file | models |
|---|---|---|
| `Wrappers` | wrappers.dfy | `Option` |
| `Saturating` | saturating.dfy | `usize` (64-bit) and its saturating and checked subtraction and addition |
| `Lex` | lex.dfy | `Ordering` and Rust's lexicographic `str` comparison |
| `DataStore` | data.dfy | `src/data.rs` |
| `Util` | util.dfy | `src/util.rs` |
| `Cursors` | cursor.dfy | `src/cursor.rs` |
| `TableModel` | model.dfy | `src/model.rs` |

How the Rust maps onto Dafny:

- Strings are `seq<char>` (code points). The byte offsets that `char_indices`
  yields become character positions.
- `str::cmp` compares UTF-8 bytes. On valid UTF-8 that order is the
  lexicographic order of code points, which is what `Lex.StrCmp` computes.
- `Data`, `Model` and `IterColumn` hold state the source updates in place, so
  they are classes. `Model.data` is never reassigned, so it is a `const`
  reference.
- `Cursor::clamp` and `Cursor::shift` overwrite the cursor in place. Here they
  are functions that return the new cursor, and `Model` assigns it.
- `trim_display_str` works by advancing one `char_indices` iterator in two
  stages. `Util.SkipNext` reproduces one stage, `iter.by_ref().skip(k).next()`,
  consuming the same characters the iterator consumes.
- `Vec::sort_by` is a stable sort. A stable sort's result is fixed by its
  comparator, so it is modelled as a stable insertion sort,
  `DataStore.SortRecords`.
- The closures given to `mutate_columns` and `mutate_records` are total
  functions from the old collection to the new collection and a result.

Points of the code worth knowing:

- `src/util.rs:8-59` measures and trims by counting characters, not terminal
  display columns, and has the off-by-one listed under Findings.
- `sort_by_column_index` marks the cache stale (`src/model.rs:148`) although
  its comment at `src/model.rs:146` says no recache is needed.
  `TableModel.SortKeepsColumnWidths` proves the comment right: sorting leaves
  every width unchanged.
- `src/util.rs:12` takes a column key and looks it up in a column collection.
  `src/model.rs:85-90` passes the column itself, and `util.rs` does not
  compile against that call. The model follows the caller. It keys the
  maximum by a `Column` and reads values with `Record::get`.

## Model

| member | source | states |
|---|---|---|
| `Util.StrWidth` | src/util.rs:8-10 | the width is the number of characters in the string |
| `Util.StrWidthConcat` | src/util.rs:8-10 | width is 0 for the empty string and adds up over concatenation |
| `Util.MaxContentWidth` | src/util.rs:12-24 | the max-fold of the title width with each record's value width (a missing value counts 0): never below the title width or any record's value width |
| `Util.MaxContentWidthIsMax` | src/util.rs:13-23 | the content width is at least the title width and at least every record's value width (a missing value counts 0), and it equals one of them |
| `Util.MaxContentWidthPermutation` | src/util.rs:18-21 | the content width does not depend on the order of the records |
| `Util.MaxColumnContentWidth` | src/util.rs:12-24 | the running-maximum loop returns the title width maxed with each record's value width |
| `Util.SkipNext` | src/util.rs:37 | skipping k characters and taking the next returns the position k further on if there is one, and in every case consumes each character it looked at |
| `Util.Trim` | src/util.rs:26-59 | the result is always a prefix of the input. With no room for the ellipsis, the result is the empty string, flagged iff the input is non-empty. Otherwise the flag is set exactly when the input has at least contentWidth + 2 characters; a flagged output plus the ellipsis fills contentWidth exactly; an unflagged output is the input itself |
| `Util.TrimDisplayStr` | src/util.rs:26-59 | the two iterator stages, with the characters they really consume, compute exactly `Trim` |
| `Util.TrimPassesOneCharTooMany` | src/util.rs:37-50 | a string of exactly contentWidth + 1 characters comes back whole and unflagged, wider than the column |
| `Util.TrimHelloExample` | src/util.rs:45-55 | "hello!" in 5 columns with a 1-character ellipsis comes back whole as written, and as "hell" with an ellipsis when corrected |
| `Util.Fit` | src/util.rs:26-59 | corrected trimming: output never wider than the column, always a prefix of the input, flagged exactly when the input is wider than the column, unchanged whenever it fits |
| `Util.TrimDisplayStrCorrected` | src/util.rs:34-55 | the two iterator stages, with the second stage skipping one character fewer, compute exactly `Fit` |
| `Cursors.ToXY` | src/cursor.rs:14-19 | x is the cursor's column; the row is present exactly in cell mode and is then the cell's row |
| `Cursors.ColumnIndex` | src/cursor.rs:21-26 | present exactly in column mode, and then the column's index |
| `Cursors.IsInColumnMode` | src/cursor.rs:83-85 | holds exactly when `ColumnIndex` is present |
| `Cursors.IsInCellMode` | src/cursor.rs:87-89 | is the negation of column mode, and holds exactly when `ToXY` has a row |
| `Cursors.Clamp` | src/cursor.rs:28-41 | keeps the mode; the result is in bounds, so x ≤ boundX - 1 and in cell mode y ≤ boundY - 1 (0 for an empty axis); an in-bounds cursor is unchanged; an out-of-range coordinate becomes the last index |
| `Cursors.ClampIdempotent` | src/cursor.rs:28-41 | clamping twice equals clamping once |
| `Cursors.Step` | src/cursor.rs:45-76 | the transition table. Up: a cell moves up n rows when n ≤ y, and otherwise leaves the grid into its column header; a header stays. Down: a cell moves down n rows (saturating); a header enters row n - 1. Left and right: only x changes (saturating), and the mode stays |
| `Cursors.Shift` | src/cursor.rs:43-81 | the result is always in bounds; with n = 0 it is exactly the clamp; otherwise it is the transition-table move, clamped; left and right never change the mode |
| `Cursors.UpThenDownRestoresCell` | src/cursor.rs:47-62 | from an in-bounds cell, moving up n ≤ y rows and then down n rows returns to the same cell |
| `Cursors.DownThenUpRestoresColumn` | src/cursor.rs:47-62 | from an in-bounds header, entering the grid by n rows (n ≤ rows) and going up n rows returns to the header |
| `Cursors.ShiftExamples` | src/cursor.rs:43-81 | up 1 from Cell(0,0) in a 5×5 grid is Column(0); down 1 from Column(2) is Cell(2,0) |
| `DataStore.SizingFrom` | src/data.rs:29-47 | Auto, Fixed, Lower and Upper keep their variant and numbers; a Bound keeps its minimum and always ends with min ≤ max, keeping its maximum when already ordered and collapsing to (min, min) otherwise |
| `DataStore.GetMeta` | src/data.rs:91-93 | present exactly when the key is in the metadata, and then the stored value |
| `DataStore.GetInfo` | src/data.rs:95-100 | the file name for FileName and the whole path for FilePath, each as its text conversion gives it |
| `DataStore.Get` | src/data.rs:102-107 | a metadata key reads `GetMeta` and an info key reads `GetInfo` |
| `DataStore.CompareEqual` | src/data.rs:137-145 | the comparator says Equal exactly when the two values are equal (both absent, or the same string), in either direction |
| `DataStore.CompareReverse` | src/data.rs:137-145 | swapping the arguments reverses the comparator's answer |
| `DataStore.CompareTransitive` | src/data.rs:137-145 | "not greater" is transitive, so the comparator is a total order as `sort_by` needs |
| `DataStore.CompareValues` | src/data.rs:138-143 | an absent value is Equal to an absent one and Less than a present one; a present value is Greater than an absent one; two present values compare Less exactly when the first is lexicographically smaller |
| `DataStore.Compare` | src/data.rs:137-146 | ascending it is `CompareValues`; descending it is `CompareValues` with the arguments swapped, so the whole order is reversed |
| `DataStore.SortRecords` | src/data.rs:137 | the result of `sort_by` with the column comparator: a permutation of the input (sorted and stable by `SortRecordsSorted` and `SortRecordsStable`) |
| `DataStore.SortRecordsSorted` | src/data.rs:137-146 | no record sorts after a record that follows it |
| `DataStore.SortRecordsStable` | src/data.rs:137-146 | for every value, the records with that value appear in their original relative order (stability) |
| `DataStore.SortedValueOrder` | src/data.rs:138-145 | ascending: absent values come first and present values do not decrease; descending: absent values come last and present values do not increase |
| `DataStore.SortExample` | src/data.rs:134-148 | values "b", "a", absent sort ascending to absent, "a", "b" and descending to "b", "a", absent |
| `DataStore.Data.WithData` | src/data.rs:123-128 | the new store holds exactly the given columns and records |
| `DataStore.Data.SortByColumnIndex` | src/data.rs:134-148 | an index past the last column leaves the records unchanged; otherwise the records become the stable sort by that column, sorted, a permutation and stable; the columns never change |
| `DataStore.Data.IterColumnOf` | src/data.rs:130-132 | a fresh iterator over the current records for the given metadata key, at the start |
| `DataStore.IterColumn.Next` | src/data.rs:157-166 | yields, one per call and in record order, the metadata lookup of each record for the key, then nothing |
| `Lex.StrCmpEqual` | src/data.rs:142 | two strings compare Equal exactly when they are equal |
| `Lex.StrCmpReverse` | src/data.rs:142 | swapping the strings reverses the comparison |
| `Lex.StrCmpTransitive` | src/data.rs:142 | "not greater" between strings is transitive |
| `Lex.StrCmpLessIsLexLess` | src/data.rs:142 | `StrCmp` says Less exactly when the first string is a proper prefix of the second or is smaller at the first differing character |
| `TableModel.ResolveWidth` | src/model.rs:92-98 | Auto gives the measured width and Fixed(w) gives w. Lower(m) gives the larger of the measured width and m; Upper(M) gives the smaller. An ordered Bound(m, M) gives the measured width clamped into [m, M]; a reversed one gives M |
| `TableModel.ColumnWidths` | src/model.rs:82-101 | one width per column, in column order, each the column's sizing resolved against its measured content width |
| `TableModel.ColumnWidthsPermutation` | src/model.rs:85-98 | reordering the records changes no column width |
| `TableModel.SortKeepsColumnWidths` | src/model.rs:145-149 | sorting by any column leaves every column width unchanged |
| `TableModel.SumPrefixStep` | src/model.rs:116 | the sum of the first i + 1 widths is the sum of the first i plus width i |
| `TableModel.Model.WithData` | src/model.rs:21-35 | the cursor starts at Cell(0,0); on return the cache holds the resolved widths and is clean |
| `TableModel.Model.MoveCursor` | src/model.rs:37-39 | the cursor becomes its shift with bounds (number of columns, number of records), and lands in those bounds; nothing else changes |
| `TableModel.Model.MoveCursorUp` | src/model.rs:41-43 | only the cursor changes: an upward shift within the data's bounds |
| `TableModel.Model.MoveCursorDown` | src/model.rs:45-47 | only the cursor changes: a downward shift within the data's bounds |
| `TableModel.Model.MoveCursorLeft` | src/model.rs:49-51 | only the cursor changes: a leftward shift within the data's bounds |
| `TableModel.Model.MoveCursorRight` | src/model.rs:53-55 | only the cursor changes: a rightward shift within the data's bounds |
| `TableModel.Model.IsCursorAtColumn` | src/model.rs:57-63 | holds exactly when the cursor is Column(x) |
| `TableModel.Model.IsCursorAtCell` | src/model.rs:65-71 | holds exactly when the cursor is Cell(x, y) |
| `TableModel.Model.Recache` | src/model.rs:73-104 | a clean cache is left untouched. Otherwise the dirty flag is cleared and the cache rebuilt. Either way it ends clean, with one resolved width per column, so a second call changes nothing. The cursor and the data are not touched |
| `TableModel.Model.TotalDisplayWidth` | src/model.rs:106-109 | at least the sum of the widths, and exactly that sum when there is at most one column (no separator) |
| `TableModel.Model.ColumnOffset` | src/model.rs:111-121 | absent exactly when the index is past the last cached column; the first column starts at 0 |
| `TableModel.ColumnOffsetStep` | src/model.rs:111-121 | each column starts one width and one separator after the previous one |
| `TableModel.LastColumnEndsAtTotalWidth` | src/model.rs:106-121 | the last column's offset plus its width is the total display width |
| `TableModel.Model.RequiredSize` | src/model.rs:123-125 | the total display width paired with the number of records |
| `TableModel.Model.MutateColumns` | src/model.rs:127-134 | the columns and the returned value are what the edit makes of the old columns; the cache is marked stale; the cursor, records and cached widths are untouched |
| `TableModel.Model.MutateRecords` | src/model.rs:136-143 | the records and the returned value are what the edit makes of the old records; the cache is marked stale; the cursor, columns and cached widths are untouched |
| `TableModel.Model.SortByColumnIndex` | src/model.rs:145-149 | the records are sorted as `Data.SortByColumnIndex` sorts them and the cache is marked stale, though the widths the columns resolve to are unchanged; the cursor is untouched |
| `TableModel.Model.IterCachedWidths` | src/model.rs:151-153 | yields the cached widths in column order; on a clean cache these are the resolved widths of the columns |

## Findings

| source | as written | input that shows it | evidently intended | confidence | as-written member | corrected member |
|---|---|---|---|---|---|---|
| src/util.rs:37-47 | `peek()` on the temporary `Peekable` takes the character at `trunc_width` out of the shared iterator. The second stage then skips `ellipsis_width` more, so it finds an overflow only for strings of at least `content_width + 2` characters | `trim_display_str("hello!", 5, 1)` returns `("hello!", false)`: 6 characters in a 5-character column, and no ellipsis | a string longer than `content_width` is cut to `content_width - ellipsis_width` characters and flagged, as the comment at src/util.rs:48 ("will fit in the full column width") says; `"hello!"` becomes `("hell", true)` | high, not executed | `Util.TrimPassesOneCharTooMany` | `Util.TrimDisplayStrCorrected` |

## Left out

- Rendering, the cursive widgets, drawing, scrolling and the shared `Arc<Mutex<Model>>` handle (src/views/tag_record.rs). That is UI and locking glue; its key handling only calls the `Model` operations modelled here.
- `Util::trim_display_str_elided` and the multi-value renderer that the view calls. They are not part of this model: `src/util.rs` does not define them.
- CLI parsing, file and directory I/O, configuration loading and the event loop (src/main.rs, src/config.rs, src/views/file_browser.rs, src/views/field_edit.rs). The file browser's dirs-first comparator is left out with them.
- The serde JSON shape of `SizingRepr`: the model keeps the conversion to `Sizing` but not the decoding.
- `PathBuf::file_name` and `to_str` are foreign. A path is represented by the texts those conversions return for it.
- `Util.MaxColumnContentWidth`: the "column key not found, return 0" branch of src/util.rs:13-16 is not modelled. The model is keyed by the column itself, as src/model.rs:85-90 calls it, so there is nothing to look up.
- `TableModel.Model.TotalDisplayWidth`: does not model `usize` overflow of the plain `+` and `*` in src/model.rs:107-108 (a panic in debug builds, wrap-around in release builds). The same holds for `ColumnOffset`. Widths are unbounded naturals there. The cursor's saturating and checked arithmetic is modelled with an explicit `usize` bound.
- `Data::new`, `Record::new` and `Default for Data` build empty values and are not modelled. `IterCache` is unused by the model code and is not modelled.
- Constants such as the ellipsis and the column separator are parameters (`ellipsisWidth`, `columnSepWidth`) and not fixed values.
- The standard library's merge-sort steps inside `sort_by` are not modelled. Any stable sort with the same comparator produces the same order, so the sorted result is the same.
