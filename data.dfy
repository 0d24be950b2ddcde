/**
 * The record store: column definitions with their sizing policies, records
 * keyed by metadata names or derived from the file path, and the stable sort
 * of the records by one column's value.
 */
module DataStore {
  import opened Wrappers
  import opened Lex

  /** How a column's content width is chosen from the measured content. */
  datatype Sizing =
    | Auto
    | Fixed(width: nat)
    | Lower(min: nat)
    | Upper(max: nat)
    | Bound(min: nat, max: nat)

  /** The deserialised shape of a sizing, before `Bound` is put in order. */
  datatype SizingRepr =
    | AutoRepr
    | FixedRepr(width: nat)
    | LowerRepr(min: nat)
    | UpperRepr(max: nat)
    | BoundRepr(min: nat, max: nat)

  /** `impl From<SizingRepr> for Sizing`: a reversed `Bound` collapses onto its minimum. */
  function SizingFrom(repr: SizingRepr): (s: Sizing)
    ensures repr.AutoRepr? <==> s.Auto?
    ensures repr.FixedRepr? ==> s == Fixed(repr.width)
    ensures repr.LowerRepr? ==> s == Lower(repr.min)
    ensures repr.UpperRepr? ==> s == Upper(repr.max)
    ensures repr.BoundRepr? ==> s.Bound? && s.min == repr.min && s.min <= s.max
    ensures repr.BoundRepr? && repr.min <= repr.max ==> s.max == repr.max
    ensures repr.BoundRepr? && repr.min > repr.max ==> s.max == repr.min
  {
    match repr
    case AutoRepr => Auto
    case FixedRepr(width) => Fixed(width)
    case LowerRepr(minWidth) => Lower(minWidth)
    case UpperRepr(maxWidth) => Upper(maxWidth)
    case BoundRepr(minWidth, maxWidth) =>
      if minWidth > maxWidth then Bound(minWidth, minWidth) else Bound(minWidth, maxWidth)
  }

  datatype InfoKind = FileName | FilePath

  /** Where a column takes its value from: a metadata entry, or the record's file path. */
  datatype ColumnKey = Meta(name: string) | Info(kind: InfoKind)

  datatype Column = Column(key: ColumnKey, title: string, sizing: Sizing)

  /**
   * A record's file-system path, seen through the two conversions the store
   * applies to it: its final component as text (`file_name` then `to_str`) and
   * the whole path as text (`to_str`). Either may be absent.
   */
  datatype PathBuf = PathBuf(fileNameStr: Option<string>, pathStr: Option<string>)

  datatype Record = Record(metadata: map<string, string>, filePath: PathBuf)

  function GetMeta(r: Record, metaKey: string): (v: Option<string>)
    ensures v.Some? <==> metaKey in r.metadata
    ensures v.Some? ==> v.value == r.metadata[metaKey]
  {
    if metaKey in r.metadata then Some(r.metadata[metaKey]) else None
  }

  function GetInfo(r: Record, kind: InfoKind): (v: Option<string>)
    ensures kind == FileName ==> v == r.filePath.fileNameStr
    ensures kind == FilePath ==> v == r.filePath.pathStr
  {
    match kind
    case FileName => r.filePath.fileNameStr
    case FilePath => r.filePath.pathStr
  }

  /** The value a record shows in the column with key `key`. */
  function Get(r: Record, key: ColumnKey): (v: Option<string>)
    ensures key.Meta? ==> v == GetMeta(r, key.name)
    ensures key.Info? ==> v == GetInfo(r, key.kind)
  {
    match key
    case Meta(metaKey) => GetMeta(r, metaKey)
    case Info(kind) => GetInfo(r, kind)
  }

  // ---------------------------------------------------------------------------
  // The sort comparator and the stable sort.

  /** Absent values sort before present ones; present values in string order. */
  function CompareValues(a: Option<string>, b: Option<string>): (o: Ordering)
    ensures a.None? ==> (o == Equal <==> b.None?) && (o == Less <==> b.Some?)
    ensures a.Some? && b.None? ==> o == Greater
    ensures a.Some? && b.Some? ==> (o == Less <==> LexLess(a.value, b.value))
  {
    if a.Some? && b.Some? then StrCmpLessIsLexLess(a.value, b.value); StrCmp(a.value, b.value)
    else match (a, b)
    case (None, None) => Equal
    case (None, Some(_)) => Less
    case (Some(_), None) => Greater
    case (Some(x), Some(y)) => StrCmp(x, y)
  }

  /** The comparator `sort_by_column_index` hands to the sort: reversed as a whole when descending. */
  function Compare(a: Option<string>, b: Option<string>, descending: bool): (o: Ordering)
    ensures !descending ==> o == CompareValues(a, b)
    ensures descending ==> o == CompareValues(b, a)
  {
    var o := CompareValues(a, b);
    if !descending then o
    else if a.Some? && b.Some? then StrCmpReverse(a.value, b.value); Reverse(o)
    else Reverse(o)
  }

  lemma CompareEqual(a: Option<string>, b: Option<string>, descending: bool)
    ensures Compare(a, b, descending) == Equal <==> a == b
  {
    if a.Some? && b.Some? { StrCmpEqual(a.value, b.value); }
  }

  lemma CompareReverse(a: Option<string>, b: Option<string>, descending: bool)
    ensures Compare(b, a, descending) == Reverse(Compare(a, b, descending))
  {
    if a.Some? && b.Some? { StrCmpReverse(a.value, b.value); }
  }

  lemma CompareTransitive(a: Option<string>, b: Option<string>, c: Option<string>, descending: bool)
    requires Compare(a, b, descending) != Greater && Compare(b, c, descending) != Greater
    ensures Compare(a, c, descending) != Greater
  {
    if a.Some? && b.Some? && c.Some? {
      if descending {
        StrCmpReverse(a.value, b.value);
        StrCmpReverse(b.value, c.value);
        StrCmpReverse(a.value, c.value);
        StrCmpTransitive(c.value, b.value, a.value);
      } else {
        StrCmpTransitive(a.value, b.value, c.value);
      }
    }
  }

  /** Places `r` in front of the first record it does not sort after. */
  function InsertRecord(r: Record, sorted: seq<Record>, key: ColumnKey, descending: bool): seq<Record>
  {
    if sorted == [] || Compare(Get(r, key), Get(sorted[0], key), descending) != Greater then [r] + sorted
    else [sorted[0]] + InsertRecord(r, sorted[1..], key, descending)
  }

  /**
   * The order `Vec::sort_by` produces with the column comparator. The sort is
   * stable, so it is determined by the comparator; it is written here as an
   * insertion sort, which is stable too.
   */
  function SortRecords(records: seq<Record>, key: ColumnKey, descending: bool): (r: seq<Record>)
    ensures multiset(r) == multiset(records)
  {
    if records == [] then []
    else
      var rest := SortRecords(records[1..], key, descending);
      InsertRecordPermutes(records[0], rest, key, descending);
      assert records == [records[0]] + records[1..];
      InsertRecord(records[0], rest, key, descending)
  }

  /** No record sorts after a record that follows it. */
  ghost predicate SortedBy(records: seq<Record>, key: ColumnKey, descending: bool)
  {
    forall i, j :: 0 <= i < j < |records| ==> Compare(Get(records[i], key), Get(records[j], key), descending) != Greater
  }

  /** The records whose value in the column is `v`, in their order. */
  function WithValue(records: seq<Record>, key: ColumnKey, v: Option<string>): seq<Record>
  {
    if records == [] then []
    else (if Get(records[0], key) == v then [records[0]] else []) + WithValue(records[1..], key, v)
  }

  lemma {:induction false} InsertRecordPermutes(r: Record, sorted: seq<Record>, key: ColumnKey, descending: bool)
    ensures multiset(InsertRecord(r, sorted, key, descending)) == multiset{r} + multiset(sorted)
  {
    if sorted != [] && Compare(Get(r, key), Get(sorted[0], key), descending) == Greater {
      InsertRecordPermutes(r, sorted[1..], key, descending);
      assert sorted == [sorted[0]] + sorted[1..];
    }
  }

  lemma {:induction false} InsertRecordSorted(r: Record, sorted: seq<Record>, key: ColumnKey, descending: bool)
    requires SortedBy(sorted, key, descending)
    ensures SortedBy(InsertRecord(r, sorted, key, descending), key, descending)
  {
    var out := InsertRecord(r, sorted, key, descending);
    if sorted == [] || Compare(Get(r, key), Get(sorted[0], key), descending) != Greater {
      forall j | 0 < j < |out|
        ensures Compare(Get(r, key), Get(out[j], key), descending) != Greater
      {
        assert out[j] == sorted[j - 1];
        if j > 1 {
          CompareTransitive(Get(r, key), Get(sorted[0], key), Get(sorted[j - 1], key), descending);
        }
      }
    } else {
      var h := sorted[0];
      var rest := InsertRecord(r, sorted[1..], key, descending);
      InsertRecordSorted(r, sorted[1..], key, descending);
      InsertRecordPermutes(r, sorted[1..], key, descending);
      CompareReverse(Get(r, key), Get(h, key), descending);
      forall j | 0 <= j < |rest|
        ensures Compare(Get(h, key), Get(rest[j], key), descending) != Greater
      {
        assert rest[j] in multiset(rest);
        if rest[j] != r {
          assert rest[j] in sorted[1..];
          var k :| 0 <= k < |sorted[1..]| && sorted[1..][k] == rest[j];
          assert sorted[k + 1] == rest[j];
        }
      }
      assert out == [h] + rest;
    }
  }

  lemma {:induction false} InsertRecordStable(r: Record, sorted: seq<Record>, key: ColumnKey, descending: bool, v: Option<string>)
    ensures WithValue(InsertRecord(r, sorted, key, descending), key, v) == WithValue([r] + sorted, key, v)
  {
    if sorted != [] && Compare(Get(r, key), Get(sorted[0], key), descending) == Greater {
      var h := sorted[0];
      var rest := InsertRecord(r, sorted[1..], key, descending);
      InsertRecordStable(r, sorted[1..], key, descending, v);
      CompareEqual(Get(r, key), Get(h, key), descending);
      assert ([h] + rest)[1..] == rest;
      assert ([r] + sorted[1..])[1..] == sorted[1..];
      assert ([r] + sorted)[1..] == sorted;
      assert sorted == [h] + sorted[1..];
    }
  }

  /** The sorted records are in comparator order. */
  lemma {:induction false} SortRecordsSorted(records: seq<Record>, key: ColumnKey, descending: bool)
    ensures SortedBy(SortRecords(records, key, descending), key, descending)
  {
    if records != [] {
      SortRecordsSorted(records[1..], key, descending);
      InsertRecordSorted(records[0], SortRecords(records[1..], key, descending), key, descending);
    }
  }

  /** Stability: records with the same value keep their original relative order. */
  lemma {:induction false} SortRecordsStable(records: seq<Record>, key: ColumnKey, descending: bool, v: Option<string>)
    ensures WithValue(SortRecords(records, key, descending), key, v) == WithValue(records, key, v)
  {
    if records != [] {
      var sortedRest := SortRecords(records[1..], key, descending);
      SortRecordsStable(records[1..], key, descending, v);
      InsertRecordStable(records[0], sortedRest, key, descending, v);
      assert ([records[0]] + sortedRest)[1..] == sortedRest;
    }
  }

  /**
   * What the comparator order means for the values: ascending, absent values
   * come first and present ones do not decrease; descending, absent values
   * come last and present ones do not increase.
   */
  lemma SortedValueOrder(records: seq<Record>, key: ColumnKey, descending: bool, i: nat, j: nat)
    requires SortedBy(records, key, descending)
    requires i < j < |records|
    ensures !descending && Get(records[j], key).None? ==> Get(records[i], key).None?
    ensures !descending && Get(records[i], key).Some? && Get(records[j], key).Some? ==>
      StrCmp(Get(records[i], key).value, Get(records[j], key).value) != Greater
    ensures descending && Get(records[i], key).None? ==> Get(records[j], key).None?
    ensures descending && Get(records[i], key).Some? && Get(records[j], key).Some? ==>
      StrCmp(Get(records[i], key).value, Get(records[j], key).value) != Less
  {
    assert Compare(Get(records[i], key), Get(records[j], key), descending) != Greater;
  }

  /** The worked example: values "b", "a" and an absent one, sorted both ways. */
  lemma SortExample(p: PathBuf)
    ensures var rb := Record(map["k" := "b"], p);
            var ra := Record(map["k" := "a"], p);
            var rn := Record(map[], p);
            SortRecords([rb, ra, rn], Meta("k"), false) == [rn, ra, rb]
            && SortRecords([rb, ra, rn], Meta("k"), true) == [rb, ra, rn]
  {
    var rb := Record(map["k" := "b"], p);
    var ra := Record(map["k" := "a"], p);
    var rn := Record(map[], p);
    assert Get(rb, Meta("k")) == Some("b");
    assert Get(ra, Meta("k")) == Some("a");
    assert Get(rn, Meta("k")) == None;
    assert StrCmp("b", "a") == Greater;
    assert [rb, ra, rn][1..] == [ra, rn];
    assert [ra, rn][1..] == [rn];
    assert [rn][1..] == [];
    assert SortRecords([rn], Meta("k"), false) == [rn];
    assert InsertRecord(ra, [rn], Meta("k"), false) == [rn] + InsertRecord(ra, [], Meta("k"), false) == [rn, ra];
    assert InsertRecord(rb, [ra], Meta("k"), false) == [ra] + InsertRecord(rb, [], Meta("k"), false) == [ra, rb];
    assert InsertRecord(rb, [rn, ra], Meta("k"), false) == [rn] + InsertRecord(rb, [ra], Meta("k"), false);
    assert SortRecords([rn], Meta("k"), true) == [rn];
    assert InsertRecord(ra, [rn], Meta("k"), true) == [ra, rn];
    assert InsertRecord(rb, [ra, rn], Meta("k"), true) == [rb, ra, rn];
  }

  // ---------------------------------------------------------------------------
  // The store itself.

  /** Ordered columns and ordered records; only a sort reorders the records. */
  class Data {
    var columns: seq<Column>
    var records: seq<Record>

    constructor WithData(columns: seq<Column>, records: seq<Record>)
      ensures this.columns == columns && this.records == records
    {
      this.columns := columns;
      this.records := records;
    }

    /** Sorts the records by the value in column `columnIndex`; an index past the last column does nothing. */
    method SortByColumnIndex(columnIndex: nat, descending: bool)
      modifies this
      ensures columns == old(columns)
      ensures columnIndex >= |columns| ==> records == old(records)
      ensures columnIndex < |columns| ==>
        records == SortRecords(old(records), columns[columnIndex].key, descending)
      ensures multiset(records) == multiset(old(records))
      ensures columnIndex < |columns| ==> SortedBy(records, columns[columnIndex].key, descending)
      ensures columnIndex < |columns| ==> forall v :: WithValue(records, columns[columnIndex].key, v)
                                                     == WithValue(old(records), columns[columnIndex].key, v)
    {
      if columnIndex < |columns| {
        var key := columns[columnIndex].key;
        ghost var before := records;
        records := SortRecords(records, key, descending);
        SortRecordsSorted(before, key, descending);
        forall v ensures WithValue(records, key, v) == WithValue(before, key, v) {
          SortRecordsStable(before, key, descending, v);
        }
      }
    }

    /** `iter_column`: an iterator over the metadata value each record has under `metaKey`. */
    method IterColumnOf(metaKey: string) returns (it: IterColumn)
      ensures fresh(it) && it.Valid()
      ensures it.metaKey == metaKey && it.records == records && it.pos == 0
    {
      it := new IterColumn(metaKey, records);
    }
  }

  /** The iterator behind `iter_column`: one metadata lookup per record, in record order. */
  class IterColumn {
    const metaKey: string
    const records: seq<Record>
    var pos: nat

    ghost predicate Valid()
      reads this
    {
      pos <= |records|
    }

    constructor (metaKey: string, records: seq<Record>)
      ensures Valid() && this.metaKey == metaKey && this.records == records && pos == 0
    {
      this.metaKey := metaKey;
      this.records := records;
      pos := 0;
    }

    method Next() returns (item: Option<Option<string>>)
      requires Valid()
      modifies this
      ensures Valid()
      ensures old(pos) < |records| ==> item == Some(GetMeta(records[old(pos)], metaKey)) && pos == old(pos) + 1
      ensures old(pos) == |records| ==> item == None && pos == old(pos)
    {
      if pos < |records| {
        item := Some(GetMeta(records[pos], metaKey));
        pos := pos + 1;
      } else {
        item := None;
      }
    }
  }
}
