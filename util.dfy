/**
 * Text measurement and trimming for table cells. Widths are counted in
 * characters (code points); strings are sequences of code points, so the byte
 * offsets that `char_indices` yields become character positions here.
 */
module Util {
  import opened Wrappers
  import opened Saturating
  import opened DataStore

  /** `str_width`: the number of characters `char_indices` yields for `s`. */
  function StrWidth(s: string): (w: nat)
    ensures w == |s|
  {
    if s == [] then 0 else 1 + StrWidth(s[1..])
  }

  lemma StrWidthConcat(a: string, b: string)
    ensures StrWidth(a + b) == StrWidth(a) + StrWidth(b)
    ensures StrWidth("") == 0
  {
  }

  // ---------------------------------------------------------------------------
  // Maximum content width of a column.

  /** The width a record's value takes in a column; a missing value takes none. */
  function ValueWidth(r: Record, key: ColumnKey): nat
  {
    match Get(r, key)
    case Some(s) => StrWidth(s)
    case None => 0
  }

  /** The title's width, maxed in turn with the width of each record's value. */
  function MaxContentWidth(column: Column, records: seq<Record>): (w: nat)
    ensures w >= StrWidth(column.title)
    ensures forall i :: 0 <= i < |records| ==> w >= ValueWidth(records[i], column.key)
  {
    if records == [] then StrWidth(column.title)
    else
      var init := records[..|records| - 1];
      assert forall i :: 0 <= i < |init| ==> init[i] == records[i];
      Max(MaxContentWidth(column, init), ValueWidth(records[|records| - 1], column.key))
  }

  /** The content width is an upper bound of the title and every value, and it is one of them. */
  lemma {:induction false} MaxContentWidthIsMax(column: Column, records: seq<Record>)
    ensures MaxContentWidth(column, records) >= StrWidth(column.title)
    ensures forall i :: 0 <= i < |records| ==> MaxContentWidth(column, records) >= ValueWidth(records[i], column.key)
    ensures MaxContentWidth(column, records) == StrWidth(column.title)
            || exists i :: 0 <= i < |records| && MaxContentWidth(column, records) == ValueWidth(records[i], column.key)
  {
    if records != [] {
      var init := records[..|records| - 1];
      MaxContentWidthIsMax(column, init);
      forall i | 0 <= i < |init| ensures init[i] == records[i] { }
    }
  }

  /** Reordering the records leaves the content width as it was. */
  lemma MaxContentWidthPermutation(column: Column, r1: seq<Record>, r2: seq<Record>)
    requires multiset(r1) == multiset(r2)
    ensures MaxContentWidth(column, r1) == MaxContentWidth(column, r2)
  {
    MaxContentWidthIsMax(column, r1);
    MaxContentWidthIsMax(column, r2);
    var w1, w2 := MaxContentWidth(column, r1), MaxContentWidth(column, r2);
    forall i | 0 <= i < |r1| ensures w2 >= ValueWidth(r1[i], column.key) {
      assert r1[i] in multiset(r2);
      var j :| 0 <= j < |r2| && r2[j] == r1[i];
    }
    forall i | 0 <= i < |r2| ensures w1 >= ValueWidth(r2[i], column.key) {
      assert r2[i] in multiset(r1);
      var j :| 0 <= j < |r1| && r1[j] == r2[i];
    }
  }

  /** `max_column_content_width`: a running maximum over the records. */
  method MaxColumnContentWidth(column: Column, records: seq<Record>) returns (maxSeen: nat)
    ensures maxSeen == MaxContentWidth(column, records)
  {
    maxSeen := StrWidth(column.title);
    for i := 0 to |records|
      invariant maxSeen == MaxContentWidth(column, records[..i])
    {
      var currRowWidth := match Get(records[i], column.key) case Some(s) => StrWidth(s) case None => 0;
      assert records[..i + 1][..i] == records[..i];
      maxSeen := Max(maxSeen, currRowWidth);
    }
    assert records[..|records|] == records;
  }

  // ---------------------------------------------------------------------------
  // Trimming a string to a column.

  /**
   * `iter.by_ref().skip(k).next()` on a `char_indices` iterator that stands at
   * position `pos` of `s`: the position of the character `k` further on, and
   * where the iterator stands afterwards (every character it looked at is
   * consumed, including the one returned).
   */
  method SkipNext(s: string, pos: nat, k: nat) returns (item: Option<nat>, next: nat)
    requires pos <= |s|
    ensures pos + k < |s| ==> item == Some(pos + k) && next == pos + k + 1
    ensures pos + k >= |s| ==> item == None && next == |s|
  {
    next := pos;
    var skipped := 0;
    while skipped < k && next < |s|
      invariant pos <= next <= |s|
      invariant next == pos + skipped && skipped <= k
    {
      next := next + 1;
      skipped := skipped + 1;
    }
    if next < |s| {
      item := Some(next);
      next := next + 1;
    } else {
      item := None;
    }
  }

  /**
   * What `trim_display_str` returns, as written: the string and whether an
   * ellipsis is due. The peek of the first stage swallows one character, so
   * the second stage only sees a string of at least `contentWidth + 2`
   * characters as too long; one of `contentWidth + 1` comes back whole.
   */
  function Trim(s: string, contentWidth: nat, ellipsisWidth: nat): (r: (string, bool))
    ensures r.0 <= s
    ensures contentWidth < ellipsisWidth ==> r == ("", s != "")
    ensures !r.1 ==> r.0 == s
    ensures contentWidth >= ellipsisWidth ==> (r.1 <==> StrWidth(s) >= contentWidth + 2)
    ensures contentWidth >= ellipsisWidth && StrWidth(s) <= contentWidth - ellipsisWidth ==> r == (s, false)
    ensures contentWidth >= ellipsisWidth && r.1 ==> StrWidth(r.0) + ellipsisWidth == contentWidth
  {
    if contentWidth < ellipsisWidth then ("", s != "")
    else if |s| >= contentWidth + 2 then (s[..contentWidth - ellipsisWidth], true)
    else (s, false)
  }

  /** `trim_display_str`: the two iterator stages, with the consumption they really perform. */
  method TrimDisplayStr(originalStr: string, contentWidth: nat, ellipsisWidth: nat) returns (out: string, elided: bool)
    ensures (out, elided) == Trim(originalStr, contentWidth, ellipsisWidth)
  {
    if contentWidth < ellipsisWidth {
      return "", originalStr != "";
    }
    var truncWidth := SaturatingSub(contentWidth, ellipsisWidth);
    var pos := 0;
    var peeked;
    peeked, pos := SkipNext(originalStr, pos, truncWidth);
    match peeked {
      case None =>
        out, elided := originalStr, false;
      case Some(truncPos) =>
        var rest;
        rest, pos := SkipNext(originalStr, pos, ellipsisWidth);
        if rest.None? {
          out, elided := originalStr, false;
        } else {
          out, elided := originalStr[..truncPos], true;
        }
    }
  }

  /** Every string of exactly `contentWidth + 1` characters passes through whole and unflagged. */
  lemma TrimPassesOneCharTooMany(s: string, contentWidth: nat, ellipsisWidth: nat)
    requires ellipsisWidth <= contentWidth && StrWidth(s) == contentWidth + 1
    ensures Trim(s, contentWidth, ellipsisWidth) == (s, false)
    ensures StrWidth(Trim(s, contentWidth, ellipsisWidth).0) > contentWidth
  {
  }

  /** The concrete case: "hello!" in five columns with a one-character ellipsis. */
  lemma TrimHelloExample()
    ensures Trim("hello!", 5, 1) == ("hello!", false)
    ensures Fit("hello!", 5, 1) == ("hell", true)
  {
    assert "hello!"[..4] == "hell";
  }

  /**
   * The evidently intended trimming: anything longer than `contentWidth`
   * is cut to leave room for the ellipsis, so the output never exceeds the
   * column.
   */
  function Fit(s: string, contentWidth: nat, ellipsisWidth: nat): (r: (string, bool))
    ensures r.0 <= s
    ensures StrWidth(r.0) <= contentWidth
    ensures contentWidth < ellipsisWidth ==> r == ("", s != "")
    ensures !r.1 ==> r.0 == s
    ensures contentWidth >= ellipsisWidth ==> (r.1 <==> StrWidth(s) > contentWidth)
    ensures contentWidth >= ellipsisWidth && r.1 ==> StrWidth(r.0) + ellipsisWidth == contentWidth
  {
    if contentWidth < ellipsisWidth then ("", s != "")
    else if |s| > contentWidth then (s[..contentWidth - ellipsisWidth], true)
    else (s, false)
  }

  /**
   * `trim_display_str` with the off-by-one removed: after the peek has taken
   * the character at `truncWidth`, only `ellipsisWidth - 1` more need to be
   * skipped to know whether something is left over.
   */
  method TrimDisplayStrCorrected(originalStr: string, contentWidth: nat, ellipsisWidth: nat) returns (out: string, elided: bool)
    ensures (out, elided) == Fit(originalStr, contentWidth, ellipsisWidth)
  {
    if contentWidth < ellipsisWidth {
      return "", originalStr != "";
    }
    var truncWidth := SaturatingSub(contentWidth, ellipsisWidth);
    var pos := 0;
    var peeked;
    peeked, pos := SkipNext(originalStr, pos, truncWidth);
    match peeked {
      case None =>
        out, elided := originalStr, false;
      case Some(truncPos) =>
        var overflow := true;
        if ellipsisWidth > 0 {
          var rest;
          rest, pos := SkipNext(originalStr, pos, ellipsisWidth - 1);
          overflow := rest.Some?;
        }
        if overflow {
          out, elided := originalStr[..truncPos], true;
        } else {
          out, elided := originalStr, false;
        }
    }
  }
}
