/**
 * Rust's `Ordering` and the total order `Ord for str` puts on strings.
 * Rust compares the UTF-8 bytes lexicographically; for valid UTF-8 that is the
 * same as comparing the code points lexicographically, which is what is done
 * here on `seq<char>`.
 */
module Lex {

  datatype Ordering = Less | Equal | Greater

  /** `Ordering::reverse`. */
  function Reverse(o: Ordering): Ordering
  {
    match o
    case Less => Greater
    case Equal => Equal
    case Greater => Less
  }

  /** `a.cmp(b)` for two strings: the first differing character decides, and a proper prefix is smaller. */
  function StrCmp(a: string, b: string): Ordering
  {
    if a == [] && b == [] then Equal
    else if a == [] then Less
    else if b == [] then Greater
    else if a[0] < b[0] then Less
    else if b[0] < a[0] then Greater
    else StrCmp(a[1..], b[1..])
  }

  /** Reference definition of "a sorts strictly before b" in lexicographic order. */
  ghost predicate LexLess(a: string, b: string)
  {
    (|a| < |b| && a == b[..|a|])
    || exists k :: 0 <= k < |a| && k < |b| && a[..k] == b[..k] && a[k] < b[k]
  }

  lemma {:induction false} StrCmpEqual(a: string, b: string)
    ensures StrCmp(a, b) == Equal <==> a == b
  {
    if a != [] && b != [] && a[0] == b[0] {
      StrCmpEqual(a[1..], b[1..]);
      assert a == [a[0]] + a[1..] && b == [b[0]] + b[1..];
    }
  }

  lemma {:induction false} StrCmpReverse(a: string, b: string)
    ensures StrCmp(b, a) == Reverse(StrCmp(a, b))
  {
    if a != [] && b != [] && a[0] == b[0] {
      StrCmpReverse(a[1..], b[1..]);
    }
  }

  lemma {:induction false} StrCmpTransitive(a: string, b: string, c: string)
    requires StrCmp(a, b) != Greater && StrCmp(b, c) != Greater
    ensures StrCmp(a, c) != Greater
  {
    if a != [] && b != [] && c != [] && a[0] == b[0] == c[0] {
      StrCmpTransitive(a[1..], b[1..], c[1..]);
    }
  }

  /** `StrCmp` agrees with the reference definition of lexicographic order. */
  lemma {:induction false} StrCmpLessIsLexLess(a: string, b: string)
    ensures StrCmp(a, b) == Less <==> LexLess(a, b)
  {
    if a == [] {
      if b != [] { assert a == b[..0]; }
    } else if b == [] {
      assert !LexLess(a, b);
    } else if a[0] < b[0] {
      assert a[..0] == b[..0];
    } else if b[0] < a[0] {
    } else {
      StrCmpLessIsLexLess(a[1..], b[1..]);
      if LexLess(a[1..], b[1..]) {
        if |a[1..]| < |b[1..]| && a[1..] == b[1..][..|a[1..]|] {
          assert a == [a[0]] + a[1..] && b[..|a|] == [b[0]] + b[1..][..|a[1..]|];
          assert a == b[..|a|];
        } else {
          var k :| 0 <= k < |a[1..]| && k < |b[1..]| && a[1..][..k] == b[1..][..k] && a[1..][k] < b[1..][k];
          assert a[..k + 1] == [a[0]] + a[1..][..k];
          assert b[..k + 1] == [b[0]] + b[1..][..k];
        }
      }
      if LexLess(a, b) {
        if |a| < |b| && a == b[..|a|] {
          assert a[1..] == b[1..][..|a[1..]|];
        } else {
          var k :| 0 <= k < |a| && k < |b| && a[..k] == b[..k] && a[k] < b[k];
          assert k != 0;
          assert a[1..][..k - 1] == a[..k][1..] == b[..k][1..] == b[1..][..k - 1];
          assert a[1..][k - 1] == a[k];
        }
      }
    }
  }
}
