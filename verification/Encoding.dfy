/** The lengths of what the packers encode: JSON arrays, decimal numbers and Base64. */
module Encoding {
  function Flatten<Row>(groups: seq<seq<Row>>): seq<Row> {
    if groups == [] then [] else groups[0] + Flatten(groups[1..])
  }

  lemma {:induction false} FlattenAppend<Row>(a: seq<seq<Row>>, b: seq<seq<Row>>)
    ensures Flatten(a + b) == Flatten(a) + Flatten(b)
  {
    if a == [] {
      assert a + b == b;
    } else {
      assert (a + b)[0] == a[0] && (a + b)[1..] == a[1..] + b;
      FlattenAppend(a[1..], b);
    }
  }

  /** The length of a number in decimal. */
  function Digits(n: nat): (d: nat)
    ensures d >= 1
  {
    if n < 10 then 1 else 1 + Digits(n / 10)
  }

  lemma {:induction false} DigitsMonotone(m: nat, n: nat)
    requires m <= n
    ensures Digits(m) <= Digits(n)
  {
    if m >= 10 {
      DigitsMonotone(m / 10, n / 10);
    }
  }

  /** base64.RawURLEncoding.EncodedLen. */
  function Base64Length(n: nat): nat {
    (4 * n + 2) / 3
  }

  /** JSON array: brackets, elements and the commas between them. */
  function ArraySize<Row>(rows: seq<Row>, size: Row -> nat): nat {
    2 + RowsSize(rows, size) + if rows == [] then 0 else |rows| - 1
  }

  function RowsSize<Row>(rows: seq<Row>, size: Row -> nat): nat {
    if rows == [] then 0 else size(rows[0]) + RowsSize(rows[1..], size)
  }

  lemma {:induction false} RowsSizeAppend<Row>(a: seq<Row>, b: seq<Row>, size: Row -> nat)
    ensures RowsSize(a + b, size) == RowsSize(a, size) + RowsSize(b, size)
  {
    if a == [] {
      assert a + b == b;
    } else {
      assert (a + b)[0] == a[0] && (a + b)[1..] == a[1..] + b;
      RowsSizeAppend(a[1..], b, size);
    }
  }

  lemma SliceSize<Row>(rows: seq<Row>, lo: nat, hi: nat, size: Row -> nat)
    requires lo <= hi <= |rows|
    ensures ArraySize(rows[lo..hi], size) <= ArraySize(rows, size)
  {
    assert rows == rows[..lo] + (rows[lo..hi] + rows[hi..]);
    RowsSizeAppend(rows[..lo], rows[lo..hi] + rows[hi..], size);
    RowsSizeAppend(rows[lo..hi], rows[hi..], size);
  }
}
