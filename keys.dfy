/** Cell keys. The game files every cell under the string `"i,j"`, the decimal
    forms of its row and column joined by a comma. This module defines that key,
    a parser that reads it back, and proves the round trip, so that two distinct
    coordinates never share a key and the rest of the model may key the store by
    the coordinate pair itself. */
module CellKeys {
  import opened Options

  /** A grid coordinate: row `i` and column `j`, relative to the grid origin. */
  type Coord = (int, int)

  predicate IsDigit(c: char) {
    '0' <= c <= '9'
  }

  predicate AllDigits(s: string) {
    forall k :: 0 <= k < |s| ==> IsDigit(s[k])
  }

  function DigitChar(d: nat): (c: char)
    requires d < 10
    ensures IsDigit(c) && c as int - '0' as int == d
  {
    ('0' as int + d) as char
  }

  function DigitValue(c: char): nat
    requires IsDigit(c)
  {
    c as int - '0' as int
  }

  /** Decimal form of a natural number, most significant digit first and
      without leading zeros, as a template string prints it. */
  function NatToString(n: nat): (s: string)
    decreases n
    ensures |s| > 0 && AllDigits(s)
    ensures s[0] == '0' <==> n == 0
  {
    if n < 10 then [DigitChar(n)] else NatToString(n / 10) + [DigitChar(n % 10)]
  }

  /** Decimal form of an integer: a minus sign before the digits of a negative one. */
  function IntToString(i: int): (s: string)
    ensures |s| > 0
    ensures forall k :: 0 <= k < |s| ==> IsDigit(s[k]) || (k == 0 && s[k] == '-')
    ensures s[0] == '-' <==> i < 0
  {
    if i < 0 then "-" + NatToString(-i) else NatToString(i)
  }

  /** The store key of cell (i, j): `"i,j"`. */
  function CellKey(i: int, j: int): string {
    IntToString(i) + "," + IntToString(j)
  }

  /** Value of a run of decimal digits. */
  function DigitsValue(s: string): nat
    requires AllDigits(s)
    decreases |s|
  {
    if s == [] then 0 else DigitsValue(s[..|s| - 1]) * 10 + DigitValue(s[|s| - 1])
  }

  /** Reads back an optionally signed decimal integer; None on anything else. */
  function ParseInt(s: string): Option<int> {
    if |s| > 1 && s[0] == '-' && AllDigits(s[1..]) then Some(-(DigitsValue(s[1..]) as int))
    else if |s| > 0 && AllDigits(s) then Some(DigitsValue(s) as int)
    else None
  }

  /** Index of the first comma of `s`, or `|s|` when there is none. */
  function CommaIndex(s: string): (k: nat)
    decreases |s|
    ensures k <= |s|
    ensures k < |s| ==> s[k] == ','
    ensures forall m :: 0 <= m < k ==> s[m] != ','
  {
    if s == [] || s[0] == ',' then 0 else 1 + CommaIndex(s[1..])
  }

  /** Reads a store key back into the coordinate it names. */
  function ParseKey(key: string): Option<Coord> {
    var k := CommaIndex(key);
    if k == |key| then None
    else
      match (ParseInt(key[..k]), ParseInt(key[k + 1..]))
      case (Some(i), Some(j)) => Some((i, j))
      case _ => None
  }

  lemma {:induction false} NatToStringRoundTrip(n: nat)
    decreases n
    ensures DigitsValue(NatToString(n)) == n
  {
    if n >= 10 {
      var s := NatToString(n / 10);
      NatToStringRoundTrip(n / 10);
      assert (s + [DigitChar(n % 10)])[..|s|] == s;
    }
  }

  lemma {:induction false} IntToStringRoundTrip(i: int)
    ensures ParseInt(IntToString(i)) == Some(i)
  {
    var s := NatToString(if i < 0 then -i else i);
    NatToStringRoundTrip(if i < 0 then -i else i);
    if i < 0 {
      assert ("-" + s)[1..] == s;
    } else {
      assert s[0] != '-';
    }
  }

  /** Reading a key gives back the coordinate it was made from. */
  lemma CellKeyRoundTrip(i: int, j: int)
    ensures ParseKey(CellKey(i, j)) == Some((i, j))
  {
    var a, b := IntToString(i), IntToString(j);
    var key := a + "," + b;
    assert key[|a|] == ',';
    assert forall m :: 0 <= m < |a| ==> key[m] == a[m] && a[m] != ',';
    var k := CommaIndex(key);
    assert k == |a|;
    assert key[..k] == a;
    assert key[k + 1..] == b;
    IntToStringRoundTrip(i);
    IntToStringRoundTrip(j);
  }

  /** Distinct cells have distinct keys, so a store keyed by `"i,j"` strings
      behaves exactly like one keyed by coordinate pairs. */
  lemma CellKeyInjective(i1: int, j1: int, i2: int, j2: int)
    ensures CellKey(i1, j1) == CellKey(i2, j2) <==> i1 == i2 && j1 == j2
  {
    CellKeyRoundTrip(i1, j1);
    CellKeyRoundTrip(i2, j2);
  }
}
