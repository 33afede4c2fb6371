/**
 The string keys of the map-backed engines. A key can be parsed back, so two
 cells never share one, and a map keyed this way behaves like the flat grid.
 */
module Keys {
  import opened Words
  import opened Grid
  import opened Colony

  // Printing and parsing decimals.

  predicate Numeral(s: string) {
    forall i :: 0 <= i < |s| ==> '0' <= s[i] <= '9'
  }

  function ValueOf(s: string): int {
    if |s| == 0 then 0 else 10 * ValueOf(s[..|s| - 1]) + (s[|s| - 1] as int - '0' as int)
  }

  lemma DigitChar(d: nat)
    requires d < 10
    ensures "0123456789"[d] as int == '0' as int + d
  {
    var t := "0123456789";
    assert t[0] == '0' && t[1] == '1' && t[2] == '2' && t[3] == '3' && t[4] == '4';
    assert t[5] == '5' && t[6] == '6' && t[7] == '7' && t[8] == '8' && t[9] == '9';
  }

  lemma {:induction false} DigitsParse(n: nat)
    ensures Numeral(Digits(n)) && ValueOf(Digits(n)) == n
  {
    if n < 10 {
      DigitChar(n);
      assert Digits(n)[..0] == "";
    } else {
      DigitsParse(n / 10);
      DigitChar(n % 10);
      assert Digits(n)[..|Digits(n)| - 1] == Digits(n / 10);
    }
  }

  function ParseDecimal(s: string): int {
    if |s| > 0 && s[0] == '-' then -ValueOf(s[1..]) else ValueOf(s)
  }

  lemma NumeralClean(s: string)
    requires Numeral(s)
    ensures ',' !in s && '-' !in s
  {
  }

  lemma DecimalParse(n: int)
    ensures ParseDecimal(Decimal(n)) == n
    ensures ',' !in Decimal(n)
  {
    hide Digits;
    hide ValueOf;
    hide Numeral;
    var d := Digits(if n < 0 then -n else n);
    DigitsParse(if n < 0 then -n else n);
    NumeralClean(d);
    if n < 0 {
      assert Decimal(n) == "-" + d && ("-" + d)[1..] == d;
    } else {
      assert Decimal(n) == d;
    }
  }

  /** The position of the first comma, or the length if there is none. */
  function CommaAt(s: string): (i: nat)
    ensures i <= |s|
  {
    if |s| == 0 || s[0] == ',' then 0 else 1 + CommaAt(s[1..])
  }

  lemma {:induction false} CommaAfter(a: string, b: string)
    requires ',' !in a
    ensures CommaAt(a + "," + b) == |a|
    decreases |a|
  {
    var s := a + "," + b;
    if |a| > 0 {
      assert s[0] == a[0];
      assert s[1..] == a[1..] + "," + b;
      CommaAfter(a[1..], b);
    }
  }

  function ParseKey(s: string): (int, int) {
    var i := CommaAt(s);
    if i < |s| then (ParseDecimal(s[..i]), ParseDecimal(s[i + 1..])) else (0, 0)
  }

  /** Every key parses back to its cell. */
  lemma KeyParse(x: int, y: int)
    ensures ParseKey(Key(x, y)) == (x, y)
  {
    var a, b := Decimal(x), Decimal(y);
    DecimalParse(x);
    DecimalParse(y);
    CommaAfter(a, b);
    assert Key(x, y)[..|a|] == a && Key(x, y)[|a| + 1..] == b;
  }

  /** Different cells have different keys. */
  lemma KeyInjective(x: int, y: int, x': int, y': int)
    requires Key(x, y) == Key(x', y')
    ensures x == x' && y == y'
  {
    KeyParse(x, y);
    KeyParse(x', y');
  }

  /** Two keys as they are printed. */
  lemma KeysPrinted()
    ensures Key(105, -27) == "105,-27" && Key(0, 9) == "0,9"
  {
    assert Digits(1) == "1" && Digits(10) == "10" && Digits(105) == "105";
    assert Digits(2) == "2" && Digits(27) == "27" && Digits(0) == "0" && Digits(9) == "9";
  }

  // Maps keyed by cells.

  /** Reading a Go map: a missing key reads as the zero value. */
  function Get<T>(m: map<string, T>, k: string, zero: T): T {
    if k in m then m[k] else zero
  }

  /** The grid a map stands for. */
  function GridOf<T>(w: int, h: int, m: map<string, T>, zero: T): (g: seq<T>)
    requires w > 0 && w * h >= 0
    ensures |g| == w * h
  {
    seq(w * h, i requires 0 <= i < w * h => Get(m, Key(i % w, i / w), zero))
  }

  lemma GridRead<T>(w: int, h: int, m: map<string, T>, zero: T, x: int, y: int)
    requires w > 0 && w * h >= 0 && Inside(w, h, x, y)
    ensures 0 <= Idx(w, x, y) < w * h && GridOf(w, h, m, zero)[Idx(w, x, y)] == Get(m, Key(x, y), zero)
  {
    hide Key;
    IdxRoundTrip(w, h, x, y);
  }

  /** Writing one key changes exactly one cell of the grid. */
  lemma GridWrite<T>(w: int, h: int, m: map<string, T>, zero: T, x: int, y: int, v: T)
    requires w > 0 && w * h >= 0 && Inside(w, h, x, y)
    ensures 0 <= Idx(w, x, y) < w * h
    ensures GridOf(w, h, m[Key(x, y) := v], zero) == GridOf(w, h, m, zero)[Idx(w, x, y) := v]
  {
    hide Key;
    IdxRoundTrip(w, h, x, y);
    var a, b := GridOf(w, h, m[Key(x, y) := v], zero), GridOf(w, h, m, zero)[Idx(w, x, y) := v];
    forall i | 0 <= i < w * h
      ensures a[i] == b[i]
    {
      IdxCovers(w, h, i);
      if Key(i % w, i / w) == Key(x, y) {
        KeyInjective(i % w, i / w, x, y);
      }
    }
  }

  lemma GridEmpty(w: int, h: int)
    requires w > 0 && w * h >= 0
    ensures GridOf<U32>(w, h, map[], 0) == Zeros(w * h)
  {
  }
}
