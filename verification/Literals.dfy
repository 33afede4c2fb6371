/**
 Exclusive or of literals, four hexadecimal digits at a time.
 */
module Literals {
  import opened Words

  type Digit = d: int | 0 <= d < 16

  function Bit(a: bool, b: bool, w: nat): nat {
    if a == b then 0 else w
  }

  function Low(d: nat, w: nat): nat {
    if d >= w then d - w else d
  }

  function DigitXor(a: Digit, b: Digit): nat {
    var a1, b1 := Low(a, 8), Low(b, 8);
    var a2, b2 := Low(a1, 4), Low(b1, 4);
    Bit(a >= 8, b >= 8, 8) + Bit(a1 >= 4, b1 >= 4, 4) + Bit(a2 >= 2, b2 >= 2, 2) +
    Bit(Low(a2, 2) >= 1, Low(b2, 2) >= 1, 1)
  }

  /** x with one more binary digit. */
  function Shifted(x: nat, a: bool): nat {
    2 * x + if a then 1 else 0
  }

  lemma XorBit(x: nat, y: nat, a: bool, b: bool)
    ensures Xor(Shifted(x, a), Shifted(y, b)) == 2 * Xor(x, y) + Bit(a, b, 1)
  {
    hide Xor;
    XorStep(Shifted(x, a), Shifted(y, b));
  }

  lemma DigitShifts(x: nat, a: Digit)
    ensures var a1 := Low(a, 8); var a2 := Low(a1, 4);
      16 * x + a == Shifted(Shifted(Shifted(Shifted(x, a >= 8), a1 >= 4), a2 >= 2), Low(a2, 2) >= 1)
  {
  }

  lemma XorDigit(x: nat, y: nat, a: Digit, b: Digit)
    ensures Xor(16 * x + a, 16 * y + b) == 16 * Xor(x, y) + DigitXor(a, b)
  {
    hide Xor;
    DigitShifts(x, a);
    DigitShifts(y, b);
    hide Shifted;
    hide Low;
    var a1, b1 := Low(a, 8), Low(b, 8);
    var a2, b2 := Low(a1, 4), Low(b1, 4);
    var x1, y1 := Shifted(x, a >= 8), Shifted(y, b >= 8);
    var x2, y2 := Shifted(x1, a1 >= 4), Shifted(y1, b1 >= 4);
    var x3, y3 := Shifted(x2, a2 >= 2), Shifted(y2, b2 >= 2);
    XorBit(x, y, a >= 8, b >= 8);
    XorBit(x1, y1, a1 >= 4, b1 >= 4);
    XorBit(x2, y2, a2 >= 2, b2 >= 2);
    XorBit(x3, y3, Low(a2, 2) >= 1, Low(b2, 2) >= 1);
  }

  lemma XorFour(x: nat, y: nat, z: nat, a: Digit, b: Digit, c: Digit, d: Digit, e: Digit, f: Digit, g: Digit, h: Digit)
    requires Xor(x, y) == z
    ensures Xor(0x1_0000 * x + 0x1000 * a + 0x100 * b + 0x10 * c + d, 0x1_0000 * y + 0x1000 * e + 0x100 * f + 0x10 * g + h) ==
      0x1_0000 * z + 0x1000 * DigitXor(a, e) + 0x100 * DigitXor(b, f) + 0x10 * DigitXor(c, g) + DigitXor(d, h)
  {
    hide Xor;
    hide DigitXor;
    var x1, y1 := 16 * x + a, 16 * y + e;
    var x2, y2 := 16 * x1 + b, 16 * y1 + f;
    XorDigit(x, y, a, e);
    XorDigit(x1, y1, b, f);
    XorDigit(x2, y2, c, g);
    XorDigit(16 * x2 + c, 16 * y2 + g, d, h);
  }
}
