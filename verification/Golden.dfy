/**
 The hashes recorded for the scenario "tiny", recomputed from the model's
 definitions: its config hash, and the checksum of its recorded result.
 */
module Golden {
  import opened Words
  import opened Config
  import opened Hash
  import opened Results
  import opened Literals
  import Stencil

  // Folding literals: only the low byte of the state takes part in the exclusive or.

  lemma XorLow(x: nat, a: Digit, b: Digit, d: Digit, e: Digit)
    ensures Xor(256 * x + 16 * a + b, 16 * d + e) == 256 * x + 16 * DigitXor(a, d) + DigitXor(b, e)
  {
    hide Xor;
    hide DigitXor;
    XorZero(x);
    XorDigit(x, 0, a, d);
    XorDigit(16 * x + a, d, b, e);
  }

  /** One byte folded in. */
  lemma Turned(h: Word, y: Byte, x: nat, a: Digit, b: Digit, d: Digit, e: Digit, z: Byte, q: nat, r: Word)
    requires h == 256 * x + 16 * a + b && y == 16 * d + e && z == 16 * DigitXor(a, d) + DigitXor(b, e)
    requires (256 * x + z) * PRIME == TWO_64 * q + r
    ensures HashByte(h, y) == r
  {
    hide Xor;
    hide DigitXor;
    XorLow(x, a, b, d, e);
    ModUnique((256 * x + z) * PRIME, TWO_64, q, r);
    assert Xor64(h, y) == 256 * x + z;
    hide Xor64;
  }

  lemma NoBytes(h: Word)
    ensures HashBytes(h, LowBytes(0, 0)) == h
  {
  }

  /** The lowest byte of w, and then the others. */
  lemma ByteThen(h: Word, w: nat, n: nat, h1: Word, r: Word)
    requires n > 0 && HashByte(h, w % 256) == h1 && HashBytes(h1, LowBytes(w / 256, n - 1)) == r
    ensures HashBytes(h, LowBytes(w, n)) == r
  {
    FoldLow(h, w, n);
    hide HashByte;
    hide HashBytes;
  }

  /** PRIME to the n-th, modulo 2^64. */
  function PrimePower(n: nat): Word {
    if n == 0 then 1 else Mul64(PrimePower(n - 1), PRIME)
  }

  /** A run of zero bytes only multiplies. */
  lemma {:induction false} ZerosAre(h: Word, n: nat)
    ensures HashBytes(h, LowBytes(0, n)) == Mul64(h, PrimePower(n))
    decreases n
  {
    if n == 0 {
      NoBytes(h);
      SmallMod(h, TWO_64);
    } else {
      XorZero(h);
      ZerosAre(Mul64(h, PRIME), n - 1);
      ByteThen(h, 0, n, Mul64(h, PRIME), Mul64(Mul64(h, PRIME), PrimePower(n - 1)));
      PowerNext(h, PrimePower(n - 1));
    }
  }

  lemma PowerNext(h: Word, p: Word)
    ensures Mul64(Mul64(h, PRIME), p) == Mul64(h, Mul64(p, PRIME))
  {
    ModMul(h * PRIME, p, TWO_64);
    ModMul(p * PRIME, h, TWO_64);
    Reorder(h, PRIME, p);
    assert PRIME * p == p * PRIME && h * Mul64(p, PRIME) == Mul64(p, PRIME) * h;
  }

  lemma PrimePowers()
    ensures PrimePower(1) == 0x0000_0100_0000_01B3
    ensures PrimePower(2) == 0x0003_6600_0002_E329
    ensures PrimePower(3) == 0x08A9_7B00_04E7_FEAB
    ensures PrimePower(4) == 0x9FFA_AC08_5635_BC91
    ensures PrimePower(5) == 0x0CAE_E32A_7D4F_6A63
    ensures PrimePower(6) == 0xDC96_6432_EDF1_C639
    ensures PrimePower(7) == 0xC552_7B8A_51D3_D2DB
  {
    assert PrimePower(1) == 0x0000_0100_0000_01B3;
    assert PrimePower(2) == 0x0003_6600_0002_E329;
    assert PrimePower(3) == 0x08A9_7B00_04E7_FEAB;
    assert PrimePower(4) == 0x9FFA_AC08_5635_BC91;
    assert PrimePower(5) == 0x0CAE_E32A_7D4F_6A63;
    assert PrimePower(6) == 0xDC96_6432_EDF1_C639;
    assert PrimePower(7) == 0xC552_7B8A_51D3_D2DB;
  }

  function TailPower(n: nat): Word
    requires 0 < n < 8
  {
    match n
    case 1 => 0x0000_0100_0000_01B3
    case 2 => 0x0003_6600_0002_E329
    case 3 => 0x08A9_7B00_04E7_FEAB
    case 4 => 0x9FFA_AC08_5635_BC91
    case 5 => 0x0CAE_E32A_7D4F_6A63
    case 6 => 0xDC96_6432_EDF1_C639
    case 7 => 0xC552_7B8A_51D3_D2DB
  }

  lemma PowerOfTail(n: nat)
    requires 0 < n < 8
    ensures TailPower(n) == PrimePower(n)
  {
    PrimePowers();
    hide PrimePower;
  }

  lemma Zeros(h: Word, n: nat, p: Word, q: nat, r: Word)
    requires 0 < n < 8 && p == TailPower(n) && h * p == TWO_64 * q + r
    ensures HashBytes(h, LowBytes(0, n)) == r
  {
    ZerosAre(h, n);
    ModUnique(h * p, TWO_64, q, r);
    PowerOfTail(n);
    hide HashBytes;
    hide PrimePower;
    hide TailPower;
  }

  /** A word of one byte. */
  lemma Small(h: Word, y: Byte, x: nat, a: Digit, b: Digit, d: Digit, e: Digit, z: Byte, q: nat, h1: Word, q7: nat, r: Word)
    requires h == 256 * x + 16 * a + b && y == 16 * d + e && z == 16 * DigitXor(a, d) + DigitXor(b, e)
    requires (256 * x + z) * PRIME == TWO_64 * q + h1 && h1 * 0xC552_7B8A_51D3_D2DB == TWO_64 * q7 + r
    ensures HashBytes(h, LowBytes(y, 8)) == r
  {
    hide HashBytes;
    hide HashByte;
    hide DigitXor;
    hide LowBytes;
    Turned(h, y, x, a, b, d, e, z, q, h1);
    assert TailPower(7) == 0xC552_7B8A_51D3_D2DB;
    Zeros(h1, 7, 0xC552_7B8A_51D3_D2DB, q7, r);
    assert y % 256 == y && y / 256 == 0;
    ByteThen(h, y, 8, h1, r);
  }

  /** The states between the words of a stream. */
  lemma {:induction false} FoldWords(ws: seq<Word>, states: seq<Word>)
    requires |states| == |ws| + 1
    requires forall i :: 0 <= i < |ws| ==> HashBytes(states[i], LowBytes(ws[i], 8)) == states[i + 1]
    ensures HashBytes(states[0], Encode(ws)) == states[|ws|]
    decreases |ws|
  {
    hide LowBytes;
    if |ws| > 0 {
      var n := |ws| - 1;
      FoldWords(ws[..n], states[..n + 1]);
      HashConcat(states[0], Encode(ws[..n]), LowBytes(ws[n], 8));
      hide HashBytes;
    }
  }

  lemma EncodeConcat(h: Word, a: seq<Word>, b: seq<Word>)
    ensures HashBytes(h, Encode(a + b)) == HashBytes(HashBytes(h, Encode(a)), Encode(b))
  {
    EncodeSum(a, b, |b|);
    assert b[..|b|] == b;
    HashConcat(h, Encode(a), Encode(b));
    hide HashBytes;
    hide Encode;
  }

  lemma EncodeNone()
    ensures Encode([]) == []
  {
  }

  lemma {:induction false} EncodeSum(a: seq<Word>, b: seq<Word>, n: nat)
    requires n <= |b|
    ensures Encode(a + b[..n]) == Encode(a) + Encode(b[..n])
    decreases n
  {
    hide Encode;
    hide LowBytes;
    if n == 0 {
      EncodeNone();
      assert a + b[..0] == a && b[..0] == [];
    } else {
      EncodeSum(a, b, n - 1);
      EncodePush(a + b[..n - 1], b[n - 1]);
      EncodePush(b[..n - 1], b[n - 1]);
      assert b[..n - 1] + [b[n - 1]] == b[..n];
      assert a + b[..n - 1] + [b[n - 1]] == a + b[..n];
    }
  }

  // The config.

  /** The scenario "tiny". */
  const TINY := Config(1, "tiny", 20260921, 24, 24, 400, 20, Point(12, 12), [Rect(5, 8, 1, 9), Rect(17, 6, 1, 11)],
    [FoodPile(Point(2, 3), 40), FoodPile(Point(21, 20), 40)], Stencil.SCENARIO, Movement(12, 100))

  lemma HeadWord0()
    ensures HashBytes(0xCBF2_9CE4_8422_2325, LowBytes(20260921, 8)) == 0x6835_6D2D_AA4F_A916
  {
    hide HashBytes;
    hide HashByte;
    hide LowBytes;
    Zeros(0x0723_4F35_5996_FAB6, 4, 0x9FFA_AC08_5635_BC91, 0x0475_EB79_7177_F131, 0x6835_6D2D_AA4F_A916);
    Turned(0x8BDF_7C18_405A_6373, 1, 0x8BDF7C18405A63, 7, 3, 0, 1, 114, 600749906222, 0x0723_4F35_5996_FAB6);
    ByteThen(0x8BDF_7C18_405A_6373, 1, 5, 0x0723_4F35_5996_FAB6, 0x6835_6D2D_AA4F_A916);
    Turned(0x0814_1A07_B4D1_B774, 53, 0x08141A07B4D1B7, 7, 4, 3, 5, 65, 34696988610, 0x8BDF_7C18_405A_6373);
    ByteThen(0x0814_1A07_B4D1_B774, 309, 6, 0x8BDF_7C18_405A_6373, 0x6835_6D2D_AA4F_A916);
    Turned(0xAF63_B44C_8601_A894, 40, 0xAF63B44C8601A8, 9, 4, 2, 8, 188, 753292037552, 0x0814_1A07_B4D1_B774);
    ByteThen(0xAF63_B44C_8601_A894, 79144, 7, 0x0814_1A07_B4D1_B774, 0x6835_6D2D_AA4F_A916);
    Turned(0xCBF2_9CE4_8422_2325, 57, 0xCBF29CE4842223, 2, 5, 3, 9, 28, 875948729822, 0xAF63_B44C_8601_A894);
    ByteThen(0xCBF2_9CE4_8422_2325, 20260921, 8, 0xAF63_B44C_8601_A894, 0x6835_6D2D_AA4F_A916);
  }

  lemma HeadWord3()
    ensures HashBytes(0x5F04_53DC_F5B3_8D96, LowBytes(400, 8)) == 0xD3CD_2F64_C956_BCA1
  {
    hide HashBytes;
    hide HashByte;
    hide LowBytes;
    Zeros(0xE70A_ACA8_A9D9_E9A9, 6, 0xDC96_6432_EDF1_C639, 0xC714_E710_3F11_7B90, 0xD3CD_2F64_C956_BCA1);
    Turned(0x27E7_8675_8018_A132, 1, 0x27E786758018A1, 3, 2, 0, 1, 51, 171388073411, 0xE70A_ACA8_A9D9_E9A9);
    ByteThen(0x27E7_8675_8018_A132, 1, 7, 0xE70A_ACA8_A9D9_E9A9, 0xD3CD_2F64_C956_BCA1);
    Turned(0x5F04_53DC_F5B3_8D96, 144, 0x5F0453DCF5B38D, 9, 6, 9, 0, 6, 408094498199, 0x27E7_8675_8018_A132);
    ByteThen(0x5F04_53DC_F5B3_8D96, 400, 8, 0x27E7_8675_8018_A132, 0xD3CD_2F64_C956_BCA1);
  }

  lemma HeadTo4()
    ensures HashBytes(0x6835_6D2D_AA4F_A916, LowBytes(24, 8)) == 0x3B9E_3695_5B34_D6CE
    ensures HashBytes(0x3B9E_3695_5B34_D6CE, LowBytes(24, 8)) == 0x5F04_53DC_F5B3_8D96
    ensures HashBytes(0xD3CD_2F64_C956_BCA1, LowBytes(20, 8)) == 0xCB9A_EEE7_45B5_A555
  {
    hide HashBytes;
    hide LowBytes;
    Small(0x6835_6D2D_AA4F_A916, 24, 0x68356D2DAA4FA9, 1, 6, 1, 8, 14, 447572946523, 0x6271_9298_655C_42CA, 0x4BE1_1DB1_FCF0_19E0, 0x3B9E_3695_5B34_D6CE);
    Small(0x3B9E_3695_5B34_D6CE, 24, 0x3B9E36955B34D6, 12, 14, 1, 8, 214, 256057447872, 0x82AD_95C9_FAC9_0DA2, 0x64B9_AEEE_6AFE_E35D, 0x5F04_53DC_F5B3_8D96);
    Small(0xD3CD_2F64_C956_BCA1, 20, 0xD3CD2F64C956BC, 10, 1, 1, 4, 181, 909680535089, 0x3C64_3D42_1E62_A78F, 0x2E8C_9864_4B55_2086, 0xCB9A_EEE7_45B5_A555);
  }

  lemma HeadTo7()
    ensures HashBytes(0xCB9A_EEE7_45B5_A555, LowBytes(12, 8)) == 0xA87F_D222_564D_0A79
    ensures HashBytes(0xA87F_D222_564D_0A79, LowBytes(12, 8)) == 0x08BD_E8D1_BA2F_2B15
    ensures HashBytes(0x08BD_E8D1_BA2F_2B15, LowBytes(2, 8)) == 0x8F77_B161_C302_33F7
  {
    hide HashBytes;
    hide LowBytes;
    Small(0xCB9A_EEE7_45B5_A555, 12, 0xCB9AEEE745B5A5, 5, 5, 0, 12, 89, 874477709471, 0xADE9_4BFB_73A7_F63B, 0x860C_901F_E566_C9F8, 0xA87F_D222_564D_0A79);
    Small(0xA87F_D222_564D_0A79, 12, 0xA87FD222564D0A, 7, 9, 0, 12, 117, 723698983796, 0x9E3C_8558_A4E8_C4CF, 0x79F7_8E5C_8091_7F6F, 0x08BD_E8D1_BA2F_2B15);
    Small(0x08BD_E8D1_BA2F_2B15, 2, 0x08BDE8D1BA2F2B, 1, 5, 0, 2, 23, 37545890249, 0x09DD_B35F_5E26_3815, 0x079A_C8CE_B1D8_64A7, 0x8F77_B161_C302_33F7);
  }

  lemma Head()
    ensures HashBytes(0xCBF2_9CE4_8422_2325, Encode([20260921, 24, 24, 400, 20, 12, 12, 2])) == 0x8F77_B161_C302_33F7
  {
    hide HashBytes;
    hide LowBytes;
    hide Encode;
    HeadWord0();
    HeadWord3();
    HeadTo4();
    HeadTo7();
    FoldWords([20260921, 24, 24, 400, 20, 12, 12, 2], [0xCBF2_9CE4_8422_2325, 0x6835_6D2D_AA4F_A916, 0x3B9E_3695_5B34_D6CE, 0x5F04_53DC_F5B3_8D96, 0xD3CD_2F64_C956_BCA1, 0xCB9A_EEE7_45B5_A555, 0xA87F_D222_564D_0A79, 0x08BD_E8D1_BA2F_2B15, 0x8F77_B161_C302_33F7]);
  }

  lemma WallsTo2()
    ensures HashBytes(0x8F77_B161_C302_33F7, LowBytes(5, 8)) == 0x2B60_3690_B93A_A632
    ensures HashBytes(0x2B60_3690_B93A_A632, LowBytes(8, 8)) == 0x3A71_047C_48C2_317A
    ensures HashBytes(0x3A71_047C_48C2_317A, LowBytes(1, 8)) == 0x7E25_5E9B_832A_EEDB
  {
    hide HashBytes;
    hide LowBytes;
    Small(0x8F77_B161_C302_33F7, 5, 0x8F77B161C30233, 15, 7, 0, 5, 242, 616188437174, 0xCA96_5B1E_5CBE_4436, 0x9C26_FA0B_40AE_07FB, 0x2B60_3690_B93A_A632);
    Small(0x2B60_3690_B93A_A632, 8, 0x2B603690B93AA6, 3, 2, 0, 8, 58, 186297782530, 0xEF22_F1EA_BEA8_748E, 0xB852_F0C2_216A_D31C, 0x3A71_047C_48C2_317A);
    Small(0x3A71_047C_48C2_317A, 1, 0x3A71047C48C231, 7, 10, 0, 1, 123, 251004222636, 0x103C_1A2F_A1FA_1401, 0x0C83_7B3C_B112_C731, 0x7E25_5E9B_832A_EEDB);
  }

  lemma WallsTo5()
    ensures HashBytes(0x7E25_5E9B_832A_EEDB, LowBytes(9, 8)) == 0x47B4_EBC1_7B9F_7D12
    ensures HashBytes(0x47B4_EBC1_7B9F_7D12, LowBytes(17, 8)) == 0xF4A5_B08F_DD7E_FB63
    ensures HashBytes(0xF4A5_B08F_DD7E_FB63, LowBytes(6, 8)) == 0xB8E0_717D_E754_9A05
  {
    hide HashBytes;
    hide LowBytes;
    Small(0x7E25_5E9B_832A_EEDB, 9, 0x7E255E9B832AEE, 13, 11, 0, 9, 210, 541792836697, 0x846E_943F_E1F3_CED6, 0x6613_C369_5482_2B63, 0x47B4_EBC1_7B9F_7D12);
    Small(0x47B4_EBC1_7B9F_7D12, 17, 0x47B4EBC17B9F7D, 1, 2, 1, 1, 3, 307978027509, 0x77E9_9CC5_1001_6C19, 0x5C6D_6855_E505_8C79, 0xF4A5_B08F_DD7E_FB63);
    Small(0xF4A5_B08F_DD7E_FB63, 6, 0xF4A5B08FDD7EFB, 6, 3, 0, 6, 101, 1050751832445, 0x3486_6975_5EC5_2C9F, 0x287C_5B8E_0F70_51B6, 0xB8E0_717D_E754_9A05);
  }

  lemma WallsTo7()
    ensures HashBytes(0xB8E0_717D_E754_9A05, LowBytes(1, 8)) == 0x5AEB_D23D_3829_0284
    ensures HashBytes(0x5AEB_D23D_3829_0284, LowBytes(11, 8)) == 0xAA99_148A_1187_AA6F
  {
    hide HashBytes;
    hide LowBytes;
    Small(0xB8E0_717D_E754_9A05, 1, 0xB8E0717DE7549A, 0, 5, 0, 1, 4, 794039516961, 0x79FA_DCF0_14C1_B4CC, 0x5E05_593C_F53F_77B5, 0x5AEB_D23D_3829_0284);
    Small(0x5AEB_D23D_3829_0284, 11, 0x5AEBD23D382902, 8, 4, 0, 11, 143, 390503480786, 0xA7B8_CD06_6DAF_58FD, 0x8147_3FE8_0833_EE24, 0xAA99_148A_1187_AA6F);
  }

  lemma Walls()
    ensures HashBytes(0x8F77_B161_C302_33F7, Encode([5, 8, 1, 9, 17, 6, 1, 11])) == 0xAA99_148A_1187_AA6F
  {
    hide HashBytes;
    hide LowBytes;
    hide Encode;
    WallsTo2();
    WallsTo5();
    WallsTo7();
    FoldWords([5, 8, 1, 9, 17, 6, 1, 11], [0x8F77_B161_C302_33F7, 0x2B60_3690_B93A_A632, 0x3A71_047C_48C2_317A, 0x7E25_5E9B_832A_EEDB, 0x47B4_EBC1_7B9F_7D12, 0xF4A5_B08F_DD7E_FB63, 0xB8E0_717D_E754_9A05, 0x5AEB_D23D_3829_0284, 0xAA99_148A_1187_AA6F]);
  }

  lemma FoodTo2()
    ensures HashBytes(0xAA99_148A_1187_AA6F, LowBytes(2, 8)) == 0x16F2_F202_D783_7A0D
    ensures HashBytes(0x16F2_F202_D783_7A0D, LowBytes(2, 8)) == 0xF87F_4EB4_533C_11EF
    ensures HashBytes(0xF87F_4EB4_533C_11EF, LowBytes(3, 8)) == 0x2246_6862_0B40_876C
  {
    hide HashBytes;
    hide LowBytes;
    Small(0xAA99_148A_1187_AA6F, 2, 0xAA99148A1187AA, 6, 15, 0, 2, 109, 732712700723, 0x69C8_539B_C986_9737, 0x5189_3D8E_11F3_F4FA, 0x16F2_F202_D783_7A0D);
    Small(0x16F2_F202_D783_7A0D, 2, 0x16F2F202D7837A, 0, 13, 0, 2, 15, 98565227262, 0x824B_49D4_3468_677D, 0x646D_EACE_8501_8461, 0xF87F_4EB4_533C_11EF);
    Small(0xF87F_4EB4_533C_11EF, 3, 0xF87F4EB4533C11, 14, 15, 0, 3, 236, 1067287754233, 0x7C64_A869_6F12_7404, 0x5FE1_89DE_A72E_FF19, 0x2246_6862_0B40_876C);
  }

  lemma FoodTo5()
    ensures HashBytes(0x2246_6862_0B40_876C, LowBytes(40, 8)) == 0xAC0B_6FCF_0AE7_17C4
    ensures HashBytes(0xAC0B_6FCF_0AE7_17C4, LowBytes(21, 8)) == 0xBA40_C4DD_9ACB_7BF1
    ensures HashBytes(0xBA40_C4DD_9ACB_7BF1, LowBytes(20, 8)) == 0xA049_442C_62D6_2A85
  {
    hide HashBytes;
    hide LowBytes;
    Small(0x2246_6862_0B40_876C, 40, 0x224668620B4087, 6, 12, 2, 8, 68, 147210134085, 0x7E2A_A299_1EA5_D88C, 0x613F_75AA_9110_8B88, 0xAC0B_6FCF_0AE7_17C4);
    Small(0xAC0B_6FCF_0AE7_17C4, 21, 0xAC0B6FCF0AE717, 12, 4, 1, 5, 209, 738926252079, 0x3E86_CDCF_86AD_7823, 0x3031_E1BB_2CA6_AC51, 0xBA40_C4DD_9ACB_7BF1);
    Small(0xBA40_C4DD_9ACB_7BF1, 20, 0xBA40C4DD9ACB7B, 15, 1, 1, 4, 229, 799950560983, 0x478A_698E_07C3_861F, 0x3724_9016_43AA_1489, 0xA049_442C_62D6_2A85);
  }

  lemma FoodTo6()
    ensures HashBytes(0xA049_442C_62D6_2A85, LowBytes(40, 8)) == 0x2019_3CFC_3F74_824D
  {
    hide HashBytes;
    hide LowBytes;
    Small(0xA049_442C_62D6_2A85, 40, 0xA049442C62D62A, 8, 5, 2, 8, 173, 688423972211, 0x32A9_846B_F1EA_83F7, 0x270C_C5A6_4DEF_C270, 0x2019_3CFC_3F74_824D);
  }

  lemma Food()
    ensures HashBytes(0xAA99_148A_1187_AA6F, Encode([2, 2, 3, 40, 21, 20, 40])) == 0x2019_3CFC_3F74_824D
  {
    hide HashBytes;
    hide LowBytes;
    hide Encode;
    FoodTo2();
    FoodTo5();
    FoodTo6();
    FoldWords([2, 2, 3, 40, 21, 20, 40], [0xAA99_148A_1187_AA6F, 0x16F2_F202_D783_7A0D, 0xF87F_4EB4_533C_11EF, 0x2246_6862_0B40_876C, 0xAC0B_6FCF_0AE7_17C4, 0xBA40_C4DD_9ACB_7BF1, 0xA049_442C_62D6_2A85, 0x2019_3CFC_3F74_824D]);
  }

  lemma TailWord0()
    ensures HashBytes(0x2019_3CFC_3F74_824D, LowBytes(60000, 8)) == 0xB555_76D4_4B1A_164F
  {
    hide HashBytes;
    hide HashByte;
    hide LowBytes;
    Zeros(0xF17C_0393_7D71_00C7, 6, 0xDC96_6432_EDF1_C639, 0xD014_7041_544A_CCBA, 0xB555_76D4_4B1A_164F);
    Turned(0xFF64_CD9F_D2F9_3277, 234, 0xFF64CD9FD2F932, 7, 7, 14, 10, 157, 1096907858308, 0xF17C_0393_7D71_00C7);
    ByteThen(0xFF64_CD9F_D2F9_3277, 234, 7, 0xF17C_0393_7D71_00C7, 0xB555_76D4_4B1A_164F);
    Turned(0x2019_3CFC_3F74_824D, 96, 0x20193CFC3F7482, 4, 13, 6, 0, 45, 137862380661, 0xFF64_CD9F_D2F9_3277);
    ByteThen(0x2019_3CFC_3F74_824D, 60000, 8, 0xFF64_CD9F_D2F9_3277, 0xB555_76D4_4B1A_164F);
  }

  lemma TailWord1()
    ensures HashBytes(0xB555_76D4_4B1A_164F, LowBytes(30000, 8)) == 0xE528_326D_790E_5068
  {
    hide HashBytes;
    hide HashByte;
    hide LowBytes;
    Zeros(0x692A_61CC_561E_13A8, 6, 0xDC96_6432_EDF1_C639, 0x5A9E_340A_61F6_C8EE, 0xE528_326D_790E_5068);
    Turned(0x3A4F_69BB_9D54_39CD, 117, 0x3A4F69BB9D5439, 12, 13, 7, 5, 184, 250440432640, 0x692A_61CC_561E_13A8);
    ByteThen(0x3A4F_69BB_9D54_39CD, 117, 7, 0x692A_61CC_561E_13A8, 0xE528_326D_790E_5068);
    Turned(0xB555_76D4_4B1A_164F, 48, 0xB55576D44B1A16, 4, 15, 3, 0, 127, 778822931839, 0x3A4F_69BB_9D54_39CD);
    ByteThen(0xB555_76D4_4B1A_164F, 30000, 8, 0x3A4F_69BB_9D54_39CD, 0xE528_326D_790E_5068);
  }

  lemma TailTo4()
    ensures HashBytes(0xE528_326D_790E_5068, LowBytes(97, 8)) == 0x1C32_87E8_D061_EB29
    ensures HashBytes(0x1C32_87E8_D061_EB29, LowBytes(100, 8)) == 0x78D7_508F_D986_96ED
    ensures HashBytes(0x78D7_508F_D986_96ED, LowBytes(12, 8)) == 0xA094_82E0_9805_7D01
  {
    hide HashBytes;
    hide LowBytes;
    Small(0xE528_326D_790E_5068, 97, 0xE528326D790E50, 6, 8, 6, 1, 9, 984221904638, 0x719D_B904_B351_FF4B, 0x5792_FABA_0CBB_7288, 0x1C32_87E8_D061_EB29);
    Small(0x1C32_87E8_D061_EB29, 100, 0x1C3287E8D061EB, 2, 9, 6, 4, 77, 121106852096, 0x4BC8_3D9A_1662_D3D7, 0x3A69_821D_7658_8671, 0x78D7_508F_D986_96ED);
    Small(0x78D7_508F_D986_96ED, 12, 0x78D7508FD98696, 14, 13, 0, 12, 225, 519008456870, 0xDC74_C56E_9FB2_6053, 0xA9EC_E3B8_9699_5BEA, 0xA094_82E0_9805_7D01);
  }

  lemma TailWord6()
    ensures HashBytes(0x7DE4_DA78_323F_5C05, LowBytes(1000000, 8)) == 0xE6BA_7BE6_6080_AE28
  {
    hide HashBytes;
    hide HashByte;
    hide LowBytes;
    Zeros(0xAF94_60C1_C4D5_1DB8, 5, 0x0CAE_E32A_7D4F_6A63, 0x08B2_E730_8F03_6291, 0xE6BA_7BE6_6080_AE28);
    Turned(0x1FE2_B24C_F381_5F67, 15, 0x1FE2B24CF3815F, 6, 7, 0, 15, 104, 136947322153, 0xAF94_60C1_C4D5_1DB8);
    ByteThen(0x1FE2_B24C_F381_5F67, 15, 6, 0xAF94_60C1_C4D5_1DB8, 0xE6BA_7BE6_6080_AE28);
    Turned(0x2B3B_7F3D_61A9_C93F, 66, 0x2B3B7F3D61A9C9, 3, 15, 4, 2, 125, 185681788331, 0x1FE2_B24C_F381_5F67);
    ByteThen(0x2B3B_7F3D_61A9_C93F, 3906, 7, 0x1FE2_B24C_F381_5F67, 0xE6BA_7BE6_6080_AE28);
    Turned(0x7DE4_DA78_323F_5C05, 64, 0x7DE4DA78323F5C, 0, 5, 4, 0, 69, 540710435080, 0x2B3B_7F3D_61A9_C93F);
    ByteThen(0x7DE4_DA78_323F_5C05, 1000000, 8, 0x2B3B_7F3D_61A9_C93F, 0xE6BA_7BE6_6080_AE28);
  }

  lemma TailTo8()
    ensures HashBytes(0xA094_82E0_9805_7D01, LowBytes(100, 8)) == 0x7DE4_DA78_323F_5C05
    ensures HashBytes(0xE6BA_7BE6_6080_AE28, LowBytes(12, 8)) == 0x04BF_CACB_9E88_DAA4
    ensures HashBytes(0x04BF_CACB_9E88_DAA4, LowBytes(100, 8)) == 0x69FD_4B22_B81F_B2C0
  {
    hide HashBytes;
    hide LowBytes;
    Small(0xA094_82E0_9805_7D01, 100, 0xA09482E098057D, 0, 1, 6, 4, 101, 689686372776, 0xE1D7_C8A2_5154_129F, 0xAE13_D17F_E07C_092F, 0x7DE4_DA78_323F_5C05);
    Small(0xE6BA_7BE6_6080_AE28, 12, 0xE6BA7BE66080AE, 2, 8, 0, 12, 36, 990971160552, 0x8F8E_AC75_FAA7_E72C, 0x6EA7_0BB1_2556_131C, 0x04BF_CACB_9E88_DAA4);
    Small(0x04BF_CACB_9E88_DAA4, 100, 0x04BFCACB9E88DA, 10, 4, 6, 4, 192, 20397607846, 0x9AC0_57FE_628B_B440, 0x7747_E000_F8BE_A2C5, 0x69FD_4B22_B81F_B2C0);
  }

  lemma Tail()
    ensures HashBytes(0x2019_3CFC_3F74_824D, Encode([60000, 30000, 97, 100, 12, 100, 1000000, 12, 100])) == 0x69FD_4B22_B81F_B2C0
  {
    hide HashBytes;
    hide LowBytes;
    hide Encode;
    TailWord0();
    TailWord1();
    TailTo4();
    TailWord6();
    TailTo8();
    FoldWords([60000, 30000, 97, 100, 12, 100, 1000000, 12, 100], [0x2019_3CFC_3F74_824D, 0xB555_76D4_4B1A_164F, 0xE528_326D_790E_5068, 0x1C32_87E8_D061_EB29, 0x78D7_508F_D986_96ED, 0xA094_82E0_9805_7D01, 0x7DE4_DA78_323F_5C05, 0xE6BA_7BE6_6080_AE28, 0x04BF_CACB_9E88_DAA4, 0x69FD_4B22_B81F_B2C0]);
  }

  lemma HeadFieldsAre()
    ensures HeadFields(TINY) + [U64(|TINY.walls|)] == [20260921, 24, 24, 400, 20, 12, 12, 2]
  {
  }

  lemma WallsAre()
    ensures WallFields(TINY.walls) == [5, 8, 1, 9, 17, 6, 1, 11]
  {
    var rs := TINY.walls;
    assert rs[..1][..0] == [] && rs[..1][0] == rs[0];
    assert WallFields(rs[..0]) == [];
    assert WallFields(rs[..1]) == RectFields(rs[0]);
    assert WallFields(rs) == WallFields(rs[..1]) + RectFields(rs[1]);
  }

  lemma FoodIs()
    ensures [U64(|TINY.food|)] + FoodFields(TINY.food) == [2, 2, 3, 40, 21, 20, 40]
  {
    var fs := TINY.food;
    assert fs[..1][..0] == [] && fs[..1][0] == fs[0];
    assert FoodFields(fs[..0]) == [];
    assert FoodFields(fs[..1]) == PileFields(fs[0]);
    assert FoodFields(fs) == FoodFields(fs[..1]) + PileFields(fs[1]);
  }

  lemma TailFieldsAre()
    ensures TailFields(TINY) == [60000, 30000, 97, 100, 12, 100, 1000000, 12, 100]
  {
  }

  /** The hash of a config from the hashes of its four parts. */
  lemma HashInParts(c: Config)
    ensures var a, w := HeadFields(c) + [U64(|c.walls|)], WallFields(c.walls);
      var f, t := [U64(|c.food|)] + FoodFields(c.food), TailFields(c);
      HashBytes(OFFSET, Encode(Fields(c))) ==
      HashBytes(HashBytes(HashBytes(HashBytes(OFFSET, Encode(a)), Encode(w)), Encode(f)), Encode(t))
  {
    hide HeadFields;
    hide TailFields;
    hide WallFields;
    hide FoodFields;
    hide U64;
    hide HashBytes;
    hide Encode;
    var a, w := HeadFields(c) + [U64(|c.walls|)], WallFields(c.walls);
    var f, t := [U64(|c.food|)] + FoodFields(c.food), TailFields(c);
    assert Fields(c) == a + w + f + t;
    EncodeConcat(OFFSET, a + w + f, t);
    EncodeConcat(OFFSET, a + w, f);
    EncodeConcat(OFFSET, a, w);
  }

  /** The canonical hash of the scenario is the recorded one. */
  lemma TinyConfigHash()
    ensures ValidConfig(TINY)
    ensures HashBytes(OFFSET, Encode(Fields(TINY))) == 7637343155580285632
  {
    hide HeadFields;
    hide TailFields;
    hide WallFields;
    hide FoodFields;
    hide Fields;
    hide U64;
    hide HashBytes;
    hide Encode;
    hide ValidConfig;
    TinyIsValid();
    HashInParts(TINY);
    HeadFieldsAre();
    WallsAre();
    FoodIs();
    TailFieldsAre();
    Head();
    Walls();
    Food();
    Tail();
  }

  lemma TinyWalls()
    ensures WallOk(TINY, TINY.walls[0]) && WallOk(TINY, TINY.walls[1])
  {
    assert Plus(5, 1) == 6 && Plus(8, 9) == 17 && Plus(17, 1) == 18 && Plus(6, 11) == 17;
    hide Plus;
  }

  lemma TinyFood()
    ensures FoodOk(TINY, TINY.food[0]) && FoodOk(TINY, TINY.food[1])
  {
    assert Plus(5, 1) == 6 && Plus(8, 9) == 17 && Plus(17, 1) == 18 && Plus(6, 11) == 17;
    hide Plus;
  }

  lemma TinyIsValid()
    ensures ValidConfig(TINY)
  {
    TinyWalls();
    TinyFood();
    hide WallOk;
    hide FoodOk;
  }

  // The result.

  lemma RecordedWord0High()
    ensures HashBytes(0x16F6_04C2_FE9F_EE80, LowBytes(1778207522, 4)) == 0x5159_ABC5_6A19_3FB5
  {
    hide HashBytes;
    hide HashByte;
    hide LowBytes;
    NoBytes(0x5159_ABC5_6A19_3FB5);
    Turned(0x36D5_DBED_9F23_F49E, 105, 0x36D5DBED9F23F4, 9, 14, 6, 9, 247, 235516194300, 0x5159_ABC5_6A19_3FB5);
    ByteThen(0x36D5_DBED_9F23_F49E, 105, 1, 0x5159_ABC5_6A19_3FB5, 0x5159_ABC5_6A19_3FB5);
    Turned(0x621F_FB42_757A_7D17, 253, 0x621FFB42757A7D, 1, 7, 15, 13, 234, 421443355420, 0x36D5_DBED_9F23_F49E);
    ByteThen(0x621F_FB42_757A_7D17, 27133, 2, 0x36D5_DBED_9F23_F49E, 0x5159_ABC5_6A19_3FB5);
    Turned(0xA3F8_B956_A9C2_7D46, 75, 0xA3F8B956A9C27D, 4, 6, 4, 11, 13, 704252565440, 0x621F_FB42_757A_7D17);
    ByteThen(0xA3F8_B956_A9C2_7D46, 6946123, 3, 0x621F_FB42_757A_7D17, 0x5159_ABC5_6A19_3FB5);
    Turned(0x16F6_04C2_FE9F_EE80, 34, 0x16F604C2FE9FEE, 8, 0, 2, 2, 162, 98616787749, 0xA3F8_B956_A9C2_7D46);
    ByteThen(0x16F6_04C2_FE9F_EE80, 1778207522, 4, 0xA3F8_B956_A9C2_7D46, 0x5159_ABC5_6A19_3FB5);
  }

  lemma RecordedWord0()
    ensures HashBytes(0xCBF2_9CE4_8422_2325, LowBytes(7637343155580285632, 8)) == 0x5159_ABC5_6A19_3FB5
  {
    hide HashBytes;
    hide HashByte;
    hide LowBytes;
    RecordedWord0High();
    Turned(0x5A4B_D71C_1BA8_1738, 184, 0x5A4BD71C1BA817, 3, 8, 11, 8, 128, 387819445429, 0x16F6_04C2_FE9F_EE80);
    ByteThen(0x5A4B_D71C_1BA8_1738, 455221125816, 5, 0x16F6_04C2_FE9F_EE80, 0x5159_ABC5_6A19_3FB5);
    Turned(0x0ABF_9607_B716_BFF7, 31, 0x0ABF9607B716BF, 15, 7, 1, 15, 232, 46163953609, 0x5A4B_D71C_1BA8_1738);
    ByteThen(0x0ABF_9607_B716_BFF7, 116536608208927, 6, 0x5A4B_D71C_1BA8_1738, 0x5159_ABC5_6A19_3FB5);
    Turned(0xAF64_7D4C_8602_FE1F, 178, 0xAF647D4C8602FE, 1, 15, 11, 2, 173, 753305210288, 0x0ABF_9607_B716_BFF7);
    ByteThen(0xAF64_7D4C_8602_FE1F, 29833371701485490, 7, 0x0ABF_9607_B716_BFF7, 0x5159_ABC5_6A19_3FB5);
    Turned(0xCBF2_9CE4_8422_2325, 192, 0xCBF29CE4842223, 2, 5, 12, 0, 229, 875948729822, 0xAF64_7D4C_8602_FE1F);
    ByteThen(0xCBF2_9CE4_8422_2325, 7637343155580285632, 8, 0xAF64_7D4C_8602_FE1F, 0x5159_ABC5_6A19_3FB5);
  }

  lemma RecordedWord1()
    ensures HashBytes(0x5159_ABC5_6A19_3FB5, LowBytes(20260921, 8)) == 0x6216_672D_F336_C3E6
  {
    hide HashBytes;
    hide HashByte;
    hide LowBytes;
    Zeros(0x4982_A8AE_5CFD_1086, 4, 0x9FFA_AC08_5635_BC91, 0x2DF0_21C3_3433_BB2F, 0x6216_672D_F336_C3E6);
    Turned(0xD8C1_5EE9_72F8_EE63, 1, 0xD8C15EE972F8EE, 6, 3, 0, 1, 98, 930957159139, 0x4982_A8AE_5CFD_1086);
    ByteThen(0xD8C1_5EE9_72F8_EE63, 1, 5, 0x4982_A8AE_5CFD_1086, 0x6216_672D_F336_C3E6);
    Turned(0xB02D_13E4_E07C_28A4, 53, 0xB02D13E4E07C28, 10, 4, 3, 5, 145, 756670522891, 0xD8C1_5EE9_72F8_EE63);
    ByteThen(0xB02D_13E4_E07C_28A4, 309, 6, 0xD8C1_5EE9_72F8_EE63, 0x6216_672D_F336_C3E6);
    Turned(0x549E_6C73_48E6_FAE4, 40, 0x549E6C7348E6FA, 14, 4, 2, 8, 204, 363435160536, 0xB02D_13E4_E07C_28A4);
    ByteThen(0x549E_6C73_48E6_FAE4, 79144, 7, 0xB02D_13E4_E07C_28A4, 0x6216_672D_F336_C3E6);
    Turned(0x5159_ABC5_6A19_3FB5, 57, 0x5159ABC56A193F, 11, 5, 3, 9, 140, 349396780532, 0x549E_6C73_48E6_FAE4);
    ByteThen(0x5159_ABC5_6A19_3FB5, 20260921, 8, 0x549E_6C73_48E6_FAE4, 0x6216_672D_F336_C3E6);
  }

  lemma RecordedWord2()
    ensures HashBytes(0x6216_672D_F336_C3E6, LowBytes(400, 8)) == 0xD788_DDAD_978D_2111
  {
    hide HashBytes;
    hide HashByte;
    hide LowBytes;
    Zeros(0x7DB3_3073_0A02_F199, 6, 0xDC96_6432_EDF1_C639, 0x6C4F_D5D4_40C4_6699, 0xD788_DDAD_978D_2111);
    Turned(0xE2D4_C914_460E_2182, 1, 0xE2D4C914460E21, 8, 2, 0, 1, 131, 974232556999, 0x7DB3_3073_0A02_F199);
    ByteThen(0xE2D4_C914_460E_2182, 1, 7, 0x7DB3_3073_0A02_F199, 0xD788_DDAD_978D_2111);
    Turned(0x6216_672D_F336_C3E6, 144, 0x6216672DF336C3, 14, 6, 9, 0, 118, 421282655897, 0xE2D4_C914_460E_2182);
    ByteThen(0x6216_672D_F336_C3E6, 400, 8, 0xE2D4_C914_460E_2182, 0xD788_DDAD_978D_2111);
  }

  lemma RecordedWord3()
    ensures HashBytes(0xD788_DDAD_978D_2111, LowBytes(400, 8)) == 0x2F5D_BA3F_547B_C8C6
  {
    hide HashBytes;
    hide HashByte;
    hide LowBytes;
    Zeros(0x3CB4_0249_AD51_BEF6, 6, 0xDC96_6432_EDF1_C639, 0x344E_5B33_0C97_02AE, 0x2F5D_BA3F_547B_C8C6);
    Turned(0xCAB2_2EF8_84CF_EE33, 1, 0xCAB22EF884CFEE, 3, 3, 0, 1, 50, 870572816861, 0x3CB4_0249_AD51_BEF6);
    ByteThen(0xCAB2_2EF8_84CF_EE33, 1, 7, 0x3CB4_0249_AD51_BEF6, 0x2F5D_BA3F_547B_C8C6);
    Turned(0xD788_DDAD_978D_2111, 144, 0xD788DDAD978D21, 1, 1, 9, 0, 129, 925714198277, 0xCAB2_2EF8_84CF_EE33);
    ByteThen(0xD788_DDAD_978D_2111, 400, 8, 0xCAB2_2EF8_84CF_EE33, 0x2F5D_BA3F_547B_C8C6);
  }

  lemma RecordedTo6()
    ensures HashBytes(0x2F5D_BA3F_547B_C8C6, LowBytes(80, 8)) == 0x351A_AD41_CBFA_3756
    ensures HashBytes(0x351A_AD41_CBFA_3756, LowBytes(0, 8)) == 0xABB6_5B3A_A489_FE16
    ensures HashBytes(0xABB6_5B3A_A489_FE16, LowBytes(0, 8)) == 0x11E6_BFA6_2BC6_1CD6
  {
    hide HashBytes;
    hide LowBytes;
    Small(0x2F5D_BA3F_547B_C8C6, 80, 0x2F5DBA3F547BC8, 12, 6, 5, 0, 150, 203435949988, 0xF80C_0F9C_8E55_D6E2, 0xBF31_3394_4AF7_57D2, 0x351A_AD41_CBFA_3756);
    Small(0x351A_AD41_CBFA_3756, 0, 0x351AAD41CBFA37, 5, 6, 0, 0, 86, 228080828966, 0x368B_BCCD_9A2C_0722, 0x2A0B_1B5F_4DF9_2C56, 0xABB6_5B3A_A489_FE16);
    Small(0xABB6_5B3A_A489_FE16, 0, 0xABB65B3AA489FE, 1, 6, 0, 0, 22, 737498840008, 0x50DB_1AA5_967A_BF62, 0x3E52_A8B4_EB98_CFC6, 0x11E6_BFA6_2BC6_1CD6);
  }

  lemma RecordedWord7()
    ensures HashBytes(0x11E6_BFA6_2BC6_1CD6, LowBytes(18668044, 8)) == 0x900F_873D_3330_2023
  {
    hide HashBytes;
    hide HashByte;
    hide LowBytes;
    Zeros(0x82FC_0CCA_D4A7_3B73, 4, 0x9FFA_AC08_5635_BC91, 0x51DA_CE1C_14BC_6169, 0x900F_873D_3330_2023);
    Turned(0x7B9E_01A5_3F75_7F40, 1, 0x7B9E01A53F757F, 4, 0, 0, 1, 65, 530931885585, 0x82FC_0CCA_D4A7_3B73);
    ByteThen(0x7B9E_01A5_3F75_7F40, 1, 5, 0x82FC_0CCA_D4A7_3B73, 0x900F_873D_3330_2023);
    Turned(0x3F3E_83F9_E804_63DC, 28, 0x3F3E83F9E80463, 13, 12, 1, 12, 192, 271631776339, 0x7B9E_01A5_3F75_7F40);
    ByteThen(0x3F3E_83F9_E804_63DC, 284, 6, 0x7B9E_01A5_3F75_7F40, 0x900F_873D_3330_2023);
    Turned(0x3134_815C_61A3_066E, 218, 0x3134815C61A306, 6, 14, 13, 10, 180, 211334290613, 0x3F3E_83F9_E804_63DC);
    ByteThen(0x3134_815C_61A3_066E, 72922, 7, 0x3F3E_83F9_E804_63DC, 0x900F_873D_3330_2023);
    Turned(0x11E6_BFA6_2BC6_1CD6, 12, 0x11E6BFA62BC61C, 13, 6, 0, 12, 218, 76885763658, 0x3134_815C_61A3_066E);
    ByteThen(0x11E6_BFA6_2BC6_1CD6, 18668044, 8, 0x3134_815C_61A3_066E, 0x900F_873D_3330_2023);
  }

  lemma RecordedWord8High()
    ensures HashBytes(0x8BCD_15EB_CF25_DE88, LowBytes(668144308, 4)) == 0x45B7_550F_0707_597C
  {
    hide HashBytes;
    hide HashByte;
    hide LowBytes;
    NoBytes(0x45B7_550F_0707_597C);
    Turned(0x1BF4_8DAF_68C5_2AB3, 39, 0x1BF48DAF68C52A, 11, 3, 2, 7, 148, 120067043224, 0x45B7_550F_0707_597C);
    ByteThen(0x1BF4_8DAF_68C5_2AB3, 39, 1, 0x45B7_550F_0707_597C, 0x45B7_550F_0707_597C);
    Turned(0x1B60_13BE_7D97_B3D2, 211, 0x1B6013BE7D97B3, 13, 2, 13, 3, 1, 117576023724, 0x1BF4_8DAF_68C5_2AB3);
    ByteThen(0x1B60_13BE_7D97_B3D2, 10195, 2, 0x1BF4_8DAF_68C5_2AB3, 0x45B7_550F_0707_597C);
    Turned(0xB35A_7BB0_FD58_9FF4, 18, 0xB35A7BB0FD589F, 15, 4, 1, 2, 230, 770317201966, 0x1B60_13BE_7D97_B3D2);
    ByteThen(0xB35A_7BB0_FD58_9FF4, 2609938, 3, 0x1B60_13BE_7D97_B3D2, 0x45B7_550F_0707_597C);
    Turned(0x8BCD_15EB_CF25_DE88, 180, 0x8BCD15EBCF25DE, 8, 8, 11, 4, 60, 600441220284, 0xB35A_7BB0_FD58_9FF4);
    ByteThen(0x8BCD_15EB_CF25_DE88, 668144308, 4, 0xB35A_7BB0_FD58_9FF4, 0x45B7_550F_0707_597C);
  }

  lemma RecordedWord8()
    ensures HashBytes(0x900F_873D_3330_2023, LowBytes(2869657953538274110, 8)) == 0x45B7_550F_0707_597C
  {
    hide HashBytes;
    hide HashByte;
    hide LowBytes;
    RecordedWord8High();
    Turned(0xDB98_D998_6067_133B, 99, 0xDB98D998606713, 3, 11, 6, 3, 88, 943162235349, 0x8BCD_15EB_CF25_DE88);
    ByteThen(0xDB98_D998_6067_133B, 171044942947, 5, 0x8BCD_15EB_CF25_DE88, 0x45B7_550F_0707_597C);
    Turned(0x7305_4E91_1F69_94DC, 133, 0x73054E911F6994, 13, 12, 8, 5, 89, 494010274274, 0xDB98_D998_6067_133B);
    ByteThen(0x7305_4E91_1F69_94DC, 43787505394565, 6, 0xDB98_D998_6067_133B, 0x45B7_550F_0707_597C);
    Turned(0xFA82_E9FD_FAC6_9147, 243, 0xFA82E9FDFAC691, 4, 7, 15, 3, 180, 1075938197412, 0x7305_4E91_1F69_94DC);
    ByteThen(0xFA82_E9FD_FAC6_9147, 11209601381008883, 7, 0x7305_4E91_1F69_94DC, 0x45B7_550F_0707_597C);
    Turned(0x900F_873D_3330_2023, 62, 0x900F873D333020, 2, 3, 3, 14, 29, 618735812135, 0xFA82_E9FD_FAC6_9147);
    ByteThen(0x900F_873D_3330_2023, 2869657953538274110, 8, 0xFA82_E9FD_FAC6_9147, 0x45B7_550F_0707_597C);
  }

  lemma RecordedWord9High()
    ensures HashBytes(0x6075_A8BE_F46E_118E, LowBytes(2679982866, 4)) == 0x58CB_BB3E_C5A8_D61D
  {
    hide HashBytes;
    hide HashByte;
    hide LowBytes;
    NoBytes(0x58CB_BB3E_C5A8_D61D);
    Turned(0xCF96_AEAA_CF9B_C070, 159, 0xCF96AEAACF9BC0, 7, 0, 9, 15, 239, 891586260016, 0x58CB_BB3E_C5A8_D61D);
    ByteThen(0xCF96_AEAA_CF9B_C070, 159, 1, 0x58CB_BB3E_C5A8_D61D, 0x58CB_BB3E_C5A8_D61D);
    Turned(0x28CF_B52E_E276_A56D, 189, 0x28CFB52EE276A5, 6, 13, 11, 13, 208, 175283449639, 0xCF96_AEAA_CF9B_C070);
    ByteThen(0x28CF_B52E_E276_A56D, 40893, 2, 0xCF96_AEAA_CF9B_C070, 0x58CB_BB3E_C5A8_D61D);
    Turned(0x55FF_5879_5707_EC14, 75, 0x55FF58795707EC, 1, 4, 4, 11, 95, 369356208617, 0x28CF_B52E_E276_A56D);
    ByteThen(0x55FF_5879_5707_EC14, 10468683, 3, 0x28CF_B52E_E276_A56D, 0x58CB_BB3E_C5A8_D61D);
    Turned(0x6075_A8BE_F46E_118E, 18, 0x6075A8BEF46E11, 8, 14, 1, 2, 156, 414290853784, 0x55FF_5879_5707_EC14);
    ByteThen(0x6075_A8BE_F46E_118E, 2679982866, 4, 0x55FF_5879_5707_EC14, 0x58CB_BB3E_C5A8_D61D);
  }

  lemma RecordedWord9()
    ensures HashBytes(0x45B7_550F_0707_597C, LowBytes(11510438767191051020, 8)) == 0x58CB_BB3E_C5A8_D61D
  {
    hide HashBytes;
    hide HashByte;
    hide LowBytes;
    RecordedWord9High();
    Turned(0x886D_AF0A_718E_15DD, 231, 0x886DAF0A718E15, 13, 13, 14, 7, 58, 585955740505, 0x6075_A8BE_F46E_118E);
    ByteThen(0x886D_AF0A_718E_15DD, 686075613927, 5, 0x6075_A8BE_F46E_118E, 0x58CB_BB3E_C5A8_D61D);
    Turned(0x5ED9_EBB2_575C_2261, 78, 0x5ED9EBB2575C22, 6, 1, 4, 14, 47, 407383028472, 0x886D_AF0A_718E_15DD);
    ByteThen(0x5ED9_EBB2_575C_2261, 175635357165390, 6, 0x886D_AF0A_718E_15DD, 0x58CB_BB3E_C5A8_D61D);
    Turned(0x7DDE_F888_F17C_F950, 203, 0x7DDEF888F17CF9, 5, 0, 12, 11, 155, 540611742151, 0x5ED9_EBB2_575C_2261);
    ByteThen(0x7DDE_F888_F17C_F950, 44962651434340043, 7, 0x5ED9_EBB2_575C_2261, 0x58CB_BB3E_C5A8_D61D);
    Turned(0x45B7_550F_0707_597C, 12, 0x45B7550F070759, 7, 12, 0, 12, 112, 299428548477, 0x7DDE_F888_F17C_F950);
    ByteThen(0x45B7_550F_0707_597C, 11510438767191051020, 8, 0x7DDE_F888_F17C_F950, 0x58CB_BB3E_C5A8_D61D);
  }

  lemma Recorded()
    ensures HashBytes(0xCBF2_9CE4_8422_2325, Encode([7637343155580285632, 20260921, 400, 400, 80, 0, 0, 18668044, 2869657953538274110, 11510438767191051020])) == 0x58CB_BB3E_C5A8_D61D
  {
    hide HashBytes;
    hide LowBytes;
    hide Encode;
    RecordedWord0();
    RecordedWord1();
    RecordedWord2();
    RecordedWord3();
    RecordedTo6();
    RecordedWord7();
    RecordedWord8();
    RecordedWord9();
    FoldWords([7637343155580285632, 20260921, 400, 400, 80, 0, 0, 18668044, 2869657953538274110, 11510438767191051020], [0xCBF2_9CE4_8422_2325, 0x5159_ABC5_6A19_3FB5, 0x6216_672D_F336_C3E6, 0xD788_DDAD_978D_2111, 0x2F5D_BA3F_547B_C8C6, 0x351A_AD41_CBFA_3756, 0xABB6_5B3A_A489_FE16, 0x11E6_BFA6_2BC6_1CD6, 0x900F_873D_3330_2023, 0x45B7_550F_0707_597C, 0x58CB_BB3E_C5A8_D61D]);
  }

  /** Any result with the recorded values has the recorded checksum. */
  lemma TinyChecksum(r: Result)
    requires r.configHash == 7637343155580285632 && r.seed == 20260921 && r.ticks == 400 && r.ticksRun == 400
    requires r.foodCollected == 80 && r.foodRemaining == 0 && r.antsCarrying == 0
    requires r.totalPheromone == 18668044
    requires r.antPosHash == 2869657953538274110 && r.gridHash == 11510438767191051020
    ensures Checksum(r) == 6398413573888464413
  {
    Recorded();
    hide HashBytes;
    hide Encode;
    assert ResultFields(r) == [7637343155580285632, 20260921, 400, 400, 80, 0, 0, 18668044, 2869657953538274110, 11510438767191051020];
  }
}
