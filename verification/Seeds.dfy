/**
 The second ant of a colony, in numbers: its mask, its seed and the heading it
 starts with, beside that of the first ant.
 */
module Seeds {
  import opened Words
  import opened Config
  import opened Rng
  import opened Start
  import opened Literals
  import opened Rejected

  /** Two ants with the seed and the parameters of the unlucky colony. */
  const PAIR := UNLUCKY.(antCount := 2)

  lemma Xor1()
    ensures Xor64(0x0000_0000_0539_6F00, 0x0163_5F55_58FF_5C2E) == 0x0163_5F55_5DC6_332E
  {
    hide Xor;
    XorZero(0);
    XorFour(0, 0, 0, 0x0, 0x0, 0x0, 0x0, 0x0, 0x1, 0x6, 0x3);
    XorFour(0x0000, 0x0163, 0x0163, 0x0, 0x0, 0x0, 0x0, 0x5, 0xF, 0x5, 0x5);
    XorFour(0x00000000, 0x01635F55, 0x01635F55, 0x0, 0x5, 0x3, 0x9, 0x5, 0x8, 0xF, 0xF);
    XorFour(0x000000000539, 0x01635F5558FF, 0x01635F555DC6, 0x6, 0xF, 0x0, 0x0, 0x5, 0xC, 0x2, 0xE);
  }

  lemma Xor2()
    ensures Xor64(0x9F9A_D90E_DD10_AF43, 0x0000_0002_7E6B_643B) == 0x9F9A_D90C_A37B_CB78
  {
    hide Xor;
    XorZero(0);
    XorFour(0, 0, 0, 0x9, 0xF, 0x9, 0xA, 0x0, 0x0, 0x0, 0x0);
    XorFour(0x9F9A, 0x0000, 0x9F9A, 0xD, 0x9, 0x0, 0xE, 0x0, 0x0, 0x0, 0x2);
    XorFour(0x9F9AD90E, 0x00000002, 0x9F9AD90C, 0xD, 0xD, 0x1, 0x0, 0x7, 0xE, 0x6, 0xB);
    XorFour(0x9F9AD90EDD10, 0x000000027E6B, 0x9F9AD90CA37B, 0xA, 0xF, 0x4, 0x3, 0x6, 0x4, 0x3, 0xB);
  }

  lemma Xor3()
    ensures Xor64(0xF696_36FA_3858_61B8, 0x0000_001E_D2C6_DF47) == 0xF696_36E4_EA9E_BEFF
  {
    hide Xor;
    XorZero(0);
    XorFour(0, 0, 0, 0xF, 0x6, 0x9, 0x6, 0x0, 0x0, 0x0, 0x0);
    XorFour(0xF696, 0x0000, 0xF696, 0x3, 0x6, 0xF, 0xA, 0x0, 0x0, 0x1, 0xE);
    XorFour(0xF69636FA, 0x0000001E, 0xF69636E4, 0x3, 0x8, 0x5, 0x8, 0xD, 0x2, 0xC, 0x6);
    XorFour(0xF69636FA3858, 0x0000001ED2C6, 0xF69636E4EA9E, 0x6, 0x1, 0xB, 0x8, 0xD, 0xF, 0x4, 0x7);
  }

  lemma Xor4()
    ensures Xor64(0x1660_838C_6637_4315, 0x0000_0000_2CC1_0718) == 0x1660_838C_4AF6_440D
  {
    hide Xor;
    XorZero(0);
    XorFour(0, 0, 0, 0x1, 0x6, 0x6, 0x0, 0x0, 0x0, 0x0, 0x0);
    XorFour(0x1660, 0x0000, 0x1660, 0x8, 0x3, 0x8, 0xC, 0x0, 0x0, 0x0, 0x0);
    XorFour(0x1660838C, 0x00000000, 0x1660838C, 0x6, 0x6, 0x3, 0x7, 0x2, 0xC, 0xC, 0x1);
    XorFour(0x1660838C6637, 0x000000002CC1, 0x1660838C4AF6, 0x4, 0x3, 0x1, 0x5, 0x0, 0x7, 0x1, 0x8);
  }

  lemma Xor5()
    ensures Xor64(0x52CF_76FF_498B_3C37, 0x0000_0001_4B3D_DBFD) == 0x52CF_76FE_02B6_E7CA
  {
    hide Xor;
    XorZero(0);
    XorFour(0, 0, 0, 0x5, 0x2, 0xC, 0xF, 0x0, 0x0, 0x0, 0x0);
    XorFour(0x52CF, 0x0000, 0x52CF, 0x7, 0x6, 0xF, 0xF, 0x0, 0x0, 0x0, 0x1);
    XorFour(0x52CF76FF, 0x00000001, 0x52CF76FE, 0x4, 0x9, 0x8, 0xB, 0x4, 0xB, 0x3, 0xD);
    XorFour(0x52CF76FF498B, 0x000000014B3D, 0x52CF76FE02B6, 0x3, 0xC, 0x3, 0x7, 0xD, 0xB, 0xF, 0xD);
  }

  lemma Xor6()
    ensures Xor64(0x757E_5940_1B6D_32FA, 0x0000_000E_AFCB_2803) == 0x757E_594E_B4A6_1AF9
  {
    hide Xor;
    XorZero(0);
    XorFour(0, 0, 0, 0x7, 0x5, 0x7, 0xE, 0x0, 0x0, 0x0, 0x0);
    XorFour(0x757E, 0x0000, 0x757E, 0x5, 0x9, 0x4, 0x0, 0x0, 0x0, 0x0, 0xE);
    XorFour(0x757E5940, 0x0000000E, 0x757E594E, 0x1, 0xB, 0x6, 0xD, 0xA, 0xF, 0xC, 0xB);
    XorFour(0x757E59401B6D, 0x0000000EAFCB, 0x757E594EB4A6, 0x3, 0x2, 0xF, 0xA, 0x2, 0x8, 0x0, 0x3);
  }

  lemma Xor7()
    ensures Xor64(0x5FB9_D1ED_80EE_4B93, 0x0000_0000_BF73_A3DB) == 0x5FB9_D1ED_3F9D_E848
  {
    hide Xor;
    XorZero(0);
    XorFour(0, 0, 0, 0x5, 0xF, 0xB, 0x9, 0x0, 0x0, 0x0, 0x0);
    XorFour(0x5FB9, 0x0000, 0x5FB9, 0xD, 0x1, 0xE, 0xD, 0x0, 0x0, 0x0, 0x0);
    XorFour(0x5FB9D1ED, 0x00000000, 0x5FB9D1ED, 0x8, 0x0, 0xE, 0xE, 0xB, 0xF, 0x7, 0x3);
    XorFour(0x5FB9D1ED80EE, 0x00000000BF73, 0x5FB9D1ED3F9D, 0x4, 0xB, 0x9, 0x3, 0xA, 0x3, 0xD, 0xB);
  }

  lemma SecondMask()
    ensures AntMask(1) == 0x0163_5F55_58FF_5C2E
  {
    AntMasks(0);
    hide AntMask;
  }

  /** With Seed 87650048 the second ant's generator is seeded with this word. */
  lemma SecondSeed()
    ensures AntSeed(SEED, 1) == 0x1660_838C_4AF6_440D
  {
    hide Xor64;
    hide Mix;
    hide AntMask;
    SecondMask();
    Xor1();
    MixOfSecond();
    assert Add64(0x0163_5F55_5DC6_332E, GOLDEN) == 0x9F9A_D90E_DD10_AF43;
  }

  lemma MixOfSecond()
    ensures Mix(0x9F9A_D90E_DD10_AF43) == 0x1660_838C_4AF6_440D
  {
    hide Xor64;
    hide Pow2;
    Pow2Values();
    Xor2();
    Xor3();
    Xor4();
    assert MixRound(0x9F9A_D90E_DD10_AF43, 30, MIX_1) == 0xF696_36FA_3858_61B8;
    assert MixRound(0xF696_36FA_3858_61B8, 27, MIX_2) == 0x1660_838C_6637_4315;
  }

  lemma MixOfState()
    ensures Mix(0x52CF_76FF_498B_3C37) == 0x5FB9_D1ED_3F9D_E848
  {
    hide Xor64;
    hide Pow2;
    Pow2Values();
    Xor5();
    Xor6();
    Xor7();
    assert MixRound(0x52CF_76FF_498B_3C37, 30, MIX_1) == 0x757E_5940_1B6D_32FA;
    assert MixRound(0x757E_5940_1B6D_32FA, 27, MIX_2) == 0x5FB9_D1ED_80EE_4B93;
  }

  lemma SecondWord()
    ensures SeedRng(0x1660_838C_4AF6_440D).s1 == 0x5FB9_D1ED_3F9D_E848
  {
    hide Mix;
    MixOfState();
    SeedGuardNeverFires(0x1660_838C_4AF6_440D);
    assert Add64(Add64(0x1660_838C_4AF6_440D, GOLDEN), GOLDEN) == 0x52CF_76FF_498B_3C37;
  }

  lemma SecondOutput(s: State)
    requires s.s1 == 0x5FB9_D1ED_3F9D_E848
    ensures Output(s) / TWO_32 == 0xD4F3_5A17
  {
    hide Pow2;
    Pow2Values();
    assert Mul64(0x5FB9_D1ED_3F9D_E848, 5) == 0xDEA1_19A2_3E15_8968;
    assert RotateLeft(0xDEA1_19A2_3E15_8968, 7) == 0x508C_D11F_0AC4_B46F;
    hide RotateLeft;
  }

  lemma FirstOutput(s: State)
    requires s == SEEDED
    ensures Output(s) / TWO_32 == 0x22F2_AA3C
  {
    hide Pow2;
    Pow2Values();
    assert Mul64(0xA0F0_7C90_196D_EEB5, 5) == 0x24B2_6ED0_7F25_A989;
    assert RotateLeft(0x24B2_6ED0_7F25_A989, 7) == 0x5937_683F_92D4_C492;
    hide RotateLeft;
  }

  /** The first ant starts facing north-east, the second west. */
  lemma Headings()
    ensures ValidConfig(PAIR)
    ensures NewWorld(PAIR).ants[0].dir == 1 && NewWorld(PAIR).ants[1].dir == 6
  {
    PairIsValid();
    FirstHeading();
    SecondHeading();
    hide NewAnt;
    hide ValidConfig;
    assert NewWorld(PAIR).ants[0] == NewAnt(PAIR, 0) && NewWorld(PAIR).ants[1] == NewAnt(PAIR, 1);
  }

  lemma PairIsValid()
    ensures ValidConfig(PAIR) && PAIR.seed == SEED && PAIR.antCount == 2
  {
  }

  lemma FirstHeading()
    ensures NewAnt(PAIR, 0).dir == 1
  {
    hide NewAnt;
    hide AntSeed;
    hide SeedRng;
    hide Output;
    SeedOfAnt();
    SeededState();
    FirstOutput(SEEDED);
    HeadingIs(PAIR, 0);
  }

  lemma SecondHeading()
    ensures NewAnt(PAIR, 1).dir == 6
  {
    hide NewAnt;
    hide AntSeed;
    hide SeedRng;
    hide Output;
    SecondSeed();
    SecondWord();
    SecondOutput(SeedRng(AntSeed(SEED, 1)));
    HeadingIs(PAIR, 1);
  }
}
