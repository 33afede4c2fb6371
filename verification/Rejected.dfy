/**
 A config with the parameters of the bundled scenarios whose first tick consumes
 a third word: ant 0's first draw of a number below 100 is rejected.
 */
module Rejected {
  import opened Words
  import opened Config
  import opened Rng
  import opened Literals
  import Stencil

  const SEED: Word := 87650048

  const UNLUCKY := Config(1, "", SEED, 8, 8, 1, 1, Point(4, 4), [], [], Stencil.SCENARIO, Movement(12, 100))

  // The words of the first ant's generator, step by step.

  lemma Xor1()
    ensures Xor64(0x0000_0000_0539_6F00, 0x632B_E59B_D9B4_E019) == 0x632B_E59B_DC8D_8F19
  {
    hide Xor;
    XorZero(0);
    XorFour(0, 0, 0, 0x0, 0x0, 0x0, 0x0, 0x6, 0x3, 0x2, 0xB);
    XorFour(0x0000, 0x632B, 0x632B, 0x0, 0x0, 0x0, 0x0, 0xE, 0x5, 0x9, 0xB);
    XorFour(0x00000000, 0x632BE59B, 0x632BE59B, 0x0, 0x5, 0x3, 0x9, 0xD, 0x9, 0xB, 0x4);
    XorFour(0x000000000539, 0x632BE59BD9B4, 0x632BE59BDC8D, 0x6, 0xF, 0x0, 0x0, 0xE, 0x0, 0x1, 0x9);
  }

  lemma Xor2()
    ensures Xor64(0x0163_5F55_5BD8_0B2E, 0x0000_0000_058D_7D55) == 0x0163_5F55_5E55_767B
  {
    hide Xor;
    XorZero(0);
    XorFour(0, 0, 0, 0x0, 0x1, 0x6, 0x3, 0x0, 0x0, 0x0, 0x0);
    XorFour(0x0163, 0x0000, 0x0163, 0x5, 0xF, 0x5, 0x5, 0x0, 0x0, 0x0, 0x0);
    XorFour(0x01635F55, 0x00000000, 0x01635F55, 0x5, 0xB, 0xD, 0x8, 0x0, 0x5, 0x8, 0xD);
    XorFour(0x01635F555BD8, 0x00000000058D, 0x01635F555E55, 0x0, 0xB, 0x2, 0xE, 0x7, 0xD, 0x5, 0x5);
  }

  lemma Xor3()
    ensures Xor64(0x80F8_2E85_984A_A5E3, 0x0000_0010_1F05_D0B3) == 0x80F8_2E95_874F_7550
  {
    hide Xor;
    XorZero(0);
    XorFour(0, 0, 0, 0x8, 0x0, 0xF, 0x8, 0x0, 0x0, 0x0, 0x0);
    XorFour(0x80F8, 0x0000, 0x80F8, 0x2, 0xE, 0x8, 0x5, 0x0, 0x0, 0x1, 0x0);
    XorFour(0x80F82E85, 0x00000010, 0x80F82E95, 0x9, 0x8, 0x4, 0xA, 0x1, 0xF, 0x0, 0x5);
    XorFour(0x80F82E85984A, 0x000000101F05, 0x80F82E95874F, 0xA, 0x5, 0xE, 0x3, 0xD, 0x0, 0xB, 0x3);
  }

  lemma Xor4()
    ensures Xor64(0xF312_FE99_E10B_0070, 0x0000_0001_E625_FD33) == 0xF312_FE98_072E_FD43
  {
    hide Xor;
    XorZero(0);
    XorFour(0, 0, 0, 0xF, 0x3, 0x1, 0x2, 0x0, 0x0, 0x0, 0x0);
    XorFour(0xF312, 0x0000, 0xF312, 0xF, 0xE, 0x9, 0x9, 0x0, 0x0, 0x0, 0x1);
    XorFour(0xF312FE99, 0x00000001, 0xF312FE98, 0xE, 0x1, 0x0, 0xB, 0xE, 0x6, 0x2, 0x5);
    XorFour(0xF312FE99E10B, 0x00000001E625, 0xF312FE98072E, 0x0, 0x0, 0x7, 0x0, 0xF, 0xD, 0x3, 0x3);
  }

  lemma MixOfSeed()
    ensures Mix(0x0163_5F55_5BD8_0B2E) == 0xF312_FE98_072E_FD43
  {
    hide Xor64;
    hide Pow2;
    Pow2Values();
    Xor2();
    Xor3();
    Xor4();
    assert MixRound(0x0163_5F55_5BD8_0B2E, 30, MIX_1) == 0x80F8_2E85_984A_A5E3;
    assert MixRound(0x80F8_2E85_984A_A5E3, 27, MIX_2) == 0xF312_FE99_E10B_0070;
  }

  lemma Xor5()
    ensures Xor64(0x914A_7851_8679_7958, 0x0000_0002_4529_E146) == 0x914A_7853_C350_981E
  {
    hide Xor;
    XorZero(0);
    XorFour(0, 0, 0, 0x9, 0x1, 0x4, 0xA, 0x0, 0x0, 0x0, 0x0);
    XorFour(0x914A, 0x0000, 0x914A, 0x7, 0x8, 0x5, 0x1, 0x0, 0x0, 0x0, 0x2);
    XorFour(0x914A7851, 0x00000002, 0x914A7853, 0x8, 0x6, 0x7, 0x9, 0x4, 0x5, 0x2, 0x9);
    XorFour(0x914A78518679, 0x000000024529, 0x914A7853C350, 0x7, 0x9, 0x5, 0x8, 0xE, 0x1, 0x4, 0x6);
  }

  lemma Xor6()
    ensures Xor64(0x203B_BD70_0008_C3AE, 0x0000_0004_0777_AE00) == 0x203B_BD74_077F_6DAE
  {
    hide Xor;
    XorZero(0);
    XorFour(0, 0, 0, 0x2, 0x0, 0x3, 0xB, 0x0, 0x0, 0x0, 0x0);
    XorFour(0x203B, 0x0000, 0x203B, 0xB, 0xD, 0x7, 0x0, 0x0, 0x0, 0x0, 0x4);
    XorFour(0x203BBD70, 0x00000004, 0x203BBD74, 0x0, 0x0, 0x0, 0x8, 0x0, 0x7, 0x7, 0x7);
    XorFour(0x203BBD700008, 0x000000040777, 0x203BBD74077F, 0xC, 0x3, 0xA, 0xE, 0xA, 0xE, 0x0, 0x0);
  }

  lemma Xor7()
    ensures Xor64(0xF3EB_3EA4_4090_3CBA, 0x0000_0001_E7D6_7D48) == 0xF3EB_3EA5_A746_41F2
  {
    hide Xor;
    XorZero(0);
    XorFour(0, 0, 0, 0xF, 0x3, 0xE, 0xB, 0x0, 0x0, 0x0, 0x0);
    XorFour(0xF3EB, 0x0000, 0xF3EB, 0x3, 0xE, 0xA, 0x4, 0x0, 0x0, 0x0, 0x1);
    XorFour(0xF3EB3EA4, 0x00000001, 0xF3EB3EA5, 0x4, 0x0, 0x9, 0x0, 0xE, 0x7, 0xD, 0x6);
    XorFour(0xF3EB3EA44090, 0x00000001E7D6, 0xF3EB3EA5A746, 0x3, 0xC, 0xB, 0xA, 0x7, 0xD, 0x4, 0x8);
  }

  lemma MixOfState0()
    ensures Mix(0x914A_7851_8679_7958) == 0xF3EB_3EA5_A746_41F2
  {
    hide Xor64;
    hide Pow2;
    Pow2Values();
    Xor5();
    Xor6();
    Xor7();
    assert MixRound(0x914A_7851_8679_7958, 30, MIX_1) == 0x203B_BD70_0008_C3AE;
    assert MixRound(0x203B_BD70_0008_C3AE, 27, MIX_2) == 0xF3EB_3EA4_4090_3CBA;
  }

  lemma Xor8()
    ensures Xor64(0x2F81_F20B_05C3_F56D, 0x0000_0000_BE07_C82C) == 0x2F81_F20B_BBC4_3D41
  {
    hide Xor;
    XorZero(0);
    XorFour(0, 0, 0, 0x2, 0xF, 0x8, 0x1, 0x0, 0x0, 0x0, 0x0);
    XorFour(0x2F81, 0x0000, 0x2F81, 0xF, 0x2, 0x0, 0xB, 0x0, 0x0, 0x0, 0x0);
    XorFour(0x2F81F20B, 0x00000000, 0x2F81F20B, 0x0, 0x5, 0xC, 0x3, 0xB, 0xE, 0x0, 0x7);
    XorFour(0x2F81F20B05C3, 0x00000000BE07, 0x2F81F20BBBC4, 0xF, 0x5, 0x6, 0xD, 0xC, 0x8, 0x2, 0xC);
  }

  lemma Xor9()
    ensures Xor64(0x5A4C_3697_E57F_68F9, 0x0000_000B_4986_D2FC) == 0x5A4C_369C_ACF9_BA05
  {
    hide Xor;
    XorZero(0);
    XorFour(0, 0, 0, 0x5, 0xA, 0x4, 0xC, 0x0, 0x0, 0x0, 0x0);
    XorFour(0x5A4C, 0x0000, 0x5A4C, 0x3, 0x6, 0x9, 0x7, 0x0, 0x0, 0x0, 0xB);
    XorFour(0x5A4C3697, 0x0000000B, 0x5A4C369C, 0xE, 0x5, 0x7, 0xF, 0x4, 0x9, 0x8, 0x6);
    XorFour(0x5A4C3697E57F, 0x0000000B4986, 0x5A4C369CACF9, 0x6, 0x8, 0xF, 0x9, 0xD, 0x2, 0xF, 0xC);
  }

  lemma Xor10()
    ensures Xor64(0xA0F0_7C91_588D_1797, 0x0000_0001_41E0_F922) == 0xA0F0_7C90_196D_EEB5
  {
    hide Xor;
    XorZero(0);
    XorFour(0, 0, 0, 0xA, 0x0, 0xF, 0x0, 0x0, 0x0, 0x0, 0x0);
    XorFour(0xA0F0, 0x0000, 0xA0F0, 0x7, 0xC, 0x9, 0x1, 0x0, 0x0, 0x0, 0x1);
    XorFour(0xA0F07C91, 0x00000001, 0xA0F07C90, 0x5, 0x8, 0x8, 0xD, 0x4, 0x1, 0xE, 0x0);
    XorFour(0xA0F07C91588D, 0x0000000141E0, 0xA0F07C90196D, 0x1, 0x7, 0x9, 0x7, 0xF, 0x9, 0x2, 0x2);
  }

  lemma MixOfState1()
    ensures Mix(0x2F81_F20B_05C3_F56D) == 0xA0F0_7C90_196D_EEB5
  {
    hide Xor64;
    hide Pow2;
    Pow2Values();
    Xor8();
    Xor9();
    Xor10();
    assert MixRound(0x2F81_F20B_05C3_F56D, 30, MIX_1) == 0x5A4C_3697_E57F_68F9;
    assert MixRound(0x5A4C_3697_E57F_68F9, 27, MIX_2) == 0xA0F0_7C91_588D_1797;
  }

  lemma Xor11()
    ensures Xor64(0xCDB9_6BC4_850E_7182, 0x0000_0003_36E5_AF12) == 0xCDB9_6BC7_B3EB_DE90
  {
    hide Xor;
    XorZero(0);
    XorFour(0, 0, 0, 0xC, 0xD, 0xB, 0x9, 0x0, 0x0, 0x0, 0x0);
    XorFour(0xCDB9, 0x0000, 0xCDB9, 0x6, 0xB, 0xC, 0x4, 0x0, 0x0, 0x0, 0x3);
    XorFour(0xCDB96BC4, 0x00000003, 0xCDB96BC7, 0x8, 0x5, 0x0, 0xE, 0x3, 0x6, 0xE, 0x5);
    XorFour(0xCDB96BC4850E, 0x0000000336E5, 0xCDB96BC7B3EB, 0x7, 0x1, 0x8, 0x2, 0xA, 0xF, 0x1, 0x2);
  }

  lemma Xor12()
    ensures Xor64(0x559A_44FC_FBCA_A610, 0x0000_000A_B348_9F9F) == 0x559A_44F6_4882_398F
  {
    hide Xor;
    XorZero(0);
    XorFour(0, 0, 0, 0x5, 0x5, 0x9, 0xA, 0x0, 0x0, 0x0, 0x0);
    XorFour(0x559A, 0x0000, 0x559A, 0x4, 0x4, 0xF, 0xC, 0x0, 0x0, 0x0, 0xA);
    XorFour(0x559A44FC, 0x0000000A, 0x559A44F6, 0xF, 0xB, 0xC, 0xA, 0xB, 0x3, 0x4, 0x8);
    XorFour(0x559A44FCFBCA, 0x0000000AB348, 0x559A44F64882, 0xA, 0x6, 0x1, 0x0, 0x9, 0xF, 0x9, 0xF);
  }

  lemma Xor13()
    ensures Xor64(0xD771_068C_D6BC_5545, 0x0000_0001_AEE2_0D19) == 0xD771_068D_785E_585C
  {
    hide Xor;
    XorZero(0);
    XorFour(0, 0, 0, 0xD, 0x7, 0x7, 0x1, 0x0, 0x0, 0x0, 0x0);
    XorFour(0xD771, 0x0000, 0xD771, 0x0, 0x6, 0x8, 0xC, 0x0, 0x0, 0x0, 0x1);
    XorFour(0xD771068C, 0x00000001, 0xD771068D, 0xD, 0x6, 0xB, 0xC, 0xA, 0xE, 0xE, 0x2);
    XorFour(0xD771068CD6BC, 0x00000001AEE2, 0xD771068D785E, 0x5, 0x5, 0x4, 0x5, 0x0, 0xD, 0x1, 0x9);
  }

  lemma MixOfState2()
    ensures Mix(0xCDB9_6BC4_850E_7182) == 0xD771_068D_785E_585C
  {
    hide Xor64;
    hide Pow2;
    Pow2Values();
    Xor11();
    Xor12();
    Xor13();
    assert MixRound(0xCDB9_6BC4_850E_7182, 30, MIX_1) == 0x559A_44FC_FBCA_A610;
    assert MixRound(0x559A_44FC_FBCA_A610, 27, MIX_2) == 0xD771_068C_D6BC_5545;
  }

  lemma Xor14()
    ensures Xor64(0xD771_068D_785E_585C, 0xF3EB_3EA5_A746_41F2) == 0x249A_3828_DF18_19AE
  {
    hide Xor;
    XorZero(0);
    XorFour(0, 0, 0, 0xD, 0x7, 0x7, 0x1, 0xF, 0x3, 0xE, 0xB);
    XorFour(0xD771, 0xF3EB, 0x249A, 0x0, 0x6, 0x8, 0xD, 0x3, 0xE, 0xA, 0x5);
    XorFour(0xD771068D, 0xF3EB3EA5, 0x249A3828, 0x7, 0x8, 0x5, 0xE, 0xA, 0x7, 0x4, 0x6);
    XorFour(0xD771068D785E, 0xF3EB3EA5A746, 0x249A3828DF18, 0x5, 0x8, 0x5, 0xC, 0x4, 0x1, 0xF, 0x2);
  }

  lemma Xor15()
    ensures Xor64(0xA0F0_7C90_196D_EEB5, 0x249A_3828_DF18_19AE) == 0x846A_44B8_C675_F71B
  {
    hide Xor;
    XorZero(0);
    XorFour(0, 0, 0, 0xA, 0x0, 0xF, 0x0, 0x2, 0x4, 0x9, 0xA);
    XorFour(0xA0F0, 0x249A, 0x846A, 0x7, 0xC, 0x9, 0x0, 0x3, 0x8, 0x2, 0x8);
    XorFour(0xA0F07C90, 0x249A3828, 0x846A44B8, 0x1, 0x9, 0x6, 0xD, 0xD, 0xF, 0x1, 0x8);
    XorFour(0xA0F07C90196D, 0x249A3828DF18, 0x846A44B8C675, 0xE, 0xE, 0xB, 0x5, 0x1, 0x9, 0xA, 0xE);
  }

  lemma Xor16()
    ensures Xor64(0x6BF0_E57E_0458_ED97, 0x0000_0001_AFC3_95F8) == 0x6BF0_E57F_AB9B_786F
  {
    hide Xor;
    XorZero(0);
    XorFour(0, 0, 0, 0x6, 0xB, 0xF, 0x0, 0x0, 0x0, 0x0, 0x0);
    XorFour(0x6BF0, 0x0000, 0x6BF0, 0xE, 0x5, 0x7, 0xE, 0x0, 0x0, 0x0, 0x1);
    XorFour(0x6BF0E57E, 0x00000001, 0x6BF0E57F, 0x0, 0x4, 0x5, 0x8, 0xA, 0xF, 0xC, 0x3);
    XorFour(0x6BF0E57E0458, 0x00000001AFC3, 0x6BF0E57FAB9B, 0xE, 0xD, 0x9, 0x7, 0x9, 0x5, 0xF, 0x8);
  }

  lemma Xor17()
    ensures Xor64(0x419B_F5AB_7CF1_5337, 0x0000_0008_337E_B56F) == 0x419B_F5A3_4F8F_E658
  {
    hide Xor;
    XorZero(0);
    XorFour(0, 0, 0, 0x4, 0x1, 0x9, 0xB, 0x0, 0x0, 0x0, 0x0);
    XorFour(0x419B, 0x0000, 0x419B, 0xF, 0x5, 0xA, 0xB, 0x0, 0x0, 0x0, 0x8);
    XorFour(0x419BF5AB, 0x00000008, 0x419BF5A3, 0x7, 0xC, 0xF, 0x1, 0x3, 0x3, 0x7, 0xE);
    XorFour(0x419BF5AB7CF1, 0x00000008337E, 0x419BF5A34F8F, 0x5, 0x3, 0x3, 0x7, 0xB, 0x5, 0x6, 0xF);
  }

  lemma Xor18()
    ensures Xor64(0xE6F0_981E_363C_4AC8, 0x0000_0001_CDE1_303C) == 0xE6F0_981F_FBDD_7AF4
  {
    hide Xor;
    XorZero(0);
    XorFour(0, 0, 0, 0xE, 0x6, 0xF, 0x0, 0x0, 0x0, 0x0, 0x0);
    XorFour(0xE6F0, 0x0000, 0xE6F0, 0x9, 0x8, 0x1, 0xE, 0x0, 0x0, 0x0, 0x1);
    XorFour(0xE6F0981E, 0x00000001, 0xE6F0981F, 0x3, 0x6, 0x3, 0xC, 0xC, 0xD, 0xE, 0x1);
    XorFour(0xE6F0981E363C, 0x00000001CDE1, 0xE6F0981FFBDD, 0x4, 0xA, 0xC, 0x8, 0x3, 0x0, 0x3, 0xC);
  }

  lemma MixOfState3()
    ensures Mix(0x6BF0_E57E_0458_ED97) == 0xE6F0_981F_FBDD_7AF4
  {
    hide Xor64;
    hide Pow2;
    Pow2Values();
    Xor16();
    Xor17();
    Xor18();
    assert MixRound(0x6BF0_E57E_0458_ED97, 30, MIX_1) == 0x419B_F5AB_7CF1_5337;
    assert MixRound(0x419B_F5AB_7CF1_5337, 27, MIX_2) == 0xE6F0_981E_363C_4AC8;
  }

  lemma Xor19()
    ensures Xor64(0xE6F0_981F_FBDD_7AF4, 0xA0F0_7C90_196D_EEB5) == 0x4600_E48F_E2B0_9441
  {
    hide Xor;
    XorZero(0);
    XorFour(0, 0, 0, 0xE, 0x6, 0xF, 0x0, 0xA, 0x0, 0xF, 0x0);
    XorFour(0xE6F0, 0xA0F0, 0x4600, 0x9, 0x8, 0x1, 0xF, 0x7, 0xC, 0x9, 0x0);
    XorFour(0xE6F0981F, 0xA0F07C90, 0x4600E48F, 0xF, 0xB, 0xD, 0xD, 0x1, 0x9, 0x6, 0xD);
    XorFour(0xE6F0981FFBDD, 0xA0F07C90196D, 0x4600E48FE2B0, 0x7, 0xA, 0xF, 0x4, 0xE, 0xE, 0xB, 0x5);
  }

  lemma Xor20()
    ensures Xor64(0xF3EB_3EA5_A746_41F2, 0x4600_E48F_E2B0_9441) == 0xB5EB_DA2A_45F6_D5B3
  {
    hide Xor;
    XorZero(0);
    XorFour(0, 0, 0, 0xF, 0x3, 0xE, 0xB, 0x4, 0x6, 0x0, 0x0);
    XorFour(0xF3EB, 0x4600, 0xB5EB, 0x3, 0xE, 0xA, 0x5, 0xE, 0x4, 0x8, 0xF);
    XorFour(0xF3EB3EA5, 0x4600E48F, 0xB5EBDA2A, 0xA, 0x7, 0x4, 0x6, 0xE, 0x2, 0xB, 0x0);
    XorFour(0xF3EB3EA5A746, 0x4600E48FE2B0, 0xB5EBDA2A45F6, 0x4, 0x1, 0xF, 0x2, 0x9, 0x4, 0x4, 0x1);
  }

  lemma Xor21()
    ensures Xor64(0x249A_3828_DF18_19AE, 0xF920_32DB_DD6A_0000) == 0xDDBA_0AF3_0272_19AE
  {
    hide Xor;
    XorZero(0);
    XorFour(0, 0, 0, 0x2, 0x4, 0x9, 0xA, 0xF, 0x9, 0x2, 0x0);
    XorFour(0x249A, 0xF920, 0xDDBA, 0x3, 0x8, 0x2, 0x8, 0x3, 0x2, 0xD, 0xB);
    XorFour(0x249A3828, 0xF92032DB, 0xDDBA0AF3, 0xD, 0xF, 0x1, 0x8, 0xD, 0xD, 0x6, 0xA);
    XorFour(0x249A3828DF18, 0xF92032DBDD6A, 0xDDBA0AF30272, 0x1, 0x9, 0xA, 0xE, 0x0, 0x0, 0x0, 0x0);
  }

  lemma Xor22()
    ensures Xor64(0xDDBA_0AF3_0272_19AE, 0xB5EB_DA2A_45F6_D5B3) == 0x6851_D0D9_4784_CC1D
  {
    hide Xor;
    XorZero(0);
    XorFour(0, 0, 0, 0xD, 0xD, 0xB, 0xA, 0xB, 0x5, 0xE, 0xB);
    XorFour(0xDDBA, 0xB5EB, 0x6851, 0x0, 0xA, 0xF, 0x3, 0xD, 0xA, 0x2, 0xA);
    XorFour(0xDDBA0AF3, 0xB5EBDA2A, 0x6851D0D9, 0x0, 0x2, 0x7, 0x2, 0x4, 0x5, 0xF, 0x6);
    XorFour(0xDDBA0AF30272, 0xB5EBDA2A45F6, 0x6851D0D94784, 0x1, 0x9, 0xA, 0xE, 0xD, 0x5, 0xB, 0x3);
  }

  lemma Xor23()
    ensures Xor64(0x846A_44B8_C675_F71B, 0x6851_D0D9_4784_CC1D) == 0xEC3B_9461_81F1_3B06
  {
    hide Xor;
    XorZero(0);
    XorFour(0, 0, 0, 0x8, 0x4, 0x6, 0xA, 0x6, 0x8, 0x5, 0x1);
    XorFour(0x846A, 0x6851, 0xEC3B, 0x4, 0x4, 0xB, 0x8, 0xD, 0x0, 0xD, 0x9);
    XorFour(0x846A44B8, 0x6851D0D9, 0xEC3B9461, 0xC, 0x6, 0x7, 0x5, 0x4, 0x7, 0x8, 0x4);
    XorFour(0x846A44B8C675, 0x6851D0D94784, 0xEC3B946181F1, 0xF, 0x7, 0x1, 0xB, 0xC, 0xC, 0x1, 0xD);
  }

  lemma Xor24()
    ensures Xor64(0x1288_28C0_1C91_FC56, 0x846A_44B8_C675_F71B) == 0x96E2_6C78_DAE4_0B4D
  {
    hide Xor;
    XorZero(0);
    XorFour(0, 0, 0, 0x1, 0x2, 0x8, 0x8, 0x8, 0x4, 0x6, 0xA);
    XorFour(0x1288, 0x846A, 0x96E2, 0x2, 0x8, 0xC, 0x0, 0x4, 0x4, 0xB, 0x8);
    XorFour(0x128828C0, 0x846A44B8, 0x96E26C78, 0x1, 0xC, 0x9, 0x1, 0xC, 0x6, 0x7, 0x5);
    XorFour(0x128828C01C91, 0x846A44B8C675, 0x96E26C78DAE4, 0xF, 0xC, 0x5, 0x6, 0xF, 0x7, 0x1, 0xB);
  }

  lemma Xor25()
    ensures Xor64(0xB5EB_DA2A_45F6_D5B3, 0x96E2_6C78_DAE4_0B4D) == 0x2309_B652_9F12_DEFE
  {
    hide Xor;
    XorZero(0);
    XorFour(0, 0, 0, 0xB, 0x5, 0xE, 0xB, 0x9, 0x6, 0xE, 0x2);
    XorFour(0xB5EB, 0x96E2, 0x2309, 0xD, 0xA, 0x2, 0xA, 0x6, 0xC, 0x7, 0x8);
    XorFour(0xB5EBDA2A, 0x96E26C78, 0x2309B652, 0x4, 0x5, 0xF, 0x6, 0xD, 0xA, 0xE, 0x4);
    XorFour(0xB5EBDA2A45F6, 0x96E26C78DAE4, 0x2309B6529F12, 0xD, 0x5, 0xB, 0x3, 0x0, 0xB, 0x4, 0xD);
  }

  lemma Xor26()
    ensures Xor64(0x6851_D0D9_4784_CC1D, 0x8971_8CEB_EE36_0000) == 0xE120_5C32_A9B2_CC1D
  {
    hide Xor;
    XorZero(0);
    XorFour(0, 0, 0, 0x6, 0x8, 0x5, 0x1, 0x8, 0x9, 0x7, 0x1);
    XorFour(0x6851, 0x8971, 0xE120, 0xD, 0x0, 0xD, 0x9, 0x8, 0xC, 0xE, 0xB);
    XorFour(0x6851D0D9, 0x89718CEB, 0xE1205C32, 0x4, 0x7, 0x8, 0x4, 0xE, 0xE, 0x3, 0x6);
    XorFour(0x6851D0D94784, 0x89718CEBEE36, 0xE1205C32A9B2, 0xC, 0xC, 0x1, 0xD, 0x0, 0x0, 0x0, 0x0);
  }

  lemma Xor27()
    ensures Xor64(0xE120_5C32_A9B2_CC1D, 0x2309_B652_9F12_DEFE) == 0xC229_EA60_36A0_12E3
  {
    hide Xor;
    XorZero(0);
    XorFour(0, 0, 0, 0xE, 0x1, 0x2, 0x0, 0x2, 0x3, 0x0, 0x9);
    XorFour(0xE120, 0x2309, 0xC229, 0x5, 0xC, 0x3, 0x2, 0xB, 0x6, 0x5, 0x2);
    XorFour(0xE1205C32, 0x2309B652, 0xC229EA60, 0xA, 0x9, 0xB, 0x2, 0x9, 0xF, 0x1, 0x2);
    XorFour(0xE1205C32A9B2, 0x2309B6529F12, 0xC229EA6036A0, 0xC, 0xC, 0x1, 0xD, 0xD, 0xE, 0xF, 0xE);
  }

  lemma Xor28()
    ensures Xor64(0xEC3B_9461_81F1_3B06, 0xC229_EA60_36A0_12E3) == 0x2E12_7E01_B751_29E5
  {
    hide Xor;
    XorZero(0);
    XorFour(0, 0, 0, 0xE, 0xC, 0x3, 0xB, 0xC, 0x2, 0x2, 0x9);
    XorFour(0xEC3B, 0xC229, 0x2E12, 0x9, 0x4, 0x6, 0x1, 0xE, 0xA, 0x6, 0x0);
    XorFour(0xEC3B9461, 0xC229EA60, 0x2E127E01, 0x8, 0x1, 0xF, 0x1, 0x3, 0x6, 0xA, 0x0);
    XorFour(0xEC3B946181F1, 0xC229EA6036A0, 0x2E127E01B751, 0x3, 0xB, 0x0, 0x6, 0x1, 0x2, 0xE, 0x3);
  }

  lemma SeedOfAnt()
    ensures AntSeed(SEED, 0) == 0xF312_FE98_072E_FD43
  {
    hide Xor64;
    hide Mix;
    Xor1();
    MixOfSeed();
    assert AntMask(0) == ANT_OFFSET;
  }

  /** The generator of ant 0 as it is seeded. */
  const SEEDED := State(0xF3EB_3EA5_A746_41F2, 0xA0F0_7C90_196D_EEB5, 0xD771_068D_785E_585C, 0xE6F0_981F_FBDD_7AF4)

  /** The same after the draw of the ant's heading, and after the first word of the first tick. */
  const LAUNCHED := State(0xB5EB_DA2A_45F6_D5B3, 0x846A_44B8_C675_F71B, 0xDDBA_0AF3_0272_19AE, 0x1288_28C0_1C91_FC56)

  const SECOND := State(0x2309_B652_9F12_DEFE, 0xEC3B_9461_81F1_3B06, 0xE120_5C32_A9B2_CC1D, 0x8169_B2DC_4D8F_1B5C)

  lemma SeededState()
    ensures SeedRng(0xF312_FE98_072E_FD43) == SEEDED
  {
    hide Mix;
    MixOfState0();
    MixOfState1();
    MixOfState2();
    MixOfState3();
    SeedGuardNeverFires(0xF312_FE98_072E_FD43);
  }

  lemma LaunchedState()
    ensures NextState(SEEDED) == LAUNCHED
  {
    hide Xor64;
    hide Pow2;
    Pow2Values();
    Xor14();
    Xor15();
    Xor19();
    Xor20();
    Xor21();
    assert ShiftLeft(0xA0F0_7C90_196D_EEB5, 17) == 0xF920_32DB_DD6A_0000;
    assert RotateLeft(0x4600_E48F_E2B0_9441, 45) == 0x1288_28C0_1C91_FC56;
    hide ShiftLeft;
    hide RotateLeft;
  }

  lemma SecondState()
    ensures NextState(LAUNCHED) == SECOND
  {
    hide Xor64;
    hide Pow2;
    Pow2Values();
    Xor22();
    Xor23();
    Xor24();
    Xor25();
    Xor26();
    assert ShiftLeft(0x846A_44B8_C675_F71B, 17) == 0x8971_8CEB_EE36_0000;
    assert RotateLeft(0x96E2_6C78_DAE4_0B4D, 45) == 0x8169_B2DC_4D8F_1B5C;
    hide ShiftLeft;
    hide RotateLeft;
  }

  lemma ThirdWord()
    ensures NextState(SECOND).s1 == 0x2E12_7E01_B751_29E5
  {
    hide Xor64;
    hide ShiftLeft;
    hide RotateLeft;
    Xor27();
    Xor28();
  }

  lemma StreamIs()
    ensures AntStream(SEED, 0) == LAUNCHED
  {
    hide *;
    SeedOfAnt();
    SeededState();
    LaunchedState();
    HeadingTakesOne(SEED, 0);
  }

  lemma HeadingTakesOne(seed: Word, i: nat)
    ensures AntStream(seed, i) == NextState(SeedRng(AntSeed(seed, i)))
  {
    PowerOfTwoNeverRejects(SeedRng(AntSeed(seed, i)));
    hide Draw;
    hide NextState;
    hide SeedRng;
    hide AntSeed;
  }

  lemma FirstOutput(s: State)
    requires s.s1 == 0x846A_44B8_C675_F71B
    ensures Output(s) / TWO_32 == 0x570A_3D71
  {
    hide Pow2;
    Pow2Values();
    assert Mul64(0x846A_44B8_C675_F71B, 5) == 0x9613_579B_E04D_D387;
    assert RotateLeft(0x9613_579B_E04D_D387, 7) == 0x09AB_CDF0_26E9_C3CB;
    hide RotateLeft;
  }

  lemma SecondOutput(s: State)
    requires s.s1 == 0xEC3B_9461_81F1_3B06
    ensures Output(s) / TWO_32 == 0x3C8A_91EB
  {
    hide Pow2;
    Pow2Values();
    assert Mul64(0xEC3B_9461_81F1_3B06, 5) == 0x9D29_E5E7_89B6_271E;
    assert RotateLeft(0x9D29_E5E7_89B6_271E, 7) == 0x94F2_F3C4_DB13_8F4E;
    hide RotateLeft;
  }

  lemma ThirdOutput(s: State)
    requires s.s1 == 0x2E12_7E01_B751_29E5
    ensures Output(s) / TWO_32 == 0xA013_269C
  {
    hide Pow2;
    Pow2Values();
    assert Mul64(0x2E12_7E01_B751_29E5, 5) == 0xE65C_7608_9495_D179;
    assert RotateLeft(0xE65C_7608_9495_D179, 7) == 0x2E3B_044A_4AE8_BCF3;
    hide RotateLeft;
  }

  /** The three words that ant 0's generator yields next. */
  lemma FirstWords()
    ensures WordAt(AntStream(SEED, 0), 0) == 0x570A_3D71 && WordAt(AntStream(SEED, 0), 1) == 0x3C8A_91EB
    ensures WordAt(AntStream(SEED, 0), 2) == 0xA013_269C
  {
    hide AntStream;
    hide NextState;
    hide Output;
    hide WordAt;
    StreamIs();
    SecondState();
    ThirdWord();
    FirstOutput(LAUNCHED);
    SecondOutput(SECOND);
    ThirdOutput(NextState(SECOND));
    NextWords(LAUNCHED);
  }

  lemma NextWords(s: State)
    ensures WordAt(s, 0) == Output(s) / TWO_32 && WordAt(s, 1) == Output(NextState(s)) / TWO_32
    ensures WordAt(s, 2) == Output(NextState(NextState(s))) / TWO_32
  {
    hide Output;
    hide NextState;
    assert StateAfter(s, 0) == s;
    assert StateAfter(s, 1) == NextState(s);
    assert StateAfter(s, 2) == NextState(NextState(s));
  }

  /** The first word drawn below 100 is rejected: its low half is 36, under the threshold 96. */
  lemma FirstDrawRejected()
    ensures !KeptAt(AntStream(SEED, 0), 100, 0)
  {
    FirstWords();
    hide AntStream;
    hide WordAt;
    KeptBelowHundred(0x570A_3D71);
    hide Accepted;
  }

  lemma KeptBelowHundred(x: U32)
    ensures Accepted(x, 100) <==> (x * 100) % TWO_32 >= 96
  {
    ThresholdIsRemainder(100);
    hide Threshold;
  }

  /** The second is kept. */
  lemma SecondWordKept()
    ensures KeptAt(AntStream(SEED, 0), 100, 1)
  {
    FirstWords();
    hide AntStream;
    hide WordAt;
    KeptBelowHundred(0x3C8A_91EB);
    hide Accepted;
  }

  /** The third is kept as the other draw of the tick. */
  lemma ThirdWordKept()
    ensures KeptAt(StateAfter(AntStream(SEED, 0), 2), 3, 0)
  {
    hide *;
    FirstWords();
    WordAtAdds(AntStream(SEED, 0), 2, 0);
    KeptByThree(StateAfter(AntStream(SEED, 0), 2));
  }

  /** If the second word is the first one kept, and the third is kept, a tick consumes three words. */
  lemma ThreeWords(s: State, den: U32)
    requires den > 0 && !KeptAt(s, den, 0) && KeptAt(s, den, 1) && KeptAt(StateAfter(s, 2), 3, 0)
    ensures DrawsEnd(s, den) && TickWords(s, den) == 3
  {
    hide KeptAt;
    hide StateAfter;
    hide WordAt;
    assert Ends(s, den);
    assert Rejections(s, den) == 1;
    assert Draw(s, den).rest == StateAfter(s, 2);
    assert Ends(StateAfter(s, 2), 3);
    assert Rejections(StateAfter(s, 2), 3) == 0;
  }

  /** So on a config that passes Validate the first tick of a run consumes three words for ant 0. */
  lemma UnluckyTick()
    ensures ValidConfig(UNLUCKY)
    ensures var s, den := AntStream(UNLUCKY.seed, 0), UNLUCKY.movement.randomDen;
      DrawsEnd(s, den) && TickWords(s, den) == 3
  {
    hide *;
    UnluckyValid();
    FirstDrawRejected();
    SecondWordKept();
    ThirdWordKept();
    ThreeWords(AntStream(SEED, 0), 100);
  }

  lemma UnluckyValid()
    ensures ValidConfig(UNLUCKY) && UNLUCKY.seed == SEED && UNLUCKY.movement.randomDen == 100
  {
  }
}
