/**
 The 48 rounds of the first prefix block of Shabal-256, word by word.
 */
module ShabalFirst {
  import opened Shabal
  import opened ShabalTape

  /** Blank state and words 256 to 271 on entering the rounds, counter -1. */
  predicate IsFirst(s: Core, m: Block) {
    && s.a[0] == 0xFFFFFFFF && s.a[1] == 0xFFFFFFFF && s.a[2] == 0x00000000 && s.a[3] == 0x00000000
    && s.a[4] == 0x00000000 && s.a[5] == 0x00000000 && s.a[6] == 0x00000000 && s.a[7] == 0x00000000
    && s.a[8] == 0x00000000 && s.a[9] == 0x00000000 && s.a[10] == 0x00000000 && s.a[11] == 0x00000000
    && s.b[0] == 0x02000000 && s.b[1] == 0x02020000 && s.b[2] == 0x02040000 && s.b[3] == 0x02060000
    && s.b[4] == 0x02080000 && s.b[5] == 0x020A0000 && s.b[6] == 0x020C0000 && s.b[7] == 0x020E0000
    && s.b[8] == 0x02100000 && s.b[9] == 0x02120000 && s.b[10] == 0x02140000 && s.b[11] == 0x02160000
    && s.b[12] == 0x02180000 && s.b[13] == 0x021A0000 && s.b[14] == 0x021C0000 && s.b[15] == 0x021E0000
    && s.c[0] == 0x00000000 && s.c[1] == 0x00000000 && s.c[2] == 0x00000000 && s.c[3] == 0x00000000
    && s.c[4] == 0x00000000 && s.c[5] == 0x00000000 && s.c[6] == 0x00000000 && s.c[7] == 0x00000000
    && s.c[8] == 0x00000000 && s.c[9] == 0x00000000 && s.c[10] == 0x00000000 && s.c[11] == 0x00000000
    && s.c[12] == 0x00000000 && s.c[13] == 0x00000000 && s.c[14] == 0x00000000 && s.c[15] == 0x00000000
    && m[0] == 0x00000100 && m[1] == 0x00000101 && m[2] == 0x00000102 && m[3] == 0x00000103 && m[4] == 0x00000104
    && m[5] == 0x00000105 && m[6] == 0x00000106 && m[7] == 0x00000107 && m[8] == 0x00000108 && m[9] == 0x00000109
    && m[10] == 0x0000010A && m[11] == 0x0000010B && m[12] == 0x0000010C && m[13] == 0x0000010D && m[14] == 0x0000010E
    && m[15] == 0x0000010F
  }

  lemma FirstWords0()
    ensures Written(0xFFFFFFFF, 0x00000000, 0x021A0000, 0x02120000, 0x020C0000, 0x00000000, 0x00000100, 0x02000000,
                    0xFDF7FEFD, 0x06080102)
    ensures Written(0xFFFFFFFF, 0xFDF7FEFD, 0x021C0000, 0x02140000, 0x020E0000, 0x00000000, 0x00000101, 0x02020000,
                    0x05830E49, 0xFE78F1B6)
    ensures Written(0x00000000, 0x05830E49, 0x021E0000, 0x02160000, 0x02100000, 0x00000000, 0x00000102, 0x02040000,
                    0xE93BA84D, 0x12CC57B2)
    ensures Written(0x00000000, 0xE93BA84D, 0x06080102, 0x02180000, 0x02120000, 0x00000000, 0x00000103, 0x02060000,
                    0x68485532, 0x93BBAACD)
  {
  }

  lemma FirstStart0(s: Core, m: Block)
    requires IsFirst(s, m)
    ensures s.c[8] == 0x00000000 && m[0] == 0x00000100 && s.c[7] == 0x00000000 && m[1] == 0x00000101
            && s.c[6] == 0x00000000 && m[2] == 0x00000102 && s.c[5] == 0x00000000 && m[3] == 0x00000103
    ensures TapeA(s, m, 0) == 0xFFFFFFFF && TapeA(s, m, 1) == 0xFFFFFFFF && TapeA(s, m, 2) == 0x00000000
            && TapeA(s, m, 3) == 0x00000000 && TapeA(s, m, 11) == 0x00000000 && TapeB(s, m, 0) == 0x02000000
            && TapeB(s, m, 1) == 0x02020000 && TapeB(s, m, 2) == 0x02040000 && TapeB(s, m, 3) == 0x02060000
            && TapeB(s, m, 6) == 0x020C0000 && TapeB(s, m, 7) == 0x020E0000 && TapeB(s, m, 8) == 0x02100000
            && TapeB(s, m, 9) == 0x02120000 && TapeB(s, m, 10) == 0x02140000 && TapeB(s, m, 11) == 0x02160000
            && TapeB(s, m, 12) == 0x02180000 && TapeB(s, m, 13) == 0x021A0000 && TapeB(s, m, 14) == 0x021C0000
            && TapeB(s, m, 15) == 0x021E0000
  {
    hide Rounds;
  }

  lemma First0(s: Core, m: Block)
    requires IsFirst(s, m)
    ensures TapeA(s, m, 12) == 0xFDF7FEFD && TapeB(s, m, 16) == 0x06080102
    ensures TapeA(s, m, 13) == 0x05830E49 && TapeB(s, m, 17) == 0xFE78F1B6
    ensures TapeA(s, m, 14) == 0xE93BA84D && TapeB(s, m, 18) == 0x12CC57B2
    ensures TapeA(s, m, 15) == 0x68485532 && TapeB(s, m, 19) == 0x93BBAACD
  {
    hide Written, Rounds, TapeA, TapeB, IsFirst;
    FirstStart0(s, m);
    FirstWords0();
    Write(s, m, 0, 8, 0, 0xFFFFFFFF, 0x00000000, 0x021A0000, 0x02120000, 0x020C0000, 0x02000000, 0xFDF7FEFD,
          0x06080102);
    Write(s, m, 1, 7, 1, 0xFFFFFFFF, 0xFDF7FEFD, 0x021C0000, 0x02140000, 0x020E0000, 0x02020000, 0x05830E49,
          0xFE78F1B6);
    Write(s, m, 2, 6, 2, 0x00000000, 0x05830E49, 0x021E0000, 0x02160000, 0x02100000, 0x02040000, 0xE93BA84D,
          0x12CC57B2);
    Write(s, m, 3, 5, 3, 0x00000000, 0xE93BA84D, 0x06080102, 0x02180000, 0x02120000, 0x02060000, 0x68485532,
          0x93BBAACD);
  }

  lemma FirstWords1()
    ensures Written(0x00000000, 0x68485532, 0xFE78F1B6, 0x021A0000, 0x02140000, 0x00000000, 0x00000104, 0x02080000,
                    0x8088FEAE, 0x7B670151)
    ensures Written(0x00000000, 0x8088FEAE, 0x12CC57B2, 0x021C0000, 0x02160000, 0x00000000, 0x00000105, 0x020A0000,
                    0x64D8954B, 0x9F336AB4)
    ensures Written(0x00000000, 0x64D8954B, 0x93BBAACD, 0x021E0000, 0x02180000, 0x00000000, 0x00000106, 0x020C0000,
                    0xCC08DF9F, 0x37EF2060)
    ensures Written(0x00000000, 0xCC08DF9F, 0x7B670151, 0x06080102, 0x021A0000, 0x00000000, 0x00000107, 0x020E0000,
                    0xF2497B68, 0x09AA8497)
  {
  }

  lemma FirstStart1(s: Core, m: Block)
    requires IsFirst(s, m)
    ensures s.c[4] == 0x00000000 && m[4] == 0x00000104 && s.c[3] == 0x00000000 && m[5] == 0x00000105
            && s.c[2] == 0x00000000 && m[6] == 0x00000106 && s.c[1] == 0x00000000 && m[7] == 0x00000107
    ensures TapeA(s, m, 4) == 0x00000000 && TapeA(s, m, 5) == 0x00000000 && TapeA(s, m, 6) == 0x00000000
            && TapeA(s, m, 7) == 0x00000000 && TapeB(s, m, 4) == 0x02080000 && TapeB(s, m, 5) == 0x020A0000
            && TapeB(s, m, 6) == 0x020C0000 && TapeB(s, m, 7) == 0x020E0000 && TapeB(s, m, 10) == 0x02140000
            && TapeB(s, m, 11) == 0x02160000 && TapeB(s, m, 12) == 0x02180000 && TapeB(s, m, 13) == 0x021A0000
            && TapeB(s, m, 14) == 0x021C0000 && TapeB(s, m, 15) == 0x021E0000
  {
    hide Rounds;
  }

  lemma First1(s: Core, m: Block)
    requires IsFirst(s, m)
    ensures TapeA(s, m, 16) == 0x8088FEAE && TapeB(s, m, 20) == 0x7B670151
    ensures TapeA(s, m, 17) == 0x64D8954B && TapeB(s, m, 21) == 0x9F336AB4
    ensures TapeA(s, m, 18) == 0xCC08DF9F && TapeB(s, m, 22) == 0x37EF2060
    ensures TapeA(s, m, 19) == 0xF2497B68 && TapeB(s, m, 23) == 0x09AA8497
  {
    hide Written, Rounds, TapeA, TapeB, IsFirst;
    FirstStart1(s, m);
    FirstWords1();
    First0(s, m);
    Write(s, m, 4, 4, 4, 0x00000000, 0x68485532, 0xFE78F1B6, 0x021A0000, 0x02140000, 0x02080000, 0x8088FEAE,
          0x7B670151);
    Write(s, m, 5, 3, 5, 0x00000000, 0x8088FEAE, 0x12CC57B2, 0x021C0000, 0x02160000, 0x020A0000, 0x64D8954B,
          0x9F336AB4);
    Write(s, m, 6, 2, 6, 0x00000000, 0x64D8954B, 0x93BBAACD, 0x021E0000, 0x02180000, 0x020C0000, 0xCC08DF9F,
          0x37EF2060);
    Write(s, m, 7, 1, 7, 0x00000000, 0xCC08DF9F, 0x7B670151, 0x06080102, 0x021A0000, 0x020E0000, 0xF2497B68,
          0x09AA8497);
  }

  lemma FirstWords2()
    ensures Written(0x00000000, 0xF2497B68, 0x9F336AB4, 0xFE78F1B6, 0x021C0000, 0x00000000, 0x00000108, 0x02100000,
                    0x7EC08316, 0x851F7CE9)
    ensures Written(0x00000000, 0x7EC08316, 0x37EF2060, 0x12CC57B2, 0x021E0000, 0x00000000, 0x00000109, 0x02120000,
                    0xF007C07B, 0x0BDC3F84)
    ensures Written(0x00000000, 0xF007C07B, 0x09AA8497, 0x93BBAACD, 0x06080102, 0x00000000, 0x0000010A, 0x02140000,
                    0xBBB8A77D, 0x406F5882)
    ensures Written(0x00000000, 0xBBB8A77D, 0x851F7CE9, 0x7B670151, 0xFE78F1B6, 0x00000000, 0x0000010B, 0x02160000,
                    0x6C368247, 0x97E57DB8)
  {
  }

  lemma FirstStart2(s: Core, m: Block)
    requires IsFirst(s, m)
    ensures s.c[0] == 0x00000000 && m[8] == 0x00000108 && s.c[15] == 0x00000000 && m[9] == 0x00000109
            && s.c[14] == 0x00000000 && m[10] == 0x0000010A && s.c[13] == 0x00000000 && m[11] == 0x0000010B
    ensures TapeA(s, m, 8) == 0x00000000 && TapeA(s, m, 9) == 0x00000000 && TapeA(s, m, 10) == 0x00000000
            && TapeA(s, m, 11) == 0x00000000 && TapeB(s, m, 8) == 0x02100000 && TapeB(s, m, 9) == 0x02120000
            && TapeB(s, m, 10) == 0x02140000 && TapeB(s, m, 11) == 0x02160000 && TapeB(s, m, 14) == 0x021C0000
            && TapeB(s, m, 15) == 0x021E0000
  {
    hide Rounds;
  }

  lemma First2(s: Core, m: Block)
    requires IsFirst(s, m)
    ensures TapeA(s, m, 20) == 0x7EC08316 && TapeB(s, m, 24) == 0x851F7CE9
    ensures TapeA(s, m, 21) == 0xF007C07B && TapeB(s, m, 25) == 0x0BDC3F84
    ensures TapeA(s, m, 22) == 0xBBB8A77D && TapeB(s, m, 26) == 0x406F5882
    ensures TapeA(s, m, 23) == 0x6C368247 && TapeB(s, m, 27) == 0x97E57DB8
  {
    hide Written, Rounds, TapeA, TapeB, IsFirst;
    FirstStart2(s, m);
    FirstWords2();
    First0(s, m);
    First1(s, m);
    Write(s, m, 8, 0, 8, 0x00000000, 0xF2497B68, 0x9F336AB4, 0xFE78F1B6, 0x021C0000, 0x02100000, 0x7EC08316,
          0x851F7CE9);
    Write(s, m, 9, 15, 9, 0x00000000, 0x7EC08316, 0x37EF2060, 0x12CC57B2, 0x021E0000, 0x02120000, 0xF007C07B,
          0x0BDC3F84);
    Write(s, m, 10, 14, 10, 0x00000000, 0xF007C07B, 0x09AA8497, 0x93BBAACD, 0x06080102, 0x02140000, 0xBBB8A77D,
          0x406F5882);
    Write(s, m, 11, 13, 11, 0x00000000, 0xBBB8A77D, 0x851F7CE9, 0x7B670151, 0xFE78F1B6, 0x02160000, 0x6C368247,
          0x97E57DB8);
  }

  lemma FirstWords3()
    ensures Written(0xFDF7FEFD, 0x6C368247, 0x0BDC3F84, 0x9F336AB4, 0x12CC57B2, 0x00000000, 0x0000010C, 0x02180000,
                    0xAE3F47E2, 0x55F0B81D)
    ensures Written(0x05830E49, 0xAE3F47E2, 0x406F5882, 0x37EF2060, 0x93BBAACD, 0x00000000, 0x0000010D, 0x021A0000,
                    0xC68A60D9, 0x3D419F26)
    ensures Written(0xE93BA84D, 0xC68A60D9, 0x97E57DB8, 0x09AA8497, 0x7B670151, 0x00000000, 0x0000010E, 0x021C0000,
                    0xC63E700C, 0x3DF98FF3)
    ensures Written(0x68485532, 0xC63E700C, 0x55F0B81D, 0x851F7CE9, 0x9F336AB4, 0x00000000, 0x0000010F, 0x021E0000,
                    0x04FB82A0, 0xFF387D5F)
  {
  }

  lemma FirstStart3(s: Core, m: Block)
    requires IsFirst(s, m)
    ensures s.c[12] == 0x00000000 && m[12] == 0x0000010C && s.c[11] == 0x00000000 && m[13] == 0x0000010D
            && s.c[10] == 0x00000000 && m[14] == 0x0000010E && s.c[9] == 0x00000000 && m[15] == 0x0000010F
    ensures TapeB(s, m, 12) == 0x02180000 && TapeB(s, m, 13) == 0x021A0000 && TapeB(s, m, 14) == 0x021C0000
            && TapeB(s, m, 15) == 0x021E0000
  {
    hide Rounds;
  }

  lemma First3(s: Core, m: Block)
    requires IsFirst(s, m)
    ensures TapeA(s, m, 24) == 0xAE3F47E2 && TapeB(s, m, 28) == 0x55F0B81D
    ensures TapeA(s, m, 25) == 0xC68A60D9 && TapeB(s, m, 29) == 0x3D419F26
    ensures TapeA(s, m, 26) == 0xC63E700C && TapeB(s, m, 30) == 0x3DF98FF3
    ensures TapeA(s, m, 27) == 0x04FB82A0 && TapeB(s, m, 31) == 0xFF387D5F
  {
    hide Written, Rounds, TapeA, TapeB, IsFirst;
    FirstStart3(s, m);
    FirstWords3();
    First0(s, m);
    First1(s, m);
    First2(s, m);
    Write(s, m, 12, 12, 12, 0xFDF7FEFD, 0x6C368247, 0x0BDC3F84, 0x9F336AB4, 0x12CC57B2, 0x02180000, 0xAE3F47E2,
          0x55F0B81D);
    Write(s, m, 13, 11, 13, 0x05830E49, 0xAE3F47E2, 0x406F5882, 0x37EF2060, 0x93BBAACD, 0x021A0000, 0xC68A60D9,
          0x3D419F26);
    Write(s, m, 14, 10, 14, 0xE93BA84D, 0xC68A60D9, 0x97E57DB8, 0x09AA8497, 0x7B670151, 0x021C0000, 0xC63E700C,
          0x3DF98FF3);
    Write(s, m, 15, 9, 15, 0x68485532, 0xC63E700C, 0x55F0B81D, 0x851F7CE9, 0x9F336AB4, 0x021E0000, 0x04FB82A0,
          0xFF387D5F);
  }

  lemma FirstWords4()
    ensures Written(0x8088FEAE, 0x04FB82A0, 0x3D419F26, 0x0BDC3F84, 0x37EF2060, 0x00000000, 0x00000100, 0x06080102,
                    0xE71B593F, 0x14F4A4C4)
    ensures Written(0x64D8954B, 0xE71B593F, 0x3DF98FF3, 0x406F5882, 0x09AA8497, 0x00000000, 0x00000101, 0xFE78F1B6,
                    0xCEE92B6C, 0xCDE737FE)
    ensures Written(0xCC08DF9F, 0xCEE92B6C, 0xFF387D5F, 0x97E57DB8, 0x851F7CE9, 0x00000000, 0x00000102, 0x12CC57B2,
                    0x8C12EDDC, 0x5675BD47)
    ensures Written(0xF2497B68, 0x8C12EDDC, 0x14F4A4C4, 0x55F0B81D, 0x0BDC3F84, 0x00000000, 0x00000103, 0x93BBAACD,
                    0xA21E4A11, 0x7A96E075)
  {
  }

  lemma FirstStart4(s: Core, m: Block)
    requires IsFirst(s, m)
    ensures s.c[8] == 0x00000000 && m[0] == 0x00000100 && s.c[7] == 0x00000000 && m[1] == 0x00000101
            && s.c[6] == 0x00000000 && m[2] == 0x00000102 && s.c[5] == 0x00000000 && m[3] == 0x00000103
  {
    hide Rounds;
  }

  lemma First4(s: Core, m: Block)
    requires IsFirst(s, m)
    ensures TapeA(s, m, 28) == 0xE71B593F && TapeB(s, m, 32) == 0x14F4A4C4
    ensures TapeA(s, m, 29) == 0xCEE92B6C && TapeB(s, m, 33) == 0xCDE737FE
    ensures TapeA(s, m, 30) == 0x8C12EDDC && TapeB(s, m, 34) == 0x5675BD47
    ensures TapeA(s, m, 31) == 0xA21E4A11 && TapeB(s, m, 35) == 0x7A96E075
  {
    hide Written, Rounds, TapeA, TapeB, IsFirst;
    FirstStart4(s, m);
    FirstWords4();
    First0(s, m);
    First1(s, m);
    First2(s, m);
    First3(s, m);
    Write(s, m, 16, 8, 0, 0x8088FEAE, 0x04FB82A0, 0x3D419F26, 0x0BDC3F84, 0x37EF2060, 0x06080102, 0xE71B593F,
          0x14F4A4C4);
    Write(s, m, 17, 7, 1, 0x64D8954B, 0xE71B593F, 0x3DF98FF3, 0x406F5882, 0x09AA8497, 0xFE78F1B6, 0xCEE92B6C,
          0xCDE737FE);
    Write(s, m, 18, 6, 2, 0xCC08DF9F, 0xCEE92B6C, 0xFF387D5F, 0x97E57DB8, 0x851F7CE9, 0x12CC57B2, 0x8C12EDDC,
          0x5675BD47);
    Write(s, m, 19, 5, 3, 0xF2497B68, 0x8C12EDDC, 0x14F4A4C4, 0x55F0B81D, 0x0BDC3F84, 0x93BBAACD, 0xA21E4A11,
          0x7A96E075);
  }

  lemma FirstWords5()
    ensures Written(0x7EC08316, 0xA21E4A11, 0xCDE737FE, 0x3D419F26, 0x406F5882, 0x00000000, 0x00000104, 0x7B670151,
                    0xA72272C9, 0xAE138F94)
    ensures Written(0xF007C07B, 0xA72272C9, 0x5675BD47, 0x3DF98FF3, 0x97E57DB8, 0x00000000, 0x00000105, 0x9F336AB4,
                    0xB2929B0B, 0x730BB19D)
    ensures Written(0xBBB8A77D, 0xB2929B0B, 0x7A96E075, 0xFF387D5F, 0x55F0B81D, 0x00000000, 0x00000106, 0x37EF2060,
                    0x78EE6F01, 0xE8CFD03E)
    ensures Written(0x6C368247, 0x78EE6F01, 0xAE138F94, 0x14F4A4C4, 0x3D419F26, 0x00000000, 0x00000107, 0x09AA8497,
                    0xC3B82A6F, 0x2F12DCBE)
  {
  }

  lemma FirstStart5(s: Core, m: Block)
    requires IsFirst(s, m)
    ensures s.c[4] == 0x00000000 && m[4] == 0x00000104 && s.c[3] == 0x00000000 && m[5] == 0x00000105
            && s.c[2] == 0x00000000 && m[6] == 0x00000106 && s.c[1] == 0x00000000 && m[7] == 0x00000107
  {
    hide Rounds;
  }

  lemma First5(s: Core, m: Block)
    requires IsFirst(s, m)
    ensures TapeA(s, m, 32) == 0xA72272C9 && TapeB(s, m, 36) == 0xAE138F94
    ensures TapeA(s, m, 33) == 0xB2929B0B && TapeB(s, m, 37) == 0x730BB19D
    ensures TapeA(s, m, 34) == 0x78EE6F01 && TapeB(s, m, 38) == 0xE8CFD03E
    ensures TapeA(s, m, 35) == 0xC3B82A6F && TapeB(s, m, 39) == 0x2F12DCBE
  {
    hide Written, Rounds, TapeA, TapeB, IsFirst;
    FirstStart5(s, m);
    FirstWords5();
    First1(s, m);
    First2(s, m);
    First3(s, m);
    First4(s, m);
    Write(s, m, 20, 4, 4, 0x7EC08316, 0xA21E4A11, 0xCDE737FE, 0x3D419F26, 0x406F5882, 0x7B670151, 0xA72272C9,
          0xAE138F94);
    Write(s, m, 21, 3, 5, 0xF007C07B, 0xA72272C9, 0x5675BD47, 0x3DF98FF3, 0x97E57DB8, 0x9F336AB4, 0xB2929B0B,
          0x730BB19D);
    Write(s, m, 22, 2, 6, 0xBBB8A77D, 0xB2929B0B, 0x7A96E075, 0xFF387D5F, 0x55F0B81D, 0x37EF2060, 0x78EE6F01,
          0xE8CFD03E);
    Write(s, m, 23, 1, 7, 0x6C368247, 0x78EE6F01, 0xAE138F94, 0x14F4A4C4, 0x3D419F26, 0x09AA8497, 0xC3B82A6F,
          0x2F12DCBE);
  }

  lemma FirstWords6()
    ensures Written(0xAE3F47E2, 0xC3B82A6F, 0x730BB19D, 0xCDE737FE, 0x3DF98FF3, 0x00000000, 0x00000108, 0x851F7CE9,
                    0xFF750C93, 0x0AB40ABF)
    ensures Written(0xC68A60D9, 0xFF750C93, 0xE8CFD03E, 0x5675BD47, 0xFF387D5F, 0x00000000, 0x00000109, 0x0BDC3F84,
                    0xE5788A46, 0x0D3F0AB1)
    ensures Written(0xC63E700C, 0xE5788A46, 0x2F12DCBE, 0x7A96E075, 0x14F4A4C4, 0x00000000, 0x0000010A, 0x406F5882,
                    0x9BBD7565, 0xE49C3B9E)
    ensures Written(0x04FB82A0, 0x9BBD7565, 0x0AB40ABF, 0xAE138F94, 0xCDE737FE, 0x00000000, 0x0000010B, 0x97E57DB8,
                    0xCC341456, 0x1C0110D8)
  {
  }

  lemma FirstStart6(s: Core, m: Block)
    requires IsFirst(s, m)
    ensures s.c[0] == 0x00000000 && m[8] == 0x00000108 && s.c[15] == 0x00000000 && m[9] == 0x00000109
            && s.c[14] == 0x00000000 && m[10] == 0x0000010A && s.c[13] == 0x00000000 && m[11] == 0x0000010B
  {
    hide Rounds;
  }

  lemma First6(s: Core, m: Block)
    requires IsFirst(s, m)
    ensures TapeA(s, m, 36) == 0xFF750C93 && TapeB(s, m, 40) == 0x0AB40ABF
    ensures TapeA(s, m, 37) == 0xE5788A46 && TapeB(s, m, 41) == 0x0D3F0AB1
    ensures TapeA(s, m, 38) == 0x9BBD7565 && TapeB(s, m, 42) == 0xE49C3B9E
    ensures TapeA(s, m, 39) == 0xCC341456 && TapeB(s, m, 43) == 0x1C0110D8
  {
    hide Written, Rounds, TapeA, TapeB, IsFirst;
    FirstStart6(s, m);
    FirstWords6();
    First2(s, m);
    First3(s, m);
    First4(s, m);
    First5(s, m);
    Write(s, m, 24, 0, 8, 0xAE3F47E2, 0xC3B82A6F, 0x730BB19D, 0xCDE737FE, 0x3DF98FF3, 0x851F7CE9, 0xFF750C93,
          0x0AB40ABF);
    Write(s, m, 25, 15, 9, 0xC68A60D9, 0xFF750C93, 0xE8CFD03E, 0x5675BD47, 0xFF387D5F, 0x0BDC3F84, 0xE5788A46,
          0x0D3F0AB1);
    Write(s, m, 26, 14, 10, 0xC63E700C, 0xE5788A46, 0x2F12DCBE, 0x7A96E075, 0x14F4A4C4, 0x406F5882, 0x9BBD7565,
          0xE49C3B9E);
    Write(s, m, 27, 13, 11, 0x04FB82A0, 0x9BBD7565, 0x0AB40ABF, 0xAE138F94, 0xCDE737FE, 0x97E57DB8, 0xCC341456,
          0x1C0110D8);
  }

  lemma FirstWords7()
    ensures Written(0xE71B593F, 0xCC341456, 0x0D3F0AB1, 0x730BB19D, 0x5675BD47, 0x00000000, 0x0000010C, 0x55F0B81D,
                    0xAD7FFC12, 0xF96173D7)
    ensures Written(0xCEE92B6C, 0xAD7FFC12, 0xE49C3B9E, 0xE8CFD03E, 0x7A96E075, 0x00000000, 0x0000010D, 0x3D419F26,
                    0xCE83FA1C, 0x4BFF3BAF)
    ensures Written(0x8C12EDDC, 0xCE83FA1C, 0x1C0110D8, 0x2F12DCBE, 0xAE138F94, 0x00000000, 0x0000010E, 0x3DF98FF3,
                    0x6511FD37, 0xE11D1D2E)
    ensures Written(0xA21E4A11, 0x6511FD37, 0xF96173D7, 0x0AB40ABF, 0x730BB19D, 0x00000000, 0x0000010F, 0xFF387D5F,
                    0xE0E9DCD1, 0xE166D991)
  {
  }

  lemma FirstStart7(s: Core, m: Block)
    requires IsFirst(s, m)
    ensures s.c[12] == 0x00000000 && m[12] == 0x0000010C && s.c[11] == 0x00000000 && m[13] == 0x0000010D
            && s.c[10] == 0x00000000 && m[14] == 0x0000010E && s.c[9] == 0x00000000 && m[15] == 0x0000010F
  {
    hide Rounds;
  }

  lemma First7(s: Core, m: Block)
    requires IsFirst(s, m)
    ensures TapeA(s, m, 40) == 0xAD7FFC12 && TapeB(s, m, 44) == 0xF96173D7
    ensures TapeA(s, m, 41) == 0xCE83FA1C && TapeB(s, m, 45) == 0x4BFF3BAF
    ensures TapeA(s, m, 42) == 0x6511FD37 && TapeB(s, m, 46) == 0xE11D1D2E
    ensures TapeA(s, m, 43) == 0xE0E9DCD1 && TapeB(s, m, 47) == 0xE166D991
  {
    hide Written, Rounds, TapeA, TapeB, IsFirst;
    FirstStart7(s, m);
    FirstWords7();
    First3(s, m);
    First4(s, m);
    First5(s, m);
    First6(s, m);
    Write(s, m, 28, 12, 12, 0xE71B593F, 0xCC341456, 0x0D3F0AB1, 0x730BB19D, 0x5675BD47, 0x55F0B81D, 0xAD7FFC12,
          0xF96173D7);
    Write(s, m, 29, 11, 13, 0xCEE92B6C, 0xAD7FFC12, 0xE49C3B9E, 0xE8CFD03E, 0x7A96E075, 0x3D419F26, 0xCE83FA1C,
          0x4BFF3BAF);
    Write(s, m, 30, 10, 14, 0x8C12EDDC, 0xCE83FA1C, 0x1C0110D8, 0x2F12DCBE, 0xAE138F94, 0x3DF98FF3, 0x6511FD37,
          0xE11D1D2E);
    Write(s, m, 31, 9, 15, 0xA21E4A11, 0x6511FD37, 0xF96173D7, 0x0AB40ABF, 0x730BB19D, 0xFF387D5F, 0xE0E9DCD1,
          0xE166D991);
  }

  lemma FirstWords8()
    ensures Written(0xA72272C9, 0xE0E9DCD1, 0x4BFF3BAF, 0x0D3F0AB1, 0xE8CFD03E, 0x00000000, 0x00000100, 0x14F4A4C4,
                    0x63437189, 0xB555C7FE)
    ensures Written(0xB2929B0B, 0x63437189, 0xE11D1D2E, 0xE49C3B9E, 0x2F12DCBE, 0x00000000, 0x00000101, 0xCDE737FE,
                    0x5A4096A5, 0x3E7106A7)
    ensures Written(0x78EE6F01, 0x5A4096A5, 0xE166D991, 0x1C0110D8, 0x0AB40ABF, 0x00000000, 0x00000102, 0x5675BD47,
                    0xF43EE330, 0xA72A6641)
    ensures Written(0xC3B82A6F, 0xF43EE330, 0xB555C7FE, 0xF96173D7, 0x0D3F0AB1, 0x00000000, 0x00000103, 0x7A96E075,
                    0x99D36D67, 0x93015272)
  {
  }

  lemma FirstStart8(s: Core, m: Block)
    requires IsFirst(s, m)
    ensures s.c[8] == 0x00000000 && m[0] == 0x00000100 && s.c[7] == 0x00000000 && m[1] == 0x00000101
            && s.c[6] == 0x00000000 && m[2] == 0x00000102 && s.c[5] == 0x00000000 && m[3] == 0x00000103
  {
    hide Rounds;
  }

  lemma First8(s: Core, m: Block)
    requires IsFirst(s, m)
    ensures TapeA(s, m, 44) == 0x63437189 && TapeB(s, m, 48) == 0xB555C7FE
    ensures TapeA(s, m, 45) == 0x5A4096A5 && TapeB(s, m, 49) == 0x3E7106A7
    ensures TapeA(s, m, 46) == 0xF43EE330 && TapeB(s, m, 50) == 0xA72A6641
    ensures TapeA(s, m, 47) == 0x99D36D67 && TapeB(s, m, 51) == 0x93015272
  {
    hide Written, Rounds, TapeA, TapeB, IsFirst;
    FirstStart8(s, m);
    FirstWords8();
    First4(s, m);
    First5(s, m);
    First6(s, m);
    First7(s, m);
    Write(s, m, 32, 8, 0, 0xA72272C9, 0xE0E9DCD1, 0x4BFF3BAF, 0x0D3F0AB1, 0xE8CFD03E, 0x14F4A4C4, 0x63437189,
          0xB555C7FE);
    Write(s, m, 33, 7, 1, 0xB2929B0B, 0x63437189, 0xE11D1D2E, 0xE49C3B9E, 0x2F12DCBE, 0xCDE737FE, 0x5A4096A5,
          0x3E7106A7);
    Write(s, m, 34, 6, 2, 0x78EE6F01, 0x5A4096A5, 0xE166D991, 0x1C0110D8, 0x0AB40ABF, 0x5675BD47, 0xF43EE330,
          0xA72A6641);
    Write(s, m, 35, 5, 3, 0xC3B82A6F, 0xF43EE330, 0xB555C7FE, 0xF96173D7, 0x0D3F0AB1, 0x7A96E075, 0x99D36D67,
          0x93015272);
  }

  lemma FirstWords9()
    ensures Written(0xFF750C93, 0x99D36D67, 0x3E7106A7, 0x4BFF3BAF, 0xE49C3B9E, 0x00000000, 0x00000104, 0xAE138F94,
                    0x79F023D8, 0xDA28C30E)
    ensures Written(0xE5788A46, 0x79F023D8, 0xA72A6641, 0xE11D1D2E, 0x1C0110D8, 0x00000000, 0x00000105, 0x730BB19D,
                    0x708745B8, 0x696FD97D)
    ensures Written(0x9BBD7565, 0x708745B8, 0x93015272, 0xE166D991, 0xF96173D7, 0x00000000, 0x00000106, 0xE8CFD03E,
                    0xB2D69F0A, 0x9CB6C088)
    ensures Written(0xCC341456, 0xB2D69F0A, 0xDA28C30E, 0xB555C7FE, 0x4BFF3BAF, 0x00000000, 0x00000107, 0x2F12DCBE,
                    0xAB24079A, 0x0AFE4119)
  {
  }

  lemma FirstStart9(s: Core, m: Block)
    requires IsFirst(s, m)
    ensures s.c[4] == 0x00000000 && m[4] == 0x00000104 && s.c[3] == 0x00000000 && m[5] == 0x00000105
            && s.c[2] == 0x00000000 && m[6] == 0x00000106 && s.c[1] == 0x00000000 && m[7] == 0x00000107
  {
    hide Rounds;
  }

  lemma First9(s: Core, m: Block)
    requires IsFirst(s, m)
    ensures TapeA(s, m, 48) == 0x79F023D8 && TapeB(s, m, 52) == 0xDA28C30E
    ensures TapeA(s, m, 49) == 0x708745B8 && TapeB(s, m, 53) == 0x696FD97D
    ensures TapeA(s, m, 50) == 0xB2D69F0A && TapeB(s, m, 54) == 0x9CB6C088
    ensures TapeA(s, m, 51) == 0xAB24079A && TapeB(s, m, 55) == 0x0AFE4119
  {
    hide Written, Rounds, TapeA, TapeB, IsFirst;
    FirstStart9(s, m);
    FirstWords9();
    First5(s, m);
    First6(s, m);
    First7(s, m);
    First8(s, m);
    Write(s, m, 36, 4, 4, 0xFF750C93, 0x99D36D67, 0x3E7106A7, 0x4BFF3BAF, 0xE49C3B9E, 0xAE138F94, 0x79F023D8,
          0xDA28C30E);
    Write(s, m, 37, 3, 5, 0xE5788A46, 0x79F023D8, 0xA72A6641, 0xE11D1D2E, 0x1C0110D8, 0x730BB19D, 0x708745B8,
          0x696FD97D);
    Write(s, m, 38, 2, 6, 0x9BBD7565, 0x708745B8, 0x93015272, 0xE166D991, 0xF96173D7, 0xE8CFD03E, 0xB2D69F0A,
          0x9CB6C088);
    Write(s, m, 39, 1, 7, 0xCC341456, 0xB2D69F0A, 0xDA28C30E, 0xB555C7FE, 0x4BFF3BAF, 0x2F12DCBE, 0xAB24079A,
          0x0AFE4119);
  }

  lemma FirstWords10()
    ensures Written(0xAD7FFC12, 0xAB24079A, 0x696FD97D, 0x3E7106A7, 0xE11D1D2E, 0x00000000, 0x00000108, 0x0AB40ABF,
                    0x4C77DDAC, 0xA6E0372D)
    ensures Written(0xCE83FA1C, 0x4C77DDAC, 0x9CB6C088, 0xA72A6641, 0xE166D991, 0x00000000, 0x00000109, 0x0D3F0AB1,
                    0xB4B92870, 0x5138C2ED)
    ensures Written(0x6511FD37, 0xB4B92870, 0x0AFE4119, 0x93015272, 0xB555C7FE, 0x00000000, 0x0000010A, 0xE49C3B9E,
                    0x88E6ECE2, 0xBE216420)
    ensures Written(0xE0E9DCD1, 0x88E6ECE2, 0xA6E0372D, 0xDA28C30E, 0x3E7106A7, 0x00000000, 0x0000010B, 0x1C0110D8,
                    0x747657E4, 0xB38B89AB)
  {
  }

  lemma FirstStart10(s: Core, m: Block)
    requires IsFirst(s, m)
    ensures s.c[0] == 0x00000000 && m[8] == 0x00000108 && s.c[15] == 0x00000000 && m[9] == 0x00000109
            && s.c[14] == 0x00000000 && m[10] == 0x0000010A && s.c[13] == 0x00000000 && m[11] == 0x0000010B
  {
    hide Rounds;
  }

  lemma First10(s: Core, m: Block)
    requires IsFirst(s, m)
    ensures TapeA(s, m, 52) == 0x4C77DDAC && TapeB(s, m, 56) == 0xA6E0372D
    ensures TapeA(s, m, 53) == 0xB4B92870 && TapeB(s, m, 57) == 0x5138C2ED
    ensures TapeA(s, m, 54) == 0x88E6ECE2 && TapeB(s, m, 58) == 0xBE216420
    ensures TapeA(s, m, 55) == 0x747657E4 && TapeB(s, m, 59) == 0xB38B89AB
  {
    hide Written, Rounds, TapeA, TapeB, IsFirst;
    FirstStart10(s, m);
    FirstWords10();
    First6(s, m);
    First7(s, m);
    First8(s, m);
    First9(s, m);
    Write(s, m, 40, 0, 8, 0xAD7FFC12, 0xAB24079A, 0x696FD97D, 0x3E7106A7, 0xE11D1D2E, 0x0AB40ABF, 0x4C77DDAC,
          0xA6E0372D);
    Write(s, m, 41, 15, 9, 0xCE83FA1C, 0x4C77DDAC, 0x9CB6C088, 0xA72A6641, 0xE166D991, 0x0D3F0AB1, 0xB4B92870,
          0x5138C2ED);
    Write(s, m, 42, 14, 10, 0x6511FD37, 0xB4B92870, 0x0AFE4119, 0x93015272, 0xB555C7FE, 0xE49C3B9E, 0x88E6ECE2,
          0xBE216420);
    Write(s, m, 43, 13, 11, 0xE0E9DCD1, 0x88E6ECE2, 0xA6E0372D, 0xDA28C30E, 0x3E7106A7, 0x1C0110D8, 0x747657E4,
          0xB38B89AB);
  }

  lemma FirstWords11()
    ensures Written(0x63437189, 0x747657E4, 0x5138C2ED, 0x696FD97D, 0xA72A6641, 0x00000000, 0x0000010C, 0xF96173D7,
                    0x3395A2D7, 0x3EA8BA87)
    ensures Written(0x5A4096A5, 0x3395A2D7, 0xBE216420, 0x9CB6C088, 0x93015272, 0x00000000, 0x0000010D, 0x4BFF3BAF,
                    0x5A9826A0, 0x3299AE01)
    ensures Written(0xF43EE330, 0x5A9826A0, 0xB38B89AB, 0x0AFE4119, 0xDA28C30E, 0x00000000, 0x0000010E, 0xE11D1D2E,
                    0x0D578B50, 0x30924EF2)
    ensures Written(0x99D36D67, 0x0D578B50, 0x3EA8BA87, 0xA6E0372D, 0x696FD97D, 0x00000000, 0x0000010F, 0xE166D991,
                    0x68F97918, 0x55CB35C4)
  {
  }

  lemma FirstStart11(s: Core, m: Block)
    requires IsFirst(s, m)
    ensures s.c[12] == 0x00000000 && m[12] == 0x0000010C && s.c[11] == 0x00000000 && m[13] == 0x0000010D
            && s.c[10] == 0x00000000 && m[14] == 0x0000010E && s.c[9] == 0x00000000 && m[15] == 0x0000010F
  {
    hide Rounds;
  }

  lemma First11(s: Core, m: Block)
    requires IsFirst(s, m)
    ensures TapeA(s, m, 56) == 0x3395A2D7 && TapeB(s, m, 60) == 0x3EA8BA87
    ensures TapeA(s, m, 57) == 0x5A9826A0 && TapeB(s, m, 61) == 0x3299AE01
    ensures TapeA(s, m, 58) == 0x0D578B50 && TapeB(s, m, 62) == 0x30924EF2
    ensures TapeA(s, m, 59) == 0x68F97918 && TapeB(s, m, 63) == 0x55CB35C4
  {
    hide Written, Rounds, TapeA, TapeB, IsFirst;
    FirstStart11(s, m);
    FirstWords11();
    First7(s, m);
    First8(s, m);
    First9(s, m);
    First10(s, m);
    Write(s, m, 44, 12, 12, 0x63437189, 0x747657E4, 0x5138C2ED, 0x696FD97D, 0xA72A6641, 0xF96173D7, 0x3395A2D7,
          0x3EA8BA87);
    Write(s, m, 45, 11, 13, 0x5A4096A5, 0x3395A2D7, 0xBE216420, 0x9CB6C088, 0x93015272, 0x4BFF3BAF, 0x5A9826A0,
          0x3299AE01);
    Write(s, m, 46, 10, 14, 0xF43EE330, 0x5A9826A0, 0xB38B89AB, 0x0AFE4119, 0xDA28C30E, 0xE11D1D2E, 0x0D578B50,
          0x30924EF2);
    Write(s, m, 47, 9, 15, 0x99D36D67, 0x0D578B50, 0x3EA8BA87, 0xA6E0372D, 0x696FD97D, 0xE166D991, 0x68F97918,
          0x55CB35C4);
  }
}
