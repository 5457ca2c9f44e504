/**
 The state of Shabal-256 after the two prefix blocks: the forty-four words that
 the assembly version starts from.
 */
module ShabalInitial {
  import opened Shabal
  import opened ShabalTape
  import opened ShabalFirst
  import opened ShabalSecond

  /** The table for 256 bits: A, B and C. */
  function IV(): (iv: seq<Word>)
    ensures |iv| == 44
  {
    [0x52F84552, 0xE54B7999, 0x2D8EE3EC, 0xB9645191,
     0xE0078B86, 0xBB7C44C9, 0xD2B5C1CA, 0xB0D2EB8C,
     0x14CE5A45, 0x22AF50DC, 0xEFFDBC6B, 0xEB21B74A,
     0xB555C6EE, 0x3E710596, 0xA72A652F, 0x9301515F,
     0xDA28C1FA, 0x696FD868, 0x9CB6BF72, 0x0AFE4002,
     0xA6E03615, 0x5138C1D4, 0xBE216306, 0xB38B8890,
     0x3EA8B96B, 0x3299ACE4, 0x30924DD4, 0x55CB34A5,
     0xB405F031, 0xC4233EBA, 0xB3733979, 0xC0DD9D55,
     0xC51C28AE, 0xA327B8E1, 0x56C56167, 0xED614433,
     0x88B59D60, 0x60E2CEBA, 0x758B4B8B, 0x83E82A7F,
     0xBC968828, 0xE6E00BF7, 0xBA839E55, 0x9B491C60]
  }

  /** The state after the second prefix block. */
  function TableCore(): Core {
    State([0x52F84552, 0xE54B7999, 0x2D8EE3EC, 0xB9645191, 0xE0078B86, 0xBB7C44C9, 0xD2B5C1CA, 0xB0D2EB8C, 0x14CE5A45,
           0x22AF50DC, 0xEFFDBC6B, 0xEB21B74A],
          [0xB555C6EE, 0x3E710596, 0xA72A652F, 0x9301515F, 0xDA28C1FA, 0x696FD868, 0x9CB6BF72, 0x0AFE4002, 0xA6E03615,
           0x5138C1D4, 0xBE216306, 0xB38B8890, 0x3EA8B96B, 0x3299ACE4, 0x30924DD4, 0x55CB34A5],
          [0xB405F031, 0xC4233EBA, 0xB3733979, 0xC0DD9D55, 0xC51C28AE, 0xA327B8E1, 0x56C56167, 0xED614433, 0x88B59D60,
           0x60E2CEBA, 0x758B4B8B, 0x83E82A7F, 0xBC968828, 0xE6E00BF7, 0xBA839E55, 0x9B491C60])
  }

  /** The state after the first prefix block. */
  function MiddleCore(): Core {
    State([0x79F023D8, 0x708745B8, 0xB2D69F0A, 0xAB24079A, 0x4C77DDAC, 0xB4B92870, 0x88E6ECE2, 0x747657E4, 0x3395A2D7,
           0x5A9826A0, 0x0D578B50, 0x68F97918],
          [0xFFFFFF00, 0xFFFFFEFF, 0xFFFFFEFE, 0xFFFFFEFD, 0xFFFFFEFC, 0xFFFFFEFB, 0xFFFFFEFA, 0xFFFFFEF9, 0xFFFFFEF8,
           0xFFFFFEF7, 0xFFFFFEF6, 0xFFFFFEF5, 0xFFFFFEF4, 0xFFFFFEF3, 0xFFFFFEF2, 0xFFFFFEF1],
          [0xB555C7FE, 0x3E7106A7, 0xA72A6641, 0x93015272, 0xDA28C30E, 0x696FD97D, 0x9CB6C088, 0x0AFE4119, 0xA6E0372D,
           0x5138C2ED, 0xBE216420, 0xB38B89AB, 0x3EA8BA87, 0x3299AE01, 0x30924EF2, 0x55CB35C4])
  }

  // ----- the words of the prefix blocks

  function ToByte(n: nat): Byte
    requires n < 256
  {
    n as Byte
  }

  lemma CountingBytes(n: nat)
    requires 256 <= n < 512
    ensures CountingByte(n, 0) == ToByte(n - 256) && CountingByte(n, 1) == ToByte(1)
    ensures CountingByte(n, 2) == CountingByte(n, 3) == 0
  {
    LowByte(n, n - 256);
    HighByte(n, 1);
  }

  lemma HighByte(n: nat, k: nat)
    requires n / 256 % 256 == k
    ensures CountingByte(n, 1) == ToByte(k)
  {
  }

  lemma LowByte(n: nat, k: nat)
    requires n % 256 == k
    ensures CountingByte(n, 0) == ToByte(k)
  {
  }

  lemma FirstBytes()
    ensures ToByte(0) == 0 && ToByte(1) == 1 && ToByte(2) == 2 && ToByte(3) == 3 && ToByte(4) == 4 && ToByte(5) == 5
            && ToByte(6) == 6 && ToByte(7) == 7 && ToByte(8) == 8 && ToByte(9) == 9 && ToByte(10) == 10
            && ToByte(11) == 11 && ToByte(12) == 12 && ToByte(13) == 13 && ToByte(14) == 14 && ToByte(15) == 15
  {
  }

  lemma SecondBytes()
    ensures ToByte(16) == 16 && ToByte(17) == 17 && ToByte(18) == 18 && ToByte(19) == 19 && ToByte(20) == 20
            && ToByte(21) == 21 && ToByte(22) == 22 && ToByte(23) == 23 && ToByte(24) == 24 && ToByte(25) == 25
            && ToByte(26) == 26 && ToByte(27) == 27 && ToByte(28) == 28 && ToByte(29) == 29 && ToByte(30) == 30
            && ToByte(31) == 31
  {
  }

  lemma CountingValue(n: nat, k: Byte)
    requires 256 <= n < 512 && ToByte(n - 256) == k
    requires ToByte(1) == 1
    ensures CountingWord(n) == MakeWord(k, 1, 0, 0)
  {
    hide CountingByte, ToByte, MakeWord;
    CountingBytes(n);
  }

  function CountingWord(n: nat): Word {
    MakeWord(CountingByte(n, 0), CountingByte(n, 1), CountingByte(n, 2), CountingByte(n, 3))
  }

  lemma CountingWords(first: nat, j: nat)
    requires j < 16
    ensures BlockAt(CountingBlock(first), 0)[j] == CountingWord(first + j)
  {
    hide CountingByte, MakeWord;
  }

  lemma FirstMessage()
    ensures CountingWord(256) == 0x00000100 && CountingWord(257) == 0x00000101 && CountingWord(258) == 0x00000102
            && CountingWord(259) == 0x00000103 && CountingWord(260) == 0x00000104 && CountingWord(261) == 0x00000105
            && CountingWord(262) == 0x00000106 && CountingWord(263) == 0x00000107 && CountingWord(264) == 0x00000108
            && CountingWord(265) == 0x00000109 && CountingWord(266) == 0x0000010A && CountingWord(267) == 0x0000010B
            && CountingWord(268) == 0x0000010C && CountingWord(269) == 0x0000010D && CountingWord(270) == 0x0000010E
            && CountingWord(271) == 0x0000010F
  {
    hide CountingByte, ToByte;
    FirstBytes();
    CountingValue(256, 0); CountingValue(257, 1); CountingValue(258, 2); CountingValue(259, 3);
    CountingValue(260, 4); CountingValue(261, 5); CountingValue(262, 6); CountingValue(263, 7);
    CountingValue(264, 8); CountingValue(265, 9); CountingValue(266, 10); CountingValue(267, 11);
    CountingValue(268, 12); CountingValue(269, 13); CountingValue(270, 14); CountingValue(271, 15);
  }

  lemma FirstBlock()
    ensures BlockAt(CountingBlock(256), 0)[0] == 0x00000100 && BlockAt(CountingBlock(256), 0)[1] == 0x00000101
            && BlockAt(CountingBlock(256), 0)[2] == 0x00000102 && BlockAt(CountingBlock(256), 0)[3] == 0x00000103
            && BlockAt(CountingBlock(256), 0)[4] == 0x00000104 && BlockAt(CountingBlock(256), 0)[5] == 0x00000105
            && BlockAt(CountingBlock(256), 0)[6] == 0x00000106 && BlockAt(CountingBlock(256), 0)[7] == 0x00000107
            && BlockAt(CountingBlock(256), 0)[8] == 0x00000108 && BlockAt(CountingBlock(256), 0)[9] == 0x00000109
            && BlockAt(CountingBlock(256), 0)[10] == 0x0000010A && BlockAt(CountingBlock(256), 0)[11] == 0x0000010B
            && BlockAt(CountingBlock(256), 0)[12] == 0x0000010C && BlockAt(CountingBlock(256), 0)[13] == 0x0000010D
            && BlockAt(CountingBlock(256), 0)[14] == 0x0000010E && BlockAt(CountingBlock(256), 0)[15] == 0x0000010F
  {
    hide CountingWord, CountingBlock, BlockAt;
    FirstMessage();
    CountingWords(256, 0); CountingWords(256, 1); CountingWords(256, 2); CountingWords(256, 3);
    CountingWords(256, 4); CountingWords(256, 5); CountingWords(256, 6); CountingWords(256, 7);
    CountingWords(256, 8); CountingWords(256, 9); CountingWords(256, 10); CountingWords(256, 11);
    CountingWords(256, 12); CountingWords(256, 13); CountingWords(256, 14); CountingWords(256, 15);
  }

  lemma SecondMessage()
    ensures CountingWord(272) == 0x00000110 && CountingWord(273) == 0x00000111 && CountingWord(274) == 0x00000112
            && CountingWord(275) == 0x00000113 && CountingWord(276) == 0x00000114 && CountingWord(277) == 0x00000115
            && CountingWord(278) == 0x00000116 && CountingWord(279) == 0x00000117 && CountingWord(280) == 0x00000118
            && CountingWord(281) == 0x00000119 && CountingWord(282) == 0x0000011A && CountingWord(283) == 0x0000011B
            && CountingWord(284) == 0x0000011C && CountingWord(285) == 0x0000011D && CountingWord(286) == 0x0000011E
            && CountingWord(287) == 0x0000011F
  {
    hide CountingByte, ToByte;
    FirstBytes();
    SecondBytes();
    CountingValue(272, 16); CountingValue(273, 17); CountingValue(274, 18); CountingValue(275, 19);
    CountingValue(276, 20); CountingValue(277, 21); CountingValue(278, 22); CountingValue(279, 23);
    CountingValue(280, 24); CountingValue(281, 25); CountingValue(282, 26); CountingValue(283, 27);
    CountingValue(284, 28); CountingValue(285, 29); CountingValue(286, 30); CountingValue(287, 31);
  }

  lemma SecondBlock()
    ensures BlockAt(CountingBlock(272), 0)[0] == 0x00000110 && BlockAt(CountingBlock(272), 0)[1] == 0x00000111
            && BlockAt(CountingBlock(272), 0)[2] == 0x00000112 && BlockAt(CountingBlock(272), 0)[3] == 0x00000113
            && BlockAt(CountingBlock(272), 0)[4] == 0x00000114 && BlockAt(CountingBlock(272), 0)[5] == 0x00000115
            && BlockAt(CountingBlock(272), 0)[6] == 0x00000116 && BlockAt(CountingBlock(272), 0)[7] == 0x00000117
            && BlockAt(CountingBlock(272), 0)[8] == 0x00000118 && BlockAt(CountingBlock(272), 0)[9] == 0x00000119
            && BlockAt(CountingBlock(272), 0)[10] == 0x0000011A && BlockAt(CountingBlock(272), 0)[11] == 0x0000011B
            && BlockAt(CountingBlock(272), 0)[12] == 0x0000011C && BlockAt(CountingBlock(272), 0)[13] == 0x0000011D
            && BlockAt(CountingBlock(272), 0)[14] == 0x0000011E && BlockAt(CountingBlock(272), 0)[15] == 0x0000011F
  {
    hide CountingWord, CountingBlock, BlockAt;
    SecondMessage();
    CountingWords(272, 0); CountingWords(272, 1); CountingWords(272, 2); CountingWords(272, 3);
    CountingWords(272, 4); CountingWords(272, 5); CountingWords(272, 6); CountingWords(272, 7);
    CountingWords(272, 8); CountingWords(272, 9); CountingWords(272, 10); CountingWords(272, 11);
    CountingWords(272, 12); CountingWords(272, 13); CountingWords(272, 14); CountingWords(272, 15);
  }

  // ----- the first prefix block

  lemma FirstPrepared(m: Block)
    requires m == BlockAt(CountingBlock(256), 0)
    ensures IsFirst(Prepare(ZeroCore(), FirstCounter(), m), m)
  {
    hide CountingBlock, BlockAt;
    FirstBlock();
  }

  lemma FirstLast(s: Core, m: Block)
    requires IsFirst(s, m)
    ensures TapeA(s, m, 48) == 0x79F023D8 && TapeA(s, m, 49) == 0x708745B8 && TapeA(s, m, 50) == 0xB2D69F0A
            && TapeA(s, m, 51) == 0xAB24079A && TapeA(s, m, 52) == 0x4C77DDAC && TapeA(s, m, 53) == 0xB4B92870
            && TapeA(s, m, 54) == 0x88E6ECE2 && TapeA(s, m, 55) == 0x747657E4 && TapeA(s, m, 56) == 0x3395A2D7
            && TapeA(s, m, 57) == 0x5A9826A0 && TapeA(s, m, 58) == 0x0D578B50 && TapeA(s, m, 59) == 0x68F97918
    ensures TapeB(s, m, 48) == 0xB555C7FE && TapeB(s, m, 49) == 0x3E7106A7 && TapeB(s, m, 50) == 0xA72A6641
            && TapeB(s, m, 51) == 0x93015272 && TapeB(s, m, 52) == 0xDA28C30E && TapeB(s, m, 53) == 0x696FD97D
            && TapeB(s, m, 54) == 0x9CB6C088 && TapeB(s, m, 55) == 0x0AFE4119 && TapeB(s, m, 56) == 0xA6E0372D
            && TapeB(s, m, 57) == 0x5138C2ED && TapeB(s, m, 58) == 0xBE216420 && TapeB(s, m, 59) == 0xB38B89AB
            && TapeB(s, m, 60) == 0x3EA8BA87 && TapeB(s, m, 61) == 0x3299AE01 && TapeB(s, m, 62) == 0x30924EF2
            && TapeB(s, m, 63) == 0x55CB35C4
  {
    hide Rounds, TapeA, TapeB, IsFirst;
    First8(s, m); First9(s, m); First10(s, m); First11(s, m);
  }

  lemma FirstRounds(s: Core, m: Block)
    requires IsFirst(s, m)
    ensures Rounds(s, m, 48).a[0] == 0x79F023D8 && Rounds(s, m, 48).a[1] == 0x708745B8
            && Rounds(s, m, 48).a[2] == 0xB2D69F0A && Rounds(s, m, 48).a[3] == 0xAB24079A
            && Rounds(s, m, 48).a[4] == 0x4C77DDAC && Rounds(s, m, 48).a[5] == 0xB4B92870
            && Rounds(s, m, 48).a[6] == 0x88E6ECE2 && Rounds(s, m, 48).a[7] == 0x747657E4
            && Rounds(s, m, 48).a[8] == 0x3395A2D7 && Rounds(s, m, 48).a[9] == 0x5A9826A0
            && Rounds(s, m, 48).a[10] == 0x0D578B50 && Rounds(s, m, 48).a[11] == 0x68F97918
    ensures Rounds(s, m, 48).b[0] == 0xB555C7FE && Rounds(s, m, 48).b[1] == 0x3E7106A7
            && Rounds(s, m, 48).b[2] == 0xA72A6641 && Rounds(s, m, 48).b[3] == 0x93015272
            && Rounds(s, m, 48).b[4] == 0xDA28C30E && Rounds(s, m, 48).b[5] == 0x696FD97D
            && Rounds(s, m, 48).b[6] == 0x9CB6C088 && Rounds(s, m, 48).b[7] == 0x0AFE4119
            && Rounds(s, m, 48).b[8] == 0xA6E0372D && Rounds(s, m, 48).b[9] == 0x5138C2ED
            && Rounds(s, m, 48).b[10] == 0xBE216420 && Rounds(s, m, 48).b[11] == 0xB38B89AB
            && Rounds(s, m, 48).b[12] == 0x3EA8BA87 && Rounds(s, m, 48).b[13] == 0x3299AE01
            && Rounds(s, m, 48).b[14] == 0x30924EF2 && Rounds(s, m, 48).b[15] == 0x55CB35C4
  {
    hide Rounds, TapeA, TapeB, IsFirst;
    FirstLast(s, m);
    LastOfA(s, m, 48);
    LastOfB(s, m, 48);
  }

  lemma FirstSums()
    ensures Plus(Plus(Plus(0x79F023D8, 0x00000000), 0x00000000), 0x00000000) == 0x79F023D8
            && Plus(Plus(Plus(0x708745B8, 0x00000000), 0x00000000), 0x00000000) == 0x708745B8
            && Plus(Plus(Plus(0xB2D69F0A, 0x00000000), 0x00000000), 0x00000000) == 0xB2D69F0A
            && Plus(Plus(Plus(0xAB24079A, 0x00000000), 0x00000000), 0x00000000) == 0xAB24079A
            && Plus(Plus(Plus(0x4C77DDAC, 0x00000000), 0x00000000), 0x00000000) == 0x4C77DDAC
            && Plus(Plus(Plus(0xB4B92870, 0x00000000), 0x00000000), 0x00000000) == 0xB4B92870
            && Plus(Plus(Plus(0x88E6ECE2, 0x00000000), 0x00000000), 0x00000000) == 0x88E6ECE2
            && Plus(Plus(Plus(0x747657E4, 0x00000000), 0x00000000), 0x00000000) == 0x747657E4
            && Plus(Plus(Plus(0x3395A2D7, 0x00000000), 0x00000000), 0x00000000) == 0x3395A2D7
            && Plus(Plus(Plus(0x5A9826A0, 0x00000000), 0x00000000), 0x00000000) == 0x5A9826A0
            && Plus(Plus(Plus(0x0D578B50, 0x00000000), 0x00000000), 0x00000000) == 0x0D578B50
            && Plus(Plus(Plus(0x68F97918, 0x00000000), 0x00000000), 0x00000000) == 0x68F97918
  {
  }

  lemma FirstDifferences()
    ensures Minus(0x00000000, 0x00000100) == 0xFFFFFF00 && Minus(0x00000000, 0x00000101) == 0xFFFFFEFF
            && Minus(0x00000000, 0x00000102) == 0xFFFFFEFE && Minus(0x00000000, 0x00000103) == 0xFFFFFEFD
            && Minus(0x00000000, 0x00000104) == 0xFFFFFEFC && Minus(0x00000000, 0x00000105) == 0xFFFFFEFB
            && Minus(0x00000000, 0x00000106) == 0xFFFFFEFA && Minus(0x00000000, 0x00000107) == 0xFFFFFEF9
            && Minus(0x00000000, 0x00000108) == 0xFFFFFEF8 && Minus(0x00000000, 0x00000109) == 0xFFFFFEF7
            && Minus(0x00000000, 0x0000010A) == 0xFFFFFEF6 && Minus(0x00000000, 0x0000010B) == 0xFFFFFEF5
            && Minus(0x00000000, 0x0000010C) == 0xFFFFFEF4 && Minus(0x00000000, 0x0000010D) == 0xFFFFFEF3
            && Minus(0x00000000, 0x0000010E) == 0xFFFFFEF2 && Minus(0x00000000, 0x0000010F) == 0xFFFFFEF1
  {
  }

  lemma FirstFinalA(s: Core, m: Block)
    requires s.a[0] == 0x79F023D8 && s.a[1] == 0x708745B8 && s.a[2] == 0xB2D69F0A && s.a[3] == 0xAB24079A
             && s.a[4] == 0x4C77DDAC && s.a[5] == 0xB4B92870 && s.a[6] == 0x88E6ECE2 && s.a[7] == 0x747657E4
             && s.a[8] == 0x3395A2D7 && s.a[9] == 0x5A9826A0 && s.a[10] == 0x0D578B50 && s.a[11] == 0x68F97918
    requires s.c[0] == 0x00000000 && s.c[1] == 0x00000000 && s.c[2] == 0x00000000 && s.c[3] == 0x00000000
             && s.c[4] == 0x00000000 && s.c[5] == 0x00000000 && s.c[6] == 0x00000000 && s.c[7] == 0x00000000
             && s.c[8] == 0x00000000 && s.c[9] == 0x00000000 && s.c[10] == 0x00000000 && s.c[11] == 0x00000000
             && s.c[12] == 0x00000000 && s.c[13] == 0x00000000 && s.c[14] == 0x00000000 && s.c[15] == 0x00000000
    ensures Finalize(s, m).a[0] == 0x79F023D8 && Finalize(s, m).a[1] == 0x708745B8 && Finalize(s, m).a[2] == 0xB2D69F0A
            && Finalize(s, m).a[3] == 0xAB24079A && Finalize(s, m).a[4] == 0x4C77DDAC
            && Finalize(s, m).a[5] == 0xB4B92870 && Finalize(s, m).a[6] == 0x88E6ECE2
            && Finalize(s, m).a[7] == 0x747657E4 && Finalize(s, m).a[8] == 0x3395A2D7
            && Finalize(s, m).a[9] == 0x5A9826A0 && Finalize(s, m).a[10] == 0x0D578B50
            && Finalize(s, m).a[11] == 0x68F97918
  {
    hide Plus, Minus;
    FirstSums();
  }

  lemma FirstFinalB(s: Core, m: Block)
    requires s.c[0] == 0x00000000 && s.c[1] == 0x00000000 && s.c[2] == 0x00000000 && s.c[3] == 0x00000000
             && s.c[4] == 0x00000000 && s.c[5] == 0x00000000 && s.c[6] == 0x00000000 && s.c[7] == 0x00000000
             && s.c[8] == 0x00000000 && s.c[9] == 0x00000000 && s.c[10] == 0x00000000 && s.c[11] == 0x00000000
             && s.c[12] == 0x00000000 && s.c[13] == 0x00000000 && s.c[14] == 0x00000000 && s.c[15] == 0x00000000
    requires m[0] == 0x00000100 && m[1] == 0x00000101 && m[2] == 0x00000102 && m[3] == 0x00000103 && m[4] == 0x00000104
             && m[5] == 0x00000105 && m[6] == 0x00000106 && m[7] == 0x00000107 && m[8] == 0x00000108
             && m[9] == 0x00000109 && m[10] == 0x0000010A && m[11] == 0x0000010B && m[12] == 0x0000010C
             && m[13] == 0x0000010D && m[14] == 0x0000010E && m[15] == 0x0000010F
    ensures Finalize(s, m).b[0] == 0xFFFFFF00 && Finalize(s, m).b[1] == 0xFFFFFEFF && Finalize(s, m).b[2] == 0xFFFFFEFE
            && Finalize(s, m).b[3] == 0xFFFFFEFD && Finalize(s, m).b[4] == 0xFFFFFEFC
            && Finalize(s, m).b[5] == 0xFFFFFEFB && Finalize(s, m).b[6] == 0xFFFFFEFA
            && Finalize(s, m).b[7] == 0xFFFFFEF9 && Finalize(s, m).b[8] == 0xFFFFFEF8
            && Finalize(s, m).b[9] == 0xFFFFFEF7 && Finalize(s, m).b[10] == 0xFFFFFEF6
            && Finalize(s, m).b[11] == 0xFFFFFEF5 && Finalize(s, m).b[12] == 0xFFFFFEF4
            && Finalize(s, m).b[13] == 0xFFFFFEF3 && Finalize(s, m).b[14] == 0xFFFFFEF2
            && Finalize(s, m).b[15] == 0xFFFFFEF1
  {
    hide Plus, Minus;
    FirstDifferences();
  }

  lemma FirstA(x: seq<Word>)
    requires |x| == 12
    requires x[0] == 0x79F023D8 && x[1] == 0x708745B8 && x[2] == 0xB2D69F0A && x[3] == 0xAB24079A && x[4] == 0x4C77DDAC
             && x[5] == 0xB4B92870 && x[6] == 0x88E6ECE2 && x[7] == 0x747657E4 && x[8] == 0x3395A2D7
             && x[9] == 0x5A9826A0 && x[10] == 0x0D578B50 && x[11] == 0x68F97918
    ensures x == MiddleCore().a
  {
  }

  lemma FirstB(x: seq<Word>)
    requires |x| == 16
    requires x[0] == 0xFFFFFF00 && x[1] == 0xFFFFFEFF && x[2] == 0xFFFFFEFE && x[3] == 0xFFFFFEFD && x[4] == 0xFFFFFEFC
             && x[5] == 0xFFFFFEFB && x[6] == 0xFFFFFEFA && x[7] == 0xFFFFFEF9 && x[8] == 0xFFFFFEF8
             && x[9] == 0xFFFFFEF7 && x[10] == 0xFFFFFEF6 && x[11] == 0xFFFFFEF5 && x[12] == 0xFFFFFEF4
             && x[13] == 0xFFFFFEF3 && x[14] == 0xFFFFFEF2 && x[15] == 0xFFFFFEF1
    ensures x == MiddleCore().b
  {
  }

  lemma FirstC(x: seq<Word>)
    requires |x| == 16
    requires x[0] == 0xB555C7FE && x[1] == 0x3E7106A7 && x[2] == 0xA72A6641 && x[3] == 0x93015272 && x[4] == 0xDA28C30E
             && x[5] == 0x696FD97D && x[6] == 0x9CB6C088 && x[7] == 0x0AFE4119 && x[8] == 0xA6E0372D
             && x[9] == 0x5138C2ED && x[10] == 0xBE216420 && x[11] == 0xB38B89AB && x[12] == 0x3EA8BA87
             && x[13] == 0x3299AE01 && x[14] == 0x30924EF2 && x[15] == 0x55CB35C4
    ensures x == MiddleCore().c
  {
  }

  lemma FirstFinal(s: Core, m: Block)
    requires s.a[0] == 0x79F023D8 && s.a[1] == 0x708745B8 && s.a[2] == 0xB2D69F0A && s.a[3] == 0xAB24079A
             && s.a[4] == 0x4C77DDAC && s.a[5] == 0xB4B92870 && s.a[6] == 0x88E6ECE2 && s.a[7] == 0x747657E4
             && s.a[8] == 0x3395A2D7 && s.a[9] == 0x5A9826A0 && s.a[10] == 0x0D578B50 && s.a[11] == 0x68F97918
    requires s.b[0] == 0xB555C7FE && s.b[1] == 0x3E7106A7 && s.b[2] == 0xA72A6641 && s.b[3] == 0x93015272
             && s.b[4] == 0xDA28C30E && s.b[5] == 0x696FD97D && s.b[6] == 0x9CB6C088 && s.b[7] == 0x0AFE4119
             && s.b[8] == 0xA6E0372D && s.b[9] == 0x5138C2ED && s.b[10] == 0xBE216420 && s.b[11] == 0xB38B89AB
             && s.b[12] == 0x3EA8BA87 && s.b[13] == 0x3299AE01 && s.b[14] == 0x30924EF2 && s.b[15] == 0x55CB35C4
    requires s.c[0] == 0x00000000 && s.c[1] == 0x00000000 && s.c[2] == 0x00000000 && s.c[3] == 0x00000000
             && s.c[4] == 0x00000000 && s.c[5] == 0x00000000 && s.c[6] == 0x00000000 && s.c[7] == 0x00000000
             && s.c[8] == 0x00000000 && s.c[9] == 0x00000000 && s.c[10] == 0x00000000 && s.c[11] == 0x00000000
             && s.c[12] == 0x00000000 && s.c[13] == 0x00000000 && s.c[14] == 0x00000000 && s.c[15] == 0x00000000
    requires m[0] == 0x00000100 && m[1] == 0x00000101 && m[2] == 0x00000102 && m[3] == 0x00000103 && m[4] == 0x00000104
             && m[5] == 0x00000105 && m[6] == 0x00000106 && m[7] == 0x00000107 && m[8] == 0x00000108
             && m[9] == 0x00000109 && m[10] == 0x0000010A && m[11] == 0x0000010B && m[12] == 0x0000010C
             && m[13] == 0x0000010D && m[14] == 0x0000010E && m[15] == 0x0000010F
    ensures Finalize(s, m) == MiddleCore()
  {
    hide MiddleCore;
    assert Finalize(s, m).c == s.b;
    FirstC(s.b);
    hide Finalize;
    FirstFinalA(s, m);
    FirstFinalB(s, m);
    FirstA(Finalize(s, m).a);
    FirstB(Finalize(s, m).b);
  }

  lemma FirstCompressed()
    ensures CompressBlock(ZeroCore(), FirstCounter(), BlockAt(CountingBlock(256), 0)) == MiddleCore()
  {
    hide Rounds, IsFirst, Finalize, CountingBlock, BlockAt, MiddleCore;
    var m := BlockAt(CountingBlock(256), 0);
    var s := Prepare(ZeroCore(), FirstCounter(), m);
    FirstPrepared(m);
    FirstRounds(s, m);
    FirstBlock();
    FirstFinal(Rounds(s, m, 48), m);
  }

  // ----- the second prefix block

  lemma SecondPrepared(m: Block)
    requires m == BlockAt(CountingBlock(272), 0)
    ensures IsSecond(Prepare(MiddleCore(), Next(FirstCounter()), m), m)
  {
    hide CountingBlock, BlockAt;
    SecondBlock();
  }

  lemma SecondLast(s: Core, m: Block)
    requires IsSecond(s, m)
    ensures TapeA(s, m, 48) == 0xB6A03371 && TapeA(s, m, 49) == 0x17243406 && TapeA(s, m, 50) == 0x531455C7
            && TapeA(s, m, 51) == 0x44F0DBD6 && TapeA(s, m, 52) == 0xEC3CC237 && TapeA(s, m, 53) == 0x851D8290
            && TapeA(s, m, 54) == 0xD99C1EB9 && TapeA(s, m, 55) == 0xAED060A3 && TapeA(s, m, 56) == 0xC3433D0F
            && TapeA(s, m, 57) == 0x62FD9C1A && TapeA(s, m, 58) == 0x02BB7200 && TapeA(s, m, 59) == 0x5FB743B0
    ensures TapeB(s, m, 48) == 0xB405F031 && TapeB(s, m, 49) == 0xC4233EBA && TapeB(s, m, 50) == 0xB3733979
            && TapeB(s, m, 51) == 0xC0DD9D55 && TapeB(s, m, 52) == 0xC51C28AE && TapeB(s, m, 53) == 0xA327B8E1
            && TapeB(s, m, 54) == 0x56C56167 && TapeB(s, m, 55) == 0xED614433 && TapeB(s, m, 56) == 0x88B59D60
            && TapeB(s, m, 57) == 0x60E2CEBA && TapeB(s, m, 58) == 0x758B4B8B && TapeB(s, m, 59) == 0x83E82A7F
            && TapeB(s, m, 60) == 0xBC968828 && TapeB(s, m, 61) == 0xE6E00BF7 && TapeB(s, m, 62) == 0xBA839E55
            && TapeB(s, m, 63) == 0x9B491C60
  {
    hide Rounds, TapeA, TapeB, IsSecond;
    Second8(s, m); Second9(s, m); Second10(s, m); Second11(s, m);
  }

  lemma SecondRounds(s: Core, m: Block)
    requires IsSecond(s, m)
    ensures Rounds(s, m, 48).a[0] == 0xB6A03371 && Rounds(s, m, 48).a[1] == 0x17243406
            && Rounds(s, m, 48).a[2] == 0x531455C7 && Rounds(s, m, 48).a[3] == 0x44F0DBD6
            && Rounds(s, m, 48).a[4] == 0xEC3CC237 && Rounds(s, m, 48).a[5] == 0x851D8290
            && Rounds(s, m, 48).a[6] == 0xD99C1EB9 && Rounds(s, m, 48).a[7] == 0xAED060A3
            && Rounds(s, m, 48).a[8] == 0xC3433D0F && Rounds(s, m, 48).a[9] == 0x62FD9C1A
            && Rounds(s, m, 48).a[10] == 0x02BB7200 && Rounds(s, m, 48).a[11] == 0x5FB743B0
    ensures Rounds(s, m, 48).b[0] == 0xB405F031 && Rounds(s, m, 48).b[1] == 0xC4233EBA
            && Rounds(s, m, 48).b[2] == 0xB3733979 && Rounds(s, m, 48).b[3] == 0xC0DD9D55
            && Rounds(s, m, 48).b[4] == 0xC51C28AE && Rounds(s, m, 48).b[5] == 0xA327B8E1
            && Rounds(s, m, 48).b[6] == 0x56C56167 && Rounds(s, m, 48).b[7] == 0xED614433
            && Rounds(s, m, 48).b[8] == 0x88B59D60 && Rounds(s, m, 48).b[9] == 0x60E2CEBA
            && Rounds(s, m, 48).b[10] == 0x758B4B8B && Rounds(s, m, 48).b[11] == 0x83E82A7F
            && Rounds(s, m, 48).b[12] == 0xBC968828 && Rounds(s, m, 48).b[13] == 0xE6E00BF7
            && Rounds(s, m, 48).b[14] == 0xBA839E55 && Rounds(s, m, 48).b[15] == 0x9B491C60
  {
    hide Rounds, TapeA, TapeB, IsSecond;
    SecondLast(s, m);
    LastOfA(s, m, 48);
    LastOfB(s, m, 48);
  }

  lemma SecondSums()
    ensures Plus(Plus(Plus(0xB6A03371, 0xB38B89AB), 0x55CB35C4), 0x93015272) == 0x52F84552
            && Plus(Plus(Plus(0x17243406, 0x3EA8BA87), 0xB555C7FE), 0xDA28C30E) == 0xE54B7999
            && Plus(Plus(Plus(0x531455C7, 0x3299AE01), 0x3E7106A7), 0x696FD97D) == 0x2D8EE3EC
            && Plus(Plus(Plus(0x44F0DBD6, 0x30924EF2), 0xA72A6641), 0x9CB6C088) == 0xB9645191
            && Plus(Plus(Plus(0xEC3CC237, 0x55CB35C4), 0x93015272), 0x0AFE4119) == 0xE0078B86
            && Plus(Plus(Plus(0x851D8290, 0xB555C7FE), 0xDA28C30E), 0xA6E0372D) == 0xBB7C44C9
            && Plus(Plus(Plus(0xD99C1EB9, 0x3E7106A7), 0x696FD97D), 0x5138C2ED) == 0xD2B5C1CA
            && Plus(Plus(Plus(0xAED060A3, 0xA72A6641), 0x9CB6C088), 0xBE216420) == 0xB0D2EB8C
            && Plus(Plus(Plus(0xC3433D0F, 0x93015272), 0x0AFE4119), 0xB38B89AB) == 0x14CE5A45
            && Plus(Plus(Plus(0x62FD9C1A, 0xDA28C30E), 0xA6E0372D), 0x3EA8BA87) == 0x22AF50DC
            && Plus(Plus(Plus(0x02BB7200, 0x696FD97D), 0x5138C2ED), 0x3299AE01) == 0xEFFDBC6B
            && Plus(Plus(Plus(0x5FB743B0, 0x9CB6C088), 0xBE216420), 0x30924EF2) == 0xEB21B74A
  {
  }

  lemma SecondDifferences()
    ensures Minus(0xB555C7FE, 0x00000110) == 0xB555C6EE && Minus(0x3E7106A7, 0x00000111) == 0x3E710596
            && Minus(0xA72A6641, 0x00000112) == 0xA72A652F && Minus(0x93015272, 0x00000113) == 0x9301515F
            && Minus(0xDA28C30E, 0x00000114) == 0xDA28C1FA && Minus(0x696FD97D, 0x00000115) == 0x696FD868
            && Minus(0x9CB6C088, 0x00000116) == 0x9CB6BF72 && Minus(0x0AFE4119, 0x00000117) == 0x0AFE4002
            && Minus(0xA6E0372D, 0x00000118) == 0xA6E03615 && Minus(0x5138C2ED, 0x00000119) == 0x5138C1D4
            && Minus(0xBE216420, 0x0000011A) == 0xBE216306 && Minus(0xB38B89AB, 0x0000011B) == 0xB38B8890
            && Minus(0x3EA8BA87, 0x0000011C) == 0x3EA8B96B && Minus(0x3299AE01, 0x0000011D) == 0x3299ACE4
            && Minus(0x30924EF2, 0x0000011E) == 0x30924DD4 && Minus(0x55CB35C4, 0x0000011F) == 0x55CB34A5
  {
  }

  lemma SecondFinalA(s: Core, m: Block)
    requires s.a[0] == 0xB6A03371 && s.a[1] == 0x17243406 && s.a[2] == 0x531455C7 && s.a[3] == 0x44F0DBD6
             && s.a[4] == 0xEC3CC237 && s.a[5] == 0x851D8290 && s.a[6] == 0xD99C1EB9 && s.a[7] == 0xAED060A3
             && s.a[8] == 0xC3433D0F && s.a[9] == 0x62FD9C1A && s.a[10] == 0x02BB7200 && s.a[11] == 0x5FB743B0
    requires s.c[0] == 0xB555C7FE && s.c[1] == 0x3E7106A7 && s.c[2] == 0xA72A6641 && s.c[3] == 0x93015272
             && s.c[4] == 0xDA28C30E && s.c[5] == 0x696FD97D && s.c[6] == 0x9CB6C088 && s.c[7] == 0x0AFE4119
             && s.c[8] == 0xA6E0372D && s.c[9] == 0x5138C2ED && s.c[10] == 0xBE216420 && s.c[11] == 0xB38B89AB
             && s.c[12] == 0x3EA8BA87 && s.c[13] == 0x3299AE01 && s.c[14] == 0x30924EF2 && s.c[15] == 0x55CB35C4
    ensures Finalize(s, m).a[0] == 0x52F84552 && Finalize(s, m).a[1] == 0xE54B7999 && Finalize(s, m).a[2] == 0x2D8EE3EC
            && Finalize(s, m).a[3] == 0xB9645191 && Finalize(s, m).a[4] == 0xE0078B86
            && Finalize(s, m).a[5] == 0xBB7C44C9 && Finalize(s, m).a[6] == 0xD2B5C1CA
            && Finalize(s, m).a[7] == 0xB0D2EB8C && Finalize(s, m).a[8] == 0x14CE5A45
            && Finalize(s, m).a[9] == 0x22AF50DC && Finalize(s, m).a[10] == 0xEFFDBC6B
            && Finalize(s, m).a[11] == 0xEB21B74A
  {
    hide Plus, Minus;
    SecondSums();
  }

  lemma SecondFinalB(s: Core, m: Block)
    requires s.c[0] == 0xB555C7FE && s.c[1] == 0x3E7106A7 && s.c[2] == 0xA72A6641 && s.c[3] == 0x93015272
             && s.c[4] == 0xDA28C30E && s.c[5] == 0x696FD97D && s.c[6] == 0x9CB6C088 && s.c[7] == 0x0AFE4119
             && s.c[8] == 0xA6E0372D && s.c[9] == 0x5138C2ED && s.c[10] == 0xBE216420 && s.c[11] == 0xB38B89AB
             && s.c[12] == 0x3EA8BA87 && s.c[13] == 0x3299AE01 && s.c[14] == 0x30924EF2 && s.c[15] == 0x55CB35C4
    requires m[0] == 0x00000110 && m[1] == 0x00000111 && m[2] == 0x00000112 && m[3] == 0x00000113 && m[4] == 0x00000114
             && m[5] == 0x00000115 && m[6] == 0x00000116 && m[7] == 0x00000117 && m[8] == 0x00000118
             && m[9] == 0x00000119 && m[10] == 0x0000011A && m[11] == 0x0000011B && m[12] == 0x0000011C
             && m[13] == 0x0000011D && m[14] == 0x0000011E && m[15] == 0x0000011F
    ensures Finalize(s, m).b[0] == 0xB555C6EE && Finalize(s, m).b[1] == 0x3E710596 && Finalize(s, m).b[2] == 0xA72A652F
            && Finalize(s, m).b[3] == 0x9301515F && Finalize(s, m).b[4] == 0xDA28C1FA
            && Finalize(s, m).b[5] == 0x696FD868 && Finalize(s, m).b[6] == 0x9CB6BF72
            && Finalize(s, m).b[7] == 0x0AFE4002 && Finalize(s, m).b[8] == 0xA6E03615
            && Finalize(s, m).b[9] == 0x5138C1D4 && Finalize(s, m).b[10] == 0xBE216306
            && Finalize(s, m).b[11] == 0xB38B8890 && Finalize(s, m).b[12] == 0x3EA8B96B
            && Finalize(s, m).b[13] == 0x3299ACE4 && Finalize(s, m).b[14] == 0x30924DD4
            && Finalize(s, m).b[15] == 0x55CB34A5
  {
    hide Plus, Minus;
    SecondDifferences();
  }

  lemma SecondA(x: seq<Word>)
    requires |x| == 12
    requires x[0] == 0x52F84552 && x[1] == 0xE54B7999 && x[2] == 0x2D8EE3EC && x[3] == 0xB9645191 && x[4] == 0xE0078B86
             && x[5] == 0xBB7C44C9 && x[6] == 0xD2B5C1CA && x[7] == 0xB0D2EB8C && x[8] == 0x14CE5A45
             && x[9] == 0x22AF50DC && x[10] == 0xEFFDBC6B && x[11] == 0xEB21B74A
    ensures x == TableCore().a
  {
  }

  lemma SecondB(x: seq<Word>)
    requires |x| == 16
    requires x[0] == 0xB555C6EE && x[1] == 0x3E710596 && x[2] == 0xA72A652F && x[3] == 0x9301515F && x[4] == 0xDA28C1FA
             && x[5] == 0x696FD868 && x[6] == 0x9CB6BF72 && x[7] == 0x0AFE4002 && x[8] == 0xA6E03615
             && x[9] == 0x5138C1D4 && x[10] == 0xBE216306 && x[11] == 0xB38B8890 && x[12] == 0x3EA8B96B
             && x[13] == 0x3299ACE4 && x[14] == 0x30924DD4 && x[15] == 0x55CB34A5
    ensures x == TableCore().b
  {
  }

  lemma SecondC(x: seq<Word>)
    requires |x| == 16
    requires x[0] == 0xB405F031 && x[1] == 0xC4233EBA && x[2] == 0xB3733979 && x[3] == 0xC0DD9D55 && x[4] == 0xC51C28AE
             && x[5] == 0xA327B8E1 && x[6] == 0x56C56167 && x[7] == 0xED614433 && x[8] == 0x88B59D60
             && x[9] == 0x60E2CEBA && x[10] == 0x758B4B8B && x[11] == 0x83E82A7F && x[12] == 0xBC968828
             && x[13] == 0xE6E00BF7 && x[14] == 0xBA839E55 && x[15] == 0x9B491C60
    ensures x == TableCore().c
  {
  }

  lemma SecondFinal(s: Core, m: Block)
    requires s.a[0] == 0xB6A03371 && s.a[1] == 0x17243406 && s.a[2] == 0x531455C7 && s.a[3] == 0x44F0DBD6
             && s.a[4] == 0xEC3CC237 && s.a[5] == 0x851D8290 && s.a[6] == 0xD99C1EB9 && s.a[7] == 0xAED060A3
             && s.a[8] == 0xC3433D0F && s.a[9] == 0x62FD9C1A && s.a[10] == 0x02BB7200 && s.a[11] == 0x5FB743B0
    requires s.b[0] == 0xB405F031 && s.b[1] == 0xC4233EBA && s.b[2] == 0xB3733979 && s.b[3] == 0xC0DD9D55
             && s.b[4] == 0xC51C28AE && s.b[5] == 0xA327B8E1 && s.b[6] == 0x56C56167 && s.b[7] == 0xED614433
             && s.b[8] == 0x88B59D60 && s.b[9] == 0x60E2CEBA && s.b[10] == 0x758B4B8B && s.b[11] == 0x83E82A7F
             && s.b[12] == 0xBC968828 && s.b[13] == 0xE6E00BF7 && s.b[14] == 0xBA839E55 && s.b[15] == 0x9B491C60
    requires s.c[0] == 0xB555C7FE && s.c[1] == 0x3E7106A7 && s.c[2] == 0xA72A6641 && s.c[3] == 0x93015272
             && s.c[4] == 0xDA28C30E && s.c[5] == 0x696FD97D && s.c[6] == 0x9CB6C088 && s.c[7] == 0x0AFE4119
             && s.c[8] == 0xA6E0372D && s.c[9] == 0x5138C2ED && s.c[10] == 0xBE216420 && s.c[11] == 0xB38B89AB
             && s.c[12] == 0x3EA8BA87 && s.c[13] == 0x3299AE01 && s.c[14] == 0x30924EF2 && s.c[15] == 0x55CB35C4
    requires m[0] == 0x00000110 && m[1] == 0x00000111 && m[2] == 0x00000112 && m[3] == 0x00000113 && m[4] == 0x00000114
             && m[5] == 0x00000115 && m[6] == 0x00000116 && m[7] == 0x00000117 && m[8] == 0x00000118
             && m[9] == 0x00000119 && m[10] == 0x0000011A && m[11] == 0x0000011B && m[12] == 0x0000011C
             && m[13] == 0x0000011D && m[14] == 0x0000011E && m[15] == 0x0000011F
    ensures Finalize(s, m) == TableCore()
  {
    hide TableCore;
    assert Finalize(s, m).c == s.b;
    SecondC(s.b);
    hide Finalize;
    SecondFinalA(s, m);
    SecondFinalB(s, m);
    SecondA(Finalize(s, m).a);
    SecondB(Finalize(s, m).b);
  }

  lemma SecondCompressed()
    ensures CompressBlock(MiddleCore(), Next(FirstCounter()), BlockAt(CountingBlock(272), 0)) == TableCore()
  {
    hide Rounds, IsSecond, Finalize, CountingBlock, BlockAt, TableCore;
    var m := BlockAt(CountingBlock(272), 0);
    var s := Prepare(MiddleCore(), Next(FirstCounter()), m);
    SecondPrepared(m);
    SecondRounds(s, m);
    SecondBlock();
    SecondFinal(Rounds(s, m, 48), m);
  }

  // ----- the table

  lemma InitialIsTable()
    ensures InitialCore() == TableCore()
  {
    FirstCompressed();
    SecondCompressed();
    hide CompressBlock, CountingBlock, BlockAt, MiddleCore, TableCore;
  }

  /** The table of the assembly version is the state after the two prefix blocks. */
  lemma TableIsInitialState()
    ensures IV() == InitialCore().a + InitialCore().b + InitialCore().c
  {
    InitialIsTable();
    TableParts();
    hide InitialCore, TableCore, IV;
  }

  lemma TableParts()
    ensures IV() == TableCore().a + TableCore().b + TableCore().c
  {
  }
}
