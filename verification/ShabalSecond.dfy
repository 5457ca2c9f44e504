/**
 The 48 rounds of the second prefix block of Shabal-256, word by word.
 */
module ShabalSecond {
  import opened Shabal
  import opened ShabalTape

  /** Words 272 to 287 on entering the rounds, counter 0. */
  predicate IsSecond(s: Core, m: Block) {
    && s.a[0] == 0x79F023D8 && s.a[1] == 0x708745B8 && s.a[2] == 0xB2D69F0A && s.a[3] == 0xAB24079A
    && s.a[4] == 0x4C77DDAC && s.a[5] == 0xB4B92870 && s.a[6] == 0x88E6ECE2 && s.a[7] == 0x747657E4
    && s.a[8] == 0x3395A2D7 && s.a[9] == 0x5A9826A0 && s.a[10] == 0x0D578B50 && s.a[11] == 0x68F97918
    && s.b[0] == 0x00200000 && s.b[1] == 0x00200000 && s.b[2] == 0x00200000 && s.b[3] == 0x00200000
    && s.b[4] == 0x00200000 && s.b[5] == 0x00200000 && s.b[6] == 0x00200000 && s.b[7] == 0x00200000
    && s.b[8] == 0x00200000 && s.b[9] == 0x00200000 && s.b[10] == 0x00200000 && s.b[11] == 0x00200000
    && s.b[12] == 0x00200000 && s.b[13] == 0x00200000 && s.b[14] == 0x00200000 && s.b[15] == 0x00200000
    && s.c[0] == 0xB555C7FE && s.c[1] == 0x3E7106A7 && s.c[2] == 0xA72A6641 && s.c[3] == 0x93015272
    && s.c[4] == 0xDA28C30E && s.c[5] == 0x696FD97D && s.c[6] == 0x9CB6C088 && s.c[7] == 0x0AFE4119
    && s.c[8] == 0xA6E0372D && s.c[9] == 0x5138C2ED && s.c[10] == 0xBE216420 && s.c[11] == 0xB38B89AB
    && s.c[12] == 0x3EA8BA87 && s.c[13] == 0x3299AE01 && s.c[14] == 0x30924EF2 && s.c[15] == 0x55CB35C4
    && m[0] == 0x00000110 && m[1] == 0x00000111 && m[2] == 0x00000112 && m[3] == 0x00000113 && m[4] == 0x00000114
    && m[5] == 0x00000115 && m[6] == 0x00000116 && m[7] == 0x00000117 && m[8] == 0x00000118 && m[9] == 0x00000119
    && m[10] == 0x0000011A && m[11] == 0x0000011B && m[12] == 0x0000011C && m[13] == 0x0000011D && m[14] == 0x0000011E
    && m[15] == 0x0000011F
  }

  lemma SecondWords0()
    ensures Written(0x79F023D8, 0x68F97918, 0x00200000, 0x00200000, 0x00200000, 0xA6E0372D, 0x00000110, 0x00200000,
                    0x552736DB, 0xAA98C924)
    ensures Written(0x708745B8, 0x552736DB, 0x00200000, 0x00200000, 0x00200000, 0x0AFE4119, 0x00000111, 0x00200000,
                    0x5A37F06B, 0xA5880F94)
    ensures Written(0xB2D69F0A, 0x5A37F06B, 0x00200000, 0x00200000, 0x00200000, 0x9CB6C088, 0x00000112, 0x00200000,
                    0xE664BB1D, 0x19DB44E2)
    ensures Written(0xAB24079A, 0xE664BB1D, 0xAA98C924, 0x00200000, 0x00200000, 0x696FD97D, 0x00000113, 0x00200000,
                    0x9E1CEB60, 0x61A3149F)
  {
  }

  lemma SecondStart0(s: Core, m: Block)
    requires IsSecond(s, m)
    ensures s.c[8] == 0xA6E0372D && m[0] == 0x00000110 && s.c[7] == 0x0AFE4119 && m[1] == 0x00000111
            && s.c[6] == 0x9CB6C088 && m[2] == 0x00000112 && s.c[5] == 0x696FD97D && m[3] == 0x00000113
    ensures TapeA(s, m, 0) == 0x79F023D8 && TapeA(s, m, 1) == 0x708745B8 && TapeA(s, m, 2) == 0xB2D69F0A
            && TapeA(s, m, 3) == 0xAB24079A && TapeA(s, m, 11) == 0x68F97918 && TapeB(s, m, 0) == 0x00200000
            && TapeB(s, m, 1) == 0x00200000 && TapeB(s, m, 2) == 0x00200000 && TapeB(s, m, 3) == 0x00200000
            && TapeB(s, m, 6) == 0x00200000 && TapeB(s, m, 7) == 0x00200000 && TapeB(s, m, 8) == 0x00200000
            && TapeB(s, m, 9) == 0x00200000 && TapeB(s, m, 10) == 0x00200000 && TapeB(s, m, 11) == 0x00200000
            && TapeB(s, m, 12) == 0x00200000 && TapeB(s, m, 13) == 0x00200000 && TapeB(s, m, 14) == 0x00200000
            && TapeB(s, m, 15) == 0x00200000
  {
    hide Rounds;
  }

  lemma Second0(s: Core, m: Block)
    requires IsSecond(s, m)
    ensures TapeA(s, m, 12) == 0x552736DB && TapeB(s, m, 16) == 0xAA98C924
    ensures TapeA(s, m, 13) == 0x5A37F06B && TapeB(s, m, 17) == 0xA5880F94
    ensures TapeA(s, m, 14) == 0xE664BB1D && TapeB(s, m, 18) == 0x19DB44E2
    ensures TapeA(s, m, 15) == 0x9E1CEB60 && TapeB(s, m, 19) == 0x61A3149F
  {
    hide Written, Rounds, TapeA, TapeB, IsSecond;
    SecondStart0(s, m);
    SecondWords0();
    Write(s, m, 0, 8, 0, 0x79F023D8, 0x68F97918, 0x00200000, 0x00200000, 0x00200000, 0x00200000, 0x552736DB,
          0xAA98C924);
    Write(s, m, 1, 7, 1, 0x708745B8, 0x552736DB, 0x00200000, 0x00200000, 0x00200000, 0x00200000, 0x5A37F06B,
          0xA5880F94);
    Write(s, m, 2, 6, 2, 0xB2D69F0A, 0x5A37F06B, 0x00200000, 0x00200000, 0x00200000, 0x00200000, 0xE664BB1D,
          0x19DB44E2);
    Write(s, m, 3, 5, 3, 0xAB24079A, 0xE664BB1D, 0xAA98C924, 0x00200000, 0x00200000, 0x00200000, 0x9E1CEB60,
          0x61A3149F);
  }

  lemma SecondWords1()
    ensures Written(0x4C77DDAC, 0x9E1CEB60, 0xA5880F94, 0x00200000, 0x00200000, 0xDA28C30E, 0x00000114, 0x00200000,
                    0x2B03CF2C, 0xD4BC30D3)
    ensures Written(0xB4B92870, 0x2B03CF2C, 0x19DB44E2, 0x00200000, 0x00200000, 0x93015272, 0x00000115, 0x00200000,
                    0xFED97162, 0x01668E9D)
    ensures Written(0x88E6ECE2, 0xFED97162, 0x61A3149F, 0x00200000, 0x00200000, 0xA72A6641, 0x00000116, 0x00200000,
                    0x7F90F2B4, 0x802F0D4B)
    ensures Written(0x747657E4, 0x7F90F2B4, 0xD4BC30D3, 0xAA98C924, 0x00200000, 0x3E7106A7, 0x00000117, 0x00200000,
                    0x4069B7E1, 0xBFD6481E)
  {
  }

  lemma SecondStart1(s: Core, m: Block)
    requires IsSecond(s, m)
    ensures s.c[4] == 0xDA28C30E && m[4] == 0x00000114 && s.c[3] == 0x93015272 && m[5] == 0x00000115
            && s.c[2] == 0xA72A6641 && m[6] == 0x00000116 && s.c[1] == 0x3E7106A7 && m[7] == 0x00000117
    ensures TapeA(s, m, 4) == 0x4C77DDAC && TapeA(s, m, 5) == 0xB4B92870 && TapeA(s, m, 6) == 0x88E6ECE2
            && TapeA(s, m, 7) == 0x747657E4 && TapeB(s, m, 4) == 0x00200000 && TapeB(s, m, 5) == 0x00200000
            && TapeB(s, m, 6) == 0x00200000 && TapeB(s, m, 7) == 0x00200000 && TapeB(s, m, 10) == 0x00200000
            && TapeB(s, m, 11) == 0x00200000 && TapeB(s, m, 12) == 0x00200000 && TapeB(s, m, 13) == 0x00200000
            && TapeB(s, m, 14) == 0x00200000 && TapeB(s, m, 15) == 0x00200000
  {
    hide Rounds;
  }

  lemma Second1(s: Core, m: Block)
    requires IsSecond(s, m)
    ensures TapeA(s, m, 16) == 0x2B03CF2C && TapeB(s, m, 20) == 0xD4BC30D3
    ensures TapeA(s, m, 17) == 0xFED97162 && TapeB(s, m, 21) == 0x01668E9D
    ensures TapeA(s, m, 18) == 0x7F90F2B4 && TapeB(s, m, 22) == 0x802F0D4B
    ensures TapeA(s, m, 19) == 0x4069B7E1 && TapeB(s, m, 23) == 0xBFD6481E
  {
    hide Written, Rounds, TapeA, TapeB, IsSecond;
    SecondStart1(s, m);
    SecondWords1();
    Second0(s, m);
    Write(s, m, 4, 4, 4, 0x4C77DDAC, 0x9E1CEB60, 0xA5880F94, 0x00200000, 0x00200000, 0x00200000, 0x2B03CF2C,
          0xD4BC30D3);
    Write(s, m, 5, 3, 5, 0xB4B92870, 0x2B03CF2C, 0x19DB44E2, 0x00200000, 0x00200000, 0x00200000, 0xFED97162,
          0x01668E9D);
    Write(s, m, 6, 2, 6, 0x88E6ECE2, 0xFED97162, 0x61A3149F, 0x00200000, 0x00200000, 0x00200000, 0x7F90F2B4,
          0x802F0D4B);
    Write(s, m, 7, 1, 7, 0x747657E4, 0x7F90F2B4, 0xD4BC30D3, 0xAA98C924, 0x00200000, 0x00200000, 0x4069B7E1,
          0xBFD6481E);
  }

  lemma SecondWords2()
    ensures Written(0x3395A2D7, 0x4069B7E1, 0x01668E9D, 0xA5880F94, 0x00200000, 0xB555C7FE, 0x00000118, 0x00200000,
                    0xCCB74C96, 0x3308B369)
    ensures Written(0x5A9826A0, 0xCCB74C96, 0x802F0D4B, 0x19DB44E2, 0x00200000, 0x55CB35C4, 0x00000119, 0x00200000,
                    0x09778D59, 0xF6C872A6)
    ensures Written(0x0D578B50, 0x09778D59, 0xBFD6481E, 0x61A3149F, 0xAA98C924, 0x30924EF2, 0x0000011A, 0x00200000,
                    0x6B24AB90, 0x949B546F)
    ensures Written(0x68F97918, 0x6B24AB90, 0x3308B369, 0xD4BC30D3, 0xA5880F94, 0x3299AE01, 0x0000011B, 0x00200000,
                    0x80A11478, 0x7F1EEB87)
  {
  }

  lemma SecondStart2(s: Core, m: Block)
    requires IsSecond(s, m)
    ensures s.c[0] == 0xB555C7FE && m[8] == 0x00000118 && s.c[15] == 0x55CB35C4 && m[9] == 0x00000119
            && s.c[14] == 0x30924EF2 && m[10] == 0x0000011A && s.c[13] == 0x3299AE01 && m[11] == 0x0000011B
    ensures TapeA(s, m, 8) == 0x3395A2D7 && TapeA(s, m, 9) == 0x5A9826A0 && TapeA(s, m, 10) == 0x0D578B50
            && TapeA(s, m, 11) == 0x68F97918 && TapeB(s, m, 8) == 0x00200000 && TapeB(s, m, 9) == 0x00200000
            && TapeB(s, m, 10) == 0x00200000 && TapeB(s, m, 11) == 0x00200000 && TapeB(s, m, 14) == 0x00200000
            && TapeB(s, m, 15) == 0x00200000
  {
    hide Rounds;
  }

  lemma Second2(s: Core, m: Block)
    requires IsSecond(s, m)
    ensures TapeA(s, m, 20) == 0xCCB74C96 && TapeB(s, m, 24) == 0x3308B369
    ensures TapeA(s, m, 21) == 0x09778D59 && TapeB(s, m, 25) == 0xF6C872A6
    ensures TapeA(s, m, 22) == 0x6B24AB90 && TapeB(s, m, 26) == 0x949B546F
    ensures TapeA(s, m, 23) == 0x80A11478 && TapeB(s, m, 27) == 0x7F1EEB87
  {
    hide Written, Rounds, TapeA, TapeB, IsSecond;
    SecondStart2(s, m);
    SecondWords2();
    Second0(s, m);
    Second1(s, m);
    Write(s, m, 8, 0, 8, 0x3395A2D7, 0x4069B7E1, 0x01668E9D, 0xA5880F94, 0x00200000, 0x00200000, 0xCCB74C96,
          0x3308B369);
    Write(s, m, 9, 15, 9, 0x5A9826A0, 0xCCB74C96, 0x802F0D4B, 0x19DB44E2, 0x00200000, 0x00200000, 0x09778D59,
          0xF6C872A6);
    Write(s, m, 10, 14, 10, 0x0D578B50, 0x09778D59, 0xBFD6481E, 0x61A3149F, 0xAA98C924, 0x00200000, 0x6B24AB90,
          0x949B546F);
    Write(s, m, 11, 13, 11, 0x68F97918, 0x6B24AB90, 0x3308B369, 0xD4BC30D3, 0xA5880F94, 0x00200000, 0x80A11478,
          0x7F1EEB87);
  }

  lemma SecondWords3()
    ensures Written(0x552736DB, 0x80A11478, 0xF6C872A6, 0x01668E9D, 0x19DB44E2, 0x3EA8BA87, 0x0000011C, 0x00200000,
                    0x7F0490C3, 0x80BB6F3C)
    ensures Written(0x5A37F06B, 0x7F0490C3, 0x949B546F, 0x802F0D4B, 0x61A3149F, 0xB38B89AB, 0x0000011D, 0x00200000,
                    0x946910EC, 0x6BD6EF13)
    ensures Written(0xE664BB1D, 0x946910EC, 0x7F1EEB87, 0xBFD6481E, 0xD4BC30D3, 0xBE216420, 0x0000011E, 0x00200000,
                    0x827CA63E, 0x7DC359C1)
    ensures Written(0x9E1CEB60, 0x827CA63E, 0x80BB6F3C, 0x3308B369, 0x01668E9D, 0x5138C2ED, 0x0000011F, 0x00200000,
                    0x409A1072, 0xBF25EF8D)
  {
  }

  lemma SecondStart3(s: Core, m: Block)
    requires IsSecond(s, m)
    ensures s.c[12] == 0x3EA8BA87 && m[12] == 0x0000011C && s.c[11] == 0xB38B89AB && m[13] == 0x0000011D
            && s.c[10] == 0xBE216420 && m[14] == 0x0000011E && s.c[9] == 0x5138C2ED && m[15] == 0x0000011F
    ensures TapeB(s, m, 12) == 0x00200000 && TapeB(s, m, 13) == 0x00200000 && TapeB(s, m, 14) == 0x00200000
            && TapeB(s, m, 15) == 0x00200000
  {
    hide Rounds;
  }

  lemma Second3(s: Core, m: Block)
    requires IsSecond(s, m)
    ensures TapeA(s, m, 24) == 0x7F0490C3 && TapeB(s, m, 28) == 0x80BB6F3C
    ensures TapeA(s, m, 25) == 0x946910EC && TapeB(s, m, 29) == 0x6BD6EF13
    ensures TapeA(s, m, 26) == 0x827CA63E && TapeB(s, m, 30) == 0x7DC359C1
    ensures TapeA(s, m, 27) == 0x409A1072 && TapeB(s, m, 31) == 0xBF25EF8D
  {
    hide Written, Rounds, TapeA, TapeB, IsSecond;
    SecondStart3(s, m);
    SecondWords3();
    Second0(s, m);
    Second1(s, m);
    Second2(s, m);
    Write(s, m, 12, 12, 12, 0x552736DB, 0x80A11478, 0xF6C872A6, 0x01668E9D, 0x19DB44E2, 0x00200000, 0x7F0490C3,
          0x80BB6F3C);
    Write(s, m, 13, 11, 13, 0x5A37F06B, 0x7F0490C3, 0x949B546F, 0x802F0D4B, 0x61A3149F, 0x00200000, 0x946910EC,
          0x6BD6EF13);
    Write(s, m, 14, 10, 14, 0xE664BB1D, 0x946910EC, 0x7F1EEB87, 0xBFD6481E, 0xD4BC30D3, 0x00200000, 0x827CA63E,
          0x7DC359C1);
    Write(s, m, 15, 9, 15, 0x9E1CEB60, 0x827CA63E, 0x80BB6F3C, 0x3308B369, 0x01668E9D, 0x00200000, 0x409A1072,
          0xBF25EF8D);
  }

  lemma SecondWords4()
    ensures Written(0x2B03CF2C, 0x409A1072, 0x6BD6EF13, 0xF6C872A6, 0x802F0D4B, 0xA6E0372D, 0x00000110, 0xAA98C924,
                    0xF3ED9027, 0x5923FD91)
    ensures Written(0xFED97162, 0xF3ED9027, 0x7DC359C1, 0x949B546F, 0xBFD6481E, 0x0AFE4119, 0x00000111, 0xA5880F94,
                    0x290439AE, 0x9DEBD978)
    ensures Written(0x7F90F2B4, 0x290439AE, 0xBF25EF8D, 0x7F1EEB87, 0x3308B369, 0x9CB6C088, 0x00000112, 0x19DB44E2,
                    0xAA0C583B, 0x66452E00)
    ensures Written(0x4069B7E1, 0xAA0C583B, 0x5923FD91, 0x80BB6F3C, 0xF6C872A6, 0x696FD97D, 0x00000113, 0x61A3149F,
                    0xB9A9271C, 0x8510F1DD)
  {
  }

  lemma SecondStart4(s: Core, m: Block)
    requires IsSecond(s, m)
    ensures s.c[8] == 0xA6E0372D && m[0] == 0x00000110 && s.c[7] == 0x0AFE4119 && m[1] == 0x00000111
            && s.c[6] == 0x9CB6C088 && m[2] == 0x00000112 && s.c[5] == 0x696FD97D && m[3] == 0x00000113
  {
    hide Rounds;
  }

  lemma Second4(s: Core, m: Block)
    requires IsSecond(s, m)
    ensures TapeA(s, m, 28) == 0xF3ED9027 && TapeB(s, m, 32) == 0x5923FD91
    ensures TapeA(s, m, 29) == 0x290439AE && TapeB(s, m, 33) == 0x9DEBD978
    ensures TapeA(s, m, 30) == 0xAA0C583B && TapeB(s, m, 34) == 0x66452E00
    ensures TapeA(s, m, 31) == 0xB9A9271C && TapeB(s, m, 35) == 0x8510F1DD
  {
    hide Written, Rounds, TapeA, TapeB, IsSecond;
    SecondStart4(s, m);
    SecondWords4();
    Second0(s, m);
    Second1(s, m);
    Second2(s, m);
    Second3(s, m);
    Write(s, m, 16, 8, 0, 0x2B03CF2C, 0x409A1072, 0x6BD6EF13, 0xF6C872A6, 0x802F0D4B, 0xAA98C924, 0xF3ED9027,
          0x5923FD91);
    Write(s, m, 17, 7, 1, 0xFED97162, 0xF3ED9027, 0x7DC359C1, 0x949B546F, 0xBFD6481E, 0xA5880F94, 0x290439AE,
          0x9DEBD978);
    Write(s, m, 18, 6, 2, 0x7F90F2B4, 0x290439AE, 0xBF25EF8D, 0x7F1EEB87, 0x3308B369, 0x19DB44E2, 0xAA0C583B,
          0x66452E00);
    Write(s, m, 19, 5, 3, 0x4069B7E1, 0xAA0C583B, 0x5923FD91, 0x80BB6F3C, 0xF6C872A6, 0x61A3149F, 0xB9A9271C,
          0x8510F1DD);
  }

  lemma SecondWords5()
    ensures Written(0xCCB74C96, 0xB9A9271C, 0x9DEBD978, 0x6BD6EF13, 0x949B546F, 0xDA28C30E, 0x00000114, 0xD4BC30D3,
                    0x10A66C48, 0x4621F210)
    ensures Written(0x09778D59, 0x10A66C48, 0x66452E00, 0x7DC359C1, 0x7F1EEB87, 0x93015272, 0x00000115, 0x01668E9D,
                    0xD8CCDB49, 0x25FE398C)
    ensures Written(0x6B24AB90, 0xD8CCDB49, 0x8510F1DD, 0xBF25EF8D, 0x80BB6F3C, 0xA72A6641, 0x00000116, 0x802F0D4B,
                    0x02B680C7, 0xFD1765AF)
    ensures Written(0x80A11478, 0x02B680C7, 0x4621F210, 0x5923FD91, 0x6BD6EF13, 0x3E7106A7, 0x00000117, 0xBFD6481E,
                    0xAB645FCF, 0x2B37300D)
  {
  }

  lemma SecondStart5(s: Core, m: Block)
    requires IsSecond(s, m)
    ensures s.c[4] == 0xDA28C30E && m[4] == 0x00000114 && s.c[3] == 0x93015272 && m[5] == 0x00000115
            && s.c[2] == 0xA72A6641 && m[6] == 0x00000116 && s.c[1] == 0x3E7106A7 && m[7] == 0x00000117
  {
    hide Rounds;
  }

  lemma Second5(s: Core, m: Block)
    requires IsSecond(s, m)
    ensures TapeA(s, m, 32) == 0x10A66C48 && TapeB(s, m, 36) == 0x4621F210
    ensures TapeA(s, m, 33) == 0xD8CCDB49 && TapeB(s, m, 37) == 0x25FE398C
    ensures TapeA(s, m, 34) == 0x02B680C7 && TapeB(s, m, 38) == 0xFD1765AF
    ensures TapeA(s, m, 35) == 0xAB645FCF && TapeB(s, m, 39) == 0x2B37300D
  {
    hide Written, Rounds, TapeA, TapeB, IsSecond;
    SecondStart5(s, m);
    SecondWords5();
    Second1(s, m);
    Second2(s, m);
    Second3(s, m);
    Second4(s, m);
    Write(s, m, 20, 4, 4, 0xCCB74C96, 0xB9A9271C, 0x9DEBD978, 0x6BD6EF13, 0x949B546F, 0xD4BC30D3, 0x10A66C48,
          0x4621F210);
    Write(s, m, 21, 3, 5, 0x09778D59, 0x10A66C48, 0x66452E00, 0x7DC359C1, 0x7F1EEB87, 0x01668E9D, 0xD8CCDB49,
          0x25FE398C);
    Write(s, m, 22, 2, 6, 0x6B24AB90, 0xD8CCDB49, 0x8510F1DD, 0xBF25EF8D, 0x80BB6F3C, 0x802F0D4B, 0x02B680C7,
          0xFD1765AF);
    Write(s, m, 23, 1, 7, 0x80A11478, 0x02B680C7, 0x4621F210, 0x5923FD91, 0x6BD6EF13, 0xBFD6481E, 0xAB645FCF,
          0x2B37300D);
  }

  lemma SecondWords6()
    ensures Written(0x7F0490C3, 0xAB645FCF, 0x25FE398C, 0x9DEBD978, 0x7DC359C1, 0xB555C7FE, 0x00000118, 0x3308B369,
                    0xD455C979, 0x4DBB5054)
    ensures Written(0x946910EC, 0xD455C979, 0xFD1765AF, 0x66452E00, 0xBF25EF8D, 0x55CB35C4, 0x00000119, 0xF6C872A6,
                    0x9F6F4358, 0x8D0059EA)
    ensures Written(0x827CA63E, 0x9F6F4358, 0x2B37300D, 0x8510F1DD, 0x5923FD91, 0x30924EF2, 0x0000011A, 0x949B546F,
                    0x7F3D0246, 0xA9F45566)
    ensures Written(0x409A1072, 0x7F3D0246, 0x4DBB5054, 0x4621F210, 0x9DEBD978, 0x3299AE01, 0x0000011B, 0x7F1EEB87,
                    0xE8A1F260, 0xE963DA91)
  {
  }

  lemma SecondStart6(s: Core, m: Block)
    requires IsSecond(s, m)
    ensures s.c[0] == 0xB555C7FE && m[8] == 0x00000118 && s.c[15] == 0x55CB35C4 && m[9] == 0x00000119
            && s.c[14] == 0x30924EF2 && m[10] == 0x0000011A && s.c[13] == 0x3299AE01 && m[11] == 0x0000011B
  {
    hide Rounds;
  }

  lemma Second6(s: Core, m: Block)
    requires IsSecond(s, m)
    ensures TapeA(s, m, 36) == 0xD455C979 && TapeB(s, m, 40) == 0x4DBB5054
    ensures TapeA(s, m, 37) == 0x9F6F4358 && TapeB(s, m, 41) == 0x8D0059EA
    ensures TapeA(s, m, 38) == 0x7F3D0246 && TapeB(s, m, 42) == 0xA9F45566
    ensures TapeA(s, m, 39) == 0xE8A1F260 && TapeB(s, m, 43) == 0xE963DA91
  {
    hide Written, Rounds, TapeA, TapeB, IsSecond;
    SecondStart6(s, m);
    SecondWords6();
    Second2(s, m);
    Second3(s, m);
    Second4(s, m);
    Second5(s, m);
    Write(s, m, 24, 0, 8, 0x7F0490C3, 0xAB645FCF, 0x25FE398C, 0x9DEBD978, 0x7DC359C1, 0x3308B369, 0xD455C979,
          0x4DBB5054);
    Write(s, m, 25, 15, 9, 0x946910EC, 0xD455C979, 0xFD1765AF, 0x66452E00, 0xBF25EF8D, 0xF6C872A6, 0x9F6F4358,
          0x8D0059EA);
    Write(s, m, 26, 14, 10, 0x827CA63E, 0x9F6F4358, 0x2B37300D, 0x8510F1DD, 0x5923FD91, 0x949B546F, 0x7F3D0246,
          0xA9F45566);
    Write(s, m, 27, 13, 11, 0x409A1072, 0x7F3D0246, 0x4DBB5054, 0x4621F210, 0x9DEBD978, 0x7F1EEB87, 0xE8A1F260,
          0xE963DA91);
  }

  lemma SecondWords7()
    ensures Written(0xF3ED9027, 0xE8A1F260, 0x8D0059EA, 0x25FE398C, 0x66452E00, 0x3EA8BA87, 0x0000011C, 0x80BB6F3C,
                    0xBE9C04EA, 0x4015256C)
    ensures Written(0x290439AE, 0xBE9C04EA, 0xA9F45566, 0xFD1765AF, 0x8510F1DD, 0xB38B89AB, 0x0000011D, 0x6BD6EF13,
                    0x15A315D0, 0x3DF13409)
    ensures Written(0xAA0C583B, 0x15A315D0, 0xE963DA91, 0x2B37300D, 0x4621F210, 0xBE216420, 0x0000011E, 0x7DC359C1,
                    0x279AC5A8, 0x23E389D5)
    ensures Written(0xB9A9271C, 0x279AC5A8, 0x4015256C, 0x4DBB5054, 0x25FE398C, 0x5138C2ED, 0x0000011F, 0xBF25EF8D,
                    0x1C34F0F3, 0x9D80D017)
  {
  }

  lemma SecondStart7(s: Core, m: Block)
    requires IsSecond(s, m)
    ensures s.c[12] == 0x3EA8BA87 && m[12] == 0x0000011C && s.c[11] == 0xB38B89AB && m[13] == 0x0000011D
            && s.c[10] == 0xBE216420 && m[14] == 0x0000011E && s.c[9] == 0x5138C2ED && m[15] == 0x0000011F
  {
    hide Rounds;
  }

  lemma Second7(s: Core, m: Block)
    requires IsSecond(s, m)
    ensures TapeA(s, m, 40) == 0xBE9C04EA && TapeB(s, m, 44) == 0x4015256C
    ensures TapeA(s, m, 41) == 0x15A315D0 && TapeB(s, m, 45) == 0x3DF13409
    ensures TapeA(s, m, 42) == 0x279AC5A8 && TapeB(s, m, 46) == 0x23E389D5
    ensures TapeA(s, m, 43) == 0x1C34F0F3 && TapeB(s, m, 47) == 0x9D80D017
  {
    hide Written, Rounds, TapeA, TapeB, IsSecond;
    SecondStart7(s, m);
    SecondWords7();
    Second3(s, m);
    Second4(s, m);
    Second5(s, m);
    Second6(s, m);
    Write(s, m, 28, 12, 12, 0xF3ED9027, 0xE8A1F260, 0x8D0059EA, 0x25FE398C, 0x66452E00, 0x80BB6F3C, 0xBE9C04EA,
          0x4015256C);
    Write(s, m, 29, 11, 13, 0x290439AE, 0xBE9C04EA, 0xA9F45566, 0xFD1765AF, 0x8510F1DD, 0x6BD6EF13, 0x15A315D0,
          0x3DF13409);
    Write(s, m, 30, 10, 14, 0xAA0C583B, 0x15A315D0, 0xE963DA91, 0x2B37300D, 0x4621F210, 0x7DC359C1, 0x279AC5A8,
          0x23E389D5);
    Write(s, m, 31, 9, 15, 0xB9A9271C, 0x279AC5A8, 0x4015256C, 0x4DBB5054, 0x25FE398C, 0xBF25EF8D, 0x1C34F0F3,
          0x9D80D017);
  }

  lemma SecondWords8()
    ensures Written(0x10A66C48, 0x1C34F0F3, 0x3DF13409, 0x8D0059EA, 0xFD1765AF, 0xA6E0372D, 0x00000110, 0x5923FD91,
                    0xF9BDF4EC, 0xB405F031)
    ensures Written(0xD8CCDB49, 0xF9BDF4EC, 0x23E389D5, 0xA9F45566, 0x2B37300D, 0x0AFE4119, 0x00000111, 0x9DEBD978,
                    0x000B73B4, 0xC4233EBA)
    ensures Written(0x02B680C7, 0x000B73B4, 0x9D80D017, 0xE963DA91, 0x4DBB5054, 0x9CB6C088, 0x00000112, 0x66452E00,
                    0x80069A86, 0xB3733979)
    ensures Written(0xAB645FCF, 0x80069A86, 0xB405F031, 0x4015256C, 0x8D0059EA, 0x696FD97D, 0x00000113, 0x8510F1DD,
                    0x35038111, 0xC0DD9D55)
  {
  }

  lemma SecondStart8(s: Core, m: Block)
    requires IsSecond(s, m)
    ensures s.c[8] == 0xA6E0372D && m[0] == 0x00000110 && s.c[7] == 0x0AFE4119 && m[1] == 0x00000111
            && s.c[6] == 0x9CB6C088 && m[2] == 0x00000112 && s.c[5] == 0x696FD97D && m[3] == 0x00000113
  {
    hide Rounds;
  }

  lemma Second8(s: Core, m: Block)
    requires IsSecond(s, m)
    ensures TapeA(s, m, 44) == 0xF9BDF4EC && TapeB(s, m, 48) == 0xB405F031
    ensures TapeA(s, m, 45) == 0x000B73B4 && TapeB(s, m, 49) == 0xC4233EBA
    ensures TapeA(s, m, 46) == 0x80069A86 && TapeB(s, m, 50) == 0xB3733979
    ensures TapeA(s, m, 47) == 0x35038111 && TapeB(s, m, 51) == 0xC0DD9D55
  {
    hide Written, Rounds, TapeA, TapeB, IsSecond;
    SecondStart8(s, m);
    SecondWords8();
    Second4(s, m);
    Second5(s, m);
    Second6(s, m);
    Second7(s, m);
    Write(s, m, 32, 8, 0, 0x10A66C48, 0x1C34F0F3, 0x3DF13409, 0x8D0059EA, 0xFD1765AF, 0x5923FD91, 0xF9BDF4EC,
          0xB405F031);
    Write(s, m, 33, 7, 1, 0xD8CCDB49, 0xF9BDF4EC, 0x23E389D5, 0xA9F45566, 0x2B37300D, 0x9DEBD978, 0x000B73B4,
          0xC4233EBA);
    Write(s, m, 34, 6, 2, 0x02B680C7, 0x000B73B4, 0x9D80D017, 0xE963DA91, 0x4DBB5054, 0x66452E00, 0x80069A86,
          0xB3733979);
    Write(s, m, 35, 5, 3, 0xAB645FCF, 0x80069A86, 0xB405F031, 0x4015256C, 0x8D0059EA, 0x8510F1DD, 0x35038111,
          0xC0DD9D55);
  }

  lemma SecondWords9()
    ensures Written(0xD455C979, 0x35038111, 0xC4233EBA, 0x3DF13409, 0xA9F45566, 0xDA28C30E, 0x00000114, 0x4621F210,
                    0xB6A03371, 0xC51C28AE)
    ensures Written(0x9F6F4358, 0xB6A03371, 0xB3733979, 0x23E389D5, 0xE963DA91, 0x93015272, 0x00000115, 0x25FE398C,
                    0x17243406, 0xA327B8E1)
    ensures Written(0x7F3D0246, 0x17243406, 0xC0DD9D55, 0x9D80D017, 0x4015256C, 0xA72A6641, 0x00000116, 0xFD1765AF,
                    0x531455C7, 0x56C56167)
    ensures Written(0xE8A1F260, 0x531455C7, 0xC51C28AE, 0xB405F031, 0x3DF13409, 0x3E7106A7, 0x00000117, 0x2B37300D,
                    0x44F0DBD6, 0xED614433)
  {
  }

  lemma SecondStart9(s: Core, m: Block)
    requires IsSecond(s, m)
    ensures s.c[4] == 0xDA28C30E && m[4] == 0x00000114 && s.c[3] == 0x93015272 && m[5] == 0x00000115
            && s.c[2] == 0xA72A6641 && m[6] == 0x00000116 && s.c[1] == 0x3E7106A7 && m[7] == 0x00000117
  {
    hide Rounds;
  }

  lemma Second9(s: Core, m: Block)
    requires IsSecond(s, m)
    ensures TapeA(s, m, 48) == 0xB6A03371 && TapeB(s, m, 52) == 0xC51C28AE
    ensures TapeA(s, m, 49) == 0x17243406 && TapeB(s, m, 53) == 0xA327B8E1
    ensures TapeA(s, m, 50) == 0x531455C7 && TapeB(s, m, 54) == 0x56C56167
    ensures TapeA(s, m, 51) == 0x44F0DBD6 && TapeB(s, m, 55) == 0xED614433
  {
    hide Written, Rounds, TapeA, TapeB, IsSecond;
    SecondStart9(s, m);
    SecondWords9();
    Second5(s, m);
    Second6(s, m);
    Second7(s, m);
    Second8(s, m);
    Write(s, m, 36, 4, 4, 0xD455C979, 0x35038111, 0xC4233EBA, 0x3DF13409, 0xA9F45566, 0x4621F210, 0xB6A03371,
          0xC51C28AE);
    Write(s, m, 37, 3, 5, 0x9F6F4358, 0xB6A03371, 0xB3733979, 0x23E389D5, 0xE963DA91, 0x25FE398C, 0x17243406,
          0xA327B8E1);
    Write(s, m, 38, 2, 6, 0x7F3D0246, 0x17243406, 0xC0DD9D55, 0x9D80D017, 0x4015256C, 0xFD1765AF, 0x531455C7,
          0x56C56167);
    Write(s, m, 39, 1, 7, 0xE8A1F260, 0x531455C7, 0xC51C28AE, 0xB405F031, 0x3DF13409, 0x2B37300D, 0x44F0DBD6,
          0xED614433);
  }

  lemma SecondWords10()
    ensures Written(0xBE9C04EA, 0x44F0DBD6, 0xA327B8E1, 0xC4233EBA, 0x23E389D5, 0xB555C7FE, 0x00000118, 0x4DBB5054,
                    0xEC3CC237, 0x88B59D60)
    ensures Written(0x15A315D0, 0xEC3CC237, 0x56C56167, 0xB3733979, 0x9D80D017, 0x55CB35C4, 0x00000119, 0x8D0059EA,
                    0x851D8290, 0x60E2CEBA)
    ensures Written(0x279AC5A8, 0x851D8290, 0xED614433, 0xC0DD9D55, 0xB405F031, 0x30924EF2, 0x0000011A, 0xA9F45566,
                    0xD99C1EB9, 0x758B4B8B)
    ensures Written(0x1C34F0F3, 0xD99C1EB9, 0x88B59D60, 0xC51C28AE, 0xC4233EBA, 0x3299AE01, 0x0000011B, 0xE963DA91,
                    0xAED060A3, 0x83E82A7F)
  {
  }

  lemma SecondStart10(s: Core, m: Block)
    requires IsSecond(s, m)
    ensures s.c[0] == 0xB555C7FE && m[8] == 0x00000118 && s.c[15] == 0x55CB35C4 && m[9] == 0x00000119
            && s.c[14] == 0x30924EF2 && m[10] == 0x0000011A && s.c[13] == 0x3299AE01 && m[11] == 0x0000011B
  {
    hide Rounds;
  }

  lemma Second10(s: Core, m: Block)
    requires IsSecond(s, m)
    ensures TapeA(s, m, 52) == 0xEC3CC237 && TapeB(s, m, 56) == 0x88B59D60
    ensures TapeA(s, m, 53) == 0x851D8290 && TapeB(s, m, 57) == 0x60E2CEBA
    ensures TapeA(s, m, 54) == 0xD99C1EB9 && TapeB(s, m, 58) == 0x758B4B8B
    ensures TapeA(s, m, 55) == 0xAED060A3 && TapeB(s, m, 59) == 0x83E82A7F
  {
    hide Written, Rounds, TapeA, TapeB, IsSecond;
    SecondStart10(s, m);
    SecondWords10();
    Second6(s, m);
    Second7(s, m);
    Second8(s, m);
    Second9(s, m);
    Write(s, m, 40, 0, 8, 0xBE9C04EA, 0x44F0DBD6, 0xA327B8E1, 0xC4233EBA, 0x23E389D5, 0x4DBB5054, 0xEC3CC237,
          0x88B59D60);
    Write(s, m, 41, 15, 9, 0x15A315D0, 0xEC3CC237, 0x56C56167, 0xB3733979, 0x9D80D017, 0x8D0059EA, 0x851D8290,
          0x60E2CEBA);
    Write(s, m, 42, 14, 10, 0x279AC5A8, 0x851D8290, 0xED614433, 0xC0DD9D55, 0xB405F031, 0xA9F45566, 0xD99C1EB9,
          0x758B4B8B);
    Write(s, m, 43, 13, 11, 0x1C34F0F3, 0xD99C1EB9, 0x88B59D60, 0xC51C28AE, 0xC4233EBA, 0xE963DA91, 0xAED060A3,
          0x83E82A7F);
  }

  lemma SecondWords11()
    ensures Written(0xF9BDF4EC, 0xAED060A3, 0x60E2CEBA, 0xA327B8E1, 0xB3733979, 0x3EA8BA87, 0x0000011C, 0x4015256C,
                    0xC3433D0F, 0xBC968828)
    ensures Written(0x000B73B4, 0xC3433D0F, 0x758B4B8B, 0x56C56167, 0xC0DD9D55, 0xB38B89AB, 0x0000011D, 0x3DF13409,
                    0x62FD9C1A, 0xE6E00BF7)
    ensures Written(0x80069A86, 0x62FD9C1A, 0x83E82A7F, 0xED614433, 0xC51C28AE, 0xBE216420, 0x0000011E, 0x23E389D5,
                    0x02BB7200, 0xBA839E55)
    ensures Written(0x35038111, 0x02BB7200, 0xBC968828, 0x88B59D60, 0xA327B8E1, 0x5138C2ED, 0x0000011F, 0x9D80D017,
                    0x5FB743B0, 0x9B491C60)
  {
  }

  lemma SecondStart11(s: Core, m: Block)
    requires IsSecond(s, m)
    ensures s.c[12] == 0x3EA8BA87 && m[12] == 0x0000011C && s.c[11] == 0xB38B89AB && m[13] == 0x0000011D
            && s.c[10] == 0xBE216420 && m[14] == 0x0000011E && s.c[9] == 0x5138C2ED && m[15] == 0x0000011F
  {
    hide Rounds;
  }

  lemma Second11(s: Core, m: Block)
    requires IsSecond(s, m)
    ensures TapeA(s, m, 56) == 0xC3433D0F && TapeB(s, m, 60) == 0xBC968828
    ensures TapeA(s, m, 57) == 0x62FD9C1A && TapeB(s, m, 61) == 0xE6E00BF7
    ensures TapeA(s, m, 58) == 0x02BB7200 && TapeB(s, m, 62) == 0xBA839E55
    ensures TapeA(s, m, 59) == 0x5FB743B0 && TapeB(s, m, 63) == 0x9B491C60
  {
    hide Written, Rounds, TapeA, TapeB, IsSecond;
    SecondStart11(s, m);
    SecondWords11();
    Second7(s, m);
    Second8(s, m);
    Second9(s, m);
    Second10(s, m);
    Write(s, m, 44, 12, 12, 0xF9BDF4EC, 0xAED060A3, 0x60E2CEBA, 0xA327B8E1, 0xB3733979, 0x4015256C, 0xC3433D0F,
          0xBC968828);
    Write(s, m, 45, 11, 13, 0x000B73B4, 0xC3433D0F, 0x758B4B8B, 0x56C56167, 0xC0DD9D55, 0x3DF13409, 0x62FD9C1A,
          0xE6E00BF7);
    Write(s, m, 46, 10, 14, 0x80069A86, 0x62FD9C1A, 0x83E82A7F, 0xED614433, 0xC51C28AE, 0x23E389D5, 0x02BB7200,
          0xBA839E55);
    Write(s, m, 47, 9, 15, 0x35038111, 0x02BB7200, 0xBC968828, 0x88B59D60, 0xA327B8E1, 0x9D80D017, 0x5FB743B0,
          0x9B491C60);
  }
}
