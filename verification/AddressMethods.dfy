/**
 The two conversion routines in the form the program has them: digit arrays
 overwritten in place, a register array for the parity, a byte buffer.
 Encode and Decode are proved against the functions of AddressCodec.
 */
module AddressMethods {
  import opened Commons
  import opened Gf32
  import opened ReedSolomon
  import opened Radix
  import opened AddressCodec

  // ----- Encode

  /** Go: Encode. */
  method Encode(accountID: U64) returns (address: string)
    ensures address == EncodeSpec(accountID)
  {
    hide Dashed, Text, Permute, EncodeWord;
    var codeword := new Sym[17](_ => 0);
    FillDigits(accountID, codeword);
    FillParity(codeword);
    ghost var w := codeword[..];
    assert w[..13] == codeword[..13] && w[13..] == codeword[13..];
    WordOfParts(w, accountID);
    address := PrintWord(codeword);
  }

  lemma WordOfParts(w: Word, x: U64)
    requires w[..13] == Digits(x, 32, 13) && w[13..] == Parity(w[..13])
    ensures w == EncodeWord(x)
  {
    assert w == w[..13] + w[13..];
  }

  /** The decimal digits of the id, divided by 32 in place until nothing is left. */
  method FillDigits(accountID: U64, codeword: array<Sym>)
    requires codeword.Length == 17 && forall k | 0 <= k < 17 :: codeword[k] == 0
    modifies codeword
    ensures codeword[..13] == Digits(accountID, 32, 13)
  {
    hide FormatUint, Value, Quotient;
    var plainString := FormatUint(accountID);
    FormatUintFits(accountID);
    var plainString10 := new nat[20](_ => 0);
    var length: nat := |plainString|;
    for i := 0 to |plainString|
      invariant forall k | 0 <= k < i :: plainString10[k] == DigitValues(plainString)[k]
      invariant forall k | 0 <= k < 17 :: codeword[k] == 0
    {
      plainString10[i] := plainString[i] as int - 48;
    }
    assert plainString10[..length] == DigitValues(plainString);
    QuotientOfNone(accountID);

    var codewordLength: nat := 0;
    while true
      invariant length <= 20 && codewordLength <= 12
      invariant forall k | 0 <= k < length :: plainString10[k] < 10
      invariant Value(plainString10[..length], 10) == Quotient(accountID, 32, codewordLength)
      invariant codewordLength > 0 ==> Quotient(accountID, 32, codewordLength) > 0
      invariant forall k | 0 <= k < codewordLength :: codeword[k] == Quotient(accountID, 32, k) % 32
      invariant forall k | codewordLength <= k < 17 :: codeword[k] == 0
      decreases Quotient(accountID, 32, codewordLength)
    {
      QuotientNext(accountID, codewordLength);
      var digit32: nat;
      length, digit32 := DivideInPlace(plainString10, length, 10, 32);
      codeword[codewordLength] := digit32;
      codewordLength := codewordLength + 1;
      if length <= 0 {
        break;
      }
      LeadingDigit(plainString10[..length], 10);
      TwelveDivisions(accountID, codewordLength);
    }
    EmptyValue(plainString10[..length]);
    forall k | codewordLength <= k < 13
      ensures Quotient(accountID, 32, k) == 0
    {
      QuotientStaysZero(accountID, 32, codewordLength, k);
    }
    assert codeword[..13] == Digits(accountID, 32, 13);
  }

  lemma FormatUintFits(x: U64)
    ensures IsDecimal(FormatUint(x)) && 0 < |FormatUint(x)| <= 20
    ensures Value(DigitValues(FormatUint(x)), 10) == x
    ensures forall k | 0 <= k < |FormatUint(x)| :: DigitValues(FormatUint(x))[k] < 10
  {
    PowersFit();
    FormatUintDigits(x, 20);
  }

  lemma PowersFit()
    ensures LIMIT < Pow(32, 13) == 2 * LIMIT < Pow(10, 20)
  {
    assert Pow(32, 13) == 2 * LIMIT;
    assert Pow(10, 7) == 10000000;
    assert Pow(10, 14) == 100000000000000;
    assert Pow(10, 20) == 100000000000000000000;
  }

  lemma QuotientOfNone(x: nat)
    ensures Quotient(x, 32, 0) == x && Quotient(x, 10, 0) == x
  {
  }

  lemma QuotientNext(x: nat, n: nat)
    ensures Quotient(x, 32, n + 1) == Quotient(x, 32, n) / 32
    ensures Quotient(x, 10, n + 1) == Quotient(x, 10, n) / 10
  {
  }

  lemma EmptyValue(s: seq<nat>)
    requires s == []
    ensures Value(s, 10) == 0 && Value(s, 32) == 0
  {
  }

  lemma TwelveDivisions(x: U64, n: nat)
    requires n <= 13 && Quotient(x, 32, n) > 0
    ensures n <= 12
  {
    hide Quotient;
    ThirteenDigits(x);
  }

  /** The register loop and the copy of the register behind the data. */
  method FillParity(codeword: array<Sym>)
    requires codeword.Length == 17
    modifies codeword
    ensures codeword[..13] == old(codeword[..13])
    ensures codeword[13..] == Parity(codeword[..13])
  {
    hide Mul, Gmult, Add;
    var p := new Sym[4](_ => 0);
    ghost var data := codeword[..13];
    assert data[13..] == [];
    for i := 13 downto 0
      invariant codeword[..13] == data
      invariant p[..] == Parity(data[i..])
    {
      var fb := Add(codeword[i], p[3]);
      assert data[i..][0] == codeword[i] && data[i..][1..] == data[i + 1..];
      GmultIsMul(30, fb);
      GmultIsMul(6, fb);
      GmultIsMul(9, fb);
      GmultIsMul(17, fb);
      p[3] := Add(p[2], Gmult(30, fb));
      p[2] := Add(p[1], Gmult(6, fb));
      p[1] := Add(p[0], Gmult(9, fb));
      p[0] := Gmult(17, fb);
    }
    assert data[0..] == data;
    for k := 0 to 4
      invariant codeword[..13] == data
      invariant p[..] == Parity(data)
      invariant codeword[13..13 + k] == p[..k]
    {
      codeword[13 + k] := p[k];
    }
    assert codeword[13..] == codeword[13..17] == p[..4] == p[..];
  }

  /** The permuted word in the alphabet, with dashes after the first three groups. */
  method PrintWord(codeword: array<Sym>) returns (address: string)
    requires codeword.Length == 17
    ensures address == Dashed(Text(Permute(codeword[..])))
  {
    hide ALPHABET, CODEWORD_MAP, DashedOf, Text, Permute;
    AlphabetSize();
    MapInRange();
    ghost var t := Text(Permute(codeword[..]));
    var buff := new char[20](_ => '-');
    var j := 0;
    assert DashedOf(t, 0) == "" by { DashedNone(t); }
    for i := 0 to 17
      invariant j == |DashedOf(t, i)| == i + Min(i / 4, 3)
      invariant buff[..j] == DashedOf(t, i)
    {
      var codewordIndex := CODEWORD_MAP[i];
      var alphabetIndex := codeword[codewordIndex];
      ghost var before := buff[..j];
      buff[j] := Letter(alphabetIndex);
      assert buff[..j + 1] == before + [t[i]];
      if i % 4 == 3 && i < 13 {
        j := j + 1;
        buff[j] := '-';
        assert buff[..j + 1] == before + [t[i]] + "-";
      }
      DashedNext(t, i);
      assert buff[..j + 1] == DashedOf(t, i + 1);
      j := j + 1;
    }
    assert buff[..20] == buff[..];
    address := buff[..];
  }

  lemma DashedNone(t: string)
    ensures DashedOf(t, 0) == ""
  {
  }

  lemma DashedNext(t: string, i: nat)
    requires i < |t|
    ensures DashedOf(t, i + 1) == DashedOf(t, i) + [t[i]] + (if i % 4 == 3 && i < 13 then "-" else "")
  {
  }

  // ----- Decode

  /** Go: Decode. */
  method Decode(address: string) returns (result: Result)
    ensures result == DecodeSpec(address)
  {
    hide Symbols, IsCodeword, Value, DataValue;
    var codeword := new Sym[17](i => if i == 0 then 1 else 0);
    var codewordLength, tooLong := ReadWord(address, codeword);
    if tooLong {
      return Err(CodewordTooLong);
    }
    var valid := IsCodewordValid(codeword);
    if codewordLength == 17 {
      PlaceAll(codeword[..], Symbols(address));
    }
    if (codewordLength == 17 && !valid) || codewordLength != 17 {
      return Err(CodewordInvalid);
    }
    var plain := FormatData(codeword);
    result := ParseUint(plain);
  }

  /** s placed through the permutation. */
  lemma PlaceAll(w: Word, s: Word)
    requires |CODEWORD_MAP| == 17
    requires forall k | 0 <= k < 17 :: CODEWORD_MAP[k] < 17 && w[CODEWORD_MAP[k]] == s[k]
    ensures w == Permute(s)
  {
    MapTwice();
    forall p | 0 <= p < 17
      ensures w[p] == Permute(s)[p]
    {
      assert w[CODEWORD_MAP[CODEWORD_MAP[p]]] == s[CODEWORD_MAP[p]];
    }
  }

  lemma MapInjective()
    ensures |CODEWORD_MAP| == 17 && forall k | 0 <= k < 17 :: CODEWORD_MAP[k] < 17
    ensures forall j, k | 0 <= j < 17 && 0 <= k < 17 && j != k :: CODEWORD_MAP[j] != CODEWORD_MAP[k]
  {
    hide CODEWORD_MAP;
    MapTwice();
    forall j, k | 0 <= j < 17 && 0 <= k < 17 && j != k
      ensures CODEWORD_MAP[j] != CODEWORD_MAP[k]
    {
      assert CODEWORD_MAP[CODEWORD_MAP[j]] != CODEWORD_MAP[CODEWORD_MAP[k]];
    }
  }

  /** Scan the characters, look each one up in the alphabet and store it through the permutation. */
  method ReadWord(address: string, codeword: array<Sym>) returns (codewordLength: nat, tooLong: bool)
    requires codeword.Length == 17
    modifies codeword
    ensures tooLong <==> |Symbols(address)| > 17
    ensures !tooLong ==> codewordLength == |Symbols(address)|
    ensures |CODEWORD_MAP| == 17 && forall k | 0 <= k < 17 :: CODEWORD_MAP[k] < 17
    ensures !tooLong ==> forall k | 0 <= k < codewordLength :: codeword[CODEWORD_MAP[k]] == Symbols(address)[k]
  {
    hide ALPHABET, CODEWORD_MAP, Find;
    MapInjective();
    AlphabetSize();
    codewordLength, tooLong := 0, false;
    assert address[..0] == "";
    for i := 0 to |address|
      invariant codewordLength == |Symbols(address[..i])| <= 17
      invariant forall k | 0 <= k < codewordLength :: codeword[CODEWORD_MAP[k]] == Symbols(address[..i])[k]
    {
      assert address[..i + 1] == address[..i] + [address[i]];
      SymbolsSnoc(address[..i], address[i]);
      var positionInAlphabet := LookUp(address[i]);
      if positionInAlphabet < 0 {
        continue;
      }
      if codewordLength > 16 {
        assert address == address[..i + 1] + address[i + 1..];
        SymbolsGrow(address[..i + 1], address[i + 1..]);
        return codewordLength, true;
      }
      var codewordIndex := CODEWORD_MAP[codewordLength];
      codeword[codewordIndex] := positionInAlphabet;
      codewordLength := codewordLength + 1;
    }
    assert address[..|address|] == address;
  }

  /** The inner search of Decode. */
  method LookUp(c: char) returns (positionInAlphabet: int)
    ensures positionInAlphabet == Find(c, 0)
  {
    hide ALPHABET;
    AlphabetSize();
    positionInAlphabet := -1;
    for j := 0 to 32
      invariant positionInAlphabet == -1
      invariant Find(c, 0) == Find(c, j)
    {
      if ALPHABET[j] == c {
        positionInAlphabet := j;
        break;
      }
    }
  }

  lemma SymbolsSnoc(s: string, c: char)
    ensures Symbols(s + [c]) == Symbols(s) + (if Find(c, 0) < 0 then [] else [Find(c, 0)])
  {
    hide Find;
    if s == "" {
      assert (s + [c])[1..] == "";
    } else {
      SymbolsSnoc(s[1..], c);
      assert (s + [c])[1..] == s[1..] + [c];
    }
  }

  lemma SymbolsGrow(s: string, t: string)
    ensures |Symbols(s + t)| >= |Symbols(s)|
    decreases |t|
  {
    hide Find, Symbols;
    if t == "" {
      assert s + t == s;
    } else {
      SymbolsSnoc(s, t[0]);
      SymbolsGrow(s + [t[0]], t[1..]);
      assert s + [t[0]] + t[1..] == s + t;
    }
  }

  /** The 13 data symbols, most significant first, divided by 10 in place; digits are written from the right. */
  method FormatData(codeword: array<Sym>) returns (plain: string)
    requires codeword.Length == 17
    ensures IsDecimal(plain) && Value(DigitValues(plain), 10) == DataValue(codeword[..])
  {
    hide Value, Quotient, Pow;
    var length: nat := 13;
    var cyperString32 := new nat[13](_ => 0);
    for i := 0 to 13
      invariant forall k | 0 <= k < i :: cyperString32[k] == codeword[12 - k]
    {
      cyperString32[i] := codeword[13 - i - 1];
    }
    ghost var v := DataValue(codeword[..]);
    assert cyperString32[..13] == Reverse<nat>(codeword[..][..13]);
    DataValueFits(codeword[..]);
    QuotientOfNone(v);

    var plainParts := new char[20](_ => '0');
    var plainPartsLen: nat := 0;
    while true
      invariant length <= 13 && plainPartsLen <= 19
      invariant forall k | 0 <= k < length :: cyperString32[k] < 32
      invariant Value(cyperString32[..length], 32) == Quotient(v, 10, plainPartsLen)
      invariant plainPartsLen > 0 ==> Quotient(v, 10, plainPartsLen) > 0
      invariant forall k | 0 <= k < plainPartsLen :: plainParts[19 - k] == (Quotient(v, 10, k) % 10 + 48) as char
      decreases Quotient(v, 10, plainPartsLen)
    {
      QuotientNext(v, plainPartsLen);
      var digit10: nat;
      length, digit10 := DivideInPlace(cyperString32, length, 32, 10);
      plainParts[19 - plainPartsLen] := (digit10 + 48) as char;
      if length <= 0 {
        break;
      }
      LeadingDigit(cyperString32[..length], 32);
      if plainPartsLen == 19 {
        QuotientBound(v, 10, 20);
        assert false;
      }
      plainPartsLen := plainPartsLen + 1;
    }
    EmptyValue(cyperString32[..length]);
    plain := plainParts[19 - plainPartsLen..];
    DecimalOfDigits(plain, v);
  }

  lemma DataValueFits(w: Word)
    ensures DataValue(w) < Pow(10, 20)
  {
    ValueBound(Reverse<nat>(w[..13]), 13);
    PowersFit();
  }

  lemma {:induction false} ValueBound(s: seq<nat>, n: nat)
    requires |s| == n && forall k | 0 <= k < |s| :: s[k] < 32
    ensures Value(s, 32) < Pow(32, n)
  {
    if n == 0 {
    } else {
      ValueBound(s[..n - 1], n - 1);
    }
  }

  /** A string of the decimal digits of v, low digit last, reads as v. */
  lemma DecimalOfDigits(s: string, v: nat)
    requires s != "" && Quotient(v, 10, |s|) == 0
    requires forall k | 0 <= k < |s| :: s[|s| - 1 - k] == (Quotient(v, 10, k) % 10 + 48) as char
    ensures IsDecimal(s) && Value(DigitValues(s), 10) == v
  {
    hide Value, Quotient;
    forall k | 0 <= k < |s|
      ensures '0' <= s[k] <= '9' && s[k] as int - 48 == Quotient(v, 10, |s| - 1 - k) % 10
    {
      var m := |s| - 1 - k;
      assert s[|s| - 1 - m] == (Quotient(v, 10, m) % 10 + 48) as char;
    }
    assert DigitValues(s) == Reverse(Digits(v, 10, |s|));
    ValueOfDigits(v, 10, |s|);
  }
}
