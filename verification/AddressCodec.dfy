/**
 Account ids as Burst addresses: Encode and Decode, the functions they are
 proved against, and the laws between them.
 */
module AddressCodec {
  import opened Commons
  import opened Gf32
  import opened ReedSolomon
  import opened Radix

  const LIMIT: nat := 0x1_0000_0000_0000_0000

  type U64 = x: nat | x < 0x1_0000_0000_0000_0000

  datatype Error = CodewordTooLong | CodewordInvalid | Syntax | OutOfRange
  datatype Result = Ok(id: U64) | Err(error: Error)

  const CODEWORD_MAP: seq<nat> := [3, 2, 1, 0, 7, 6, 5, 4, 13, 14, 15, 16, 12, 8, 9, 10, 11]
  const ALPHABET: string := "23456789ABCDEFGHJKLMNPQRSTUVWXYZ"

  // ----- the decimal conversions of the Go library

  /** strconv.FormatUint(x, 10) */
  function FormatUint(x: nat): string {
    (if x < 10 then "" else FormatUint(x / 10)) + [(x % 10 + 48) as char]
  }

  predicate AllDigits(s: string) {
    forall k | 0 <= k < |s| :: '0' <= s[k] <= '9'
  }

  predicate IsDecimal(s: string) {
    s != "" && AllDigits(s)
  }

  function DigitValues(s: string): seq<nat>
    requires AllDigits(s)
  {
    seq(|s|, k requires 0 <= k < |s| => s[k] as int - 48)
  }

  /** strconv.ParseUint(s, 10, 64) */
  function ParseUint(s: string): Result {
    if !IsDecimal(s) then Err(Syntax)
    else
      var v := Value(DigitValues(s), 10);
      if v < LIMIT then Ok(v) else Err(OutOfRange)
  }

  lemma AppendDigit(s: string, d: nat)
    requires AllDigits(s) && d < 10
    ensures AllDigits(s + [(d + 48) as char])
    ensures Value(DigitValues(s + [(d + 48) as char]), 10) == Value(DigitValues(s), 10) * 10 + d
  {
    var t := s + [(d + 48) as char];
    assert t[|s|] as int - 48 == d;
    assert DigitValues(t) == DigitValues(s) + [d];
    ValueSnoc(DigitValues(s), d, 10);
  }

  lemma FewerDigits(x: nat, n: nat)
    requires 1 < n && x < Pow(10, n)
    ensures x / 10 < Pow(10, n - 1)
  {
    assert Pow(10, n) == 10 * Pow(10, n - 1);
  }

  lemma OneDigit()
    ensures Pow(10, 1) == 10
  {
    assert Pow(10, 0) == 1;
  }

  lemma {:induction false} FormatUintDigits(x: nat, n: nat)
    requires 0 < n && x < Pow(10, n)
    ensures IsDecimal(FormatUint(x)) && |FormatUint(x)| <= n
    ensures Value(DigitValues(FormatUint(x)), 10) == x
  {
    hide Value, DigitValues, Pow;
    if x < 10 {
      AppendDigit("", x);
      NoDigits("");
      assert FormatUint(x) == "" + [(x % 10 + 48) as char];
    } else {
      OneDigit();
      FewerDigits(x, n);
      FormatUintDigits(x / 10, n - 1);
      AppendDigit(FormatUint(x / 10), x % 10);
    }
  }

  lemma NoDigits(s: string)
    requires s == ""
    ensures Value(DigitValues(s), 10) == 0
  {
  }

  // ----- the specification of Encode

  /** Position k of the printed word is position CODEWORD_MAP[k] of the codeword. */
  function Permute(w: Word): (r: Word)
    ensures forall k | 0 <= k < 17 :: r[k] == w[CODEWORD_MAP[k]]
  {
    MapInRange();
    seq(17, k requires 0 <= k < 17 => w[CODEWORD_MAP[k]])
  }

  lemma MapInRange()
    ensures |CODEWORD_MAP| == 17 && forall k | 0 <= k < 17 :: CODEWORD_MAP[k] < 17
  {
  }

  lemma AlphabetSize()
    ensures |ALPHABET| == 32
  {
  }

  /** The codeword of an account id: 13 base-32 digits, low digit first, and the parity. */
  function EncodeWord(x: nat): Word {
    Digits(x, 32, 13) + Parity(Digits(x, 32, 13))
  }

  /** Groups of four, four, four and five characters. */
  function Dashed(s: string): (r: string) {
    DashedOf(s, |s|)
  }

  function DashedOf(s: string, n: nat): (r: string)
    requires n <= |s|
    ensures |r| == n + Min(n / 4, 3)
  {
    if n == 0 then ""
    else DashedOf(s, n - 1) + [s[n - 1]] + (if n % 4 == 0 && n <= 13 then "-" else "")
  }

  /** The characters of a word. */
  function Text(w: seq<Sym>): (r: string)
    ensures |r| == |w|
    ensures forall k | 0 <= k < |w| :: r[k] == Letter(w[k])
  {
    seq(|w|, k requires 0 <= k < |w| => Letter(w[k]))
  }

  function Letter(x: Sym): char {
    AlphabetSize();
    ALPHABET[x]
  }

  function EncodeSpec(x: nat): string {
    Dashed(Text(Permute(EncodeWord(x))))
  }

  // ----- the specification of Decode

  /** Position of c in the alphabet from j on, or -1. */
  function Find(c: char, j: nat): (p: int)
    requires j <= 32
    ensures -1 <= p < 32
    decreases 32 - j
  {
    AlphabetSize();
    if j == 32 then -1 else if ALPHABET[j] == c then j else Find(c, j + 1)
  }

  /** The symbols of the alphabet characters of s; all other characters are skipped. */
  function Symbols(s: string): seq<Sym> {
    if s == "" then []
    else if Find(s[0], 0) < 0 then Symbols(s[1..])
    else [Find(s[0], 0)] + Symbols(s[1..])
  }

  /** The alphabet characters of s. */
  function Letters(s: string): string {
    if s == "" then ""
    else if s[0] in ALPHABET then [s[0]] + Letters(s[1..])
    else Letters(s[1..])
  }

  /** The number written by 13 base-32 digits, low digit first. */
  function DataValue(w: Word): nat {
    Value(Reverse<nat>(w[..13]), 32)
  }

  function DecodeSpec(s: string): Result {
    var syms := Symbols(s);
    if |syms| > 17 then Err(CodewordTooLong)
    else if |syms| < 17 || !IsCodeword(Permute(syms)) then Err(CodewordInvalid)
    else
      var v := DataValue(Permute(syms));
      if v < LIMIT then Ok(v) else Err(OutOfRange)
  }

  // ----- facts about the two tables

  /** The permutation is its own inverse. */
  lemma {:induction false} PermuteTwice(w: Word)
    ensures Permute(Permute(w)) == w
  {
    MapTwice();
    MapInRange();
  }

  lemma MapTwice()
    ensures |CODEWORD_MAP| == 17
    ensures forall k | 0 <= k < 17 :: CODEWORD_MAP[k] < 17 && CODEWORD_MAP[CODEWORD_MAP[k]] == k
  {
  }

  lemma FindNext(c: char, j: nat)
    requires j < 32 == |ALPHABET|
    ensures Find(c, j) == if ALPHABET[j] == c then j else Find(c, j + 1)
  {
    hide ALPHABET;
  }

  /** The search finds exactly the alphabet characters, each at its position. */
  lemma {:induction false} FindCorrect(c: char, j: nat)
    requires j <= 32
    ensures Find(c, j) < 0 <==> c !in ALPHABET[j..]
    ensures Find(c, j) >= 0 ==> Letter(Find(c, j)) == c
    decreases 32 - j
  {
    AlphabetSize();
    if j == 32 {
    } else {
      FindNext(c, j);
      hide ALPHABET, Find;
      FindCorrect(c, j + 1);
      assert ALPHABET[j..] == [ALPHABET[j]] + ALPHABET[j + 1..];
    }
  }

  /** The place of an alphabet character, from the four runs of the alphabet. */
  function Rank(c: char): int {
    var n := c as int;
    if n < 58 then n - 50 else if n < 73 then n - 57 else if n < 79 then n - 58 else n - 59
  }

  lemma LetterRank(x: Sym)
    ensures Rank(Letter(x)) == x
  {
  }

  lemma {:induction false} LetterInjective(x: Sym, y: Sym)
    requires Letter(x) == Letter(y)
    ensures x == y
  {
    hide ALPHABET, Letter;
    LetterRank(x);
    LetterRank(y);
  }

  lemma {:induction false} FindLetter(x: Sym)
    ensures Find(Letter(x), 0) == x && Letter(x) in ALPHABET
  {
    AlphabetSize();
    FindCorrect(Letter(x), 0);
    assert Letter(x) in ALPHABET[0..];
    LetterInjective(Find(Letter(x), 0), x);
  }

  lemma DashNotInAlphabet()
    ensures '-' !in ALPHABET
  {
  }

  /** The symbols of a string spell its alphabet characters. */
  lemma {:induction false} SymbolsSpellLetters(s: string)
    ensures Text(Symbols(s)) == Letters(s)
  {
    if s == "" {
    } else {
      SymbolsSpellLetters(s[1..]);
      FindCorrect(s[0], 0);
      assert ALPHABET[0..] == ALPHABET;
      hide ALPHABET, Find, Letter, Text;
      if Find(s[0], 0) >= 0 {
        TextCons(Find(s[0], 0), Symbols(s[1..]));
      }
    }
  }

  lemma TextCons(x: Sym, w: seq<Sym>)
    ensures Text([x] + w) == [Letter(x)] + Text(w)
  {
    hide ALPHABET;
  }

  lemma {:induction false} LettersConcat(s: string, t: string)
    ensures Letters(s + t) == Letters(s) + Letters(t)
  {
    if s == "" {
      assert s + t == t;
    } else {
      assert (s + t)[1..] == s[1..] + t;
      LettersConcat(s[1..], t);
    }
  }

  /** Dashes are the only characters added by Dashed, and they are skipped on reading. */
  lemma {:induction false} LettersOfDashed(s: string, n: nat)
    requires n <= |s| && forall k | 0 <= k < |s| :: s[k] in ALPHABET
    ensures Letters(DashedOf(s, n)) == s[..n]
  {
    hide ALPHABET, Min, Letters;
    if n == 0 {
      LettersOfDash("");
    } else {
      var dash := if n % 4 == 0 && n <= 13 then "-" else "";
      LettersOfDashed(s, n - 1);
      LettersConcat(DashedOf(s, n - 1) + [s[n - 1]], dash);
      LettersConcat(DashedOf(s, n - 1), [s[n - 1]]);
      LettersOfDash(dash);
      LettersOfOne(s[n - 1]);
      assert DashedOf(s, n) == DashedOf(s, n - 1) + [s[n - 1]] + dash;
      assert s[..n] == s[..n - 1] + [s[n - 1]];
    }
  }

  lemma LettersOfDash(s: string)
    requires s == "" || s == "-"
    ensures Letters(s) == ""
  {
    DashNotInAlphabet();
  }

  lemma LettersOfOne(c: char)
    requires c in ALPHABET
    ensures Letters([c]) == [c]
  {
    assert [c][1..] == "";
  }

  lemma {:induction false} TextInjective(v: seq<Sym>, w: seq<Sym>)
    requires Text(v) == Text(w)
    ensures v == w
  {
    assert |v| == |Text(v)| == |w|;
    forall k | 0 <= k < |v|
      ensures v[k] == w[k]
    {
      assert Letter(v[k]) == Text(v)[k] == Text(w)[k];
      LetterInjective(v[k], w[k]);
    }
  }

  // ----- the laws of the codec

  lemma {:induction false} ThirteenDigits(x: nat)
    requires x < 2 * LIMIT
    ensures Quotient(x, 32, 13) == 0
  {
    assert Pow(32, 13) == 2 * LIMIT;
    QuotientBound(x, 32, 13);
  }

  /** Thirteen digits hold one bit more than an account id. */
  lemma {:induction false} EncodeWordData(x: nat)
    requires x < 2 * LIMIT
    ensures IsCodeword(EncodeWord(x)) && DataValue(EncodeWord(x)) == x
  {
    hide Quotient, IsCodeword, Parity;
    var d := Digits(x, 32, 13);
    ThirteenDigits(x);
    ValueOfDigits(x, 32, 13);
    EncodedIsCodeword(d);
    assert EncodeWord(x)[..13] == d;
  }

  /** A codeword is the codeword of its data value. */
  lemma {:induction false} CodewordOfDataValue(w: Word)
    requires IsCodeword(w)
    ensures EncodeWord(DataValue(w)) == w
  {
    hide IsCodeword, Parity;
    DigitsOfValue(w[..13], 32);
    CodewordIffParity(w);
    assert w == w[..13] + w[13..];
  }

  lemma {:induction false} SymbolsOfDashed(v: Word)
    ensures Symbols(Dashed(Text(v))) == v
  {
    var t := Text(v);
    forall k | 0 <= k < |t|
      ensures t[k] in ALPHABET
    {
      FindLetter(v[k]);
    }
    LettersOfDashed(t, |t|);
    assert t[..|t|] == t;
    SymbolsSpellLetters(Dashed(t));
    TextInjective(Symbols(Dashed(t)), v);
  }

  /** Decode undoes Encode on every account id. */
  lemma {:induction false} RoundTrip(x: U64)
    ensures DecodeSpec(EncodeSpec(x)) == Ok(x)
  {
    hide IsCodeword, Symbols, Dashed, EncodeWord, DataValue, Permute, Text;
    SymbolsOfDashed(Permute(EncodeWord(x)));
    PermuteTwice(EncodeWord(x));
    EncodeWordData(x);
  }

  /**
   Decode returns x for exactly the strings whose alphabet characters, grouped
   with dashes, are the address of x.
   */
  lemma {:induction false} DecodeIffEncode(s: string, x: U64)
    ensures DecodeSpec(s) == Ok(x) <==> |Letters(s)| == 17 && Dashed(Letters(s)) == EncodeSpec(x)
  {
    hide IsCodeword, Symbols, Dashed, EncodeWord, DataValue, Permute, Letters, Text;
    SymbolsSpellLetters(s);
    var syms := Symbols(s);
    if DecodeSpec(s) == Ok(x) {
      PermuteTwice(syms);
      CodewordOfDataValue(Permute(syms));
    }
    if |Letters(s)| == 17 && Dashed(Letters(s)) == EncodeSpec(x) {
      SymbolsOfDashed(syms);
      SymbolsOfDashed(Permute(EncodeWord(x)));
      RoundTrip(x);
      assert syms == Symbols(EncodeSpec(x));
    }
  }

  /** Printing any codeword and decoding it fails exactly when its data value exceeds 64 bits. */
  lemma {:induction false} DecodeOfCodeword(w: Word)
    requires IsCodeword(w)
    ensures DecodeSpec(Dashed(Text(Permute(w))))
            == if DataValue(w) < LIMIT then Ok(DataValue(w)) else Err(OutOfRange)
  {
    hide IsCodeword, Symbols, Dashed, DataValue, Permute, Text;
    SymbolsOfDashed(Permute(w));
    PermuteTwice(w);
  }

  /** The alphabet characters of s, grouped, are what Encode would print for v. */
  predicate Spells(s: string, v: nat) {
    |Letters(s)| == 17 && Dashed(Letters(s)) == EncodeSpec(v)
  }

  /** A string that spells a number of thirteen digits decodes to it or is out of range. */
  lemma {:induction false} DecodeOfSpelled(s: string, v: nat)
    requires v < 2 * LIMIT && Spells(s, v)
    ensures DecodeSpec(s) == if v < LIMIT then Ok(v) else Err(OutOfRange)
  {
    hide IsCodeword, Symbols, Dashed, EncodeWord, DataValue, Permute, Letters, Text;
    SymbolsSpellLetters(s);
    SymbolsOfDashed(Symbols(s));
    SymbolsOfDashed(Permute(EncodeWord(v)));
    PermuteTwice(EncodeWord(v));
    EncodeWordData(v);
  }

  /** Which error a string gets: the three cases exclude each other and leave only the printed account ids. */
  lemma {:induction false} DecodeErrors(s: string)
    ensures DecodeSpec(s) == Err(CodewordTooLong) <==> |Letters(s)| > 17
    ensures DecodeSpec(s) == Err(OutOfRange) <==> exists v: nat :: LIMIT <= v < 2 * LIMIT && Spells(s, v)
    ensures DecodeSpec(s) == Err(CodewordInvalid)
            <==> |Letters(s)| <= 17 && !exists v: nat :: v < 2 * LIMIT && Spells(s, v)
  {
    hide IsCodeword, Dashed, EncodeSpec, DataValue, Permute, Letters, Text, Spells;
    var syms := Symbols(s);
    LettersCount(s);
    forall v: nat | v < 2 * LIMIT && Spells(s, v)
      ensures |syms| == 17 && DecodeSpec(s) == if v < LIMIT then Ok(v) else Err(OutOfRange)
    {
      DecodeOfSpelled(s, v);
      SpellsSeventeen(s, v);
    }
    if |syms| == 17 && IsCodeword(Permute(syms)) {
      CodewordSpelled(s);
    }
  }

  lemma LettersCount(s: string)
    ensures |Letters(s)| == |Symbols(s)|
  {
    hide Letters, Symbols;
    SymbolsSpellLetters(s);
  }

  lemma SpellsSeventeen(s: string, v: nat)
    requires Spells(s, v)
    ensures |Letters(s)| == 17
  {
  }

  /** A digit string is below the power of the base that its length names. */
  lemma {:induction false} ValueBound(s: seq<nat>, base: nat)
    requires forall k | 0 <= k < |s| :: s[k] < base
    ensures Value(s, base) < Pow(base, |s|)
  {
    if s == [] {
    } else {
      var rest := s[..|s| - 1];
      ValueBound(rest, base);
      OneMoreDigit(Value(rest, base), Pow(base, |rest|), base, s[|s| - 1]);
    }
  }

  lemma OneMoreDigit(v: nat, p: nat, base: nat, c: nat)
    requires v < p && c < base
    ensures v * base + c < base * p
  {
    assert (v + 1) * base <= p * base;
  }

  /** A codeword spells its data value, which has thirteen digits. */
  lemma {:induction false} CodewordSpelled(s: string)
    requires |Symbols(s)| == 17 && IsCodeword(Permute(Symbols(s)))
    ensures DataValue(Permute(Symbols(s))) < 2 * LIMIT && Spells(s, DataValue(Permute(Symbols(s))))
  {
    hide IsCodeword, Dashed, EncodeWord, Permute, Letters, Text, Symbols;
    var w := Permute(Symbols(s));
    CodewordOfDataValue(w);
    PermuteTwice(Symbols(s));
    SymbolsSpellLetters(s);
    assert Pow(32, 13) == 2 * LIMIT;
    ValueBound(Reverse<nat>(w[..13]), 32);
  }

  // ----- where each symbol is printed

  /** The alphabet: the digits 2 to 9, then the capital letters without I and O. */
  lemma LetterIs(x: Sym)
    ensures Letter(x) as int == if x < 8 then '2' as int + x else if x < 16 then 'A' as int + x - 8
                                else if x < 21 then 'J' as int + x - 16 else 'P' as int + x - 21
  {
  }

  /** Place k of a grouped string: dashes at 4, 9 and 14, the seventeen characters in order at the others. */
  lemma {:induction false} DashedAt(s: string, n: nat, k: nat)
    requires n <= |s| == 17 && k < n + Min(n / 4, 3)
    ensures DashedOf(s, n)[k] == if k == 4 || k == 9 || k == 14 then '-' else s[k - Min(k / 5, 3)]
  {
    assert n > 0;
    hide Min;
    var r := DashedOf(s, n - 1);
    var dash := if n % 4 == 0 && n <= 13 then "-" else "";
    assert DashedOf(s, n) == r + [s[n - 1]] + dash;
    NextPlace(n);
    if k < |r| {
      DashedAt(s, n - 1, k);
    }
  }

  /** Character n and the dash behind it, if there is one. */
  lemma NextPlace(n: nat)
    requires 0 < n <= 17
    ensures var k := n - 1 + Min((n - 1) / 4, 3);
            && k != 4 && k != 9 && k != 14 && k - Min(k / 5, 3) == n - 1
            && if n % 4 == 0 && n <= 13
               then n + Min(n / 4, 3) == k + 2 && (k == 3 || k == 8 || k == 13)
               else n + Min(n / 4, 3) == k + 1
  {
  }

  /**
   The twenty characters of an address: the four lowest of the thirteen base-32
   digits high to low, the next four high to low, the parity in order, the
   highest digit, and digits 8 to 11 low to high.
   */
  lemma {:induction false} EncodedAt(x: U64, k: nat)
    requires k < 20
    ensures var parity := Parity(Digits(x, 32, 13));
            && |EncodeSpec(x)| == 20
            && EncodeSpec(x)[k] ==
               if k == 4 || k == 9 || k == 14 then '-'
               else if k < 4 then Letter(Quotient(x, 32, 3 - k) % 32)
               else if k < 9 then Letter(Quotient(x, 32, 12 - k) % 32)
               else if k < 14 then Letter(parity[k - 10])
               else if k == 15 then Letter(Quotient(x, 32, 12) % 32)
               else Letter(Quotient(x, 32, k - 8) % 32)
  {
    hide Quotient, Parity, Letter, ALPHABET;
    var w := EncodeWord(x);
    DashedAt(Text(Permute(w)), 17, k);
    assert w[..13] == Digits(x, 32, 13) && w[13..] == Parity(Digits(x, 32, 13));
  }

  /** The places where two strings have different characters. */
  ghost function Mismatches(s: string, t: string): set<nat> {
    set k: nat | k < |s| && k < |t| && s[k] != t[k]
  }

  /** Replacing one to four of the seventeen characters of an address is detected. */
  lemma {:induction false} FourErrorsDetected(x: U64, s: string)
    requires |Letters(s)| == 17
    requires 1 <= |Mismatches(Letters(s), Letters(EncodeSpec(x)))| <= 4
    ensures DecodeSpec(s) == Err(CodewordInvalid)
  {
    hide IsCodeword, EncodeWord, DataValue;
    var w, syms := EncodeWord(x), Symbols(s);
    var t := Letters(EncodeSpec(x));
    SymbolsSpellLetters(s);
    SymbolsOfDashed(Permute(w));
    SymbolsSpellLetters(EncodeSpec(x));
    PermuteTwice(w);
    EncodeWordData(x);
    if IsCodeword(Permute(syms)) {
      SameMismatches(syms, Permute(w));
      assert Mismatches(Letters(s), t) == Differing(syms, Permute(w));
      PermutedDifferences(syms, w);
      if Permute(syms) != w {
        MinimumDistance(Permute(syms), w);
      }
      assert false;
    }
  }

  lemma {:induction false} SameMismatches(v: Word, w: Word)
    ensures Mismatches(Text(v), Text(w)) == Differing(v, w)
  {
    forall k: nat | k < 17
      ensures Text(v)[k] != Text(w)[k] <==> v[k] != w[k]
    {
      if Letter(v[k]) == Letter(w[k]) {
        LetterInjective(v[k], w[k]);
      }
    }
  }

  /** Permuting both words permutes the positions at which they differ. */
  lemma {:induction false} PermutedDifferences(v: Word, w: Word)
    ensures |Differing(v, Permute(w))| == |Differing(Permute(v), w)|
  {
    MapTwice();
    SameSize(Differing(v, Permute(w)), Differing(Permute(v), w));
  }

  /** Two sets of positions that the permutation maps into each other. */
  lemma {:induction false} SameSize(s: set<nat>, t: set<nat>)
    requires |CODEWORD_MAP| == 17
    requires forall k | k in s :: k < 17 && CODEWORD_MAP[k] in t
    requires forall k | k in t :: k < 17 && CODEWORD_MAP[k] in s
    ensures |s| == |t|
  {
    MapTwice();
    if k :| k in s {
      SameSize(s - {k}, t - {CODEWORD_MAP[k]});
    } else if k :| k in t {
      assert false;
    }
  }
}
