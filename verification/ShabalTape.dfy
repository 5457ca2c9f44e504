module ShabalTape {
  import opened Shabal

  /** The word a round writes into A, and the one it writes into B. */
  predicate Written(a0: Word, a1: Word, b1: Word, b2: Word, b3: Word, c: Word, m: Word, b0: Word, x: Word, y: Word) {
    x == MixA(a0, a1, b1, b2, b3, c, m) && y == MixB(b0, x)
  }

  /** All words A ever holds, in the order written: twelve at the start, one more each round. */
  function TapeA(s: Core, m: Block, j: nat): Word {
    if j < 12 then s.a[j] else Rounds(s, m, j - 11).a[j % 12]
  }

  function TapeB(s: Core, m: Block, j: nat): Word {
    if j < 16 then s.b[j] else Rounds(s, m, j - 15).b[j % 16]
  }

  /** After n rounds A holds the last twelve words written to it. */
  lemma {:induction false} LastOfA(s: Core, m: Block, n: nat)
    ensures forall j | n <= j < n + 12 :: Rounds(s, m, n).a[j % 12] == TapeA(s, m, j)
  {
    hide Round;
    if n == 0 {
    } else {
      LastOfA(s, m, n - 1);
      forall j | n <= j < n + 12
        ensures Rounds(s, m, n).a[j % 12] == TapeA(s, m, j)
      {
        if j < n + 11 {
          OtherSlots(j, n - 1);
          RoundKeeps(Rounds(s, m, n - 1), m, n - 1, j % 12);
        }
      }
    }
  }

  /** After n rounds B holds the last sixteen words written to it. */
  lemma {:induction false} LastOfB(s: Core, m: Block, n: nat)
    ensures forall j | n <= j < n + 16 :: Rounds(s, m, n).b[j % 16] == TapeB(s, m, j)
  {
    hide Round;
    if n == 0 {
    } else {
      LastOfB(s, m, n - 1);
      forall j | n <= j < n + 16
        ensures Rounds(s, m, n).b[j % 16] == TapeB(s, m, j)
      {
        if j < n + 15 {
          OtherSlots(j, n - 1);
          RoundKeeps(Rounds(s, m, n - 1), m, n - 1, j % 16);
        }
      }
    }
  }

  lemma RoundKeeps(s: Core, m: Block, u: nat, k: nat)
    ensures k < 12 && k != u % 12 ==> Round(s, m, u).a[k] == s.a[k]
    ensures k < 16 && k != u % 16 ==> Round(s, m, u).b[k] == s.b[k]
  {
    hide MixA, MixB;
  }

  lemma OtherSlots(j: nat, u: nat)
    ensures u < j < u + 12 ==> j % 12 != u % 12
    ensures j == u + 12 ==> j % 12 == u % 12
    ensures u < j < u + 16 ==> j % 16 != u % 16
    ensures j == u + 16 ==> j % 16 == u % 16
  {
  }

  /** Round u writes its two words from seven of those before. */
  lemma TapeStep(s: Core, m: Block, u: nat)
    ensures Written(TapeA(s, m, u), TapeA(s, m, u + 11), TapeB(s, m, u + 13), TapeB(s, m, u + 9), TapeB(s, m, u + 6),
                    s.c[(24 - u % 16) % 16], m[u % 16], TapeB(s, m, u), TapeA(s, m, u + 12), TapeB(s, m, u + 16))
  {
    hide MixA, MixB, TapeA, TapeB;
    var r := Rounds(s, m, u);
    LastOfA(s, m, u);
    LastOfB(s, m, u);
    LastOfA(s, m, u + 1);
    LastOfB(s, m, u + 1);
    assert r.a[u % 12] == TapeA(s, m, u);
    assert r.a[(u + 11) % 12] == TapeA(s, m, u + 11);
    assert r.b[u % 16] == TapeB(s, m, u);
    assert r.b[(u + 13) % 16] == TapeB(s, m, u + 13);
    assert r.b[(u + 9) % 16] == TapeB(s, m, u + 9);
    assert r.b[(u + 6) % 16] == TapeB(s, m, u + 6);
    assert (u + 12) % 12 == u % 12 && (u + 16) % 16 == u % 16;
    assert Rounds(s, m, u + 1).a[(u + 12) % 12] == TapeA(s, m, u + 12);
    assert Rounds(s, m, u + 1).b[(u + 16) % 16] == TapeB(s, m, u + 16);
  }

  /** A round, given the words it reads. */
  lemma Write(s: Core, m: Block, u: nat, ci: nat, mi: nat, a0: Word, a1: Word, b1: Word, b2: Word, b3: Word,
              b0: Word, x: Word, y: Word)
    requires ci == (24 - u % 16) % 16 && mi == u % 16
    requires TapeA(s, m, u) == a0 && TapeA(s, m, u + 11) == a1
    requires TapeB(s, m, u) == b0 && TapeB(s, m, u + 6) == b3
    requires TapeB(s, m, u + 9) == b2 && TapeB(s, m, u + 13) == b1
    requires Written(a0, a1, b1, b2, b3, s.c[ci], m[mi], b0, x, y)
    ensures TapeA(s, m, u + 12) == x && TapeB(s, m, u + 16) == y
  {
    hide TapeA, TapeB, MixA, MixB;
    TapeStep(s, m, u);
  }
}
