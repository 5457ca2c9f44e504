/**
 How the reward of a won block is divided: the pool's fee, the winner's part,
 and the shares by estimated capacity. Shares are exact reals.
 */
module Rewards {
  import opened Tables

  const GENESIS_BASE_TARGET: real := 18325193796.0
  const PLANCK: int := 100000000

  // ----- rounding

  function Abs(x: real): real {
    if x < 0.0 then -x else x
  }

  /** Conversion to an integer drops the fraction. */
  function Truncate(x: real): int {
    if x < 0.0 then -((-x).Floor) else x.Floor
  }

  function CopySign(x: real, sign: real): real {
    if sign < 0.0 then -Abs(x) else Abs(x)
  }

  function Round(f: real): int {
    if Abs(f) < 0.5 then 0 else Truncate(f + CopySign(0.5, f))
  }

  /** Round gives the nearest integer, halves away from zero. */
  lemma RoundIsNearest(f: real)
    ensures if f >= 0.0 then Round(f) as real - 0.5 <= f < Round(f) as real + 0.5
            else Round(f) as real - 0.5 < f <= Round(f) as real + 0.5
    ensures Abs(Round(f) as real - f) <= 0.5
  {
  }

  /** Rounding stays between integer bounds. */
  lemma RoundWithin(f: real, n: int)
    requires 0.0 <= f <= n as real
    ensures 0 <= Round(f) <= n
  {
  }

  // ----- shares

  /** One group of the capacity query: a miner, the sum of his weighted deadlines, and their number. */
  datatype Deadlines = Deadlines(miner: nat, weightedSum: real, confirmed: nat)

  function Eeps(alpha: nat -> real, confirmed: nat, weightedSum: real): real {
    if weightedSum == 0.0 then 0.0
    else alpha(confirmed) * 240.0 * (confirmed - 1) as real / (weightedSum / GENESIS_BASE_TARGET)
  }

  ghost predicate DistinctMiners(groups: seq<Deadlines>) {
    forall i, j | 0 <= i < j < |groups| :: groups[i].miner != groups[j].miner
  }

  /** What the database returns: groups are not empty and sums are not negative. */
  ghost predicate Grouped(groups: seq<Deadlines>) {
    DistinctMiners(groups) && forall i | 0 <= i < |groups| :: groups[i].confirmed >= 1 && groups[i].weightedSum >= 0.0
  }

  function EepsOf(alpha: nat -> real, groups: seq<Deadlines>): map<nat, real> {
    if groups == [] then map[]
    else
      var g := groups[|groups| - 1];
      EepsOf(alpha, groups[..|groups| - 1])[g.miner := Eeps(alpha, g.confirmed, g.weightedSum)]
  }

  function EepsSum(alpha: nat -> real, groups: seq<Deadlines>): real {
    if groups == [] then 0.0
    else
      var g := groups[|groups| - 1];
      EepsSum(alpha, groups[..|groups| - 1]) + Eeps(alpha, g.confirmed, g.weightedSum)
  }

  function SharesOf(eepsOf: map<nat, real>, eepsSum: real): map<nat, real> {
    if eepsSum == 0.0 then map[] else Quotients(eepsOf, eepsSum)
  }

  ghost function RealTotal(m: map<nat, real>): real
    decreases |m|
  {
    if m == map[] then 0.0
    else
      var k :| k in m;
      m[k] + RealTotal(m - {k})
  }

  lemma {:induction false} RealTotalRemove(m: map<nat, real>, k: nat)
    requires k in m
    ensures RealTotal(m) == m[k] + RealTotal(m - {k})
    decreases |m|
  {
    var j :| j in m && RealTotal(m) == m[j] + RealTotal(m - {j});
    if j == k {
    } else {
      RealTotalRemove(m - {j}, k);
      assert m - {j} - {k} == m - {k} - {j};
      RealTotalRemove(m - {k}, j);
    }
  }

  /** The sum kept along the loop is the sum over the map. */
  lemma {:induction false} EepsSumIsTotal(alpha: nat -> real, groups: seq<Deadlines>)
    requires DistinctMiners(groups)
    ensures RealTotal(EepsOf(alpha, groups)) == EepsSum(alpha, groups)
    ensures forall id | id in EepsOf(alpha, groups) :: exists i :: 0 <= i < |groups| && groups[i].miner == id
  {
    hide Eeps;
    if groups == [] {
    } else {
      var n := |groups| - 1;
      EepsSumIsTotal(alpha, groups[..n]);
      var before, m := EepsOf(alpha, groups[..n]), EepsOf(alpha, groups);
      assert groups[n].miner !in before;
      RealTotalRemove(m, groups[n].miner);
      assert m - {groups[n].miner} == before;
    }
  }

  lemma {:induction false} EepsNonNegative(alpha: nat -> real, groups: seq<Deadlines>)
    requires Grouped(groups) && forall n: nat :: 0.0 <= alpha(n) <= 1.0
    ensures forall id | id in EepsOf(alpha, groups) :: EepsOf(alpha, groups)[id] >= 0.0
  {
    hide Eeps;
    if groups == [] {
    } else {
      var n := |groups| - 1;
      EepsNonNegative(alpha, groups[..n]);
      OneNonNegative(alpha, groups[n]);
    }
  }

  lemma OneNonNegative(alpha: nat -> real, g: Deadlines)
    requires alpha(g.confirmed) >= 0.0 && g.confirmed >= 1 && g.weightedSum >= 0.0
    ensures Eeps(alpha, g.confirmed, g.weightedSum) >= 0.0
  {
    if g.weightedSum != 0.0 {
      var a, c := alpha(g.confirmed), (g.confirmed - 1) as real;
      assert a * 240.0 * c >= 0.0 by { ProductNonNegative(a * 240.0, c); }
      QuotientNonNegative(a * 240.0 * c, g.weightedSum / GENESIS_BASE_TARGET);
    }
  }

  lemma ProductNonNegative(x: real, y: real)
    requires x >= 0.0 && y >= 0.0
    ensures x * y >= 0.0
  {
  }

  lemma QuotientNonNegative(x: real, y: real)
    requires x >= 0.0 && y > 0.0
    ensures x / y >= 0.0
  {
  }

  function Quotients(m: map<nat, real>, d: real): map<nat, real>
    requires d != 0.0
  {
    map id | id in m :: Over(m[id], d)
  }

  function Over(x: real, d: real): real
    requires d != 0.0
  {
    x / d
  }

  lemma {:induction false} TotalOfQuotients(m: map<nat, real>, d: real)
    requires d != 0.0
    ensures RealTotal(Quotients(m, d)) == Over(RealTotal(m), d)
    decreases |m|
  {
    if m == map[] {
      assert Quotients(m, d) == map[];
    } else {
      var k :| k in m;
      QuotientsRemove(m, d, k);
      hide Quotients, Over;
      TotalOfQuotients(m - {k}, d);
      RealTotalRemove(m, k);
      RealTotalRemove(Quotients(m, d), k);
      QuotientOfSum(m[k], RealTotal(m - {k}), d);
    }
  }

  lemma QuotientsRemove(m: map<nat, real>, d: real, k: nat)
    requires d != 0.0 && k in m
    ensures k in Quotients(m, d) && Quotients(m, d)[k] == Over(m[k], d)
            && Quotients(m, d) - {k} == Quotients(m - {k}, d)
  {
  }

  lemma QuotientOfSum(x: real, y: real, d: real)
    requires d != 0.0
    ensures Over(x + y, d) == Over(x, d) + Over(y, d)
  {
  }

  /** Unless the capacity sum is zero, the shares are not negative and add up to one. */
  lemma SharesAddUp(alpha: nat -> real, groups: seq<Deadlines>)
    requires Grouped(groups) && forall n: nat :: 0.0 <= alpha(n) <= 1.0
    ensures var sum := EepsSum(alpha, groups);
            var shareOf := SharesOf(EepsOf(alpha, groups), sum);
            if sum == 0.0 then shareOf == map[]
            else RealTotal(shareOf) == 1.0 && forall id | id in shareOf :: shareOf[id] >= 0.0
  {
    hide Eeps, Over, EepsOf, EepsSum;
    var eepsOf, sum := EepsOf(alpha, groups), EepsSum(alpha, groups);
    EepsSumIsTotal(alpha, groups);
    EepsNonNegative(alpha, groups);
    if sum != 0.0 {
      TotalOfQuotients(eepsOf, sum);
      TotalNonNegative(eepsOf);
      WholeOverItself(sum);
      var shareOf := SharesOf(eepsOf, sum);
      forall id | id in shareOf
        ensures shareOf[id] >= 0.0
      {
        ShareOfSum(eepsOf[id], sum);
      }
    }
  }

  lemma WholeOverItself(d: real)
    requires d != 0.0
    ensures Over(d, d) == 1.0
  {
  }

  lemma ShareOfSum(x: real, d: real)
    requires x >= 0.0 && d > 0.0
    ensures Over(x, d) >= 0.0
  {
    QuotientNonNegative(x, d);
  }

  lemma {:induction false} TotalNonNegative(m: map<nat, real>)
    requires forall id | id in m :: m[id] >= 0.0
    ensures RealTotal(m) >= 0.0
    decreases |m|
  {
    if m == map[] {
    } else {
      var k :| k in m;
      RealTotalRemove(m, k);
      TotalNonNegative(m - {k});
    }
  }

  // ----- credits

  /** The pool's configuration and the wallet's block. */
  datatype RewardConfig = RewardConfig(feeAccount: nat, poolFeeShare: real, winnerShare: real)

  datatype BlockInfo = BlockInfo(height: nat, generator: nat, blockReward: int, totalFee: int)

  function TotalReward(info: BlockInfo): int {
    info.blockReward * PLANCK + info.totalFee
  }

  function Portion(reward: int, part: real): int {
    Round(reward as real * part)
  }

  /** Fee account 0 means no pool fee. */
  function PoolFee(cfg: RewardConfig, info: BlockInfo): int {
    if cfg.feeAccount == 0 then 0 else Portion(TotalReward(info), cfg.poolFeeShare)
  }

  function WinnerReward(cfg: RewardConfig, info: BlockInfo): int {
    Portion(TotalReward(info) - PoolFee(cfg, info), cfg.winnerShare)
  }

  /** What is left for the shares. */
  function SharedReward(cfg: RewardConfig, info: BlockInfo): int {
    TotalReward(info) - PoolFee(cfg, info) - WinnerReward(cfg, info)
  }

  function Share(reward: int, share: real): int {
    Round(share * reward as real)
  }

  /** What a sharer gets: his rounded share, and the winner's part if he forged the block. */
  function ShareOf(cfg: RewardConfig, info: BlockInfo, id: nat, share: real): int {
    Share(SharedReward(cfg, info), share) + if id == info.generator then WinnerReward(cfg, info) else 0
  }

  /** The credits: an entry per sharer, and one for the fee account unless it is itself a sharer. */
  function Credits(cfg: RewardConfig, info: BlockInfo, shareOf: map<nat, real>): map<nat, int> {
    map id | id in shareOf.Keys + (if cfg.feeAccount != 0 then {cfg.feeAccount} else {}) ::
      if id in shareOf then ShareOf(cfg, info, id, shareOf[id]) else PoolFee(cfg, info)
  }

  function Rounded(shareOf: map<nat, real>, reward: int): map<nat, int> {
    map id | id in shareOf :: Share(reward, shareOf[id])
  }

  /** How far a rounded amount is from the exact share. */
  function Error(amount: int, share: real, reward: int): real {
    Abs(amount as real - share * reward as real)
  }

  /** Rounding n shares moves their sum by at most n/2. */
  lemma {:induction false} RoundingError(shareOf: map<nat, real>, reward: int)
    ensures Error(Total(Rounded(shareOf, reward)), RealTotal(shareOf), reward) <= 0.5 * |shareOf| as real
    decreases |shareOf|
  {
    if shareOf == map[] {
      assert Rounded(shareOf, reward) == map[];
    } else {
      var k :| k in shareOf;
      RoundedRemove(shareOf, reward, k);
      hide Rounded, Share, Round, Error;
      RoundingError(shareOf - {k}, reward);
      TotalRemove(Rounded(shareOf, reward), k);
      RealTotalRemove(shareOf, k);
      ErrorsAdd(Rounded(shareOf, reward)[k], shareOf[k],
                Total(Rounded(shareOf - {k}, reward)), RealTotal(shareOf - {k}), reward);
    }
  }

  lemma ErrorsAdd(a: int, x: real, b: int, y: real, reward: int)
    ensures Error(a + b, x + y, reward) <= Error(a, x, reward) + Error(b, y, reward)
  {
    Distributes(x, y, reward as real);
  }

  lemma RoundedRemove(shareOf: map<nat, real>, reward: int, k: nat)
    requires k in shareOf
    ensures var rounded := Rounded(shareOf, reward);
            k in rounded && rounded - {k} == Rounded(shareOf - {k}, reward)
            && Error(rounded[k], shareOf[k], reward) <= 0.5
  {
    RoundIsNearest(shareOf[k] * reward as real);
  }

  lemma Distributes(x: real, y: real, c: real)
    ensures (x + y) * c == x * c + y * c
  {
  }

  /** The credits as the rounded shares with the winner's part and the pool's fee put in. */
  lemma CreditsInParts(cfg: RewardConfig, info: BlockInfo, shareOf: map<nat, real>)
    ensures var rounded := Rounded(shareOf, SharedReward(cfg, info));
            var won := if info.generator in shareOf
                       then rounded[info.generator := rounded[info.generator] + WinnerReward(cfg, info)] else rounded;
            Credits(cfg, info, shareOf)
            == if cfg.feeAccount != 0 && cfg.feeAccount !in shareOf
               then won[cfg.feeAccount := PoolFee(cfg, info)] else won
  {
    hide Share, PoolFee, WinnerReward, SharedReward;
  }

  /** The part of the reward that goes to nobody: the code drops it in two cases. */
  function Forfeited(cfg: RewardConfig, info: BlockInfo, sharers: set<nat>): int {
    (if info.generator in sharers then 0 else WinnerReward(cfg, info))
    + (if cfg.feeAccount in sharers then PoolFee(cfg, info) else 0)
  }

  lemma CreditsTotal(cfg: RewardConfig, info: BlockInfo, shareOf: map<nat, real>)
    ensures Total(Credits(cfg, info, shareOf))
            == Total(Rounded(shareOf, SharedReward(cfg, info)))
               + (if info.generator in shareOf then WinnerReward(cfg, info) else 0)
               + (if cfg.feeAccount in shareOf then 0 else PoolFee(cfg, info))
  {
    hide Share, WinnerReward, SharedReward;
    var rounded := Rounded(shareOf, SharedReward(cfg, info));
    CreditsInParts(cfg, info, shareOf);
    var won := rounded;
    if info.generator in shareOf {
      won := rounded[info.generator := rounded[info.generator] + WinnerReward(cfg, info)];
      TotalUpdate(rounded, info.generator, rounded[info.generator] + WinnerReward(cfg, info));
    }
    TotalUpdate(won, cfg.feeAccount, PoolFee(cfg, info));
  }

  /**
   Reward distribution: with a nonzero capacity sum the total credited is the
   block reward less what is forfeited, up to half a planck for each sharer.
   */
  lemma RewardDistributed(cfg: RewardConfig, info: BlockInfo, alpha: nat -> real, groups: seq<Deadlines>)
    requires Grouped(groups) && forall n: nat :: 0.0 <= alpha(n) <= 1.0
    requires EepsSum(alpha, groups) != 0.0
    ensures var shareOf := SharesOf(EepsOf(alpha, groups), EepsSum(alpha, groups));
            var credited := Total(Credits(cfg, info, shareOf));
            var reward := info.blockReward * 100000000 + info.totalFee;
            Abs((credited - reward + Forfeited(cfg, info, shareOf.Keys)) as real) <= 0.5 * |shareOf| as real
  {
    hide Eeps, Share, EepsOf, EepsSum, Credits, PoolFee, WinnerReward;
    var shareOf := SharesOf(EepsOf(alpha, groups), EepsSum(alpha, groups));
    SharesAddUp(alpha, groups);
    RoundingError(shareOf, SharedReward(cfg, info));
    CreditsTotal(cfg, info, shareOf);
  }

  /** How far the total credited is from block reward and transaction fees. */
  ghost function Missed(cfg: RewardConfig, info: BlockInfo, shareOf: map<nat, real>): real {
    Abs((Total(Credits(cfg, info, shareOf)) - info.blockReward * 100000000 - info.totalFee) as real)
  }

  /**
   The whole reward is credited, up to the rounding, if nothing is forfeited, and is
   not if more than n planck are.
   */
  lemma ForfeitDecides(cfg: RewardConfig, info: BlockInfo, alpha: nat -> real, groups: seq<Deadlines>)
    requires Grouped(groups) && forall n: nat :: 0.0 <= alpha(n) <= 1.0
    requires EepsSum(alpha, groups) != 0.0
    ensures var shareOf := SharesOf(EepsOf(alpha, groups), EepsSum(alpha, groups));
            var forfeited := Forfeited(cfg, info, shareOf.Keys);
            && (forfeited == 0 ==> Missed(cfg, info, shareOf) <= 0.5 * |shareOf| as real)
            && (forfeited > |shareOf| || -forfeited > |shareOf| ==>
                  Missed(cfg, info, shareOf) > 0.5 * |shareOf| as real)
  {
    hide Eeps, EepsOf, EepsSum, Credits, Forfeited, SharesOf;
    RewardDistributed(cfg, info, alpha, groups);
  }

  /**
   Nothing is forfeited exactly when the generator shares or the winner gets no part,
   and the fee account does not share or gets no fee.
   */
  lemma NothingForfeitedIff(cfg: RewardConfig, info: BlockInfo, sharers: set<nat>)
    requires TotalReward(info) >= 0 && 0.0 <= cfg.poolFeeShare <= 1.0 && 0.0 <= cfg.winnerShare <= 1.0
    ensures Forfeited(cfg, info, sharers) >= 0
    ensures Forfeited(cfg, info, sharers) == 0
            <==> (info.generator in sharers || WinnerReward(cfg, info) == 0)
                 && (cfg.feeAccount !in sharers || PoolFee(cfg, info) == 0)
  {
    PartsNonNegative(cfg, info);
    hide WinnerReward, PoolFee;
  }

  /** One miner who holds the whole capacity. */
  lemma OneSharer(alpha: nat -> real, groups: seq<Deadlines>)
    requires groups == [Deadlines(7, GENESIS_BASE_TARGET, 2)] && alpha(2) == 1.0
    ensures Grouped(groups) && EepsSum(alpha, groups) == 240.0
    ensures var shareOf := SharesOf(EepsOf(alpha, groups), EepsSum(alpha, groups));
            shareOf.Keys == {7} && |shareOf| == 1
  {
    assert groups[..0] == [] && Eeps(alpha, 2, GENESIS_BASE_TARGET) == 240.0;
    assert EepsOf(alpha, groups) == map[7 := 240.0];
    var shareOf := SharesOf(EepsOf(alpha, groups), EepsSum(alpha, groups));
    assert shareOf.Keys == {7} && |shareOf.Keys| == |shareOf|;
  }

  /** The generator has no share: his half of a reward of one coin goes to nobody. */
  lemma GeneratorWithoutShare(cfg: RewardConfig, info: BlockInfo, alpha: nat -> real, groups: seq<Deadlines>)
    requires cfg == RewardConfig(0, 0.0, 0.5) && info == BlockInfo(1, 9, 1, 0)
    requires groups == [Deadlines(7, GENESIS_BASE_TARGET, 2)] && alpha(2) == 1.0
             && forall n: nat :: 0.0 <= alpha(n) <= 1.0
    ensures var shareOf := SharesOf(EepsOf(alpha, groups), EepsSum(alpha, groups));
            Forfeited(cfg, info, shareOf.Keys) == 50000000 && Missed(cfg, info, shareOf) > 0.5 * |shareOf| as real
  {
    OneSharer(alpha, groups);
    assert WinnerReward(cfg, info) == 50000000;
    hide Eeps, EepsOf, EepsSum, SharesOf, Missed, WinnerReward;
    ForfeitDecides(cfg, info, alpha, groups);
  }

  /** The fee account shares: its fee of half a coin is overwritten by its share. */
  lemma FeeAccountWithShare(cfg: RewardConfig, info: BlockInfo, alpha: nat -> real, groups: seq<Deadlines>)
    requires cfg == RewardConfig(7, 0.5, 0.0) && info == BlockInfo(1, 7, 1, 0)
    requires groups == [Deadlines(7, GENESIS_BASE_TARGET, 2)] && alpha(2) == 1.0
             && forall n: nat :: 0.0 <= alpha(n) <= 1.0
    ensures var shareOf := SharesOf(EepsOf(alpha, groups), EepsSum(alpha, groups));
            Forfeited(cfg, info, shareOf.Keys) == 50000000 && Missed(cfg, info, shareOf) > 0.5 * |shareOf| as real
  {
    OneSharer(alpha, groups);
    assert PoolFee(cfg, info) == 50000000;
    hide Eeps, EepsOf, EepsSum, SharesOf, Missed, PoolFee;
    ForfeitDecides(cfg, info, alpha, groups);
  }

  /** With a capacity sum of zero only the pool's fee is credited. */
  lemma OnlyTheFee(cfg: RewardConfig, info: BlockInfo)
    ensures Total(Credits(cfg, info, map[])) == PoolFee(cfg, info)
  {
    hide Share;
    CreditsTotal(cfg, info, map[]);
    assert Rounded(map[], SharedReward(cfg, info)) == map[];
  }

  /** Parts in [0, 1] of a non-negative reward make non-negative credits. */
  lemma CreditsNonNegative(cfg: RewardConfig, info: BlockInfo, shareOf: map<nat, real>)
    requires TotalReward(info) >= 0 && 0.0 <= cfg.poolFeeShare <= 1.0 && 0.0 <= cfg.winnerShare <= 1.0
    requires forall id | id in shareOf :: shareOf[id] >= 0.0
    ensures forall id | id in Credits(cfg, info, shareOf) :: Credits(cfg, info, shareOf)[id] >= 0
    ensures 0 <= PoolFee(cfg, info) && 0 <= WinnerReward(cfg, info) && 0 <= SharedReward(cfg, info)
  {
    PartsNonNegative(cfg, info);
    hide Share, PoolFee, WinnerReward, SharedReward, TotalReward;
    forall id | id in shareOf
      ensures ShareOf(cfg, info, id, shareOf[id]) >= 0
    {
      ShareNonNegative(shareOf[id], SharedReward(cfg, info));
    }
  }

  lemma PartsNonNegative(cfg: RewardConfig, info: BlockInfo)
    requires TotalReward(info) >= 0 && 0.0 <= cfg.poolFeeShare <= 1.0 && 0.0 <= cfg.winnerShare <= 1.0
    ensures 0 <= PoolFee(cfg, info) && 0 <= WinnerReward(cfg, info) && 0 <= SharedReward(cfg, info)
  {
    hide Portion, TotalReward;
    RoundOfPart(TotalReward(info), cfg.poolFeeShare);
    RoundOfPart(TotalReward(info) - PoolFee(cfg, info), cfg.winnerShare);
  }

  lemma RoundOfPart(reward: int, part: real)
    requires reward >= 0 && 0.0 <= part <= 1.0
    ensures 0 <= Portion(reward, part) <= reward
  {
    PartWithin(reward as real, part);
    RoundWithin(reward as real * part, reward);
  }

  lemma PartWithin(x: real, part: real)
    requires x >= 0.0 && 0.0 <= part <= 1.0
    ensures 0.0 <= x * part <= x
  {
    ProductNonNegative(x, part);
    ProductNonNegative(x, 1.0 - part);
  }

  lemma ShareNonNegative(share: real, reward: int)
    requires share >= 0.0 && reward >= 0
    ensures Share(reward, share) >= 0
  {
    ProductNonNegative(share, reward as real);
    RoundIsNearest(share * reward as real);
  }
}
