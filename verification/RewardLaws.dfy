/**
 What a share and a credit amount to: capacities fall with the weighted
 deadlines, shares stand to each other as capacities, and every credit is the
 exact part of block reward and fees, rounded once.
 */
module RewardLaws {
  import opened Tables
  import opened Rewards

  // ----- capacities

  /** The weight of n confirmed deadlines in a capacity. */
  function Strength(alpha: nat -> real, n: nat): real {
    alpha(n) * (n as real - 1.0)
  }

  /** Capacity times weighted sum is the strength times 240 genesis base targets. */
  lemma {:induction false} EepsLaw(alpha: nat -> real, n: nat, w: real)
    ensures w != 0.0 ==> Eeps(alpha, n, w) * w == Strength(alpha, n) * (240.0 * 18325193796.0)
    ensures w == 0.0 ==> Eeps(alpha, n, w) == 0.0
  {
    if w != 0.0 {
      QuotientLaw(alpha(n), (n - 1) as real, 240.0, w, GENESIS_BASE_TARGET);
    }
  }

  lemma QuotientLaw(a: real, c: real, k: real, w: real, g: real)
    requires w != 0.0 && g != 0.0 && w / g != 0.0
    ensures a * k * c / (w / g) * w == a * c * (k * g)
  {
    hide Eeps;
    var q := w / g;
    assert w == q * g;
    calc {
      a * k * c / q * w;
      a * k * c / q * (q * g);
      { assert a * k * c / q * q == a * k * c; }
      a * k * c * g;
      a * c * (k * g);
    }
  }

  /** Every miner's capacity is that of his group. */
  lemma {:induction false} EepsAt(alpha: nat -> real, groups: seq<Deadlines>, i: nat)
    requires DistinctMiners(groups) && i < |groups|
    ensures groups[i].miner in EepsOf(alpha, groups)
    ensures EepsOf(alpha, groups)[groups[i].miner] == Eeps(alpha, groups[i].confirmed, groups[i].weightedSum)
  {
    hide Eeps;
    var n := |groups| - 1;
    if i < n {
      EepsAt(alpha, groups[..n], i);
    }
  }

  // ----- shares

  /**
   Two shares stand to each other as the strengths over the weighted sums; a miner
   with a sum of zero or one confirmed deadline has share 0.
   */
  lemma {:induction false} ShareRatio(alpha: nat -> real, groups: seq<Deadlines>, i: nat, j: nat)
    requires DistinctMiners(groups) && EepsSum(alpha, groups) != 0.0 && i < |groups| && j < |groups|
    ensures var shareOf := SharesOf(EepsOf(alpha, groups), EepsSum(alpha, groups));
            var a, b := groups[i], groups[j];
            && a.miner in shareOf && b.miner in shareOf
            && (a.weightedSum != 0.0 && b.weightedSum != 0.0 ==>
                  shareOf[a.miner] * a.weightedSum * Strength(alpha, b.confirmed)
                  == shareOf[b.miner] * b.weightedSum * Strength(alpha, a.confirmed))
            && (a.weightedSum == 0.0 || a.confirmed == 1 ==> shareOf[a.miner] == 0.0)
  {
    hide Eeps, Over, EepsOf, EepsSum, Strength;
    var sum := EepsSum(alpha, groups);
    var a, b := groups[i], groups[j];
    var x, y := Eeps(alpha, a.confirmed, a.weightedSum), Eeps(alpha, b.confirmed, b.weightedSum);
    EepsAt(alpha, groups, i);
    EepsAt(alpha, groups, j);
    EepsLaw(alpha, a.confirmed, a.weightedSum);
    EepsLaw(alpha, b.confirmed, b.weightedSum);
    if a.weightedSum != 0.0 && b.weightedSum != 0.0 {
      Proportional(x, a.weightedSum, Strength(alpha, a.confirmed),
                   y, b.weightedSum, Strength(alpha, b.confirmed), 240.0 * 18325193796.0, sum);
    }
    if a.confirmed == 1 {
      WithoutStrength(alpha);
      NoFactor(x, a.weightedSum);
    }
    NothingOver(sum);
  }

  lemma WithoutStrength(alpha: nat -> real)
    ensures Strength(alpha, 1) == 0.0
  {
  }

  lemma NoFactor(x: real, w: real)
    requires w == 0.0 ==> x == 0.0
    requires x * w == 0.0
    ensures x == 0.0
  {
  }

  lemma NothingOver(d: real)
    requires d != 0.0
    ensures Over(0.0, d) == 0.0
  {
  }

  lemma Proportional(x: real, v: real, p: real, y: real, w: real, q: real, k: real, d: real)
    requires d != 0.0 && x * v == p * k && y * w == q * k
    ensures Over(x, d) * v * q == Over(y, d) * w * p
  {
    OverTimes(x, v, d);
    OverTimes(y, w, d);
    OverTimes(p, k, d);
    OverTimes(q, k, d);
    assert Over(x, d) * v * q == Over(p, d) * k * q;
    assert Over(y, d) * w * p == Over(q, d) * k * p;
    OverTimes(p, q, d);
    OverTimes(q, p, d);
    assert p * q == q * p;
    assert Over(p, d) * k * q == Over(p, d) * q * k;
    assert Over(q, d) * k * p == Over(q, d) * p * k;
  }

  lemma OverTimes(x: real, y: real, d: real)
    requires d != 0.0
    ensures Over(x, d) * y == Over(x * y, d)
  {
  }

  /** Nobody has a share exactly when every miner is without deadlines, strength or weight. */
  lemma {:induction false} NoSharesIff(alpha: nat -> real, groups: seq<Deadlines>)
    requires Grouped(groups) && forall n: nat :: 0.0 <= alpha(n) <= 1.0
    ensures EepsSum(alpha, groups) >= 0.0
    ensures EepsSum(alpha, groups) == 0.0
            <==> forall g | g in groups :: g.weightedSum == 0.0 || g.confirmed == 1 || alpha(g.confirmed) == 0.0
  {
    hide Eeps;
    if groups == [] {
    } else {
      var n := |groups| - 1;
      var g := groups[n];
      NoSharesIff(alpha, groups[..n]);
      OneNonNegative(alpha, g);
      NoCapacityIff(alpha, g);
      assert groups == groups[..n] + [g];
    }
  }

  lemma NoCapacityIff(alpha: nat -> real, g: Deadlines)
    requires g.confirmed >= 1 && 0.0 <= alpha(g.confirmed)
    ensures Eeps(alpha, g.confirmed, g.weightedSum) == 0.0
            <==> g.weightedSum == 0.0 || g.confirmed == 1 || alpha(g.confirmed) == 0.0
  {
    hide Eeps;
    var e, s := Eeps(alpha, g.confirmed, g.weightedSum), Strength(alpha, g.confirmed);
    EepsLaw(alpha, g.confirmed, g.weightedSum);
    if e == 0.0 && g.weightedSum != 0.0 {
      assert s * (240.0 * 18325193796.0) == 0.0;
      ZeroProduct(alpha(g.confirmed), g.confirmed as real - 1.0);
    }
    if g.confirmed == 1 || alpha(g.confirmed) == 0.0 {
      assert s == 0.0;
      NoFactor(e, g.weightedSum);
    }
  }

  lemma ZeroProduct(x: real, y: real)
    requires x * y == 0.0
    ensures x == 0.0 || y == 0.0
  {
  }

  // ----- credits

  /** Fee and winner's part are nearest to their parts: the fee's of the whole, the winner's of what the fee leaves. */
  lemma PartsNearest(cfg: RewardConfig, info: BlockInfo)
    ensures var reward := info.blockReward * 100000000 + info.totalFee;
            var fee, won := PoolFee(cfg, info), WinnerReward(cfg, info);
            && (if cfg.feeAccount == 0 then fee == 0 else Nearest(fee, cfg.poolFeeShare, reward))
            && Nearest(won, cfg.winnerShare, reward - fee)
  {
    hide Portion, Nearest;
    PortionNearest(TotalReward(info), cfg.poolFeeShare);
    PortionNearest(TotalReward(info) - PoolFee(cfg, info), cfg.winnerShare);
  }

  /** The amount is the part of the reward, rounded. */
  predicate Nearest(amount: int, part: real, reward: int) {
    Error(amount, part, reward) <= 0.5
  }

  lemma PortionNearest(reward: int, part: real)
    ensures Nearest(Portion(reward, part), part, reward) && Nearest(Share(reward, part), part, reward)
  {
    hide Round, Abs;
    RoundIsNearest(reward as real * part);
    RoundIsNearest(part * reward as real);
    assert reward as real * part == part * reward as real;
  }

  /**
   Who is credited what: a sharer the rounded share of what fee and winner's part leave,
   with the winner's part on top if he forged the block; the fee account, if it does not
   share, the fee; nobody else anything.
   */
  lemma CreditsNearest(cfg: RewardConfig, info: BlockInfo, shareOf: map<nat, real>, id: nat)
    ensures var credits := Credits(cfg, info, shareOf);
            var fee, won := PoolFee(cfg, info), WinnerReward(cfg, info);
            var rest := info.blockReward * 100000000 + info.totalFee - fee - won;
            && (id in credits <==> id in shareOf || id == cfg.feeAccount != 0)
            && (id in shareOf ==> Nearest(credits[id] - (if id == info.generator then won else 0), shareOf[id], rest))
            && (id !in shareOf && id in credits ==> credits[id] == fee)
  {
    hide Share, Nearest, PoolFee, WinnerReward;
    if id in shareOf {
      PortionNearest(SharedReward(cfg, info), shareOf[id]);
    }
  }

  /** Without fee and winner's part the single sharer gets block reward and transaction fees. */
  lemma FeesAreShared(cfg: RewardConfig, info: BlockInfo, shareOf: map<nat, real>)
    requires cfg == RewardConfig(0, 0.0, 0.0) && info == BlockInfo(1, 9, 1, 30) && shareOf == map[7 := 1.0]
    ensures Credits(cfg, info, shareOf) == map[7 := 100000030]
  {
  }
}
