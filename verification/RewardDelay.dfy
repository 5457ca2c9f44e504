/**
 How long a block waits for its reward: the comparison in plain heights, and
 the delay over every run.
 */
module RewardDelay {
  import opened Commons
  import opened Tables
  import opened Cleanup
  import opened Rewards
  import opened RewardCycle

  /**
   A block may be rewarded when it is payoutDelay below the current one; below the height
   payoutDelay, where the unsigned subtraction wraps, every block may.
   */
  lemma RipeMeans(p: Pool, c: nat, h: nat)
    requires c < HEIGHT_LIMIT && p.payoutDelay <= HEIGHT_LIMIT && h < HEIGHT_LIMIT
    ensures Ripe(p, c, h) <==> c < p.payoutDelay || h + p.payoutDelay <= c
  {
    var d := c - p.payoutDelay;
    if c < p.payoutDelay {
      assert d % TWO_TO_THE_64 == d + TWO_TO_THE_64;
    } else {
      assert d % TWO_TO_THE_64 == d;
    }
  }

  /** Every height credited so far is at least payoutDelay below the current one. */
  ghost predicate Waited(p: Pool, s: PoolState) {
    p.payoutDelay <= s.currentHeight && forall h | h in s.credited :: h + p.payoutDelay <= s.currentHeight
  }

  lemma RipeWaits(p: Pool, c: nat, h: nat)
    requires p.payoutDelay <= c && Ripe(p, c, h)
    ensures h + p.payoutDelay <= c
  {
  }

  lemma StepWaits(p: Pool, s: PoolState, step: Step)
    requires Waited(p, s) && Enabled(p, s, step)
    ensures Waited(p, Apply(p, s, step))
  {
    hide Ripe, TooOld, Rewarded, Credits, TotalReward, Remaining, NonMiners, RowsFrom, SubmissionsLeft, RowsOfAuthors;
    match step {
      case Won(info, _) => RipeWaits(p, s.currentHeight, info.height);
      case _ =>
    }
  }

  /**
   From a chain as high as the delay on no run, with whatever cleanups, credits a block
   that is less than payoutDelay below the current one.
   */
  lemma {:induction false} RunWaits(p: Pool, s: PoolState, steps: seq<Step>)
    requires ValidRun(p, s, steps) && Waited(p, s)
    ensures Waited(p, Run(p, s, steps))
    decreases steps
  {
    hide Apply, Enabled, Waited;
    if steps == [] {
    } else {
      StepWaits(p, s, steps[0]);
      RunWaits(p, Apply(p, s, steps[0]), steps[1..]);
    }
  }

  /** On a lower chain a block that has just arrived is rewarded at once, with one submission and one reward. */
  lemma LowChainRewardsAtOnce(p: Pool, s: PoolState, h: nat, info: BlockInfo, shareOf: map<nat, real>)
    requires s.currentHeight < h < p.payoutDelay <= HEIGHT_LIMIT && h !in s.blocks && h !in s.credited
    requires !TooOld(p.nAvg, s.currentHeight, h) && info.height == h && info.generator in s.accounts
    ensures var steps := [Arrive(h), Submit(h, info.generator), Won(info, shareOf)];
            && ValidRun(p, s, steps)
            && Run(p, s, steps).currentHeight == h && h in Run(p, s, steps).credited
  {
    hide TooOld, Ripe, Rewarded, Credits, TotalReward;
    RipeMeans(p, h, h);
    var steps := [Arrive(h), Submit(h, info.generator), Won(info, shareOf)];
    var s1 := Apply(p, s, steps[0]);
    var s2 := Apply(p, s1, steps[1]);
    assert Enabled(p, s2, steps[2]);
    var s3 := Apply(p, s2, steps[2]);
    assert steps[1..][0] == steps[1] && steps[1..][1..] == [steps[2]];
    LastStep(p, s2, steps[2]);
    assert ValidRun(p, s1, steps[1..]) && Run(p, s1, steps[1..]) == s3;
  }

  lemma LastStep(p: Pool, s: PoolState, step: Step)
    requires Enabled(p, s, step)
    ensures ValidRun(p, s, [step]) && Run(p, s, [step]) == Apply(p, s, step)
  {
    hide Apply, Enabled;
    var t := Apply(p, s, step);
    assert [step][1..] == [];
    assert ValidRun(p, t, []) && Run(p, t, []) == t;
  }
}
