/**
 Rewarding won blocks, on the tables.
 */
module RewardMethods {
  import opened Commons
  import opened Tables
  import opened Rewards
  import opened RewardCycle

  /** The best submission for a block, and the wallet's view of the block. */
  datatype Submission = Submission(miner: nat, nonce: nat)

  datatype Forged = Forged(info: BlockInfo, nonce: nat)

  /**
   Go: GetEEPSsOnBlock and GetSharesOnBlock, for the groups of the capacity query.
   */
  method GetShares(alpha: nat -> real, groups: seq<Deadlines>) returns (shareOf: map<nat, real>)
    ensures shareOf == SharesOf(EepsOf(alpha, groups), EepsSum(alpha, groups))
  {
    hide Eeps;
    var eepsOf: map<nat, real> := map[];
    var eepsSum := 0.0;
    assert groups[..0] == [];
    for i := 0 to |groups|
      invariant eepsOf == EepsOf(alpha, groups[..i]) && eepsSum == EepsSum(alpha, groups[..i])
    {
      assert groups[..i + 1][..i] == groups[..i];
      var e := Eeps(alpha, groups[i].confirmed, groups[i].weightedSum);
      eepsSum := eepsSum + e;
      eepsOf := eepsOf[groups[i].miner := e];
    }
    assert groups[..|groups|] == groups;

    shareOf := map[];
    if eepsSum != 0.0 {
      var rest := eepsOf.Keys;
      while rest != {}
        invariant rest <= eepsOf.Keys
        invariant shareOf == map id | id in eepsOf && id !in rest :: Over(eepsOf[id], eepsSum)
        decreases rest
      {
        var id :| id in rest;
        rest := rest - {id};
        shareOf := shareOf[id := Over(eepsOf[id], eepsSum)];
      }
      assert shareOf == Quotients(eepsOf, eepsSum);
    }
  }

  /** The division of one reward: the map rewardBlock fills, whatever order the shares come in. */
  method ShareInPlanck(cfg: RewardConfig, info: BlockInfo, shareOf: map<nat, real>)
    returns (shareInPlanckOf: map<nat, int>)
    ensures shareInPlanckOf == Credits(cfg, info, shareOf)
  {
    hide Portion, Share;
    shareInPlanckOf := map[];
    var totalReward := info.blockReward * PLANCK + info.totalFee;
    var reward := totalReward;

    if cfg.feeAccount != 0 {
      var poolFee := Portion(reward, cfg.poolFeeShare);
      shareInPlanckOf := shareInPlanckOf[cfg.feeAccount := poolFee];
      reward := reward - poolFee;
    }
    assert reward == TotalReward(info) - PoolFee(cfg, info);

    var winnerReward := Portion(reward, cfg.winnerShare);
    reward := reward - winnerReward;
    assert winnerReward == WinnerReward(cfg, info) && reward == SharedReward(cfg, info);

    hide PoolFee, WinnerReward, SharedReward, TotalReward, ShareOf;
    ghost var feeOnly := shareInPlanckOf;
    var rest := shareOf.Keys;
    while rest != {}
      invariant rest <= shareOf.Keys
      invariant shareInPlanckOf.Keys == feeOnly.Keys + (shareOf.Keys - rest)
      invariant forall id | id in shareInPlanckOf ::
        shareInPlanckOf[id] == if id in shareOf && id !in rest then ShareOf(cfg, info, id, shareOf[id]) else feeOnly[id]
      decreases rest
    {
      var accountID :| accountID in rest;
      rest := rest - {accountID};
      var shareInPlanck := Share(reward, shareOf[accountID]);
      if accountID == info.generator {
        shareInPlanck := shareInPlanck + winnerReward;
      }
      ShareValue(cfg, info, accountID, shareOf[accountID]);
      shareInPlanckOf := shareInPlanckOf[accountID := shareInPlanck];
    }
  }

  lemma ShareValue(cfg: RewardConfig, info: BlockInfo, id: nat, share: real)
    ensures ShareOf(cfg, info, id, share)
            == Share(SharedReward(cfg, info), share) + if id == info.generator then WinnerReward(cfg, info) else 0
  {
  }

  /** Steps may be appended to a run. */
  lemma {:induction false} RunAppend(p: Pool, s: PoolState, steps: seq<Step>, step: Step)
    requires ValidRun(p, s, steps) && Enabled(p, Run(p, s, steps), step)
    ensures ValidRun(p, s, steps + [step]) && Run(p, s, steps + [step]) == Apply(p, Run(p, s, steps), step)
    decreases steps
  {
    hide Apply, Enabled;
    var longer := steps + [step];
    if steps == [] {
      NoSteps(p, Apply(p, s, step), longer[1..]);
      assert longer[0] == step;
    } else {
      RunAppend(p, Apply(p, s, steps[0]), steps[1..], step);
      assert longer[0] == steps[0] && longer[1..] == steps[1..] + [step];
    }
  }

  /** The block was won by the pool with its best submission, and the reward is committed. */
  predicate Wins(h: nat, best: map<nat, Submission>, forged: Option<Forged>, commit: bool) {
    h in best && forged.Some? && Matches(best[h], forged.value) && commit
  }

  /** The row of a selected block after the pass, given its row before. */
  predicate Handled(before: Row, after: Row, h: nat, best: map<nat, Submission>, forged: Option<Forged>, commit: bool) {
    && HasBest(after, h, best)
    && (after.verified <==> h !in best || (forged.Some? && (Matches(best[h], forged.value) ==> commit)))
    && (if Wins(h, best, forged, commit)
        then after.block.winner == Some(best[h].miner)
             && after.reward == Some(forged.value.info.blockReward * 100000000 + forged.value.info.totalFee)
        else after.block.winner == before.block.winner && after.reward == before.reward)
  }

  /** The heights of a set, each once. */
  ghost predicate Heights(s: seq<nat>, heights: set<nat>) {
    (forall h :: h in s <==> h in heights) && forall i, j | 0 <= i < j < |s| :: s[i] != s[j]
  }

  function Winners(open: set<nat>, best: map<nat, Submission>, wallet: nat -> Option<Forged>, commit: nat -> bool)
    : set<nat>
  {
    set h | h in open && Wins(h, best, wallet(h), commit(h))
  }

  lemma OneMoreHeight(s: seq<nat>, open: set<nat>, h: nat, best: map<nat, Submission>, wallet: nat -> Option<Forged>,
                      commit: nat -> bool)
    requires Heights(s, Winners(open, best, wallet, commit)) && h !in open
    ensures Heights(if Wins(h, best, wallet(h), commit(h)) then s + [h] else s,
                    Winners(open + {h}, best, wallet, commit))
  {
    hide Wins;
    var before, after := Winners(open, best, wallet, commit), Winners(open + {h}, best, wallet, commit);
    assert after == before + if Wins(h, best, wallet(h), commit(h)) then {h} else {};
  }

  predicate HasBest(row: Row, h: nat, best: map<nat, Submission>) {
    row.block.best == if h in best then Some(best[h].miner) else None
  }

  /** The best submissions of some blocks are recorded, and nothing else changed. */
  ghost predicate Recorded(before: map<nat, Row>, after: map<nat, Row>, open: set<nat>, best: map<nat, Submission>) {
    && after.Keys == before.Keys
    && forall h | h in after ::
         if h in open then HasBest(after[h], h, best) && after[h] == before[h].(block := after[h].block)
                           && after[h].block.winner == before[h].block.winner
         else after[h] == before[h]
  }

  /** The selected blocks are handled, and the others left alone. */
  ghost predicate AllHandled(before: map<nat, Row>, after: map<nat, Row>, open: set<nat>, best: map<nat, Submission>,
                             wallet: nat -> Option<Forged>, commit: nat -> bool)
  {
    && after.Keys == before.Keys
    && forall h | h in after ::
         if h in open then Handled(before[h], after[h], h, best, wallet(h), commit(h)) else after[h] == before[h]
  }

  lemma HandledAfterRecording(before: map<nat, Row>, middle: map<nat, Row>, after: map<nat, Row>, open: set<nat>,
                              best: map<nat, Submission>, wallet: nat -> Option<Forged>, commit: nat -> bool)
    requires Recorded(before, middle, open, best) && AllHandled(middle, after, open, best, wallet, commit)
    ensures AllHandled(before, after, open, best, wallet, commit)
  {
    hide Wins, Matches;
    forall h | h in after
      ensures if h in open then Handled(before[h], after[h], h, best, wallet(h), commit(h)) else after[h] == before[h]
    {
      assert h in middle;
    }
  }

  /** One more selected block is handled, and the others left as they were. */
  lemma OneMoreHandled(before: map<nat, Row>, middle: map<nat, Row>, after: map<nat, Row>, open: set<nat>, h: nat,
                       best: map<nat, Submission>, wallet: nat -> Option<Forged>, commit: nat -> bool)
    requires AllHandled(before, middle, open, best, wallet, commit) && h in middle && h !in open
    requires after.Keys == middle.Keys && forall k | k in after && k != h :: after[k] == middle[k]
    requires Handled(middle[h], after[h], h, best, wallet(h), commit(h))
    ensures AllHandled(before, after, open + {h}, best, wallet, commit)
  {
    hide Handled;
    forall k | k in after
      ensures if k in open + {h} then Handled(before[k], after[k], k, best, wallet(k), commit(k))
              else after[k] == before[k]
    {
      assert k in middle;
    }
  }

  lemma StillOpen(before: map<nat, Row>, after: map<nat, Row>, open: set<nat>, h: nat, best: map<nat, Submission>,
                  wallet: nat -> Option<Forged>, commit: nat -> bool)
    requires AllHandled(before, after, open, best, wallet, commit) && h in before && h !in open
    ensures h in after && after[h] == before[h]
  {
    hide Handled;
  }

  lemma NoneHandled(blocks: map<nat, Row>, best: map<nat, Submission>, wallet: nat -> Option<Forged>,
                    commit: nat -> bool)
    ensures AllHandled(blocks, blocks, {}, best, wallet, commit)
  {
  }

  lemma {:induction false} RunConcat(p: Pool, s: PoolState, first: seq<Step>, second: seq<Step>)
    requires ValidRun(p, s, first) && ValidRun(p, Run(p, s, first), second)
    ensures ValidRun(p, s, first + second) && Run(p, s, first + second) == Run(p, Run(p, s, first), second)
    decreases first
  {
    hide Apply, Enabled;
    if first == [] {
      assert first + second == second;
    } else {
      RunConcat(p, Apply(p, s, first[0]), first[1..], second);
      assert (first + second)[0] == first[0] && (first + second)[1..] == first[1..] + second;
    }
  }

  class PoolLedger {
    const pool: Pool
    var accounts: map<nat, Account>
    var miners: set<nat>
    var blocks: map<nat, Row>
    var submissions: set<(nat, nat)>
    var currentHeight: nat
    /** The heights credited so far. */
    ghost var credited: seq<nat>

    ghost function Current(): PoolState
      reads this
    {
      PoolState(accounts, miners, blocks, submissions, currentHeight, credited)
    }

    /** Go: rewardBlock. groups is absent when the capacity query fails; then there are no shares. */
    method RewardBlock(info: BlockInfo, alpha: nat -> real, groups: Option<seq<Deadlines>>, commit: bool)
      requires info.height in blocks
      modifies this`accounts, this`blocks, this`credited
      ensures Current() == if commit then WonStep(pool, old(Current()), info, Shares(alpha, groups)) else old(Current())
    {
      var shareOf: map<nat, real> := map[];
      if groups.Some? {
        shareOf := GetShares(alpha, groups.value);
      }
      var shareInPlanckOf := ShareInPlanck(pool.rewards, info, shareOf);
      if !commit {
        return;
      }
      hide Credits;
      UpdatePending(shareInPlanckOf);
      blocks := blocks[info.height := Row(true, Some(TotalReward(info)),
                                          blocks[info.height].block.(winner := Some(info.generator)))];
      credited := credited + [info.height];
    }

    /** UPDATE account SET pending = pending + ?, for every entry. */
    method UpdatePending(shareInPlanckOf: map<nat, int>)
      modifies this`accounts
      ensures accounts == Rewarded(old(accounts), shareInPlanckOf)
    {
      var rest := shareInPlanckOf.Keys;
      assert accounts == Rewarded(accounts, shareInPlanckOf - rest);
      while rest != {}
        invariant rest <= shareInPlanckOf.Keys
        invariant accounts == Rewarded(old(accounts), shareInPlanckOf - rest)
        decreases rest
      {
        var id :| id in rest;
        var smaller := rest - {id};
        RewardOne(old(accounts), shareInPlanckOf - smaller, id);
        assert (shareInPlanckOf - smaller) - {id} == shareInPlanckOf - rest;
        accounts := AddPending(accounts, id, shareInPlanckOf[id]);
        rest := smaller;
      }
      assert shareInPlanckOf - {} == shareInPlanckOf;
    }

    /**
     Go: RewardBlocks. created holds the heights whose block is old enough; best gives
     each block's best submission, wallet the block of the chain at a height unless
     the query fails. The pass is a run of the steps of RewardCycle; it handles exactly
     the selected blocks, and credits each of those won once.
     */
    method RewardBlocks(created: set<nat>, best: map<nat, Submission>, wallet: nat -> Option<Forged>,
                        alpha: nat -> real, groups: nat -> Option<seq<Deadlines>>, commit: nat -> bool)
      returns (ghost steps: seq<Step>, ghost wins: seq<nat>)
      requires forall h | h in best :: (h, best[h].miner) in submissions
      requires forall h: nat | wallet(h).Some? :: wallet(h).value.info.height == h
      modifies this
      ensures ValidRun(pool, old(Current()), steps) && Current() == Run(pool, old(Current()), steps)
      ensures forall step | step in steps :: step.Best? || step.Lost? || step.Won?
      ensures AllHandled(old(blocks), blocks, Open(created, old(blocks), old(currentHeight)), best, wallet, commit)
      ensures credited == old(credited) + wins
      ensures Heights(wins, Winners(Open(created, old(blocks), old(currentHeight)), best, wallet, commit))
    {
      hide Apply, Run, ValidRun, AllHandled, Heights, Winners, Ripe;
      var open := Open(created, blocks, currentHeight);
      ghost var recorded := RecordBest(open, best);
      ghost var middle, start := blocks, Current();
      ghost var rewarded;
      rewarded, wins := RewardOpen(open, best, wallet, alpha, groups, commit);
      steps := recorded + rewarded;
      assert start == Run(pool, old(Current()), recorded);
      RunConcat(pool, old(Current()), recorded, rewarded);
      HandledAfterRecording(old(blocks), middle, blocks, open, best, wallet, commit);
    }

    /** The best submission of every selected block. */
    method RecordBest(open: set<nat>, best: map<nat, Submission>) returns (ghost steps: seq<Step>)
      requires forall h | h in best :: (h, best[h].miner) in submissions
      requires forall h | h in open :: h in blocks && !blocks[h].verified
      modifies this`blocks
      ensures ValidRun(pool, old(Current()), steps) && Current() == Run(pool, old(Current()), steps)
      ensures forall step | step in steps :: step.Best?
      ensures Recorded(old(blocks), blocks, open, best)
    {
      steps := [];
      var rest := open;
      while rest != {}
        invariant rest <= open && Recorded(old(blocks), blocks, open - rest, best)
        invariant ValidRun(pool, old(Current()), steps) && Current() == Run(pool, old(Current()), steps)
        invariant forall step | step in steps :: step.Best?
        decreases rest
      {
        hide Apply, Run, ValidRun;
        var h :| h in rest;
        rest := rest - {h};
        ghost var step := SetBest(h, if h in best then Some(best[h].miner) else None);
        RunAppend(pool, old(Current()), steps, step);
        steps := steps + [step];
      }
    }

    /** The selected blocks one by one, in any order. */
    method RewardOpen(open: set<nat>, best: map<nat, Submission>, wallet: nat -> Option<Forged>,
                      alpha: nat -> real, groups: nat -> Option<seq<Deadlines>>, commit: nat -> bool)
      returns (ghost steps: seq<Step>, ghost wins: seq<nat>)
      requires forall h | h in best :: (h, best[h].miner) in submissions
      requires forall h: nat | wallet(h).Some? :: wallet(h).value.info.height == h
      requires forall h | h in open ::
                 h in blocks && !blocks[h].verified && Ripe(pool, currentHeight, h) && HasBest(blocks[h], h, best)
      modifies this
      ensures ValidRun(pool, old(Current()), steps) && Current() == Run(pool, old(Current()), steps)
      ensures forall step | step in steps :: step.Best? || step.Lost? || step.Won?
      ensures AllHandled(old(blocks), blocks, open, best, wallet, commit)
      ensures credited == old(credited) + wins && Heights(wins, Winners(open, best, wallet, commit))
    {
      steps, wins := [], [];
      NoneHandled(blocks, best, wallet, commit);
      var rest := open;
      assert open - rest == {};
      while rest != {}
        invariant rest <= open && submissions == old(submissions) && currentHeight == old(currentHeight)
        invariant ValidRun(pool, old(Current()), steps) && Current() == Run(pool, old(Current()), steps)
        invariant forall step | step in steps :: step.Best? || step.Lost? || step.Won?
        invariant AllHandled(old(blocks), blocks, open - rest, best, wallet, commit)
        invariant credited == old(credited) + wins && Heights(wins, Winners(open - rest, best, wallet, commit))
        decreases rest
      {
        hide Apply, Run, ValidRun, Ripe, Enabled, Handled, AllHandled, HasBest, Wins, Heights, Winners, Matches;
        var h :| h in rest;
        ghost var done, middle := open - rest, blocks;
        StillOpen(old(blocks), blocks, done, h, best, wallet, commit);
        rest := rest - {h};
        ghost var step := RewardOneBlock(h, best, wallet(h), alpha, groups(h), commit(h));
        if step.Some? {
          RunAppend(pool, old(Current()), steps, step.value);
          steps := steps + [step.value];
        }
        assert open - rest == done + {h};
        OneMoreHandled(old(blocks), middle, blocks, done, h, best, wallet, commit);
        OneMoreHeight(wins, done, h, best, wallet, commit);
        if Wins(h, best, wallet(h), commit(h)) {
          wins := wins + [h];
        }
      }
    }

    /** The blocks selected: old enough, not verified, and ripe. */
    function Open(created: set<nat>, blocks: map<nat, Row>, currentHeight: nat): set<nat> {
      set h | h in created && h in blocks && !blocks[h].verified && Ripe(pool, currentHeight, h)
    }

    /** UPDATE block SET best_nonce_submission_id, for one block. */
    method SetBest(h: nat, author: Option<nat>) returns (ghost step: Step)
      requires h in blocks && !blocks[h].verified && (author.Some? ==> (h, author.value) in submissions)
      modifies this`blocks
      ensures step == Best(h, author) && Enabled(pool, old(Current()), step)
      ensures Current() == Apply(pool, old(Current()), step)
      ensures blocks == old(blocks)[h := old(blocks)[h].(block := old(blocks)[h].block.(best := author))]
    {
      blocks := blocks[h := blocks[h].(block := blocks[h].block.(best := author))];
      return Best(h, author);
    }

    /** One block of the pass: verified if nobody submitted or it was not won, rewarded if it was. */
    method RewardOneBlock(h: nat, best: map<nat, Submission>, forged: Option<Forged>,
                          alpha: nat -> real, groups: Option<seq<Deadlines>>, commit: bool)
      returns (ghost step: Option<Step>)
      requires h in blocks && !blocks[h].verified && Ripe(pool, currentHeight, h)
      requires h in best ==> (h, best[h].miner) in submissions
      requires forged.Some? ==> forged.value.info.height == h
      modifies this
      ensures step.None? ==> Current() == old(Current())
      ensures step.Some? ==> (step.value.Lost? || step.value.Won?) && Enabled(pool, old(Current()), step.value)
                             && Current() == Apply(pool, old(Current()), step.value)
      ensures step.None? <==> h in best && (forged.None? || (Matches(best[h], forged.value) && !commit))
      ensures step.Some? && step.value.Won?
              <==> && h in best && forged.Some? && commit
                   && forged.value.info.generator == best[h].miner && forged.value.nonce == best[h].nonce
      ensures submissions == old(submissions) && currentHeight == old(currentHeight) && blocks.Keys == old(blocks.Keys)
      ensures forall k | k in blocks && k != h :: blocks[k] == old(blocks[k])
      ensures HasBest(old(blocks)[h], h, best) ==> Handled(old(blocks)[h], blocks[h], h, best, forged, commit)
      ensures credited == old(credited) + if Wins(h, best, forged, commit) then [h] else []
    {
      hide Ripe;
      if h !in best {
        blocks := blocks[h := blocks[h].(verified := true)];
        return Some(Lost(h));
      }
      if forged.None? {
        return None;
      }
      var won := forged.value.info.generator == best[h].miner && forged.value.nonce == best[h].nonce;
      if !won {
        blocks := blocks[h := blocks[h].(verified := true)];
        return Some(Lost(h));
      }
      RewardBlock(forged.value.info, alpha, groups, commit);
      return if commit then Some(Won(forged.value.info, Shares(alpha, groups))) else None;
    }
  }

  predicate Matches(best: Submission, forged: Forged) {
    forged.info.generator == best.miner && forged.nonce == best.nonce
  }

  function Shares(alpha: nat -> real, groups: Option<seq<Deadlines>>): map<nat, real> {
    if groups.None? then map[] else SharesOf(EepsOf(alpha, groups.value), EepsSum(alpha, groups.value))
  }
}
