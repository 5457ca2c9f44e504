/**
 Miners in the cache: deadline objects that may be shared between the newest
 submission and the confirmed entries, and the running sum.
 */
module MinerMethods {
  import opened Commons
  import opened Tables
  import opened MinerSums
  import BlockWindow

  class DeadlineParams {
    var deadline: nat
    var baseTarget: nat
    var height: nat

    constructor (deadline: nat, baseTarget: nat, height: nat)
      ensures Value() == Params(deadline, baseTarget, height)
    {
      this.deadline, this.baseTarget, this.height := deadline, baseTarget, height;
    }

    function Value(): Params
      reads this
    {
      Params(deadline, baseTarget, height)
    }
  }

  class Miner {
    var currentDeadlineParams: DeadlineParams?
    var deadlinesParams: map<nat, DeadlineParams>
    var weightedDeadlineSum: int

    ghost function Objects(): set<object>
      reads this
    {
      (set h | h in deadlinesParams :: deadlinesParams[h])
      + if currentDeadlineParams == null then {} else {currentDeadlineParams}
    }

    /** Entries are filed under their height; at the newest height the entry is the newest submission itself. */
    ghost predicate Valid()
      reads this, Objects()
    {
      (forall h | h in deadlinesParams :: deadlinesParams[h].height == h)
      && (currentDeadlineParams != null && currentDeadlineParams.height in deadlinesParams
          ==> deadlinesParams[currentDeadlineParams.height] == currentDeadlineParams)
    }

    ghost function Current(): Sums
      reads this, Objects()
    {
      Sums(if currentDeadlineParams == null then None else Some(currentDeadlineParams.Value()),
           map h | h in deadlinesParams :: deadlinesParams[h].Value(),
           weightedDeadlineSum)
    }

    constructor ()
      ensures Valid() && Current() == Sums(None, map[], 0) && Objects() == {}
    {
      currentDeadlineParams := null;
      deadlinesParams := map[];
      weightedDeadlineSum := 0;
    }

    /** Go: the part of cacheMiners for one miner, from a fresh miner. */
    method LoadSubmissions(rows: seq<Params>, newestSlow: nat)
      requires ByHeight(rows) && Valid() && Current() == Sums(None, map[], 0)
      modifies this
      ensures Valid() && Current() == Load(rows, newestSlow)
    {
      assert rows[..0] == [];
      for i := 0 to |rows|
        invariant Valid() && Current() == Load(rows[..i], newestSlow)
      {
        assert rows[..i + 1][..i] == rows[..i];
        ReloadAgrees(rows[..i], newestSlow);
        Mirrors();
        LoadSubmission(rows[i], newestSlow);
      }
      assert rows[..|rows|] == rows;
    }

    method LoadSubmission(p: Params, newestSlow: nat)
      requires Valid() && p.height !in deadlinesParams && p.height > CurrentHeight(Current())
      modifies this
      ensures Valid() && Current() == LoadOne(old(Current()), p, newestSlow)
    {
      var dp := new DeadlineParams(p.deadline, p.baseTarget, p.height);
      var currentHeight := CurrentBlockHeight();
      if p.height != newestSlow {
        AddEntry(dp);
      }
      if p.height > currentHeight {
        SetCurrent(dp);
      }
    }

    /** The object becomes the entry at its height, and its weight joins the sum. */
    method AddEntry(dp: DeadlineParams)
      requires Valid() && dp.height !in deadlinesParams
      requires currentDeadlineParams != null && currentDeadlineParams.height == dp.height ==>
                 currentDeadlineParams == dp
      modifies this`deadlinesParams, this`weightedDeadlineSum
      ensures Valid() && deadlinesParams == old(deadlinesParams)[dp.height := dp]
      ensures Current() == old(Current()).(confirmed := old(Current()).confirmed[dp.height := dp.Value()],
                                           sum := old(Current()).sum + WeightOf(dp.Value()))
    {
      deadlinesParams := deadlinesParams[dp.height := dp];
      weightedDeadlineSum := weightedDeadlineSum + Weight(dp.deadline, dp.baseTarget);
      assert Current().confirmed == old(Current()).confirmed[dp.height := dp.Value()];
    }

    /** The object becomes the newest submission. */
    method SetCurrent(dp: DeadlineParams)
      requires Valid() && (dp.height in deadlinesParams ==> deadlinesParams[dp.height] == dp)
      modifies this`currentDeadlineParams
      ensures Valid() && Current() == old(Current()).(current := Some(dp.Value()))
    {
      currentDeadlineParams := dp;
      assert Current().confirmed == old(Current()).confirmed;
    }

    /** Go: addDeadlineParams. The entry is the same object as the newest submission. */
    method AddDeadlineParams()
      requires Valid()
      modifies this
      ensures Valid() && Current() == Confirm(old(Current()))
    {
      if currentDeadlineParams == null {
        return;
      }
      var dp := currentDeadlineParams;
      if dp.height !in deadlinesParams {
        AddEntry(dp);
      }
    }

    /** Go: removeDeadlineParams. */
    method RemoveDeadlineParams(height: nat)
      requires Valid()
      modifies this
      ensures Valid() && Current() == Evict(old(Current()), height)
    {
      if height in deadlinesParams {
        var dp := deadlinesParams[height];
        weightedDeadlineSum := weightedDeadlineSum - Weight(dp.deadline, dp.baseTarget);
        deadlinesParams := deadlinesParams - {height};
        assert Current().confirmed == Evict(old(Current()), height).confirmed;
        assert Current().sum == Evict(old(Current()), height).sum;
      }
    }

    /** Go: the part of newBlock that visits one miner. */
    method NewBlock(a: Arrival)
      requires Valid()
      modifies this
      ensures Valid() && Current() == Arrive(old(Current()), a)
    {
      if a.slow {
        AddDeadlineParams();
      }
      if a.removed != 0 {
        RemoveDeadlineParams(a.removed);
      }
    }

    /** The values are those of the objects. */
    lemma Mirrors()
      requires Valid()
      ensures Current().confirmed.Keys == deadlinesParams.Keys && Current().sum == weightedDeadlineSum
      ensures forall h | h in deadlinesParams :: Current().confirmed[h] == deadlinesParams[h].Value()
      ensures Current().current == if currentDeadlineParams == null then None else Some(currentDeadlineParams.Value())
    {
    }

    method CurrentBlockHeight() returns (height: nat)
      requires Valid()
      ensures height == CurrentHeight(Current())
    {
      if currentDeadlineParams != null {
        return currentDeadlineParams.height;
      }
      return 0;
    }

    method CurrentDeadline() returns (deadline: nat)
      requires Valid()
      ensures deadline == MinerSums.CurrentDeadline(Current())
    {
      if currentDeadlineParams == null {
        return TWO_TO_THE_64 - 1;
      }
      return currentDeadlineParams.deadline;
    }

    /**
     Go: UpdateOrCreateNonceSubmission. arrival is what the block that the call may
     create does to this miner, ok whether the statement succeeds. crashed says that
     the code dereferences nil: height 0, for a miner without submissions.
     */
    method UpdateOrCreateNonceSubmission(cache: BlockWindow.Cache, height: nat, deadline: nat, baseTarget: nat,
                                         arrival: Option<Arrival>, ok: bool)
      returns (crashed: bool)
      requires Valid() && cache.Valid()
      modifies this, Objects()
      ensures Valid()
      ensures Current()
              == Submit(old(Current()), old(LookedUp(cache, Params(deadline, baseTarget, height), arrival, ok)))
      ensures crashed <==> old(Current()).current.None? && height == 0 && deadline < TWO_TO_THE_64 - 1 && ok
    {
      hide Arrive, Insert, ImproveCurrent, ImproveEntry, Current, Valid,
           BlockWindow.Blocks.Contents, BlockWindow.Blocks.Valid, BlockWindow.Cache.Valid;
      var currentHeight := CurrentBlockHeight();
      if currentHeight == height {
        crashed := ImproveNewest(deadline, ok);
        return;
      }
      crashed := false;
      var blockExists, slow := cache.WasSlowBlock(height);
      SubmitOther(height, deadline, baseTarget, blockExists, slow, arrival, ok);
    }

    /** A submission for the height of the newest one. */
    method ImproveNewest(deadline: nat, ok: bool) returns (crashed: bool)
      requires Valid()
      modifies currentDeadlineParams
      ensures var s := old(Current());
              && Valid()
              && Current() == (if MinerSums.CurrentDeadline(s) <= deadline || !ok || s.current.None?
                                then s else ImproveCurrent(s, deadline))
              && (crashed <==> s.current.None? && deadline < TWO_TO_THE_64 - 1 && ok)
    {
      var currentDeadline := CurrentDeadline();
      if currentDeadline <= deadline || !ok {
        return false;
      }
      if currentDeadlineParams == null {
        return true;
      }
      SetDeadline(deadline);
      return false;
    }

    /** A submission for another height. */
    method SubmitOther(height: nat, deadline: nat, baseTarget: nat, blockExists: bool, slow: bool,
                       arrival: Option<Arrival>, ok: bool)
      requires Valid() && height != CurrentHeight(Current())
      modifies this, Objects()
      ensures Valid()
      ensures Current() == Submit(old(Current()),
                                 Submission(Params(deadline, baseTarget, height), blockExists, slow, arrival, ok))
    {
      Mirrors();
      hide Arrive, Insert, ImproveCurrent, ImproveEntry, Current, Valid, CurrentHeight, MinerSums.CurrentDeadline;
      if blockExists && !slow {
        return;
      }
      if height in deadlinesParams {
        if deadlinesParams[height].deadline <= deadline || !ok {
          return;
        }
        ReplaceEntry(height, deadline, baseTarget);
        return;
      }
      Create(height, deadline, baseTarget, if blockExists || slow then None else arrival, ok);
    }

    /** The rest of the call: a block may be created first, then the submission is inserted. */
    method Create(height: nat, deadline: nat, baseTarget: nat, arrival: Option<Arrival>, ok: bool)
      requires Valid() && height !in deadlinesParams && height != CurrentHeight(Current())
      modifies this
      ensures Valid()
      ensures var t := if arrival.Some? then Arrive(old(Current()), arrival.value) else old(Current());
              Current() == if ok then Insert(t, Params(deadline, baseTarget, height)) else t
    {
      Mirrors();
      hide Arrive, Insert, Current;
      if arrival.Some? {
        ArriveKeepsHeights(Current(), arrival.value, height);
        NewBlock(arrival.value);
        Mirrors();
      }
      if !ok {
        return;
      }
      Store(height, deadline, baseTarget);
    }

    /** The newest submission gets a lower deadline, in place. */
    method SetDeadline(deadline: nat)
      requires Valid() && currentDeadlineParams != null
      modifies currentDeadlineParams`deadline
      ensures Valid() && Current() == ImproveCurrent(old(Current()), deadline)
    {
      currentDeadlineParams.deadline := deadline;
      assert Current().confirmed == ImproveCurrent(old(Current()), deadline).confirmed;
    }

    /** An entry gets a lower deadline, in place, and the sum follows. */
    method ReplaceEntry(height: nat, deadline: nat, baseTarget: nat)
      requires Valid() && height in deadlinesParams && height != CurrentHeight(Current())
      modifies this`weightedDeadlineSum, deadlinesParams[height]
      ensures Valid() && Current() == ImproveEntry(old(Current()), height, deadline, baseTarget)
    {
      var dp := deadlinesParams[height];
      weightedDeadlineSum := weightedDeadlineSum + Weight(deadline, baseTarget) - Weight(dp.deadline, dp.baseTarget);
      dp.baseTarget := baseTarget;
      dp.deadline := deadline;
      dp.height := height;
      assert Current().confirmed == ImproveEntry(old(Current()), height, deadline, baseTarget).confirmed;
    }

    /** A new object, as newest submission or as entry. */
    method Store(height: nat, deadline: nat, baseTarget: nat)
      requires Valid() && height !in deadlinesParams && height != CurrentHeight(Current())
      modifies this
      ensures Valid() && Current() == Insert(old(Current()), Params(deadline, baseTarget, height))
    {
      var dp := new DeadlineParams(deadline, baseTarget, height);
      var currentHeight := CurrentBlockHeight();
      if height > currentHeight {
        SetCurrent(dp);
      } else {
        AddEntry(dp);
      }
    }
  }

  /** A submission with what the cache answers for its height: slow or not, and known or not. */
  ghost function LookedUp(cache: BlockWindow.Cache, p: Params, arrival: Option<Arrival>, ok: bool): Submission
    reads cache.slowBlocks, cache.fastBlocks
  {
    var slow, fast := cache.slowBlocks.Contents(), cache.fastBlocks.Contents();
    Submission(p, p.height in slow, p.height in slow + fast, arrival, ok)
  }

  /** A valid miner's values meet the invariant. */
  lemma ValidMeansInv(m: Miner)
    requires m.Valid()
    ensures Inv(m.Current())
  {
  }

  /** A slow height is a known height, so the test that should turn submissions for fast blocks away never holds. */
  lemma TestNeverHolds(cache: BlockWindow.Cache, p: Params, arrival: Option<Arrival>, ok: bool)
    ensures var x := LookedUp(cache, p, arrival, ok);
            !(x.first && !x.second) && (x.first <==> p.height in cache.slowBlocks.Contents())
  {
  }

  /**
   Submissions for fast blocks are to be turned away. For every miner and cache, a
   submission for a height in the fast window and not in the slow one is treated
   as one for an unknown height that creates no block: it is turned away exactly
   when its statement fails or it is no better, and moves the sum exactly when
   counted.
   */
  lemma FastBlockIff(m: Miner, cache: BlockWindow.Cache, p: Params, arrival: Option<Arrival>, ok: bool)
    requires m.Valid() && p.height in cache.fastBlocks.Contents() && p.height !in cache.slowBlocks.Contents()
    ensures var s, x := m.Current(), LookedUp(cache, p, arrival, ok);
            && Submit(s, x) == Submit(s, Submission(p, false, false, None, ok))
            && (Submit(s, x) == s <==> TurnedAway(s, x))
            && (Submit(s, x).sum != s.sum <==> Counted(s, x))
  {
    ValidMeansInv(m);
    SubmissionIff(m.Current(), LookedUp(cache, p, arrival, ok));
  }
}
