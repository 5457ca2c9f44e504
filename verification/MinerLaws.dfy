/**
 Which deadline a miner has for a height: the least of those let through, over
 every run of submissions and blocks.
 */
module MinerLaws {
  import opened Commons
  import opened Tables
  import opened MinerSums

  /** The weight is the product with whole multiples of 2^64 taken off. */
  lemma WeightLaw(deadline: nat, baseTarget: nat)
    ensures exists q: nat :: deadline * baseTarget == q * 0x1_0000_0000_0000_0000 + Weight(deadline, baseTarget)
    ensures deadline * baseTarget < 0x1_0000_0000_0000_0000 ==> Weight(deadline, baseTarget) == deadline * baseTarget
  {
    var x := deadline * baseTarget;
    assert x == x / TWO_TO_THE_64 * TWO_TO_THE_64 + x % TWO_TO_THE_64;
    if x < TWO_TO_THE_64 {
      NoWrap(x);
    }
  }

  /** The deadline the miner has for a height. */
  function Known(s: Sums, h: nat): Option<nat> {
    if s.current.Some? && s.current.value.height == h then Some(s.current.value.deadline)
    else if h in s.confirmed then Some(s.confirmed[h].deadline)
    else None
  }

  /** The submission is for the newest height, or is not refused as one for a fast block; and it is stored. */
  predicate Passes(s: Sums, x: Submission) {
    x.ok && (CurrentHeight(s) == x.params.height || !x.first || x.second)
  }

  function Less(known: Option<nat>, deadline: nat): nat {
    if known.Some? then Min(known.value, deadline) else deadline
  }

  /** A submission that passes leaves the lesser of the deadline known for its height and its own. */
  lemma SubmissionLowers(s: Sums, x: Submission)
    requires Inv(s) && x.params.height > 0 && Passes(s, x)
    ensures Known(Submit(s, x), x.params.height) == Some(Less(Known(s, x.params.height), x.params.deadline))
  {
    hide WeightOf, Weight, Total;
  }

  /** While a height stays known, only submissions for it that pass change its deadline, and only to a lesser one. */
  lemma StepKeepsLeast(s: Sums, step: Step, h: nat)
    requires Inv(s) && h > 0 && Known(s, h).Some? && Known(Apply(s, step), h).Some?
    ensures Known(Apply(s, step), h).value
            == if step.Submitted? && step.x.params.height == h && Passes(s, step.x)
               then Min(Known(s, h).value, step.x.params.deadline) else Known(s, h).value
  {
    hide WeightOf, Weight, Total;
    if step.Submitted? && step.x.params.height == h && Passes(s, step.x) {
      SubmissionLowers(s, step.x);
    }
  }

  /**
   A new block leaves the newest submission and adds it to the entries, if the block before
   was slow and there is no entry for its height, and takes out the evicted height.
   */
  lemma ArrivalEntries(s: Sums, a: Arrival, h: nat)
    requires Inv(s)
    ensures Arrive(s, a).current == s.current
    ensures h in Arrive(s, a).confirmed
            <==> (h in s.confirmed || (a.slow && s.current.Some? && s.current.value.height == h))
                 && (a.removed == 0 || h != a.removed)
    ensures h in Arrive(s, a).confirmed ==>
              Arrive(s, a).confirmed[h] == if h in s.confirmed then s.confirmed[h] else s.current.value
  {
    hide WeightOf, Weight;
  }

  /** The least of a deadline and those submitted for the height that pass. */
  function LeastAlong(s: Sums, steps: seq<Step>, h: nat, first: nat): nat {
    if steps == [] then first
    else
      var n := |steps| - 1;
      var before := LeastAlong(s, steps[..n], h, first);
      var step := steps[n];
      if step.Submitted? && step.x.params.height == h && Passes(Run(s, steps[..n]), step.x)
      then Min(before, step.x.params.deadline) else before
  }

  /** Over every run along which a height stays known its deadline is the least that passed. */
  lemma {:induction false} KeepsLeast(s: Sums, steps: seq<Step>, h: nat)
    requires Inv(s) && h > 0 && forall i | 0 <= i <= |steps| :: Known(Run(s, steps[..i]), h).Some?
    ensures Known(s, h).Some? && Known(Run(s, steps), h) == Some(LeastAlong(s, steps, h, Known(s, h).value))
  {
    hide Apply, Known, Inv, Passes;
    assert steps[..0] == [] && Run(s, []) == s;
    assert steps[..|steps|] == steps;
    if steps == [] {
    } else {
      var n := |steps| - 1;
      var front := steps[..n];
      assert forall i | 0 <= i <= n :: front[..i] == steps[..i];
      KeepsLeast(s, front, h);
      RunDrift(s, front);
      StepKeepsLeast(Run(s, front), steps[n], h);
    }
  }
}
