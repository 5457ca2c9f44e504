/**
 A miner's confirmed deadlines and the running sum of their weights, as values.
 The newest submission may also be a confirmed entry; then the two are one.
 */
module MinerSums {
  import opened Commons
  import opened Tables

  datatype Params = Params(deadline: nat, baseTarget: nat, height: nat)

  datatype Sums = Sums(current: Option<Params>, confirmed: map<nat, Params>, sum: int)

  /** The product of 64-bit unsigned integers. */
  function Weight(deadline: nat, baseTarget: nat): (w: nat)
    ensures w < TWO_TO_THE_64
  {
    deadline * baseTarget % TWO_TO_THE_64
  }

  function WeightOf(p: Params): nat {
    Weight(p.deadline, p.baseTarget)
  }

  ghost function Weights(confirmed: map<nat, Params>): (m: map<nat, int>)
    ensures m.Keys == confirmed.Keys && forall h | h in confirmed :: m[h] == WeightOf(confirmed[h])
  {
    map h | h in confirmed :: WeightOf(confirmed[h])
  }

  /** How far the running sum is from the sum recomputed. */
  ghost function Drift(s: Sums): int {
    s.sum - Total(Weights(s.confirmed))
  }

  /** Entries are filed under their own height; an entry at the newest height is the newest submission. */
  ghost predicate Inv(s: Sums) {
    (forall h | h in s.confirmed :: s.confirmed[h].height == h)
    && (Aliased(s) ==> s.confirmed[s.current.value.height] == s.current.value)
  }

  predicate Aliased(s: Sums) {
    s.current.Some? && s.current.value.height in s.confirmed
  }

  function CurrentHeight(s: Sums): nat {
    if s.current.Some? then s.current.value.height else 0
  }

  /** No submission counts as the largest 64-bit deadline. */
  function CurrentDeadline(s: Sums): nat {
    if s.current.Some? then s.current.value.deadline else TWO_TO_THE_64 - 1
  }

  // ----- steps

  /** The newest submission becomes an entry unless there is one. */
  function Confirm(s: Sums): Sums {
    if s.current.None? || s.current.value.height in s.confirmed then s
    else
      s.(confirmed := s.confirmed[s.current.value.height := s.current.value], sum := s.sum + WeightOf(s.current.value))
  }

  function Evict(s: Sums, height: nat): Sums {
    if height in s.confirmed
    then s.(confirmed := s.confirmed - {height}, sum := s.sum - WeightOf(s.confirmed[height]))
    else s
  }

  /**
   What a new block does to the miner: confirms his newest submission if its block
   was slow, evicts a height unless 0.
   */
  datatype Arrival = Arrival(slow: bool, removed: nat)

  function Arrive(s: Sums, a: Arrival): Sums {
    var t := if a.slow then Confirm(s) else s;
    if a.removed != 0 then Evict(t, a.removed) else t
  }

  /** A lower deadline for the newest submission: the object is shared, so an entry changes with it. */
  function ImproveCurrent(s: Sums, deadline: nat): Sums
    requires s.current.Some?
  {
    var p := s.current.value.(deadline := deadline);
    Sums(Some(p), if Aliased(s) then s.confirmed[p.height := p] else s.confirmed, s.sum)
  }

  function ImproveEntry(s: Sums, height: nat, deadline: nat, baseTarget: nat): Sums
    requires height in s.confirmed
  {
    s.(confirmed := s.confirmed[height := Params(deadline, baseTarget, height)],
       sum := s.sum + Weight(deadline, baseTarget) - WeightOf(s.confirmed[height]))
  }

  function Insert(s: Sums, p: Params): Sums {
    if p.height > CurrentHeight(s) then s.(current := Some(p))
    else s.(confirmed := s.confirmed[p.height := p], sum := s.sum + WeightOf(p))
  }

  /**
   A submission. first and second are the two results of looking the height up;
   arrival is what the call that may create the block did meanwhile; ok says
   whether the database statement succeeded.
   */
  datatype Submission = Submission(params: Params, first: bool, second: bool, arrival: Option<Arrival>, ok: bool)

  /** The call may create the block, unless the look-up knows the height: then it returns at once. */
  predicate MayCreate(x: Submission) {
    !x.first && !x.second && x.arrival.Some?
  }

  function Submit(s: Sums, x: Submission): Sums {
    var p := x.params;
    if CurrentHeight(s) == p.height then
      if CurrentDeadline(s) <= p.deadline || !x.ok || s.current.None? then s else ImproveCurrent(s, p.deadline)
    else if x.first && !x.second then s
    else if p.height in s.confirmed then
      if s.confirmed[p.height].deadline <= p.deadline || !x.ok then s
      else ImproveEntry(s, p.height, p.deadline, p.baseTarget)
    else
      var t := if MayCreate(x) then Arrive(s, x.arrival.value) else s;
      if x.ok then Insert(t, p) else t
  }

  datatype Step = Submitted(x: Submission) | Arrived(a: Arrival)

  function Apply(s: Sums, step: Step): Sums {
    match step
    case Submitted(x) => Submit(s, x)
    case Arrived(a) => Arrive(s, a)
  }

  function Run(s: Sums, steps: seq<Step>): Sums {
    if steps == [] then s else Apply(Run(s, steps[..|steps| - 1]), steps[|steps| - 1])
  }

  // ----- the running sum

  lemma WeightsUpdate(confirmed: map<nat, Params>, p: Params)
    ensures Total(Weights(confirmed[p.height := p]))
            == Total(Weights(confirmed)) + WeightOf(p)
               - (if p.height in confirmed then WeightOf(confirmed[p.height]) else 0)
  {
    hide WeightOf;
    TotalUpdate(Weights(confirmed), p.height, WeightOf(p));
    assert Weights(confirmed[p.height := p]) == Weights(confirmed)[p.height := WeightOf(p) as int];
  }

  lemma WeightsRemove(confirmed: map<nat, Params>, h: nat)
    requires h in confirmed
    ensures Total(Weights(confirmed - {h})) == Total(Weights(confirmed)) - WeightOf(confirmed[h])
  {
    hide WeightOf;
    TotalRemove(Weights(confirmed), h);
    assert Weights(confirmed - {h}) == Weights(confirmed) - {h};
  }

  /** Confirming and evicting leave the drift as it is: eviction does not remove it. */
  lemma ArriveKeepsDrift(s: Sums, a: Arrival)
    requires Inv(s)
    ensures Drift(Arrive(s, a)) == Drift(s) && Inv(Arrive(s, a))
  {
    hide WeightOf;
    if Confirm(s) != s {
      WeightsUpdate(s.confirmed, s.current.value);
    }
    var t := if a.slow then Confirm(s) else s;
    if a.removed in t.confirmed {
      WeightsRemove(t.confirmed, a.removed);
    }
  }

  /** The submission lowers the deadline of the newest one, already confirmed. */
  predicate ImprovesAliased(s: Sums, x: Submission) {
    Aliased(s) && s.current.value.height == x.params.height && x.params.deadline < s.current.value.deadline && x.ok
  }

  /** What a step adds to the drift. */
  function DriftOf(s: Sums, step: Step): int {
    if step.Submitted? && ImprovesAliased(s, step.x)
    then WeightOf(s.current.value) - Weight(step.x.params.deadline, s.current.value.baseTarget)
    else 0
  }

  lemma InsertKeepsDrift(s: Sums, p: Params)
    requires Inv(s) && p.height !in s.confirmed && p.height != CurrentHeight(s)
    ensures Drift(Insert(s, p)) == Drift(s) && Inv(Insert(s, p))
  {
    hide WeightOf;
    WeightsUpdate(s.confirmed, p);
  }

  lemma ArriveKeepsHeights(s: Sums, a: Arrival, h: nat)
    requires h !in s.confirmed && h != CurrentHeight(s)
    ensures h !in Arrive(s, a).confirmed && CurrentHeight(Arrive(s, a)) == CurrentHeight(s)
  {
  }

  /** The drift changes only when a confirmed newest submission is improved, by old weight less new weight. */
  lemma StepDrift(s: Sums, step: Step)
    requires Inv(s)
    ensures Inv(Apply(s, step)) && Drift(Apply(s, step)) == Drift(s) + DriftOf(s, step)
  {
    hide WeightOf, Weight, Arrive, Drift, Insert;
    match step {
      case Arrived(a) => ArriveKeepsDrift(s, a);
      case Submitted(x) =>
        var p := x.params;
        if CurrentHeight(s) == p.height {
          if !(CurrentDeadline(s) <= p.deadline || !x.ok || s.current.None?) {
            ImproveCurrentDrift(s, p.deadline);
          }
        } else if p.height in s.confirmed {
          ImproveEntryDrift(s, p);
        } else {
          if x.arrival.Some? {
            ArriveKeepsDrift(s, x.arrival.value);
            ArriveKeepsHeights(s, x.arrival.value, p.height);
            InsertKeepsDrift(Arrive(s, x.arrival.value), p);
          }
          InsertKeepsDrift(s, p);
        }
    }
  }

  lemma ImproveCurrentDrift(s: Sums, deadline: nat)
    requires Inv(s) && s.current.Some?
    ensures var t := ImproveCurrent(s, deadline);
            Inv(t) && Drift(t) == Drift(s)
                      + if Aliased(s) then WeightOf(s.current.value) - Weight(deadline, s.current.value.baseTarget)
                        else 0
  {
    hide Weight;
    if Aliased(s) {
      WeightsUpdate(s.confirmed, s.current.value.(deadline := deadline));
    }
  }

  lemma ImproveEntryDrift(s: Sums, p: Params)
    requires Inv(s) && p.height in s.confirmed && p.height != CurrentHeight(s)
    ensures var t := ImproveEntry(s, p.height, p.deadline, p.baseTarget);
            Inv(t) && Drift(t) == Drift(s)
  {
    hide Weight;
    WeightsUpdate(s.confirmed, p);
  }

  function DriftsOf(s: Sums, steps: seq<Step>): int {
    if steps == [] then 0
    else
      var n := |steps| - 1;
      DriftsOf(s, steps[..n]) + DriftOf(Run(s, steps[..n]), steps[n])
  }

  /** Over every run the running sum is the recomputed sum plus the drift of the aliased improvements. */
  lemma {:induction false} RunDrift(s: Sums, steps: seq<Step>)
    requires Inv(s)
    ensures Inv(Run(s, steps)) && Drift(Run(s, steps)) == Drift(s) + DriftsOf(s, steps)
  {
    hide Apply, DriftOf, Drift, Inv;
    if steps == [] {
    } else {
      var n := |steps| - 1;
      RunDrift(s, steps[..n]);
      StepDrift(Run(s, steps[..n]), steps[n]);
    }
  }

  /** Step i of the run improves a confirmed newest submission. */
  predicate AliasedAt(s: Sums, steps: seq<Step>, i: nat)
    requires i < |steps|
  {
    steps[i].Submitted? && ImprovesAliased(Run(s, steps[..i]), steps[i].x)
  }

  /** The newest submission has a positive base target and its weight does not overflow. */
  predicate Regular(s: Sums) {
    s.current.Some? ==>
      s.current.value.baseTarget > 0 && s.current.value.deadline * s.current.value.baseTarget < TWO_TO_THE_64
  }

  lemma ImprovementDrifts(p: Params, deadline: nat)
    requires p.baseTarget > 0 && p.deadline * p.baseTarget < TWO_TO_THE_64 && deadline < p.deadline
    ensures WeightOf(p) > Weight(deadline, p.baseTarget)
  {
    ProductLess(deadline, p.deadline, p.baseTarget);
    NoWrap(deadline * p.baseTarget);
    NoWrap(p.deadline * p.baseTarget);
  }

  lemma ProductLess(a: nat, b: nat, c: nat)
    requires a < b && c > 0
    ensures a * c < b * c
  {
    calc {
      a * c;
      < a * c + c;
      == (a + 1) * c;
      <= { ProductAtMost(a + 1, b, c); }
      b * c;
    }
  }

  lemma ProductAtMost(a: nat, b: nat, c: nat)
    requires a <= b
    ensures a * c <= b * c
  {
  }

  lemma NoWrap(x: nat)
    requires x < TWO_TO_THE_64
    ensures x % TWO_TO_THE_64 == x
  {
  }

  /** From a sum that agrees, it agrees after the run exactly when no confirmed newest submission was improved. */
  lemma {:induction false} SumAgrees(s: Sums, steps: seq<Step>)
    requires Inv(s) && Drift(s) == 0
    requires forall i | 0 <= i <= |steps| :: Regular(Run(s, steps[..i]))
    ensures Drift(Run(s, steps)) >= 0
    ensures Drift(Run(s, steps)) == 0 <==> forall i | 0 <= i < |steps| :: !AliasedAt(s, steps, i)
  {
    hide Apply, Drift, Inv, WeightOf, Weight, ImprovesAliased;
    if steps == [] {
    } else {
      var n := |steps| - 1;
      var front := steps[..n];
      forall i | 0 <= i <= n
        ensures steps[..i] == front[..i]
      {
      }
      SumAgrees(s, front);
      assert forall i | 0 <= i < n :: AliasedAt(s, front, i) <==> AliasedAt(s, steps, i);
      RunDrift(s, front);
      StepDrift(Run(s, front), steps[n]);
      StepNotNegative(Run(s, front), steps[n]);
      assert AliasedAt(s, steps, n) <==> DriftOf(Run(s, front), steps[n]) != 0;
      assert Drift(Run(s, steps)) == Drift(Run(s, front)) + DriftOf(Run(s, front), steps[n]);
    }
  }

  lemma StepNotNegative(s: Sums, step: Step)
    requires Regular(s)
    ensures DriftOf(s, step) >= 0
    ensures DriftOf(s, step) == 0 <==> !(step.Submitted? && ImprovesAliased(s, step.x))
  {
    hide Weight, WeightOf;
    if step.Submitted? && ImprovesAliased(s, step.x) {
      ImprovementDrifts(s.current.value, step.x.params.deadline);
    }
  }

  /** From a miner without submissions the sum is exact until the first aliased improvement. */
  lemma FreshMiner()
    ensures Inv(Sums(None, map[], 0)) && Drift(Sums(None, map[], 0)) == 0
  {
    assert Weights(map[]) == map[];
  }

  /** A submission is confirmed by the next block and then improved from 5 to 3: the sum stays at 5. */
  lemma AliasedImprovementDrifts(first: Step, block: Step, better: Step)
    requires first == Submitted(Submission(Params(5, 1, 10), false, false, None, true))
    requires block == Arrived(Arrival(true, 0))
    requires better == Submitted(Submission(Params(3, 1, 10), true, true, None, true))
    ensures var s := Run(Sums(None, map[], 0), [first, block, better]);
            s.confirmed == map[10 := Params(3, 1, 10)] && s.sum == 5 && Drift(s) == 2
  {
    var start := Sums(None, map[], 0);
    var steps := [first, block, better];
    assert steps[..0] == [] && steps[..1] == [first] && steps[..2] == [first, block];
    assert steps[..2][..1] == steps[..1] && steps[..1][..0] == steps[..0];
    assert Run(start, steps[..1]) == Sums(Some(Params(5, 1, 10)), map[], 0);
    assert Run(start, steps[..2]) == Sums(Some(Params(5, 1, 10)), map[10 := Params(5, 1, 10)], 5);
    var s := Run(start, steps);
    assert s == Sums(Some(Params(3, 1, 10)), map[10 := Params(3, 1, 10)], 5);
    TotalRemove(Weights(s.confirmed), 10);
    assert Weights(s.confirmed) - {10} == map[];
  }

  // ----- restart

  /** One stored submission: an entry unless it is for the newest slow block; the newest submission if it is higher. */
  function LoadOne(s: Sums, p: Params, newestSlow: nat): Sums {
    var t := if p.height != newestSlow then s.(confirmed := s.confirmed[p.height := p], sum := s.sum + WeightOf(p))
             else s;
    if p.height > CurrentHeight(t) then t.(current := Some(p)) else t
  }

  /** A miner's stored submissions, read in order of height. */
  function Load(rows: seq<Params>, newestSlow: nat): Sums {
    if rows == [] then Sums(None, map[], 0)
    else LoadOne(Load(rows[..|rows| - 1], newestSlow), rows[|rows| - 1], newestSlow)
  }

  ghost predicate ByHeight(rows: seq<Params>) {
    (forall i | 0 <= i < |rows| :: rows[i].height > 0)
    && forall i, j | 0 <= i < j < |rows| :: rows[i].height < rows[j].height
  }

  function Heights(rows: seq<Params>): set<nat> {
    if rows == [] then {} else Heights(rows[..|rows| - 1]) + {rows[|rows| - 1].height}
  }

  lemma LoadOneAgrees(s: Sums, p: Params, newestSlow: nat)
    requires Inv(s) && Drift(s) == 0 && p.height > CurrentHeight(s) && p.height !in s.confirmed
    ensures var t := LoadOne(s, p, newestSlow);
            Inv(t) && Drift(t) == 0 && t.current == Some(p)
            && t.confirmed.Keys == if p.height == newestSlow then s.confirmed.Keys else s.confirmed.Keys + {p.height}
  {
    hide WeightOf;
    WeightsUpdate(s.confirmed, p);
  }

  /** After a restart the sum agrees again, whatever it was before. */
  lemma {:induction false} ReloadAgrees(rows: seq<Params>, newestSlow: nat)
    requires ByHeight(rows)
    ensures var s := Load(rows, newestSlow);
            Inv(s) && Drift(s) == 0
            && s.confirmed.Keys == Heights(rows) - {newestSlow}
            && s.current == (if rows == [] then None else Some(rows[|rows| - 1]))
            && forall h | h in Heights(rows) :: h <= CurrentHeight(s)
  {
    hide WeightOf, Drift, Inv, LoadOne;
    if rows == [] {
      FreshMiner();
    } else {
      var n := |rows| - 1;
      ReloadAgrees(rows[..n], newestSlow);
      LoadOneAgrees(Load(rows[..n], newestSlow), rows[n], newestSlow);
    }
  }

  // ----- which submissions are turned away

  /** The state to which the submission itself is applied: the block it may create comes first. */
  function Before(s: Sums, x: Submission): Sums {
    if x.params.height != CurrentHeight(s) && x.params.height !in s.confirmed && MayCreate(x)
    then Arrive(s, x.arrival.value)
    else s
  }

  /** The statement fails, or a deadline no larger is known for the height. */
  predicate TurnedAway(s: Sums, x: Submission) {
    var p := x.params;
    || !x.ok
    || (if p.height == CurrentHeight(s) then s.current.None? || s.current.value.deadline <= p.deadline
        else p.height in s.confirmed && s.confirmed[p.height].deadline <= p.deadline)
  }

  /** The submission moves the sum: it beats a confirmed entry, or becomes one below the newest height. */
  predicate Counted(s: Sums, x: Submission) {
    var p := x.params;
    x.ok && p.height != CurrentHeight(s)
    && (if p.height in s.confirmed
        then p.deadline < s.confirmed[p.height].deadline && WeightOf(p) != WeightOf(s.confirmed[p.height])
        else p.height < CurrentHeight(s) && WeightOf(p) != 0)
  }

  /**
   A submission whose look-up does not turn it away changes nothing exactly when
   a statement fails or it is no better, and moves the sum exactly when counted.
   */
  lemma SubmissionIff(s: Sums, x: Submission)
    requires Inv(s) && (x.first ==> x.second)
    ensures Submit(s, x) == Before(s, x) <==> TurnedAway(s, x)
    ensures Submit(s, x).sum != Before(s, x).sum <==> Counted(s, x)
  {
    var p := x.params;
    hide Weight, Arrive;
    if p.height != CurrentHeight(s) && p.height !in s.confirmed {
      if x.arrival.Some? {
        assert CurrentHeight(Arrive(s, x.arrival.value)) == CurrentHeight(s)
           && p.height !in Arrive(s, x.arrival.value).confirmed by {
          ArriveKeepsHeights(s, x.arrival.value, p.height);
        }
      }
    } else if p.height in s.confirmed && !TurnedAway(s, x) && p.height != CurrentHeight(s) {
      assert Submit(s, x).confirmed[p.height].deadline != s.confirmed[p.height].deadline;
    }
  }

  /**
   Two submissions for a block the look-up knows as fast, which it should turn
   away: one below the newest height moves the sum, one above is stored.
   */
  lemma FastBlockIsCounted(s: Sums, low: Submission, high: Submission)
    requires s == Sums(Some(Params(5, 1, 10)), map[], 0)
    requires low == Submission(Params(3, 2, 7), false, true, None, true)
    requires high == Submission(Params(3, 2, 12), false, true, None, true)
    ensures Inv(s) && !TurnedAway(s, low) && Counted(s, low) && Submit(s, low).sum == 6
    ensures !TurnedAway(s, high) && !Counted(s, high) && Submit(s, high).current == Some(high.params)
  {
  }
}
