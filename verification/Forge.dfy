/**
 The forge loop: which submission the pool keeps and sends to the wallet.
 */
module Forge {
  const MAX_DEADLINE: nat := 0xFFFF_FFFF_FFFF_FFFF

  datatype Submission = Submission(miner: nat, height: nat, signature: string, deadline: nat)

  /** The start without a best submission for the current block. */
  const NOTHING := Submission(0, 0, "", MAX_DEADLINE)

  /** A submission is ignored for an older block, or for the same signature with no better deadline. */
  predicate Ignored(best: Submission, s: Submission) {
    s.height < best.height || (s.signature == best.signature && s.deadline >= best.deadline)
  }

  function Next(best: Submission, s: Submission): Submission {
    if Ignored(best, s) then best else s
  }

  /** The submission kept after a history, whose first entry is the one the loop starts with. */
  function Best(history: seq<Submission>): Submission
    requires history != []
  {
    var n := |history| - 1;
    if n == 0 then history[0] else Next(Best(history[..n]), history[n])
  }

  /** The position of the kept submission. */
  function Position(history: seq<Submission>): nat
    requires history != []
  {
    var n := |history| - 1;
    if n == 0 then 0 else if Ignored(Best(history[..n]), history[n]) then Position(history[..n]) else n
  }

  /** The position of the last submission accepted with a new signature, or of the start. */
  function LastChange(history: seq<Submission>): nat
    requires history != []
  {
    var n := |history| - 1;
    if n == 0 then 0
    else
      var best := Best(history[..n]);
      if !Ignored(best, history[n]) && history[n].signature != best.signature then n else LastChange(history[..n])
  }

  /** The start without a best submission gives way to all but one without signature and with the largest deadline. */
  lemma NothingIsBeaten(s: Submission)
    ensures Next(NOTHING, s) == if s.signature == "" && s.deadline >= MAX_DEADLINE then NOTHING else s
  {
  }

  /** That start is forgotten with the first submission it gives way to, whatever its height. */
  lemma {:induction false} NothingIsForgotten(history: seq<Submission>)
    requires history != [] && (history[0].signature != "" || history[0].deadline < 0xFFFF_FFFF_FFFF_FFFF)
    ensures Best([NOTHING] + history) == Best(history)
  {
    var n := |history| - 1;
    var longer := [NOTHING] + history;
    assert longer[..n + 1] == [NOTHING] + history[..n];
    if n == 0 {
      NothingIsBeaten(history[0]);
      assert history[..0] == [] && Best([NOTHING]) == NOTHING;
    } else {
      NothingIsForgotten(history[..n]);
    }
  }

  /** The kept height never decreases. */
  lemma {:induction false} HeightNeverDecreases(history: seq<Submission>, k: nat)
    requires 0 < k <= |history|
    ensures Best(history[..k]).height <= Best(history).height
  {
    var n := |history| - 1;
    if k <= n {
      assert history[..n][..k] == history[..k];
      HeightNeverDecreases(history[..n], k);
    } else {
      assert history[..k] == history;
    }
  }

  /** Submission s competes with best: same signature, and a block at least as high. */
  predicate Rival(s: Submission, best: Submission) {
    s.signature == best.signature && s.height >= best.height
  }

  /** Among its rivals from the last change on, the one at p has the least deadline and is the first to have it. */
  ghost predicate EarliestLeast(history: seq<Submission>, from: nat, p: nat) {
    && from <= p < |history|
    && (forall j | from <= j < |history| && Rival(history[j], history[p]) :: history[p].deadline <= history[j].deadline)
    && (forall j | from <= j < p && Rival(history[j], history[p]) :: history[p].deadline < history[j].deadline)
  }

  /** The kept submission is one received, of the signature last changed to. */
  lemma {:induction false} BestWasReceived(history: seq<Submission>)
    requires history != []
    ensures LastChange(history) <= Position(history) < |history|
    ensures history[Position(history)] == Best(history)
    ensures history[LastChange(history)].signature == Best(history).signature
  {
    var n := |history| - 1;
    if n == 0 {
    } else {
      BestWasReceived(history[..n]);
    }
  }

  /** An ignored rival has no better deadline. */
  lemma IgnoredStays(front: seq<Submission>, s: Submission, from: nat, p: nat)
    requires EarliestLeast(front, from, p) && Ignored(front[p], s)
    ensures EarliestLeast(front + [s], from, p)
  {
    var all := front + [s];
    forall j | from <= j < |all| && Rival(all[j], all[p])
      ensures all[p].deadline <= all[j].deadline && (j < p ==> all[p].deadline < all[j].deadline)
    {
      assert j < |front| ==> Rival(front[j], front[p]);
    }
  }

  /** A better deadline of the same signature beats all rivals: they were rivals before. */
  lemma BetterTakesOver(front: seq<Submission>, s: Submission, from: nat, p: nat)
    requires EarliestLeast(front, from, p) && !Ignored(front[p], s) && s.signature == front[p].signature
    ensures EarliestLeast(front + [s], from, |front|)
  {
    var all, n := front + [s], |front|;
    forall j | from <= j < n && Rival(all[j], all[n])
      ensures all[n].deadline < all[j].deadline
    {
      assert Rival(front[j], front[p]);
    }
  }

  /**
   The kept submission is the earliest of least deadline among those of its
   signature, for a block at least as high, since the last accepted change of
   signature.
   */
  lemma {:induction false} KeepsEarliestLeast(history: seq<Submission>)
    requires history != []
    ensures EarliestLeast(history, LastChange(history), Position(history))
  {
    var n := |history| - 1;
    if n == 0 {
    } else {
      hide EarliestLeast, Ignored;
      var front, s := history[..n], history[n];
      BestWasReceived(front);
      KeepsEarliestLeast(front);
      assert history == front + [s];
      var from, p := LastChange(front), Position(front);
      if Ignored(front[p], s) {
        IgnoredStays(front, s, from, p);
      } else if s.signature == front[p].signature {
        BetterTakesOver(front, s, from, p);
      } else {
        AloneIsLeast(history, n);
      }
    }
  }

  lemma AloneIsLeast(history: seq<Submission>, n: nat)
    requires n + 1 == |history|
    ensures EarliestLeast(history, n, n)
  {
  }

  /** Since the last change, nothing of another signature was for a block as high as the one then kept. */
  lemma {:induction false} NoOtherSignature(history: seq<Submission>, j: nat)
    requires history != [] && LastChange(history) < j < |history|
    ensures history[j].signature != Best(history).signature ==> history[j].height < Best(history[..j]).height
  {
    var n := |history| - 1;
    if j == n {
    } else {
      assert history[..n][..j] == history[..j];
      NoOtherSignature(history[..n], j);
    }
  }

  /** The kept deadlines of one signature strictly decrease: a change of submission is an improvement. */
  lemma {:induction false} Improves(history: seq<Submission>, k: nat)
    requires history != [] && LastChange(history) < k <= |history|
    ensures Best(history[..k]).signature == Best(history).signature
    ensures Best(history) == Best(history[..k]) || Best(history).deadline < Best(history[..k]).deadline
  {
    var n := |history| - 1;
    if k <= n {
      assert history[..n][..k] == history[..k];
      Improves(history[..n], k);
    } else {
      assert history[..k] == history;
    }
  }

  // ----- restart

  /** The query that reloads the best submission of a block does not select its signature. */
  function Reloaded(best: Submission): Submission {
    best.(signature := "")
  }

  /**
   Right after a restart a submission is treated as before exactly when it is for
   an older block, of another signature, or better than the kept one.
   */
  lemma RestartHarmless(best: Submission, s: Submission)
    requires best.signature != "" && s.signature != ""
    ensures (Ignored(Reloaded(best), s) <==> Ignored(best, s))
            <==> (s.height < best.height || s.signature != best.signature || s.deadline < best.deadline)
  {
  }

  /** So a worse submission for the same block replaces the reloaded one. */
  lemma RestartLosesBest(best: Submission, worse: Submission)
    requires best.signature != "" && worse.signature == best.signature && worse.height == best.height
    requires worse.deadline > best.deadline
    ensures Best([best, worse]) == best && Best([Reloaded(best), worse]) == worse
  {
    assert [best, worse][..1] == [best] && [Reloaded(best), worse][..1] == [Reloaded(best)];
  }

  /** Loops that keep the same submission keep the same from then on. */
  lemma {:induction false} AgreeFromThenOn(a: seq<Submission>, b: seq<Submission>, later: seq<Submission>)
    requires a != [] && b != [] && Best(a) == Best(b)
    ensures Best(a + later) == Best(b + later)
  {
    if later == [] {
      assert a + later == a && b + later == b;
    } else {
      var n := |later| - 1;
      AgreeFromThenOn(a, b, later[..n]);
      assert (a + later)[..|a| + n] == a + later[..n] && (b + later)[..|b| + n] == b + later[..n];
    }
  }

  /** A submission of a new signature, for a block as high as any before, is accepted. */
  lemma NewBlockAccepted(history: seq<Submission>, s: Submission)
    requires history != [] && forall x | x in history :: x.signature != s.signature && x.height <= s.height
    ensures Best(history + [s]) == s
  {
    BestWasReceived(history);
    assert Best(history) in history;
    assert (history + [s])[..|history|] == history;
  }

  /**
   The difference a restart makes ends with the next block: after the first
   submission of a new signature, as high as all before, both loops keep the same.
   */
  lemma RestartEndsWithNewBlock(best: Submission, received: seq<Submission>, s: Submission, later: seq<Submission>)
    requires s.signature != "" && forall x | x in [best] + received ::
               x.signature != s.signature && x.height <= s.height
    ensures Best([best] + received + [s] + later) == Best([Reloaded(best)] + received + [s] + later)
  {
    var a, b := [best] + received, [Reloaded(best)] + received;
    assert forall x | x in received :: x in a;
    assert best in a;
    NewBlockAccepted(a, s);
    NewBlockAccepted(b, s);
    AgreeFromThenOn(a + [s], b + [s], later);
  }

  /** Two submissions between which the loop can not tell: it compares these three only. */
  predicate Same(a: Submission, b: Submission) {
    a.signature == b.signature && a.height == b.height && a.deadline == b.deadline
  }

  /**
   A received submission that the loop accepts after a restart, and that is at least
   as good as the best before it.
   */
  predicate Restores(best: Submission, x: Submission) {
    x.height >= best.height && (x.signature != best.signature || x.deadline <= best.deadline)
  }

  /** Every submission has a signature, and those of the best one's signature are for its block. */
  ghost predicate OneBlockPerSignature(best: Submission, received: seq<Submission>) {
    best.signature != ""
    && forall x | x in received :: x.signature != "" && (x.signature == best.signature ==> x.height == best.height)
  }

  lemma NextKeepsSame(a: Submission, b: Submission, s: Submission)
    requires Same(a, b)
    ensures Same(Next(a, s), Next(b, s))
  {
  }

  /** As long as nothing restores the best submission, the loop without restart keeps it and the other a worse one. */
  lemma {:induction false} NotRestored(best: Submission, received: seq<Submission>)
    requires OneBlockPerSignature(best, received) && forall x | x in received :: !Restores(best, x)
    ensures Best([best] + received) == best
    ensures var other := Best([Reloaded(best)] + received);
            other == Reloaded(best)
            || (other.signature == best.signature && other.height == best.height && other.deadline > best.deadline)
  {
    if received == [] {
      assert [best] + received == [best] && [Reloaded(best)] + received == [Reloaded(best)];
    } else {
      var n := |received| - 1;
      NotRestored(best, received[..n]);
      BestSnoc([best], received);
      BestSnoc([Reloaded(best)], received);
      assert received[n] in received;
    }
  }

  lemma BestSnoc(start: seq<Submission>, received: seq<Submission>)
    requires start != [] && received != []
    ensures var n := |received| - 1;
            Best(start + received) == Next(Best(start + received[..n]), received[n])
  {
    var n := |received| - 1;
    assert (start + received)[..|start| + n] == start + received[..n];
  }

  /**
   The kept submission survives a restart: whatever is received afterwards, the
   loop ends with the same signature, height and deadline as without the restart
   exactly when something received restores the best submission.
   */
  lemma {:induction false} RestartIff(best: Submission, received: seq<Submission>)
    requires OneBlockPerSignature(best, received)
    ensures Same(Best([best] + received), Best([Reloaded(best)] + received))
            <==> exists x :: x in received && Restores(best, x)
  {
    if received == [] {
      NotRestored(best, received);
    } else {
      var n := |received| - 1;
      var front, s := received[..n], received[n];
      RestartIff(best, front);
      BestSnoc([best], received);
      BestSnoc([Reloaded(best)], received);
      assert forall x :: x in received <==> x in front || x == s;
      var a, b := Best([best] + front), Best([Reloaded(best)] + front);
      if Same(a, b) {
        NextKeepsSame(a, b, s);
      } else {
        assert forall x | x in front :: !Restores(best, x);
        NotRestored(best, front);
        RestoredNow(best, b, s);
        assert s in received;
        assert Restores(best, s) <==> exists x :: x in received && Restores(best, x);
      }
    }
  }

  /**
   While the other loop keeps a worse submission, the next one makes them the same
   exactly when it restores the best.
   */
  lemma RestoredNow(best: Submission, other: Submission, s: Submission)
    requires best.signature != "" && s.signature != "" && (s.signature == best.signature ==> s.height == best.height)
    requires other == Reloaded(best)
             || (other.signature == best.signature && other.height == best.height && other.deadline > best.deadline)
    ensures Same(Next(best, s), Next(other, s)) <==> Restores(best, s)
  {
  }

  // ----- the loop

  class Forger {
    var bestNonceSubmission: Submission
    /** The timer is set, and has not fired since. */
    var armed: bool
    /** Everything received, after the submission the loop started with. */
    ghost var history: seq<Submission>
    /** What was sent to the wallet, and after how much of the history. */
    ghost var submitted: seq<(nat, Submission)>

    ghost predicate Valid()
      reads this
    {
      && history != []
      && bestNonceSubmission == Best(history)
      && forall k | 0 <= k < |submitted| ::
           0 < submitted[k].0 <= |history| && submitted[k].1 == Best(history[..submitted[k].0])
    }

    /** Go: the start of forge; best is the reloaded submission, if the current block has one. */
    constructor (hasBest: bool, best: Submission)
      ensures Valid() && history == [if hasBest then Reloaded(best) else NOTHING] && submitted == [] && armed == hasBest
    {
      bestNonceSubmission := if hasBest then Reloaded(best) else NOTHING;
      history := [if hasBest then Reloaded(best) else NOTHING];
      armed := hasBest;
      submitted := [];
    }

    method OnSubmission(nonceSubmission: Submission)
      requires Valid()
      modifies this
      ensures Valid() && history == old(history) + [nonceSubmission] && submitted == old(submitted)
      ensures bestNonceSubmission == Next(old(bestNonceSubmission), nonceSubmission)
      ensures armed <==> old(armed) || !Ignored(old(bestNonceSubmission), nonceSubmission)
    {
      history := history + [nonceSubmission];
      assert history[..|history| - 1] == old(history);
      assert forall k | 0 < k <= |old(history)| :: history[..k] == old(history)[..k];
      if nonceSubmission.height < bestNonceSubmission.height {
        return;
      }
      if nonceSubmission.signature == bestNonceSubmission.signature
         && nonceSubmission.deadline >= bestNonceSubmission.deadline {
        return;
      }
      bestNonceSubmission := nonceSubmission;
      armed := true;
    }

    /** The timer fires once for each time it is set. */
    method OnTimer()
      requires Valid() && armed
      modifies this`armed, this`submitted
      ensures Valid() && !armed && submitted == old(submitted) + [(|history|, bestNonceSubmission)]
    {
      assert history[..|history|] == history;
      submitted := submitted + [(|history|, bestNonceSubmission)];
      armed := false;
    }
  }

  /** What is sent at any time is the earliest least of what was received by then. */
  lemma SendsEarliestLeast(f: Forger, k: nat)
    requires f.Valid() && k < |f.submitted|
    ensures var received := f.history[..f.submitted[k].0];
            EarliestLeast(received, LastChange(received), Position(received))
            && received[Position(received)] == f.submitted[k].1
  {
    var received := f.history[..f.submitted[k].0];
    KeepsEarliestLeast(received);
    BestWasReceived(received);
  }
}
