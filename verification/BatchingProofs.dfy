/**
 Safety and progress of the batching protocol over every interleaving.
 */
module BatchingProofs {
  import opened Batching
  import opened Commons

  // ----- small facts about batches

  lemma LiveOfSnoc(bs: seq<Batch>, b: Batch)
    requires IsBatch(b) && AreBatches(bs)
    ensures AreBatches(bs + [b])
    ensures LiveOf(bs + [b]) == LiveOf(bs) + Live(b, 0)
  {
    hide Live, IsBatch;
    assert (bs + [b])[..|bs|] == bs;
  }

  lemma {:induction false} LiveOfConcat(a: seq<Batch>, b: seq<Batch>)
    requires AreBatches(a) && AreBatches(b)
    ensures AreBatches(a + b) && LiveOf(a + b) == LiveOf(a) + LiveOf(b)
  {
    hide Live, IsBatch;
    if b == [] {
      assert a + b == a;
    } else {
      var n := |b| - 1;
      LiveOfConcat(a, b[..n]);
      LiveOfSnoc(a + b[..n], b[n]);
      assert a + b == (a + b[..n]) + [b[n]];
      ConcatAssoc(LiveOf(a), LiveOf(b[..n]), Live(b[n], 0));
    }
  }

  lemma ConcatAssoc(a: seq<Req>, b: seq<Req>, c: seq<Req>)
    ensures (a + b) + c == a + (b + c)
  {
  }

  lemma {:induction false} LiveOfOne(b: Batch)
    requires IsBatch(b)
    ensures LiveOf([b]) == Live(b, 0)
  {
    hide Live, IsBatch;
    assert [b][..0] == [];
    assert [] + Live(b, 0) == Live(b, 0);
  }

  lemma {:induction false} LiveOfHead(bs: seq<Batch>)
    requires bs != [] && AreBatches(bs)
    ensures AreBatches(bs[1..]) && IsBatch(bs[0])
    ensures LiveOf(bs) == Live(bs[0], 0) + LiveOf(bs[1..])
  {
    LiveOfOne(bs[0]);
    hide Live, IsBatch, LiveOf;
    LiveOfConcat([bs[0]], bs[1..]);
    assert bs == [bs[0]] + bs[1..];
  }

  lemma LiveStep(b: Batch, i: nat)
    requires IsBatch(b) && i < b.pending
    ensures Live(b, i) == [b.reqs[i].value] + Live(b, i + 1)
  {
  }

  lemma {:induction false} OwedUpdate(cfg: Config, ws: seq<Worker>, w: nat, v: Worker, r: Req)
    requires AreWorkers(cfg, ws) && w < |ws| && IsWorker(cfg, v)
    ensures AreWorkers(cfg, ws[w := v])
    ensures OwedBy(cfg, ws[w := v], r) + Owed(cfg, ws[w])[r] == OwedBy(cfg, ws, r) + Owed(cfg, v)[r]
  {
    hide Owed, IsWorker;
    var us := ws[w := v];
    if w == 0 {
      assert us[1..] == ws[1..];
    } else {
      OwedUpdate(cfg, ws[1..], w - 1, v, r);
      assert us[1..] == ws[1..][w - 1 := v];
    }
  }

  // ----- each step keeps the invariant

  lemma FireKeeps(c: Collector)
    requires IsPending(c) && c.reqs[0].Some?
    ensures IsPending(Fire(c).0) && IsBatch(Fire(c).1)
    ensures Live(Fire(c).1, 0) == Pending(c) && Pending(Fire(c).0) == []
  {
  }

  lemma NothingLive(b: Batch)
    requires IsBatch(b)
    ensures Live(b, b.pending) == []
  {
  }

  lemma ArriveShape(cfg: Config, s: System, r: Req)
    requires Inv(cfg, s) && Enabled(cfg, s, Arrive(r))
    ensures var t := Apply(cfg, s, Arrive(r));
            && WellFormed(cfg, t)
            && t.received == LiveOf(t.emitted) + Pending(t.collector)
            && IsPending(s.collector) && IsPending(t.collector) && (t.outbox.Some? ==> IsBatch(t.outbox.value))
            && multiset(Pending(t.collector))
               + (if t.outbox.Some? then multiset(Live(t.outbox.value, 0)) else multiset{})
               == multiset(Pending(s.collector)) + multiset{r}
  {
    hide Receive, Live, Pending, IsBatch, IsPending, LiveOf, IsWorker, Accounted, OwnDeadlines, Distinct;
    var (c, b) := Receive(s.collector, cfg.size, r);
    ReceiveKeeps(s.collector, cfg.size, r);
    if b.Some? {
      LiveOfSnoc(s.emitted, b.value);
    }
  }

  lemma ArriveKeeps(cfg: Config, s: System, r: Req)
    requires Inv(cfg, s) && Enabled(cfg, s, Arrive(r))
    ensures Inv(cfg, Apply(cfg, s, Arrive(r)))
  {
    hide Receive, Live, Pending, IsBatch, IsPending, LiveOf, OwedBy, WellFormed;
    var t := Apply(cfg, s, Arrive(r));
    ArriveShape(cfg, s, r);
    assert t.workers == s.workers && t.queue == s.queue && t.answers == s.answers && t.native == s.native;
    assert s.outbox == None;
    assert multiset(t.received) == multiset(s.received) + multiset{r};
    forall x: Req
      ensures Places(cfg, t, x) == multiset(t.received)[x]
    {
      assert Places(cfg, s, x) == multiset(s.received)[x];
      ghost var before := multiset(Pending(s.collector)) + multiset{r};
      assert before[x] == multiset(Pending(s.collector))[x] + multiset{r}[x];
    }
  }

  lemma TimerKeeps(cfg: Config, s: System)
    requires Inv(cfg, s) && Enabled(cfg, s, Timer)
    ensures Inv(cfg, Apply(cfg, s, Timer))
  {
    hide Live, Pending, IsBatch, IsPending, LiveOf, OwedBy, IsWorker, OwnDeadlines;
    var t := Apply(cfg, s, Timer);
    FireKeeps(s.collector);
    LiveOfSnoc(s.emitted, Fire(s.collector).1);
    assert t.received == LiveOf(t.emitted) + Pending(t.collector);
    forall x: Req
      ensures Places(cfg, t, x) == multiset(t.received)[x]
    {
      assert Places(cfg, s, x) == multiset(s.received)[x];
    }
    SameDeadlines(cfg, s, t);
  }

  lemma SameDeadlines(cfg: Config, s: System, t: System)
    requires OwnDeadlines(cfg, s) && t.native == s.native && t.workers == s.workers && t.answers == s.answers
    ensures OwnDeadlines(cfg, t)
  {
  }

  lemma SendKeeps(cfg: Config, s: System)
    requires Inv(cfg, s) && Enabled(cfg, s, Send)
    ensures Inv(cfg, Apply(cfg, s, Send))
  {
    hide Live, Pending, IsBatch, IsPending, LiveOf, OwedBy, IsWorker, OwnDeadlines;
    var t := Apply(cfg, s, Send);
    LiveOfSnoc(s.queue, s.outbox.value);
    forall x: Req
      ensures Places(cfg, t, x) == multiset(t.received)[x]
    {
      assert Places(cfg, s, x) == multiset(s.received)[x];
      assert multiset(LiveOf(t.queue)) == multiset(LiveOf(s.queue)) + multiset(Live(s.outbox.value, 0));
    }
    SameDeadlines(cfg, s, t);
  }

  lemma TakeKeeps(cfg: Config, s: System, w: nat)
    requires Inv(cfg, s) && Enabled(cfg, s, Take(w))
    ensures Inv(cfg, Apply(cfg, s, Take(w)))
  {
    hide Live, Pending, IsPending, LiveOf, OwedBy;
    var t := Apply(cfg, s, Take(w));
    var b := s.queue[0];
    LiveOfHead(s.queue);
    assert multiset(LiveOf(s.queue)) == multiset(Live(b, 0)) + multiset(LiveOf(t.queue));
    assert IsWorker(cfg, Computing(b, 0));
    forall x: Req
      ensures AreWorkers(cfg, t.workers)
      ensures OwedBy(cfg, t.workers, x) == OwedBy(cfg, s.workers, x) + multiset(Live(b, 0))[x]
    {
      OwedUpdate(cfg, s.workers, w, Computing(b, 0), x);
    }
    assert WellFormed(cfg, t);
    forall x: Req
      ensures Places(cfg, t, x) == multiset(t.received)[x]
    {
      assert Places(cfg, s, x) == multiset(s.received)[x];
    }
  }

  /** A worker moves on without changing what it owes. */
  lemma SameOwed(cfg: Config, s: System, t: System, w: nat, v: Worker)
    requires Inv(cfg, s) && w < |s.workers| && IsWorker(cfg, v) && Owed(cfg, s.workers[w]) == Owed(cfg, v)
    requires t == s.(workers := s.workers[w := v], native := t.native)
    requires OwnDeadlines(cfg, t)
    ensures Inv(cfg, t)
  {
    hide Live, Pending, IsPending, LiveOf, OwedBy, Owed, IsWorker, OwnDeadlines;
    forall x: Req
      ensures AreWorkers(cfg, t.workers)
      ensures OwedBy(cfg, t.workers, x) == OwedBy(cfg, s.workers, x)
    {
      OwedUpdate(cfg, s.workers, w, v, x);
    }
    assert WellFormed(cfg, t);
    forall x: Req
      ensures Places(cfg, t, x) == multiset(t.received)[x]
    {
      assert Places(cfg, s, x) == multiset(s.received)[x];
    }
  }

  lemma WriteKeeps(cfg: Config, s: System, w: nat)
    requires Inv(cfg, s) && Enabled(cfg, s, Write(w))
    ensures Inv(cfg, Apply(cfg, s, Write(w)))
  {
    hide Live, Pending, IsPending, LiveOf, OwedBy, Accounted;
    var b, k := s.workers[w].batch, s.workers[w].lane;
    var t := Apply(cfg, s, Write(w));
    forall v | 0 <= v < |t.workers|
      ensures HasWritten(t.native, t.workers[v])
    {
      assert HasWritten(s.native, s.workers[v]);
    }
    SameOwed(cfg, s, t, w, Computing(b, k + 1));
  }

  lemma ComputeKeeps(cfg: Config, s: System, w: nat)
    requires Inv(cfg, s) && Enabled(cfg, s, Compute(w))
    ensures Inv(cfg, Apply(cfg, s, Compute(w)))
  {
    hide Live, Pending, IsPending, LiveOf, OwedBy, Accounted;
    var b := s.workers[w].batch;
    var t := Apply(cfg, s, Compute(w));
    assert IsWorker(cfg, s.workers[w]) && HasWritten(s.native, s.workers[w]);
    forall j | 0 <= j < b.pending
      ensures b.reqs[j].value in s.native
    {
      assert LaneSlot(b, j) == b.reqs[j];
    }
    assert HasWritten(t.native, Answering(b, 0));
    SameOwed(cfg, s, t, w, Answering(b, 0));
  }

  lemma DoneKeeps(cfg: Config, s: System, w: nat)
    requires Inv(cfg, s) && Enabled(cfg, s, Done(w))
    ensures Inv(cfg, Apply(cfg, s, Done(w)))
  {
    hide Live, Pending, IsPending, LiveOf, OwedBy, Accounted;
    assert IsWorker(cfg, s.workers[w]);
    NothingLive(s.workers[w].batch);
    SameOwed(cfg, s, Apply(cfg, s, Done(w)), w, Idle);
  }

  lemma AnswerKeeps(cfg: Config, s: System, w: nat)
    requires Inv(cfg, s) && Enabled(cfg, s, Answer(w))
    ensures Inv(cfg, Apply(cfg, s, Answer(w)))
  {
    hide Live, Pending, IsPending, LiveOf, OwedBy;
    var b, i := s.workers[w].batch, s.workers[w].next;
    var r := b.reqs[i].value;
    var t := Apply(cfg, s, Answer(w));
    assert IsWorker(cfg, s.workers[w]) && HasWritten(s.native, s.workers[w]);
    assert IsWorker(cfg, Answering(b, i + 1)) && HasWritten(s.native, Answering(b, i + 1));
    LiveStep(b, i);
    assert multiset(Live(b, i)) == multiset{r} + multiset(Live(b, i + 1));
    assert Answered(t.answers) == Answered(s.answers) + [r];
    forall x: Req
      ensures AreWorkers(cfg, t.workers)
      ensures OwedBy(cfg, t.workers, x) + multiset{r}[x] == OwedBy(cfg, s.workers, x)
    {
      OwedUpdate(cfg, s.workers, w, Answering(b, i + 1), x);
    }
    assert WellFormed(cfg, t);
    forall x: Req
      ensures Places(cfg, t, x) == multiset(t.received)[x]
    {
      assert Places(cfg, s, x) == multiset(s.received)[x];
      assert multiset(Answered(t.answers))[x] == multiset(Answered(s.answers))[x] + multiset{r}[x];
    }
  }

  lemma StepKeeps(cfg: Config, s: System, step: Step)
    requires Inv(cfg, s) && Enabled(cfg, s, step)
    ensures Inv(cfg, Apply(cfg, s, step))
  {
    hide Inv, Apply;
    match step
    case Arrive(r) => ArriveKeeps(cfg, s, r);
    case Timer => TimerKeeps(cfg, s);
    case Send => SendKeeps(cfg, s);
    case Take(w) => TakeKeeps(cfg, s, w);
    case Write(w) => WriteKeeps(cfg, s, w);
    case Compute(w) => ComputeKeeps(cfg, s, w);
    case Answer(w) => AnswerKeeps(cfg, s, w);
    case Done(w) => DoneKeeps(cfg, s, w);
  }

  // ----- every run

  /** A finite run from an initial state. */
  ghost predicate Run(cfg: Config, states: seq<System>, steps: seq<Step>) {
    && |states| == |steps| + 1
    && cfg.Valid() && Init(cfg, states[0])
    && forall k | 0 <= k < |steps| ::
         Enabled(cfg, states[k], steps[k]) && states[k + 1] == Apply(cfg, states[k], steps[k])
  }

  lemma InitKeeps(cfg: Config, s: System)
    requires cfg.Valid() && Init(cfg, s)
    ensures Inv(cfg, s)
  {
    forall x: Req
      ensures AreWorkers(cfg, s.workers)
      ensures OwedBy(cfg, s.workers, x) == 0
    {
      NothingOwed(cfg, s.workers, x);
    }
    assert Pending(s.collector) == [];
  }

  lemma {:induction false} NothingOwed(cfg: Config, ws: seq<Worker>, x: Req)
    requires forall w | 0 <= w < |ws| :: ws[w] == Idle
    ensures AreWorkers(cfg, ws) && OwedBy(cfg, ws, x) == 0
  {
    if ws == [] {
    } else {
      NothingOwed(cfg, ws[1..], x);
    }
  }

  /** The invariant holds after every run, whatever the interleaving. */
  lemma {:induction false} RunKeeps(cfg: Config, states: seq<System>, steps: seq<Step>)
    requires Run(cfg, states, steps)
    ensures Inv(cfg, states[|steps|])
  {
    hide Inv, Apply, Enabled, Init;
    if steps == [] {
      InitKeeps(cfg, states[0]);
    } else {
      var n := |steps| - 1;
      assert Run(cfg, states[..n + 1], steps[..n]);
      RunKeeps(cfg, states[..n + 1], steps[..n]);
      StepKeeps(cfg, states[n], steps[n]);
    }
  }

  /**
   Order and bounds: the live prefixes of the batches made so far, followed by
   the pending requests, are the received sequence; a pending request keeps the
   timer armed; no batch has a slot without parameters in any lane.
   */
  lemma BatchesInOrder(cfg: Config, states: seq<System>, steps: seq<Step>)
    requires Run(cfg, states, steps)
    ensures var s := states[|steps|];
            && AreBatches(s.emitted) && IsPending(s.collector)
            && s.received == LiveOf(s.emitted) + Pending(s.collector)
            && s.collector.pending < cfg.size
            && (s.collector.pending > 0 ==> s.collector.armed)
            && (forall w, i | 0 <= w < |s.workers| && s.workers[w].Computing? && 0 <= i < 8 ::
                  LaneSlot(s.workers[w].batch, i).Some?)
  {
    hide Live, LiveOf, Pending;
    RunKeeps(cfg, states, steps);
    var s := states[|steps|];
    forall w, i | 0 <= w < |s.workers| && s.workers[w].Computing? && 0 <= i < 8
      ensures LaneSlot(s.workers[w].batch, i).Some?
    {
      assert IsWorker(cfg, s.workers[w]);
    }
  }

  /** No request is answered twice, none that was not received, and each answer is the request's own deadline. */
  lemma AnsweredOnce(cfg: Config, states: seq<System>, steps: seq<Step>)
    requires Run(cfg, states, steps)
    ensures var s := states[|steps|];
            && Distinct(Answered(s.answers))
            && (forall k | 0 <= k < |s.answers| ::
                  s.answers[k].0 in s.received && s.answers[k].1 == cfg.deadline(s.answers[k].0))
  {
    hide Live, LiveOf, Pending, OwedBy;
    RunKeeps(cfg, states, steps);
    var s := states[|steps|];
    var a := Answered(s.answers);
    forall r: Req
      ensures multiset(a)[r] <= multiset(s.received)[r]
    {
      assert Places(cfg, s, r) == multiset(s.received)[r];
    }
    forall k | 0 <= k < |s.answers|
      ensures s.answers[k].0 in s.received
    {
      assert a[k] == s.answers[k].0;
      assert a[k] in multiset(a);
      assert a[k] in multiset(s.received);
    }
    forall i, j | 0 <= i < j < |a|
      ensures a[i] != a[j]
    {
      if a[i] == a[j] {
        TwoOccurrences(a, i, j);
        DistinctOnce(s.received, a[i]);
        assert false;
      }
    }
  }

  lemma TwoOccurrences(s: seq<Req>, i: nat, j: nat)
    requires i < j < |s| && s[i] == s[j]
    ensures multiset(s)[s[i]] >= 2
  {
    assert s == s[..j] + ([s[j]] + s[j + 1..]);
    assert multiset(s) == multiset(s[..j]) + multiset([s[j]] + s[j + 1..]);
    assert s[..j][i] == s[j] && ([s[j]] + s[j + 1..])[0] == s[j];
    assert s[j] in multiset(s[..j]) && s[j] in multiset([s[j]] + s[j + 1..]);
  }

  lemma {:induction false} DistinctOnce(s: seq<Req>, r: Req)
    requires Distinct(s)
    ensures multiset(s)[r] <= 1
  {
    if s == [] {
    } else {
      DistinctOnce(s[1..], r);
      assert s == [s[0]] + s[1..];
      if s[0] == r {
        assert r !in s[1..];
        assert r !in multiset(s[1..]);
      }
    }
  }

  // ----- progress

  /** How many internal steps the parts of the state can still take, at most. */
  ghost function Left(w: Worker): nat {
    match w
    case Idle => 0
    case Computing(b, k) => if k <= 8 then 40 - k else 0
    case Answering(b, i) => if i <= 8 then 20 - i else 0
  }

  ghost function LeftOf(ws: seq<Worker>): nat {
    if ws == [] then 0 else Left(ws[0]) + LeftOf(ws[1..])
  }

  ghost function Measure(s: System): nat {
    (if s.collector.armed then 100 else 0) + (if s.outbox.Some? then 60 else 0) + 50 * |s.queue| + LeftOf(s.workers)
  }

  lemma {:induction false} LeftUpdate(ws: seq<Worker>, w: nat, v: Worker)
    requires w < |ws|
    ensures LeftOf(ws[w := v]) + Left(ws[w]) == LeftOf(ws) + Left(v)
  {
    hide Left;
    var us := ws[w := v];
    if w == 0 {
      assert us[1..] == ws[1..];
    } else {
      LeftUpdate(ws[1..], w - 1, v);
      assert us[1..] == ws[1..][w - 1 := v];
    }
  }

  /** Without arrivals the system comes to rest: every internal step makes the measure smaller. */
  lemma InternalStepsEnd(cfg: Config, s: System, step: Step)
    requires Inv(cfg, s) && Enabled(cfg, s, step) && Internal(step)
    ensures Measure(Apply(cfg, s, step)) < Measure(s)
  {
    hide Live, Pending, IsPending, LiveOf, OwedBy, Accounted, LeftOf;
    match step
    case Arrive(r) =>
    case Timer =>
    case Send =>
    case Take(w) => LeftUpdate(s.workers, w, Computing(s.queue[0], 0));
    case Write(w) =>
      assert IsWorker(cfg, s.workers[w]);
      LeftUpdate(s.workers, w, Computing(s.workers[w].batch, s.workers[w].lane + 1));
    case Compute(w) =>
      assert IsWorker(cfg, s.workers[w]);
      LeftUpdate(s.workers, w, Answering(s.workers[w].batch, 0));
    case Answer(w) =>
      assert IsWorker(cfg, s.workers[w]);
      LeftUpdate(s.workers, w, Answering(s.workers[w].batch, s.workers[w].next + 1));
    case Done(w) =>
      assert IsWorker(cfg, s.workers[w]);
      LeftUpdate(s.workers, w, Idle);
  }

  /** No internal step is possible. */
  ghost predicate AtRest(cfg: Config, s: System) {
    forall step: Step | Internal(step) :: !Enabled(cfg, s, step)
  }

  /** When the system has come to rest, every received request has been answered, exactly once. */
  lemma AtRestAllAnswered(cfg: Config, s: System)
    requires Inv(cfg, s) && AtRest(cfg, s)
    ensures multiset(Answered(s.answers)) == multiset(s.received)
  {
    hide Live, OwedBy, Owed;
    assert !Enabled(cfg, s, Timer) && !Enabled(cfg, s, Send);
    forall w | 0 <= w < |s.workers|
      ensures s.workers[w] == Idle
    {
      if s.workers[w] != Idle {
        WorkerCanMove(cfg, s, w);
        assert false;
      }
    }
    assert s.queue == [] by {
      assert !Enabled(cfg, s, Take(0));
    }
    assert s.outbox == None && !s.collector.armed && s.collector.pending == 0;
    assert Pending(s.collector) == [];
    forall r: Req
      ensures multiset(Answered(s.answers))[r] == multiset(s.received)[r]
    {
      assert Places(cfg, s, r) == multiset(s.received)[r];
      NothingOwed(cfg, s.workers, r);
    }
  }

  /** A busy worker always has a step: no dummy lane and no unwritten field can block it. */
  lemma WorkerCanMove(cfg: Config, s: System, w: nat)
    requires Inv(cfg, s) && w < |s.workers| && s.workers[w] != Idle
    ensures exists step: Step :: Internal(step) && Enabled(cfg, s, step)
  {
    hide Live, OwedBy, Owed, Pending, LiveOf, Accounted;
    assert IsWorker(cfg, s.workers[w]) && HasWritten(s.native, s.workers[w]);
    match s.workers[w]
    case Computing(b, k) =>
      if k < cfg.size {
        assert Enabled(cfg, s, Write(w));
      } else {
        assert Enabled(cfg, s, Compute(w));
      }
    case Answering(b, i) =>
      if i < b.pending {
        assert Enabled(cfg, s, Answer(w));
      } else {
        assert Enabled(cfg, s, Done(w));
      }
  }

  /** The timer is not disarmed by a full batch: the arrival that fills a batch leaves it armed with nothing pending. */
  lemma FullBatchLeavesTimerArmed(cfg: Config, s: System, r: Req)
    requires Inv(cfg, s) && Enabled(cfg, s, Arrive(r)) && s.collector.pending == cfg.size - 1
    ensures var t := Apply(cfg, s, Arrive(r));
            && t.outbox.Some? && t.collector.armed && t.collector.pending == 0
            && (Enabled(cfg, t, Send) ==> Enabled(cfg, Apply(cfg, t, Send), Timer)
                                           && Apply(cfg, Apply(cfg, t, Send), Timer).outbox.value.pending == 0)
  {
    hide Live, Pending, IsBatch, IsPending, LiveOf, OwedBy, Accounted, OwnDeadlines;
  }
}
