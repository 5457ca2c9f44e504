/**
 The deadline batching protocol: a collector that gathers requests into batches,
 a timer, a bounded queue and a set of workers, as interleaved atomic steps.
 */
module Batching {
  import opened Commons

  /** A request by its identity; every call of CalcDeadline makes a new one. */
  type Req = nat

  /** The slots of a batch array; None is a slot without native parameters. */
  type Slots = s: seq<Option<Req>> | |s| == 8 witness [None, None, None, None, None, None, None, None]

  datatype Batch = Batch(pending: nat, reqs: Slots)

  // ----- the collector

  /** Local variables of the collecting goroutine; armed says that the timer channel has not fired yet. */
  datatype Collector = Collector(reqs: Slots, pending: nat, armed: bool)

  /** Receive one request: the state afterwards and the full batch, if there is one. */
  function Receive(c: Collector, size: nat, r: Req): (Collector, Option<Batch>)
    requires c.pending < size <= 8
  {
    var reqs := c.reqs[c.pending := Some(r)];
    if c.pending == 0 then (Collector(reqs, 1, true), None)
    else if c.pending == size - 1 then (Collector(reqs, 0, c.armed), Some(Batch(c.pending + 1, reqs)))
    else (Collector(reqs, c.pending + 1, c.armed), None)
  }

  /** The timer fires: whatever is pending is sent, possibly nothing. */
  function Fire(c: Collector): (Collector, Batch) {
    (Collector(c.reqs, 0, false), Batch(c.pending, c.reqs))
  }

  /** The request goes behind those waiting, into the batch or not. */
  lemma ReceiveKeeps(c: Collector, size: nat, r: Req)
    requires 2 <= size <= 8 && c.pending < size && IsPending(c)
    requires c.pending > 0 ==> c.armed
    ensures var (d, b) := Receive(c, size, r);
            && IsPending(d) && d.pending < size && d.reqs[0].Some?
            && (d.pending > 0 ==> d.armed && b == None)
            && (b == None ==> Pending(d) == Pending(c) + [r])
            && (b.Some? ==> IsBatch(b.value) && b.value.pending == size
                            && Live(b.value, 0) == Pending(c) + [r] && Pending(d) == [])
  {
  }

  /** Go: collectDeadlineReqsAVX2 (size 8) and collectDeadlineReqsSSE4 (size 4), one select case per method. */
  class CollectorLoop {
    const size: nat
    var reqs: Slots
    var pending: nat
    var timeout: bool

    ghost predicate Valid()
      reads this
    {
      && 2 <= size <= 8 && pending < size && IsPending(Now())
      && (pending > 0 ==> timeout) && (timeout ==> reqs[0].Some?)
    }

    ghost function Now(): Collector
      reads this
    {
      Collector(reqs, pending, timeout)
    }

    constructor (size: nat)
      requires 2 <= size <= 8
      ensures Valid() && this.size == size
      ensures Now() == Collector([None, None, None, None, None, None, None, None], 0, false)
    {
      this.size := size;
      reqs := [None, None, None, None, None, None, None, None];
      pending := 0;
      timeout := false;
    }

    /**
     A request joins those waiting, behind them; when it completes a batch, all of
     them leave in it. Either way the timer is armed afterwards.
     */
    method OnRequest(r: Req) returns (batch: Option<Batch>)
      requires Valid()
      modifies this
      ensures Valid() && timeout
      ensures batch.Some? <==> |old(Pending(Now()))| + 1 == size
      ensures batch.Some? ==> IsBatch(batch.value) && batch.value.pending == size
      ensures (if batch.Some? then Live(batch.value, 0) else []) + Pending(Now()) == old(Pending(Now())) + [r]
      ensures (Now(), batch) == Receive(old(Now()), size, r)
    {
      ReceiveKeeps(Now(), size, r);
      reqs := reqs[pending := Some(r)];
      batch := None;
      if pending == 0 {
        timeout := true;
      } else if pending == size - 1 {
        batch := Some(Batch(pending + 1, reqs));
        pending := 0;
        return;
      }
      pending := pending + 1;
    }

    /** All that is waiting leaves in a batch, be it nothing, and the timer is off. */
    method OnTimeout() returns (batch: Batch)
      requires Valid() && timeout
      modifies this
      ensures Valid() && !timeout
      ensures IsBatch(batch) && Live(batch, 0) == old(Pending(Now())) && Pending(Now()) == []
      ensures (Now(), batch) == Fire(old(Now()))
    {
      timeout := false;
      batch := Batch(pending, reqs);
      pending := 0;
    }
  }

  // ----- the whole system

  /** A worker: waiting, filling in deadlines (lanes written so far), or answering (next live request). */
  datatype Worker = Idle | Computing(batch: Batch, lane: nat) | Answering(batch: Batch, next: nat)

  datatype System = System(
    received: seq<Req>,           // every request the collector has taken, in order
    collector: Collector,
    outbox: Option<Batch>,        // a batch the collector is blocked on sending
    emitted: seq<Batch>,          // every batch made so far, in order
    queue: seq<Batch>,
    workers: seq<Worker>,
    native: map<Req, nat>,        // the deadline fields written so far
    answers: seq<(Req, nat)>      // answers sent on the requests' own channels
  )

  /** Parameters: batch size, queue capacity, and the deadline of each request. */
  datatype Config = Config(size: nat, capacity: nat, deadline: Req -> nat) {
    ghost predicate Valid() { 2 <= size <= 8 && 1 <= capacity }
  }

  ghost predicate Init(cfg: Config, s: System) {
    && s.received == [] && s.outbox == None && s.emitted == [] && s.queue == [] && s.native == map[] && s.answers == []
    && s.collector == Collector([None, None, None, None, None, None, None, None], 0, false)
    && |s.workers| >= 1 && forall w | 0 <= w < |s.workers| :: s.workers[w] == Idle
  }

  /** The native parameters in lane i of a batch: dummies repeat request 0. */
  function LaneSlot(b: Batch, i: nat): Option<Req>
    requires i < 8
  {
    if i < b.pending then b.reqs[i] else b.reqs[0]
  }

  datatype Step =
    | Arrive(r: Req)
    | Timer
    | Send
    | Take(w: nat)
    | Write(w: nat)
    | Compute(w: nat)
    | Answer(w: nat)
    | Done(w: nat)

  /** All steps except arrivals. */
  predicate Internal(step: Step) { !step.Arrive? }

  ghost predicate Enabled(cfg: Config, s: System, step: Step) {
    match step
    case Arrive(r) => s.outbox == None && s.collector.pending < cfg.size <= 8 && r !in s.received
    case Timer => s.outbox == None && s.collector.armed
    case Send => s.outbox.Some? && |s.queue| < cfg.capacity
    case Take(w) => w < |s.workers| && s.workers[w].Idle? && s.queue != []
    case Write(w) =>
      w < |s.workers| && s.workers[w].Computing? && s.workers[w].lane < cfg.size <= 8
      && LaneSlot(s.workers[w].batch, s.workers[w].lane).Some?
    case Compute(w) => w < |s.workers| && s.workers[w].Computing? && s.workers[w].lane == cfg.size
    case Answer(w) =>
      w < |s.workers| && s.workers[w].Answering? && s.workers[w].next < s.workers[w].batch.pending <= 8
      && s.workers[w].batch.reqs[s.workers[w].next].Some?
      && s.workers[w].batch.reqs[s.workers[w].next].value in s.native
    case Done(w) => w < |s.workers| && s.workers[w].Answering? && s.workers[w].next == s.workers[w].batch.pending
  }

  ghost function Apply(cfg: Config, s: System, step: Step): System
    requires Enabled(cfg, s, step)
  {
    match step
    case Arrive(r) =>
      var (c, b) := Receive(s.collector, cfg.size, r);
      s.(received := s.received + [r], collector := c, outbox := b,
         emitted := if b.Some? then s.emitted + [b.value] else s.emitted)
    case Timer =>
      var (c, b) := Fire(s.collector);
      s.(collector := c, outbox := Some(b), emitted := s.emitted + [b])
    case Send => s.(outbox := None, queue := s.queue + [s.outbox.value])
    case Take(w) => s.(queue := s.queue[1..], workers := s.workers[w := Computing(s.queue[0], 0)])
    case Write(w) =>
      var b, k := s.workers[w].batch, s.workers[w].lane;
      var r := LaneSlot(b, k).value;
      s.(native := s.native[r := cfg.deadline(r)], workers := s.workers[w := Computing(b, k + 1)])
    case Compute(w) => s.(workers := s.workers[w := Answering(s.workers[w].batch, 0)])
    case Answer(w) =>
      var b, i := s.workers[w].batch, s.workers[w].next;
      var r := b.reqs[i].value;
      s.(answers := s.answers + [(r, s.native[r])], workers := s.workers[w := Answering(b, i + 1)])
    case Done(w) => s.(workers := s.workers[w := Idle])
  }

  // ----- what every step keeps

  /** The live requests of a batch from position i on. */
  function Live(b: Batch, i: nat): (s: seq<Req>)
    requires IsBatch(b) && i <= b.pending
    ensures |s| == b.pending - i
  {
    seq(b.pending - i, k requires 0 <= k < b.pending - i => b.reqs[i + k].value)
  }

  /** Live slots hold requests, and so does slot 0, which pads the batch. */
  predicate IsBatch(b: Batch) {
    b.pending <= 8 && b.reqs[0].Some? && forall i | 0 <= i < b.pending :: b.reqs[i].Some?
  }

  predicate AreBatches(bs: seq<Batch>) {
    forall k | 0 <= k < |bs| :: IsBatch(bs[k])
  }

  /** The requests of the batches, one after the other. */
  function LiveOf(bs: seq<Batch>): seq<Req>
    requires AreBatches(bs)
  {
    if bs == [] then [] else LiveOf(bs[..|bs| - 1]) + Live(bs[|bs| - 1], 0)
  }

  /** The requests waiting in the collector. */
  function Pending(c: Collector): (s: seq<Req>)
    requires IsPending(c)
    ensures |s| == c.pending
  {
    seq(c.pending, k requires 0 <= k < c.pending => c.reqs[k].value)
  }

  predicate IsPending(c: Collector) {
    c.pending <= 8 && forall i | 0 <= i < c.pending :: c.reqs[i].Some?
  }

  predicate IsWorker(cfg: Config, w: Worker) {
    match w
    case Idle => true
    case Computing(b, k) => IsBatch(b) && b.pending <= cfg.size <= 8 && k <= cfg.size
    case Answering(b, i) => IsBatch(b) && b.pending <= cfg.size && i <= b.pending
  }

  predicate AreWorkers(cfg: Config, ws: seq<Worker>) {
    forall w | 0 <= w < |ws| :: IsWorker(cfg, ws[w])
  }

  /** The deadline fields a worker has already written. */
  ghost predicate HasWritten(native: map<Req, nat>, w: Worker)
  {
    match w
    case Idle => true
    case Computing(b, k) => k <= 8 && forall i | 0 <= i < k :: LaneSlot(b, i).Some? ==> LaneSlot(b, i).value in native
    case Answering(b, i) =>
      b.pending <= 8 && forall j | 0 <= j < b.pending :: b.reqs[j].Some? ==> b.reqs[j].value in native
  }

  /** The requests a worker still has to answer. */
  ghost function Owed(cfg: Config, w: Worker): multiset<Req>
    requires IsWorker(cfg, w)
  {
    match w
    case Idle => multiset{}
    case Computing(b, k) => multiset(Live(b, 0))
    case Answering(b, i) => multiset(Live(b, i))
  }

  /** How often r is owed by the workers. */
  ghost function OwedBy(cfg: Config, ws: seq<Worker>, r: Req): nat
    requires AreWorkers(cfg, ws)
  {
    if ws == [] then 0 else Owed(cfg, ws[0])[r] + OwedBy(cfg, ws[1..], r)
  }

  ghost function Answered(answers: seq<(Req, nat)>): seq<Req> {
    seq(|answers|, k requires 0 <= k < |answers| => answers[k].0)
  }

  ghost predicate Distinct(s: seq<Req>) {
    forall i, j | 0 <= i < j < |s| :: s[i] != s[j]
  }

  /** Shapes: pending in bounds, batches well formed, the timer armed while something is pending. */
  ghost predicate WellFormed(cfg: Config, s: System) {
    && cfg.Valid() && |s.workers| >= 1
    && s.collector.pending < cfg.size && IsPending(s.collector)
    && (s.collector.pending > 0 ==> s.collector.armed && s.outbox == None)
    && (s.collector.armed ==> s.collector.reqs[0].Some?)
    && AreBatches(s.emitted) && AreBatches(s.queue)
    && (forall k | 0 <= k < |s.queue| :: s.queue[k].pending <= cfg.size)
    && (s.outbox.Some? ==> IsBatch(s.outbox.value) && s.outbox.value.pending <= cfg.size)
    && |s.queue| <= cfg.capacity
    && AreWorkers(cfg, s.workers)
  }

  /** How often r is waiting, in the outbox, in the queue, owed by a worker, or answered. */
  ghost function Places(cfg: Config, s: System, r: Req): nat
    requires WellFormed(cfg, s)
  {
    multiset(Pending(s.collector))[r]
    + (if s.outbox.Some? then multiset(Live(s.outbox.value, 0))[r] else 0)
    + multiset(LiveOf(s.queue))[r]
    + OwedBy(cfg, s.workers, r)
    + multiset(Answered(s.answers))[r]
  }

  /** Every received request is in exactly one place, as often as it was received. */
  ghost predicate Accounted(cfg: Config, s: System)
    requires WellFormed(cfg, s)
  {
    forall r: Req :: Places(cfg, s, r) == multiset(s.received)[r]
  }

  /** Written fields, and hence answers, hold the requests' own deadlines. */
  ghost predicate OwnDeadlines(cfg: Config, s: System) {
    && (forall r | r in s.native :: s.native[r] == cfg.deadline(r))
    && (forall w | 0 <= w < |s.workers| :: HasWritten(s.native, s.workers[w]))
    && (forall k | 0 <= k < |s.answers| :: s.answers[k].1 == cfg.deadline(s.answers[k].0))
  }

  ghost predicate Inv(cfg: Config, s: System) {
    && WellFormed(cfg, s)
    && s.received == LiveOf(s.emitted) + Pending(s.collector)
    && Distinct(s.received)
    && Accounted(cfg, s)
    && OwnDeadlines(cfg, s)
  }
}
