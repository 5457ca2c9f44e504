/**
 When an account comes due over runs of the ledger: its settings change with its
 accepted messages alone, and its date with those and its payments.
 */
module PayoutSettings {
  import opened Commons
  import opened Tables
  import opened PayoutMessages
  import opened Cleanup
  import opened PayoutSteps
  import opened PayoutCycle
  import opened PayoutDates
  import PayoutRepeats

  // ----- one operation

  predicate SameSettings(a: Account, b: Account) {
    a.minPayout == b.minPayout && a.interval == b.interval && a.nextPayout == b.nextPayout
  }

  /** None of the messages is accepted from the account, each judged when it is read. */
  ghost predicate Unheard(cfg: Config, accounts: map<nat, Account>, requests: seq<Request>, id: nat)
    requires id in accounts
  {
    forall i | 0 <= i < |requests| && requests[i].account == id ::
      !Accepted(cfg, ProcessAll(cfg, accounts, requests[..i])[id], requests[i].message)
  }

  lemma {:induction false} UnheardKeeps(cfg: Config, accounts: map<nat, Account>, requests: seq<Request>, id: nat)
    requires id in accounts && Unheard(cfg, accounts, requests, id)
    ensures SameSettings(ProcessAll(cfg, accounts, requests)[id], accounts[id])
  {
    hide Accepted, Changed, Cost;
    if requests == [] {
    } else {
      var n := |requests| - 1;
      assert forall i | 0 <= i < n :: requests[..n][..i] == requests[..i];
      UnheardKeeps(cfg, accounts, requests[..n], id);
    }
  }

  /** The date an account has after being paid at a time. */
  function DateAfter(a: Account, paid: Option<int>): Option<int> {
    if paid.None? || a.interval.None? then a.nextPayout
    else if a.interval == Some(Now) then None
    else Some(paid.value + Days(a.interval.value))
  }

  /** Whether the operation pays the account, and when. */
  function PaidBy(op: Op, id: nat): Option<int> {
    if op.Pay? && id in op.ids then Some(op.now) else None
  }

  lemma PayMovesDate(accounts: map<nat, Account>, ids: seq<nat>, now: int, id: nat)
    requires forall i | 0 <= i < |ids| :: ids[i] in accounts
    requires (forall j, k | 0 <= j < k < |ids| :: ids[j] != ids[k]) && id in accounts
    ensures var a := PayAll(accounts, ids, now)[id];
            SameSettings(a, accounts[id].(nextPayout := DateAfter(accounts[id], PaidBy(Pay(ids, now), id))))
  {
    if id in ids {
      var i :| 0 <= i < |ids| && ids[i] == id;
      PaidAt(accounts, ids, now, i);
    } else {
      Unpaid(accounts, ids, now, id);
    }
  }

  /** An operation leaves the settings of an account it accepts no message from; a payment moves the date. */
  lemma StepKeepsSettings(cfg: Config, s: State, op: Op, id: nat)
    requires Enabled(cfg, s, op) && id in s.db.accounts && id in Apply(cfg, s, op).db.accounts
    requires op.Messages? ==> Unheard(cfg, s.db.accounts, op.requests, id)
    ensures var a := s.db.accounts[id];
            SameSettings(Apply(cfg, s, op).db.accounts[id], a.(nextPayout := DateAfter(a, PaidBy(op, id))))
  {
    hide CleanStep, ProcessAll, PayAll, PaymentRows, NewRows, Kept, Due, FeeMargin, TransactionsFor, Unheard;
    match op {
      case Messages(requests) => UnheardKeeps(cfg, s.db.accounts, requests, id);
      case Pay(ids, now) => PayMovesDate(s.db.accounts, ids, now, id);
      case Clean(k) => PayoutRepeats.CleanKeepsSettings(cfg, s.db, k, id);
      case _ =>
    }
  }

  // ----- runs

  /** The account is there all along, and no message of the run is accepted from it. */
  ghost predicate UnheardAlong(cfg: Config, s: State, ops: seq<Op>, id: nat)
    requires ValidRun(cfg, s, ops)
    decreases ops
  {
    && id in s.db.accounts
    && (ops != [] ==>
          && (ops[0].Messages? ==> Unheard(cfg, s.db.accounts, ops[0].requests, id))
          && UnheardAlong(cfg, Apply(cfg, s, ops[0]), ops[1..], id))
  }

  /** The time of the last payment to the account. */
  function LastPaid(ops: seq<Op>, id: nat): Option<int> {
    if ops == [] then None
    else
      var later := LastPaid(ops[1..], id);
      if later.Some? then later else PaidBy(ops[0], id)
  }

  /**
   Over every run that accepts no message from the account its minimum and interval
   stay, and its date is what the last payment made it.
   */
  lemma {:induction false} SettingsAlong(cfg: Config, s: State, ops: seq<Op>, id: nat)
    requires ValidRun(cfg, s, ops) && UnheardAlong(cfg, s, ops, id)
    ensures id in Run(cfg, s, ops).db.accounts
    ensures var a := s.db.accounts[id];
            SameSettings(Run(cfg, s, ops).db.accounts[id], a.(nextPayout := DateAfter(a, LastPaid(ops, id))))
    decreases ops
  {
    hide Apply, Enabled, Unheard, PaidBy;
    if ops == [] {
    } else {
      assert id in Apply(cfg, s, ops[0]).db.accounts;
      StepKeepsSettings(cfg, s, ops[0], id);
      SettingsAlong(cfg, Apply(cfg, s, ops[0]), ops[1..], id);
    }
  }

  /** An account without settings is due at the pool's minimum and the fee, whatever payments came before. */
  lemma DefaultAlong(cfg: Config, s: State, ops: seq<Op>, id: nat, t: int)
    requires ValidRun(cfg, s, ops) && UnheardAlong(cfg, s, ops, id)
    requires SameSettings(s.db.accounts[id], Account(0, None, None, None))
    ensures id in Run(cfg, s, ops).db.accounts
    ensures var a := Run(cfg, s, ops).db.accounts[id];
            Due(cfg, a, t) <==> a.pending >= cfg.minimumPayout + cfg.minerTxFee
  {
    hide Run, UnheardAlong, LastPaid;
    SettingsAlong(cfg, s, ops, id);
  }

  /** A miner who joins for the first time has such an account, with nothing pending. */
  lemma JoinedIsDefault(cfg: Config, s: State, id: nat)
    requires Enabled(cfg, s, Join(id)) && id !in s.db.accounts
    ensures var db := Apply(cfg, s, Join(id)).db;
            id in db.miners && id in db.accounts && db.accounts[id].pending == 0
            && SameSettings(db.accounts[id], Account(0, None, None, None))
            && db.miners - {id} == s.db.miners - {id} && db.accounts - {id} == s.db.accounts
  {
  }

  /** An account whose number was accepted is due on every such run at that amount and the fee. */
  lemma AmountAlong(cfg: Config, s: State, ops: seq<Op>, id: nat, before: Account, r: Request, t: int)
    requires ValidRun(cfg, s, ops) && UnheardAlong(cfg, s, ops, id)
    requires r.message.Amount? && Accepted(cfg, before, r.message) && s.db.accounts[id] == Outcome(cfg, before, r)
    ensures id in Run(cfg, s, ops).db.accounts
    ensures var a := Run(cfg, s, ops).db.accounts[id];
            var v := r.message.value;
            Due(cfg, a, t) <==> a.pending >= (if v == 0 then cfg.minimumPayout else v) + cfg.minerTxFee
  {
    hide Run, UnheardAlong, LastPaid;
    SettingsAlong(cfg, s, ops, id);
  }

  /**
   An account whose interval was accepted is due with the fee covered: from the date of the
   message until it is paid, from one interval after its last payment afterwards; paid at
   once it falls back to the pool's minimum.
   */
  lemma IntervalAlong(cfg: Config, s: State, ops: seq<Op>, id: nat, before: Account, r: Request, t: int)
    requires ValidRun(cfg, s, ops) && UnheardAlong(cfg, s, ops, id)
    requires r.message.Set? && Accepted(cfg, before, r.message) && s.db.accounts[id] == Outcome(cfg, before, r)
    ensures id in Run(cfg, s, ops).db.accounts
    ensures var a := Run(cfg, s, ops).db.accounts[id];
            var paid := LastPaid(ops, id);
            var since := if paid.Some? then paid.value else r.now;
            Due(cfg, a, t)
            <==> if paid.Some? && r.message.interval == Now then a.pending >= cfg.minimumPayout + cfg.minerTxFee
                 else t >= since + Days(r.message.interval) && a.pending >= cfg.minerTxFee
  {
    hide Run, UnheardAlong, LastPaid;
    SettingsAlong(cfg, s, ops, id);
  }
}
