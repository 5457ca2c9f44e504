/**
 Messages read again and again, with rewards, payouts and cleanups in between:
 who is charged more than once.
 */
module PayoutRepeats {
  import opened Tables
  import opened PayoutMessages
  import opened Cleanup
  import opened PayoutSteps
  import opened PayoutCycle

  /** The account sends nothing but m. */
  ghost predicate Insists(op: Op, id: nat, m: Message) {
    op.Messages? ==> forall r | r in op.requests && r.account == id :: r.message == m
  }

  /** A setting the account already has is not charged, however often it is read. */
  lemma {:induction false} RepeatedIsFree(cfg: Config, accounts: map<nat, Account>, requests: seq<Request>, id: nat,
                                          m: Message)
    requires id in accounts && id != cfg.feeAccount && Repeated(accounts[id], m)
    requires forall r | r in requests && r.account == id :: r.message == m
    ensures ProcessAll(cfg, accounts, requests)[id] == accounts[id]
  {
    if requests == [] {
    } else {
      RepeatedIsFree(cfg, accounts, requests[..|requests| - 1], id, m);
    }
  }

  lemma {:induction false} PayKeepsSettings(accounts: map<nat, Account>, ids: seq<nat>, now: int, id: nat)
    requires (forall i | 0 <= i < |ids| :: ids[i] in accounts) && id in accounts
    ensures PayAll(accounts, ids, now)[id].minPayout == accounts[id].minPayout
    ensures PayAll(accounts, ids, now)[id].interval == accounts[id].interval
  {
    if ids == [] {
    } else {
      PayKeepsSettings(accounts, ids[..|ids| - 1], now, id);
    }
  }

  lemma CleanKeepsSettings(cfg: Config, db: Database, k: Cleaning, id: nat)
    requires id in db.accounts && id in CleanStep(cfg, db, k).accounts
    ensures var a := CleanStep(cfg, db, k).accounts[id];
            a.minPayout == db.accounts[id].minPayout && a.interval == db.accounts[id].interval
            && a.nextPayout == db.accounts[id].nextPayout
  {
    hide Kept, Cutoff, NonMiners, PendingOutside, Anchored, BlocksOf, RecentBlocks;
  }

  /** Rewards, payouts, other messages and cleanups leave an account's settings alone. */
  lemma StaysRepeated(cfg: Config, s: State, op: Op, id: nat, m: Message)
    requires Enabled(cfg, s, op) && Insists(op, id, m) && id != cfg.feeAccount
    requires id in s.db.accounts && Repeated(s.db.accounts[id], m) && id in Apply(cfg, s, op).db.accounts
    ensures Repeated(Apply(cfg, s, op).db.accounts[id], m)
    ensures op.Messages? ==> Apply(cfg, s, op).db.accounts[id] == s.db.accounts[id]
  {
    hide CleanStep, ProcessAll, PayAll, PaymentRows, NewRows, Kept, Due, FeeMargin, TransactionsFor;
    match op {
      case Messages(requests) => RepeatedIsFree(cfg, s.db.accounts, requests, id, m);
      case Pay(ids, now) => PayKeepsSettings(s.db.accounts, ids, now, id);
      case Clean(k) => CleanKeepsSettings(cfg, s.db, k, id);
      case _ =>
    }
  }

  /** The account is there all along, and sends nothing but m. */
  ghost predicate InsistsAlong(cfg: Config, s: State, ops: seq<Op>, id: nat, m: Message)
    requires ValidRun(cfg, s, ops)
    decreases ops
  {
    id in s.db.accounts
    && (ops == [] || (Insists(ops[0], id, m) && InsistsAlong(cfg, Apply(cfg, s, ops[0]), ops[1..], id, m)))
  }

  /** What the messages of a run take from the account. */
  ghost function ChargedAlong(cfg: Config, s: State, ops: seq<Op>, id: nat): int
    requires ValidRun(cfg, s, ops)
    decreases ops
  {
    if ops == [] then 0
    else
      var next := Apply(cfg, s, ops[0]);
      (if ops[0].Messages? && id in s.db.accounts && id in next.db.accounts
       then s.db.accounts[id].pending - next.db.accounts[id].pending else 0)
      + ChargedAlong(cfg, next, ops[1..], id)
  }

  /**
   Once a setting is accepted, reading its message again is free on every run:
   with rewards, payouts and cleanups in between. The number 0 never counts as
   accepted, so it is not such a setting.
   */
  lemma {:induction false} AcceptedOnce(cfg: Config, s: State, ops: seq<Op>, id: nat, m: Message)
    requires ValidRun(cfg, s, ops) && InsistsAlong(cfg, s, ops, id, m) && id != cfg.feeAccount
    requires Repeated(s.db.accounts[id], m)
    ensures ChargedAlong(cfg, s, ops, id) == 0
    decreases ops
  {
    hide Apply, Enabled, Repeated, Insists;
    if ops == [] {
    } else {
      StaysRepeated(cfg, s, ops[0], id, m);
      AcceptedOnce(cfg, Apply(cfg, s, ops[0]), ops[1..], id, m);
    }
  }

  /** An accepted message is a setting the account then has, unless it is the number 0. */
  lemma AcceptedThenRepeated(cfg: Config, a: Account, r: Request)
    requires Accepted(cfg, a, r.message)
    ensures Repeated(Outcome(cfg, a, r), r.message) <==> r.message != Amount(0)
  {
  }

  /** The same message read n times. */
  function ReadAgain(r: Request, n: nat): seq<Request> {
    if n == 0 then [] else ReadAgain(r, n - 1) + [r]
  }

  lemma OneCharge(cfg: Config, accounts: map<nat, Account>, r: Request)
    requires r.message == Amount(0) && r.account in accounts && r.account != cfg.feeAccount
    requires accounts[r.account].pending >= cfg.setMinPayoutFee
    ensures Process(cfg, accounts, r)[r.account].pending == accounts[r.account].pending - cfg.setMinPayoutFee
  {
  }

  lemma LastReading(cfg: Config, accounts: map<nat, Account>, r: Request, n: nat)
    ensures ProcessAll(cfg, accounts, ReadAgain(r, n + 1))
            == Process(cfg, ProcessAll(cfg, accounts, ReadAgain(r, n)), r)
  {
    hide Process;
    ReadLength(r, n);
    assert ReadAgain(r, n + 1) == ReadAgain(r, n) + [r];
    assert ReadAgain(r, n + 1)[..n] == ReadAgain(r, n);
  }

  function Fees(n: nat, fee: int): int {
    n * fee
  }

  lemma NextFee(n: nat, fee: int)
    ensures Fees(n + 1, fee) == Fees(n, fee) + fee && Fees(0, fee) == 0
  {
    OneMoreFee(n, fee);
  }

  /** The number 0 is charged at every reading that the account can pay. */
  lemma {:induction false} ZeroIsChargedEachTime(cfg: Config, accounts: map<nat, Account>, r: Request, n: nat)
    requires r.message == Amount(0) && r.account in accounts && r.account != cfg.feeAccount && cfg.setMinPayoutFee >= 0
    requires accounts[r.account].pending >= Fees(n, cfg.setMinPayoutFee)
    ensures ProcessAll(cfg, accounts, ReadAgain(r, n))[r.account].pending
            == accounts[r.account].pending - Fees(n, cfg.setMinPayoutFee)
  {
    if n == 0 {
    } else {
      NextFee(n - 1, cfg.setMinPayoutFee);
      hide Process, ProcessAll, ReadAgain, Fees;
      ZeroIsChargedEachTime(cfg, accounts, r, n - 1);
      LastReading(cfg, accounts, r, n - 1);
      OneCharge(cfg, ProcessAll(cfg, accounts, ReadAgain(r, n - 1)), r);
    }
  }

  lemma {:induction false} ReadLength(r: Request, n: nat)
    ensures |ReadAgain(r, n)| == n
  {
    if n == 0 {
    } else {
      ReadLength(r, n - 1);
    }
  }
}
