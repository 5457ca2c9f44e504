/**
 When an account comes due: what a message and a payment mean for the payout condition.
 */
module PayoutDates {
  import opened Commons
  import opened Tables
  import opened PayoutMessages
  import opened PayoutSteps

  function Days(interval: Interval): nat {
    match interval
    case Weekly => 7
    case Daily => 1
    case Now => 0
  }

  /**
   An accepted interval: from its first date on, the account is due with any amount
   that covers the fee, and not before.
   */
  lemma IntervalTakesEffect(cfg: Config, a: Account, r: Request, pending: int, t: int)
    requires r.message.Set? && Accepted(cfg, a, r.message)
    ensures Due(cfg, Outcome(cfg, a, r).(pending := pending), t)
            <==> t >= r.now + Days(r.message.interval) && pending >= cfg.minerTxFee
  {
    match r.message.interval
    case Weekly =>
    case Daily =>
    case Now =>
  }

  /**
   An accepted amount: the account is due at that amount and the fee, at any time;
   the number 0 restores the pool's minimum.
   */
  lemma AmountTakesEffect(cfg: Config, a: Account, r: Request, pending: int, t: int)
    requires r.message.Amount? && Accepted(cfg, a, r.message)
    ensures Due(cfg, Outcome(cfg, a, r).(pending := pending), t)
            <==> pending >= (if r.message.value == 0 then cfg.minimumPayout else r.message.value) + cfg.minerTxFee
  {
  }

  /** What an accepted message takes from the account. */
  lemma MessagePrice(cfg: Config, a: Account, r: Request)
    requires Accepted(cfg, a, r.message)
    ensures a.pending - Outcome(cfg, a, r).pending
            == if r.message == Set(Weekly) then cfg.setWeeklyFee
               else if r.message == Set(Daily) then cfg.setDailyFee
               else if r.message == Set(Now) then cfg.setNowFee
               else cfg.setMinPayoutFee
  {
  }

  /**
   After a payment a weekly or daily account is due one interval later; one paid
   at once falls back to the pool's minimum.
   */
  lemma PaidComesDue(cfg: Config, a: Account, now: int, pending: int, t: int)
    requires a.minPayout.None? && a.interval.Some?
    ensures Due(cfg, Paid(a, now).(pending := pending), t)
            <==> if a.interval == Some(Now) then pending >= cfg.minimumPayout + cfg.minerTxFee
                 else t >= now + Days(a.interval.value) && pending >= cfg.minerTxFee
  {
    match a.interval.value
    case Weekly =>
    case Daily =>
    case Now =>
  }

  /** A payment to an account without an interval leaves its payout condition as it was. */
  lemma PaidStaysDue(cfg: Config, a: Account, now: int, pending: int, t: int)
    requires a.interval.None?
    ensures Due(cfg, Paid(a, now).(pending := pending), t) <==> Due(cfg, a.(pending := pending), t)
  {
  }

  /** Every listed account is paid once. */
  lemma {:induction false} PaidAt(accounts: map<nat, Account>, ids: seq<nat>, now: int, i: nat)
    requires forall k | 0 <= k < |ids| :: ids[k] in accounts
    requires (forall j, k | 0 <= j < k < |ids| :: ids[j] != ids[k]) && i < |ids|
    ensures PayAll(accounts, ids, now)[ids[i]] == Paid(accounts[ids[i]], now)
  {
    hide Paid;
    var n := |ids| - 1;
    if i < n {
      PaidAt(accounts, ids[..n], now, i);
    } else {
      Unpaid(accounts, ids[..n], now, ids[n]);
    }
  }

  lemma PaidNotDue(cfg: Config, a: Account, now: int, t: int)
    requires cfg.minerTxFee > 0 && cfg.minimumPayout >= 0 && (a.minPayout.Some? ==> a.minPayout.value >= 0)
    ensures !Due(cfg, Paid(a, now), t)
  {
  }

  /** Right after a payout nobody is due but perhaps the fee account: a second pass pays no miner again. */
  lemma NothingDueAfter(cfg: Config, db: Database, ids: seq<nat>, now: int)
    requires Listing(ids, DueAccounts(cfg, db.accounts, now))
    requires cfg.minerTxFee > 0 && cfg.minimumPayout >= 0 && MinimaNonNegative(db.accounts)
    ensures DueAccounts(cfg, CreateStep(cfg, db, ids, now).accounts, now) <= {cfg.feeAccount}
  {
    hide Due, Paid, PayAll, PaymentRows, NewRows;
    var paid := PayAll(db.accounts, ids, now);
    forall id | id in paid && id != cfg.feeAccount
      ensures !Due(cfg, paid[id], now)
    {
      if id in ids {
        var i :| 0 <= i < |ids| && ids[i] == id;
        PaidAt(db.accounts, ids, now, i);
        PaidNotDue(cfg, db.accounts[id], now, now);
      } else {
        Unpaid(db.accounts, ids, now, id);
      }
    }
  }

  /** A miner with 100 pending asks for a minimum of -50; with 10 left he is due, and his payment is -40. */
  lemma NegativeMinimumPays(cfg: Config, a: Account, r: Request)
    requires cfg == Config(0, 50, 20, 1000, 0, 0, 0, 90)
    requires a == Account(100, None, None, None) && r == Request(7, Amount(-50), 0)
    ensures var after := Outcome(cfg, a, r);
            Accepted(cfg, a, r.message) && after.pending == 10 && Due(cfg, after, 0)
            && PaymentRow(cfg, map[7 := after], 7, 0, 0).amount == -40
  {
  }
}
