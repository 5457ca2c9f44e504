/**
 Dynamic payout messages: a miner pays a fee to change when he is paid.
 */
module PayoutMessages {
  import opened Commons
  import opened Tables

  /** A message as parsed: an interval, a number, or neither. */
  datatype Message = Set(interval: Interval) | Amount(value: int) | Garbage

  datatype Request = Request(account: nat, message: Message, now: int)

  function Cost(cfg: Config, m: Message): int {
    match m
    case Set(Weekly) => cfg.setWeeklyFee
    case Set(Daily) => cfg.setDailyFee
    case Set(Now) => cfg.setNowFee
    case Amount(_) => cfg.setMinPayoutFee
    case Garbage => 0
  }

  /** The account already has the setting asked for; the number 0 asks for none. */
  predicate Repeated(a: Account, m: Message) {
    match m
    case Set(interval) => a.interval == Some(interval)
    case Amount(v) => v != 0 && a.minPayout == Some(v)
    case Garbage => true
  }

  predicate Accepted(cfg: Config, a: Account, m: Message) {
    !Repeated(a, m) && a.pending >= Cost(cfg, m)
  }

  /** The account after an accepted message. */
  function Changed(cfg: Config, a: Account, r: Request): Account
    requires !r.message.Garbage?
  {
    var pending := a.pending - Cost(cfg, r.message);
    match r.message
    case Set(Weekly) => Account(pending, None, Some(Weekly), Some(r.now + 7))
    case Set(Daily) => Account(pending, None, Some(Daily), Some(r.now + 1))
    case Set(Now) => Account(pending, None, Some(Now), Some(r.now))
    case Amount(v) => Account(pending, if v == 0 then None else Some(v), None, None)
  }

  function Outcome(cfg: Config, a: Account, r: Request): Account {
    if Accepted(cfg, a, r.message) then Changed(cfg, a, r) else a
  }

  function Process(cfg: Config, accounts: map<nat, Account>, r: Request): (after: map<nat, Account>)
    ensures after.Keys == accounts.Keys
  {
    if r.account in accounts && Accepted(cfg, accounts[r.account], r.message)
    then AddPending(accounts[r.account := Changed(cfg, accounts[r.account], r)], cfg.feeAccount, Cost(cfg, r.message))
    else accounts
  }

  function ProcessAll(cfg: Config, accounts: map<nat, Account>, requests: seq<Request>): (after: map<nat, Account>)
    ensures after.Keys == accounts.Keys
  {
    if requests == [] then accounts
    else Process(cfg, ProcessAll(cfg, accounts, requests[..|requests| - 1]), requests[|requests| - 1])
  }

  // ----- one message

  /** What a message charges. */
  function Charge(cfg: Config, accounts: map<nat, Account>, r: Request): int {
    if r.account in accounts && Accepted(cfg, accounts[r.account], r.message) then Cost(cfg, r.message) else 0
  }

  lemma ChangedPending(cfg: Config, a: Account, r: Request)
    requires !r.message.Garbage?
    ensures Changed(cfg, a, r).pending == a.pending - Cost(cfg, r.message)
  {
  }

  /** A charge moves to the fee account, or is lost where there is none. */
  lemma ProcessConserves(cfg: Config, accounts: map<nat, Account>, r: Request)
    ensures TotalPending(Process(cfg, accounts, r))
            == TotalPending(accounts) - (if cfg.feeAccount in accounts then 0 else Charge(cfg, accounts, r))
  {
    if r.account in accounts && Accepted(cfg, accounts[r.account], r.message) {
      var a := Changed(cfg, accounts[r.account], r);
      ChangedPending(cfg, accounts[r.account], r);
      hide Changed, Accepted;
      PendingUpdate(accounts, r.account, a);
      AddPendingTotal(accounts[r.account := a], cfg.feeAccount, Cost(cfg, r.message));
    }
  }

  /** The charges of a list of messages, each at the time it is read. */
  function Charges(cfg: Config, accounts: map<nat, Account>, requests: seq<Request>): int {
    if requests == [] then 0
    else
      var n := |requests| - 1;
      Charges(cfg, accounts, requests[..n]) + Charge(cfg, ProcessAll(cfg, accounts, requests[..n]), requests[n])
  }

  lemma {:induction false} ProcessAllConserves(cfg: Config, accounts: map<nat, Account>, requests: seq<Request>)
    ensures TotalPending(ProcessAll(cfg, accounts, requests))
            == TotalPending(accounts) - (if cfg.feeAccount in accounts then 0 else Charges(cfg, accounts, requests))
  {
    hide Process, Charge, TotalPending;
    if requests == [] {
    } else {
      var n := |requests| - 1;
      ProcessAllConserves(cfg, accounts, requests[..n]);
      ProcessConserves(cfg, ProcessAll(cfg, accounts, requests[..n]), requests[n]);
    }
  }

  ghost predicate FeesNonNegative(cfg: Config) {
    cfg.setWeeklyFee >= 0 && cfg.setDailyFee >= 0 && cfg.setNowFee >= 0 && cfg.setMinPayoutFee >= 0
  }

  /** Nobody is overdrawn: no message takes a balance below zero, or lowers one already below. */
  lemma {:induction false} NeverOverdrawn(cfg: Config, accounts: map<nat, Account>, requests: seq<Request>, id: nat)
    requires FeesNonNegative(cfg) && id in accounts
    ensures ProcessAll(cfg, accounts, requests)[id].pending
            >= (if accounts[id].pending < 0 then accounts[id].pending else 0)
  {
    if requests == [] {
    } else {
      var n := |requests| - 1;
      NeverOverdrawn(cfg, accounts, requests[..n], id);
    }
  }

  // ----- a map of messages: one per sender, read in any order

  ghost predicate DistinctSenders(requests: seq<Request>) {
    forall i, j | 0 <= i < j < |requests| :: requests[i].account != requests[j].account
  }

  ghost predicate FromMiners(cfg: Config, requests: seq<Request>) {
    forall i | 0 <= i < |requests| :: requests[i].account != cfg.feeAccount
  }

  /** The charges, each judged on the accounts before the pass. */
  function ChargesAtStart(cfg: Config, accounts: map<nat, Account>, requests: seq<Request>): int {
    if requests == [] then 0
    else
      var n := |requests| - 1;
      ChargesAtStart(cfg, accounts, requests[..n]) + Charge(cfg, accounts, requests[n])
  }

  /** Accounts that sent nothing and are not the fee account stay as they are. */
  lemma {:induction false} OthersUntouched(cfg: Config, accounts: map<nat, Account>, requests: seq<Request>, id: nat)
    requires id in accounts && id != cfg.feeAccount
    requires forall i | 0 <= i < |requests| :: requests[i].account != id
    ensures ProcessAll(cfg, accounts, requests)[id] == accounts[id]
  {
    if requests == [] {
    } else {
      OthersUntouched(cfg, accounts, requests[..|requests| - 1], id);
    }
  }

  /** Every sender's outcome depends on his own account and message only, not on the order. */
  lemma {:induction false} SenderOutcome(cfg: Config, accounts: map<nat, Account>, requests: seq<Request>, k: nat)
    requires DistinctSenders(requests) && FromMiners(cfg, requests)
    requires k < |requests| && requests[k].account in accounts
    ensures ProcessAll(cfg, accounts, requests)[requests[k].account]
            == Outcome(cfg, accounts[requests[k].account], requests[k])
  {
    hide Accepted, Changed, Cost;
    var n := |requests| - 1;
    if k == n {
      OthersUntouched(cfg, accounts, requests[..n], requests[k].account);
    } else {
      SenderOutcome(cfg, accounts, requests[..n], k);
    }
  }

  /** The fee account gains every charge, whatever the order. */
  lemma {:induction false} FeeAccountOutcome(cfg: Config, accounts: map<nat, Account>, requests: seq<Request>)
    requires DistinctSenders(requests) && FromMiners(cfg, requests) && cfg.feeAccount in accounts
    ensures ProcessAll(cfg, accounts, requests)[cfg.feeAccount]
            == accounts[cfg.feeAccount].(pending := accounts[cfg.feeAccount].pending
                                                     + ChargesAtStart(cfg, accounts, requests))
  {
    hide Accepted, Changed, Cost;
    if requests == [] {
    } else {
      var n := |requests| - 1;
      FeeAccountOutcome(cfg, accounts, requests[..n]);
      if requests[n].account in accounts {
        OthersUntouched(cfg, accounts, requests[..n], requests[n].account);
      }
    }
  }

  // ----- the same messages again

  /** Every message of the second pass was in the first. */
  ghost predicate Again(later: seq<Request>, requests: seq<Request>) {
    forall i | 0 <= i < |later| ::
      exists j :: 0 <= j < |requests| && requests[j].account == later[i].account
        && requests[j].message == later[i].message
  }

  /** The number 0, from an account that can pay the fee a second time. */
  predicate ChargedAgain(cfg: Config, accounts: map<nat, Account>, r: Request) {
    r.message == Amount(0) && r.account in accounts && accounts[r.account].pending >= 2 * cfg.setMinPayoutFee
  }

  lemma OutcomeRepeated(cfg: Config, a: Account, r: Request, s: Request)
    requires r.message == s.message && cfg.setMinPayoutFee > 0
    ensures Accepted(cfg, Outcome(cfg, a, r), s.message)
            <==> r.message == Amount(0) && a.pending >= 2 * cfg.setMinPayoutFee
  {
  }

  /** A message read again is charged again exactly when it is the number 0 and affordable twice. */
  lemma AcceptedAgain(cfg: Config, accounts: map<nat, Account>, requests: seq<Request>, later: seq<Request>, i: nat)
    requires DistinctSenders(requests) && FromMiners(cfg, requests) && Again(later, requests)
    requires cfg.setMinPayoutFee > 0 && i < |later| && later[i].account in accounts
    ensures Accepted(cfg, ProcessAll(cfg, accounts, requests)[later[i].account], later[i].message)
            <==> ChargedAgain(cfg, accounts, later[i])
  {
    var j :| 0 <= j < |requests| && requests[j].account == later[i].account && requests[j].message == later[i].message;
    SenderOutcome(cfg, accounts, requests, j);
    OutcomeRepeated(cfg, accounts[later[i].account], requests[j], later[i]);
  }

  lemma {:induction false} NothingAccepted(cfg: Config, accounts: map<nat, Account>, requests: seq<Request>)
    requires forall i | 0 <= i < |requests| ::
      requests[i].account in accounts ==> !Accepted(cfg, accounts[requests[i].account], requests[i].message)
    ensures ProcessAll(cfg, accounts, requests) == accounts
  {
    if requests == [] {
    } else {
      NothingAccepted(cfg, accounts, requests[..|requests| - 1]);
    }
  }

  /**
   Reading the same messages again, in any order, changes nothing exactly when
   no sender of the number 0 could pay the fee twice.
   */
  lemma SecondPass(cfg: Config, accounts: map<nat, Account>, requests: seq<Request>, later: seq<Request>)
    requires DistinctSenders(requests) && DistinctSenders(later) && FromMiners(cfg, requests) && Again(later, requests)
    requires cfg.setMinPayoutFee > 0
    ensures var after := ProcessAll(cfg, accounts, requests);
            ProcessAll(cfg, after, later) == after
            <==> forall i | 0 <= i < |later| :: !ChargedAgain(cfg, accounts, later[i])
  {
    hide Accepted, ChargedAgain, Cost;
    var after := ProcessAll(cfg, accounts, requests);
    forall i | 0 <= i < |later| && later[i].account in accounts
      ensures Accepted(cfg, after[later[i].account], later[i].message) <==> ChargedAgain(cfg, accounts, later[i])
    {
      AcceptedAgain(cfg, accounts, requests, later, i);
    }
    if k :| 0 <= k < |later| && ChargedAgain(cfg, accounts, later[k]) {
      ChargedAgainMeans(cfg, accounts, later[k]);
      assert FromMiners(cfg, later);
      SenderOutcome(cfg, after, later, k);
      ChangedPending(cfg, after[later[k].account], later[k]);
    } else {
      forall i | 0 <= i < |later| && later[i].account in after
        ensures !Accepted(cfg, after[later[i].account], later[i].message)
      {
        assert !ChargedAgain(cfg, accounts, later[i]);
      }
      NothingAccepted(cfg, after, later);
    }
  }

  lemma ChargedAgainMeans(cfg: Config, accounts: map<nat, Account>, r: Request)
    requires ChargedAgain(cfg, accounts, r)
    ensures r.message == Amount(0) && r.account in accounts && Cost(cfg, r.message) == cfg.setMinPayoutFee
  {
  }

  // ----- negative amounts

  /** Minimum payouts are set to non-negative amounts only. */
  ghost predicate MinimaNonNegative(accounts: map<nat, Account>) {
    forall id | id in accounts && accounts[id].minPayout.Some? :: accounts[id].minPayout.value >= 0
  }

  /** Any number is accepted as a minimum: minima stay non-negative exactly if the accepted numbers are. */
  lemma NegativeAccepted(cfg: Config, accounts: map<nat, Account>, r: Request)
    requires MinimaNonNegative(accounts)
    ensures MinimaNonNegative(Process(cfg, accounts, r))
            <==> !(r.account in accounts && Accepted(cfg, accounts[r.account], r.message)
                   && r.message.Amount? && r.message.value < 0)
  {
    var after := Process(cfg, accounts, r);
    if r.account in accounts && Accepted(cfg, accounts[r.account], r.message)
       && r.message.Amount? && r.message.value < 0 {
      assert after[r.account].minPayout == Some(r.message.value);
    }
  }
}
