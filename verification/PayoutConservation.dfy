/**
 When the balance of the ledger is constant, and when no payment is negative,
 over every run and from conditions told at its start.
 */
module PayoutConservation {
  import opened Commons
  import opened Tables
  import opened PayoutMessages
  import opened Cleanup
  import opened PayoutSteps
  import opened PayoutCycle
  import opened PayoutRepeats

  // ----- signs

  /** No message asks for a negative minimum. */
  ghost predicate Polite(op: Op) {
    op.Messages? ==> forall r | r in op.requests && r.message.Amount? :: r.message.value >= 0
  }

  ghost predicate PoliteRun(ops: seq<Op>) {
    forall op | op in ops :: Polite(op)
  }

  /** Minima and recorded amounts are not negative. */
  ghost predicate NothingNegative(db: Database) {
    MinimaNonNegative(db.accounts) && NonNegativeRows(db.recipients)
  }

  lemma {:induction false} MessagesKeepMinima(cfg: Config, accounts: map<nat, Account>, requests: seq<Request>)
    requires MinimaNonNegative(accounts)
    requires forall r | r in requests && r.message.Amount? :: r.message.value >= 0
    ensures MinimaNonNegative(ProcessAll(cfg, accounts, requests))
  {
    if requests == [] {
    } else {
      var n := |requests| - 1;
      MessagesKeepMinima(cfg, accounts, requests[..n]);
      NegativeAccepted(cfg, ProcessAll(cfg, accounts, requests[..n]), requests[n]);
    }
  }

  lemma PayKeepsMinima(cfg: Config, accounts: map<nat, Account>, ids: seq<nat>, now: int, margin: int)
    requires MinimaNonNegative(accounts) && forall i | 0 <= i < |ids| :: ids[i] in accounts
    ensures MinimaNonNegative(AddPending(PayAll(accounts, ids, now), cfg.feeAccount, margin))
  {
    hide PayAll;
    forall id | id in accounts
      ensures PayAll(accounts, ids, now)[id].minPayout == accounts[id].minPayout
    {
      PayKeepsSettings(accounts, ids, now, id);
    }
  }

  lemma CleanKeepsMinima(cfg: Config, db: Database, k: Cleaning)
    requires MinimaNonNegative(db.accounts)
    ensures MinimaNonNegative(CleanStep(cfg, db, k).accounts)
  {
    CleanKeeps(cfg, db, k);
    hide CleanStep, AccountStays;
    forall id | id in CleanStep(cfg, db, k).accounts
      ensures id in db.accounts && CleanStep(cfg, db, k).accounts[id].minPayout == db.accounts[id].minPayout
    {
      assert id in StayingAccounts(cfg, db, k);
      CleanKeepsSettings(cfg, db, k, id);
    }
  }

  /** A due account has at least the fee pending. */
  lemma DueCoversFee(cfg: Config, a: Account, now: int)
    requires Due(cfg, a, now) && cfg.minimumPayout >= 0 && (a.minPayout.Some? ==> a.minPayout.value >= 0)
    ensures a.pending >= cfg.minerTxFee
  {
  }

  lemma PaymentsNonNegative(cfg: Config, accounts: map<nat, Account>, ids: seq<nat>, base: nat, now: int)
    requires cfg.minimumPayout >= 0 && MinimaNonNegative(accounts)
    requires Listing(ids, DueAccounts(cfg, accounts, now))
    ensures NonNegativeRows(PaymentRows(cfg, accounts, ids, base))
  {
    var rows := PaymentRows(cfg, accounts, ids, base);
    hide Due;
    forall i | 0 <= i < |rows|
      ensures rows[i].amount >= 0
    {
      DueCoversFee(cfg, accounts[ids[i]], now);
    }
  }

  lemma {:induction false} KeptNonNegative(rows: seq<Recipient>, t: set<nat>, a: set<nat>)
    requires NonNegativeRows(rows)
    ensures NonNegativeRows(Kept(rows, t, a))
  {
    if rows == [] {
    } else {
      KeptNonNegative(rows[..|rows| - 1], t, a);
    }
  }

  lemma StepKeepsSigns(cfg: Config, s: State, op: Op)
    requires Enabled(cfg, s, op) && cfg.minimumPayout >= 0 && NothingNegative(s.db) && Polite(op)
    ensures NothingNegative(Apply(cfg, s, op).db)
  {
    hide Kept, CleanStep, ProcessAll, NewRows, PayAll, PaymentRows, TransactionsFor, FeeMargin, AddPending, Due;
    match op {
      case Messages(requests) => MessagesKeepMinima(cfg, s.db.accounts, requests);
      case Pay(ids, now) =>
        PayKeepsMinima(cfg, s.db.accounts, ids, now, FeeMargin(cfg, |ids|));
        PaymentsNonNegative(cfg, s.db.accounts, ids, s.db.nextTx, now);
      case Confirm(id, reply) =>
        KeptNonNegative(s.db.recipients, Without(s.db.transactions, id).Keys, s.db.accounts.Keys);
      case Clean(k) =>
        CleanKeepsMinima(cfg, s.db, k);
        CleanKeepsRows(cfg, s.db, k);
        KeptNonNegative(s.db.recipients, StayingTransactions(cfg, s.db, k), StayingAccounts(cfg, s.db, k));
      case _ =>
    }
  }

  /**
   Over every run whose messages carry no negative number, from non-negative
   minima and recorded amounts, no payment recorded is negative.
   */
  lemma {:induction false} PaymentsStayNonNegative(cfg: Config, s: State, ops: seq<Op>)
    requires ValidRun(cfg, s, ops) && cfg.minimumPayout >= 0 && NothingNegative(s.db) && PoliteRun(ops)
    ensures NothingNegative(Run(cfg, s, ops).db)
    decreases ops
  {
    hide Apply, Enabled, NothingNegative, Polite;
    if ops == [] {
    } else {
      StepKeepsSigns(cfg, s, ops[0]);
      PaymentsStayNonNegative(cfg, Apply(cfg, s, ops[0]), ops[1..]);
    }
  }

  // ----- when the balance is constant

  /** The operation deletes no recorded row with an amount, told before it. */
  ghost predicate DeletesNoRow(cfg: Config, db: Database, op: Op) {
    match op
    case Confirm(id, reply) =>
      Deletes(db, reply) ==>
        forall r | r in db.recipients && r.amount != 0 ::
          r.tx in db.transactions && db.transactions[r.tx].txId != Some(id) && r.account in db.accounts
    case Clean(k) => NoRowLost(cfg, db, k)
    case _ => true
  }

  lemma DeletedByIff(cfg: Config, db: Database, op: Op)
    requires NonNegativeRows(db.recipients)
    ensures DeletedBy(cfg, db, op) >= 0
    ensures DeletedBy(cfg, db, op) == 0 <==> DeletesNoRow(cfg, db, op)
  {
    match op {
      case Confirm(id, reply) => NoneDropped(db.recipients, Without(db.transactions, id).Keys, db.accounts.Keys);
      case Clean(k) => LostRowsIff(cfg, db, k);
      case _ =>
    }
  }

  ghost predicate NoRowDeleted(cfg: Config, s: State, ops: seq<Op>)
    requires ValidRun(cfg, s, ops)
    decreases ops
  {
    ops == [] || (DeletesNoRow(cfg, s.db, ops[0]) && NoRowDeleted(cfg, Apply(cfg, s, ops[0]), ops[1..]))
  }

  lemma {:induction false} DeletionsIff(cfg: Config, s: State, ops: seq<Op>)
    requires ValidRun(cfg, s, ops) && cfg.minimumPayout >= 0 && NothingNegative(s.db) && PoliteRun(ops)
    ensures DeletionsOf(cfg, s, ops) >= 0
    ensures DeletionsOf(cfg, s, ops) == 0 <==> NoRowDeleted(cfg, s, ops)
    decreases ops
  {
    if ops == [] {
    } else {
      DeletedByIff(cfg, s.db, ops[0]);
      StepKeepsSigns(cfg, s, ops[0]);
      hide Apply, Enabled, DeletedBy, DeletesNoRow, NothingNegative, Polite;
      DeletionsIff(cfg, Apply(cfg, s, ops[0]), ops[1..]);
    }
  }

  /**
   With a fee account that exists and does not mine, and no negative minimum at
   the start or in a message, the balance changes by the rewards alone exactly
   when no confirmation and no cleanup deletes a recorded row with an amount.
   */
  lemma ConservedIff(cfg: Config, s: State, ops: seq<Op>)
    requires ValidRun(cfg, s, ops) && FeeAccountReady(cfg, s.db)
    requires cfg.minimumPayout >= 0 && NothingNegative(s.db) && PoliteRun(ops)
    ensures Balance(cfg, Run(cfg, s, ops).db) == Balance(cfg, s.db) + CreditsOf(cfg, s, ops)
            <==> NoRowDeleted(cfg, s, ops)
  {
    hide Balance, Run, CreditsOf, DeletionsOf, NoRowDeleted, ValidRun, NothingNegative;
    LedgerConserved(cfg, s, ops);
    DeletionsIff(cfg, s, ops);
  }
}
