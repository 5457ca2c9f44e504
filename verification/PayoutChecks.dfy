/**
 Which transactions the wallet is asked about: those out for more than a day
 and not confirmed, told from the sends and confirmations of the run.
 */
module PayoutChecks {
  import opened Commons
  import opened Tables
  import opened PayoutMessages
  import opened Cleanup
  import opened PayoutSteps
  import opened PayoutCycle
  import opened PayoutSafety

  // ----- one operation

  /** When the operation sends the row, if it does. */
  ghost function SentBy(s: State, op: Op, row: nat): Option<int> {
    if op.Send? && op.row == row && op.answer.Some? && RowsOf(s.db.recipients, row) != [] then Some(op.now) else None
  }

  /** At which stored block the operation confirms the row, if it does. */
  ghost function ConfirmedBy(s: State, op: Op, row: nat): Option<nat> {
    if op.Confirm? && op.reply.Found? && op.reply.height in s.db.blocks
       && row in s.db.transactions && s.db.transactions[row].txId == Some(op.id)
    then Some(op.reply.height) else None
  }

  function Later<T>(x: Option<T>, y: Option<T>): Option<T> {
    if y.Some? then y else x
  }

  /** A row before and after, with the time of its last send and the height of its last confirmation between. */
  ghost predicate Moved(before: Transaction, after: Transaction, sent: Option<int>, confirmed: Option<nat>) {
    && Some(after.created) == Later(Some(before.created), sent)
    && after.blockHeight == Later(before.blockHeight, confirmed)
    && (sent.None? && before.txId.None? ==> after.txId.None?)
  }

  lemma {:induction false} StepRow(cfg: Config, s: State, op: Op, row: nat)
    requires Enabled(cfg, s, op) && TableMatchesLog(s) && row in Apply(cfg, s, op).db.transactions
    ensures var after := Apply(cfg, s, op).db.transactions[row];
            if row in s.db.transactions
            then Moved(s.db.transactions[row], after, SentBy(s, op, row), ConfirmedBy(s, op, row))
            else row >= s.db.nextTx && after.txId.None? && after.blockHeight.None?
                 && SentBy(s, op, row).None? && ConfirmedBy(s, op, row).None?
  {
    hide Open, Kept, ProcessAll, PayAll, PaymentRows, Rewarded, CleanStep, RowsOf, PaymentsOf, NewRows, TransactionsFor,
         Due;
    match op {
      case Pay(ids, now) => NewRowsKeys(s.db.transactions, s.db.nextTx, TransactionsFor(|ids|), now);
      case Clean(k) => CleanTransactions(cfg, s.db, k);
      case _ =>
    }
  }

  /**
   The wallet's answer reaches exactly the rows out under the id: unknown, they lose it; in a stored
   block, they are confirmed there; in another block, they go, and their recipients with them.
   */
  lemma AnswerOutcome(s: State, id: nat, reply: Reply, t: nat)
    requires t in s.db.transactions
    ensures var before, after := s.db.transactions[t], ConfirmStep(s, id, reply).db;
            if reply.NoAnswer? || before.txId != Some(id)
            then t in after.transactions && after.transactions[t] == before
            else if reply.NotFound? then t in after.transactions && after.transactions[t] == before.(txId := None)
            else if reply.height in s.db.blocks
            then t in after.transactions && after.transactions[t] == before.(blockHeight := Some(reply.height))
            else t !in after.transactions && RowsOf(after.recipients, t) == []
  {
    hide Kept, RowsOf;
    if Deletes(s.db, reply) && s.db.transactions[t].txId == Some(id) {
      var after := ConfirmStep(s, id, reply).db;
      NoRowsKept(s.db.recipients, after.transactions.Keys, s.db.accounts.Keys, t);
    }
  }

  lemma {:induction false} NoRowsKept(rows: seq<Recipient>, transactions: set<nat>, accounts: set<nat>, t: nat)
    requires t !in transactions
    ensures RowsOf(Kept(rows, transactions, accounts), t) == []
  {
    if rows == [] {
    } else {
      var n := |rows| - 1;
      NoRowsKept(rows[..n], transactions, accounts, t);
      RowsOfSnoc(Kept(rows[..n], transactions, accounts), rows[n], t);
      assert Kept(rows[..n], transactions, accounts) + [] == Kept(rows[..n], transactions, accounts);
    }
  }

  lemma NextTxGrows(cfg: Config, s: State, op: Op)
    requires Enabled(cfg, s, op)
    ensures Apply(cfg, s, op).db.nextTx >= s.db.nextTx
  {
    hide Kept, ProcessAll, PayAll, PaymentRows, Rewarded, CleanStep, RowsOf, PaymentsOf, NewRows, Due, FeeMargin;
    if op.Clean? {
      CleanTransactions(cfg, s.db, op.cleaning);
    }
  }

  // ----- runs

  ghost function LastSent(cfg: Config, s: State, ops: seq<Op>, row: nat): Option<int>
    requires ValidRun(cfg, s, ops)
    decreases ops
  {
    if ops == [] then None else Later(SentBy(s, ops[0], row), LastSent(cfg, Apply(cfg, s, ops[0]), ops[1..], row))
  }

  ghost function LastConfirmed(cfg: Config, s: State, ops: seq<Op>, row: nat): Option<nat>
    requires ValidRun(cfg, s, ops)
    decreases ops
  {
    if ops == [] then None
    else Later(ConfirmedBy(s, ops[0], row), LastConfirmed(cfg, Apply(cfg, s, ops[0]), ops[1..], row))
  }

  /**
   Over every run a row left has the time of its last send and the height of its last
   confirmation; one that was not there before is new, and its id was never used.
   */
  lemma {:induction false} RowAlong(cfg: Config, s: State, ops: seq<Op>, row: nat)
    requires ValidRun(cfg, s, ops) && TableMatchesLog(s) && row in Run(cfg, s, ops).db.transactions
    ensures var after := Run(cfg, s, ops).db.transactions[row];
            var sent, confirmed := LastSent(cfg, s, ops, row), LastConfirmed(cfg, s, ops, row);
            if row in s.db.transactions then Moved(s.db.transactions[row], after, sent, confirmed)
            else row >= s.db.nextTx && after.blockHeight == confirmed
                 && (if sent.Some? then after.created == sent.value else after.txId.None?)
    decreases ops
  {
    hide Apply, Enabled, TableMatchesLog, SentBy, ConfirmedBy;
    if ops == [] {
      NotYetUsed(s);
    } else {
      var next := Apply(cfg, s, ops[0]);
      StepMatches(cfg, s, ops[0]);
      NextTxGrows(cfg, s, ops[0]);
      RowAlong(cfg, next, ops[1..], row);
      NotYetUsed(s);
      if row in next.db.transactions {
        StepRow(cfg, s, ops[0], row);
      } else {
        NothingDone(cfg, s, ops[0], row);
      }
    }
  }

  lemma NotYetUsed(s: State)
    requires TableMatchesLog(s)
    ensures forall t | t in s.db.transactions :: t < s.db.nextTx
  {
  }

  /** A row that is neither before nor after an operation is not sent or confirmed by it. */
  lemma NothingDone(cfg: Config, s: State, op: Op, row: nat)
    requires Enabled(cfg, s, op) && row !in s.db.transactions
    ensures SentBy(s, op, row).None? && ConfirmedBy(s, op, row).None?
  {
  }

  /**
   The wallet is asked about exactly the rows that are out under an id, were not
   confirmed, and were last sent before yesterday.
   */
  lemma AskedIff(cfg: Config, db: Database, ops: seq<Op>, row: nat, yesterday: int)
    requires db.transactions == map[] && ValidRun(cfg, State(db, []), ops)
    ensures var s := State(db, []);
            var end := Run(cfg, s, ops);
            var sent := LastSent(cfg, s, ops, row);
            row in StaleRows(end.db.transactions, yesterday)
            <==> row in end.db.transactions && Open(end.log, row).Some? && LastConfirmed(cfg, s, ops, row).None?
                 && sent.Some? && sent.value < yesterday
  {
    hide Run, ValidRun, LastSent, LastConfirmed, Open;
    var s := State(db, []);
    NothingOpen(db);
    RunNeverSendsTwice(cfg, s, ops);
    if row in Run(cfg, s, ops).db.transactions {
      RowAlong(cfg, s, ops, row);
    }
  }

  lemma NothingOpen(db: Database)
    requires db.transactions == map[]
    ensures TableMatchesLog(State(db, [])) && NeverSentTwice([])
  {
  }

  /** A confirmed row is never asked about or sent again on any later run. */
  lemma ConfirmedForGood(cfg: Config, s: State, ops: seq<Op>, row: nat, yesterday: int)
    requires ValidRun(cfg, s, ops) && TableMatchesLog(s)
    requires row in s.db.transactions && s.db.transactions[row].blockHeight.Some?
    ensures row !in StaleRows(Run(cfg, s, ops).db.transactions, yesterday)
    ensures row !in UnsentRows(Run(cfg, s, ops).db.transactions)
  {
    hide Run, ValidRun, LastSent, LastConfirmed, TableMatchesLog;
    if row in Run(cfg, s, ops).db.transactions {
      RowAlong(cfg, s, ops, row);
    }
  }
}
