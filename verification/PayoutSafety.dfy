/**
 What every run of the ledger keeps: no row is sent twice while the wallet may
 still know its transaction, and what is sent is what the row owes.
 */
module PayoutSafety {
  import opened Commons
  import opened Tables
  import opened PayoutMessages
  import opened Cleanup
  import opened PayoutSteps
  import opened PayoutCycle

  // ----- sent at most once per wallet id

  /** The wallet id under which the row is out, unless the wallet reported it unknown. */
  ghost function Open(log: seq<Event>, row: nat): Option<nat> {
    if log == [] then None
    else
      var before := Open(log[..|log| - 1], row);
      match log[|log| - 1]
      case Sent(r, id, _) => if r == row then Some(id) else before
      case Unknown(id) => if before == Some(id) then None else before
  }

  ghost predicate SentAt(log: seq<Event>, i: int, row: nat) {
    0 <= i < |log| && log[i].Sent? && log[i].row == row
  }

  /** After entry i and before entry j the wallet reported id unknown. */
  ghost predicate ReportedUnknown(log: seq<Event>, i: int, j: int, id: nat) {
    exists k :: i < k < j && 0 <= k < |log| && log[k] == Unknown(id)
  }

  /** Between two sends of a row the wallet reported the earlier id unknown. */
  ghost predicate NeverSentTwice(log: seq<Event>) {
    forall i, j, row | 0 <= i < j && SentAt(log, i, row) && SentAt(log, j, row) ::
      ReportedUnknown(log, i, j, log[i].id)
  }

  lemma OpenSnoc(log: seq<Event>, e: Event, row: nat)
    ensures Open(log + [e], row)
            == match e
               case Sent(r, id, _) => if r == row then Some(id) else Open(log, row)
               case Unknown(id) => if Open(log, row) == Some(id) then None else Open(log, row)
  {
    assert (log + [e])[..|log|] == log;
  }

  /** A past send is still open under its id or was reported unknown since. */
  lemma {:induction false} PastSend(log: seq<Event>, row: nat, i: nat)
    requires NeverSentTwice(log) && SentAt(log, i, row)
    ensures Open(log, row) == Some(log[i].id) || ReportedUnknown(log, i, |log|, log[i].id)
  {
    hide NeverSentTwice;
    var n := |log| - 1;
    var front := log[..n];
    if i < n && SentAt(log, n, row) {
      SentAgain(log, i, n, row);
      var k :| i < k < n && log[k] == Unknown(log[i].id);
    } else if i < n {
      PrefixNeverSentTwice(log, n);
      PastSend(front, row, i);
      if ReportedUnknown(front, i, n, log[i].id) {
        var k :| i < k < n && front[k] == Unknown(log[i].id);
        assert log[k] == Unknown(log[i].id);
      }
    }
  }

  lemma SentAgain(log: seq<Event>, i: nat, j: nat, row: nat)
    requires NeverSentTwice(log) && i < j && SentAt(log, i, row) && SentAt(log, j, row)
    ensures ReportedUnknown(log, i, j, log[i].id)
  {
  }

  lemma PrefixNeverSentTwice(log: seq<Event>, n: nat)
    requires NeverSentTwice(log) && n <= |log|
    ensures NeverSentTwice(log[..n])
  {
    var front := log[..n];
    forall i, j, row | 0 <= i < j && SentAt(front, i, row) && SentAt(front, j, row)
      ensures ReportedUnknown(front, i, j, front[i].id)
    {
      assert SentAt(log, i, row) && SentAt(log, j, row);
      var k :| i < k < j && log[k] == Unknown(log[i].id);
      assert front[k] == Unknown(front[i].id);
    }
  }

  /** Sending a row that is not open keeps the log so; so does any other entry. */
  lemma LogExtends(log: seq<Event>, e: Event)
    requires NeverSentTwice(log) && (e.Sent? ==> Open(log, e.row).None?)
    ensures NeverSentTwice(log + [e])
  {
    var longer := log + [e];
    forall i, j, row | 0 <= i < j && SentAt(longer, i, row) && SentAt(longer, j, row)
      ensures ReportedUnknown(longer, i, j, longer[i].id)
    {
      assert SentAt(log, i, row);
      if j == |log| {
        PastSend(log, row, i);
      } else {
        assert SentAt(log, j, row);
      }
      var k :| i < k < j && k < |log| && log[k] == Unknown(log[i].id);
      assert longer[k] == Unknown(longer[i].id);
    }
  }

  /** The table knows exactly the sends still open; ids not given out yet were never sent. */
  ghost predicate TableMatchesLog(s: State) {
    (forall t | t in s.db.transactions :: t < s.db.nextTx && s.db.transactions[t].txId == Open(s.log, t))
    && forall t | t >= s.db.nextTx :: Open(s.log, t).None?
  }

  lemma ForgetMatches(s: State, id: nat)
    requires TableMatchesLog(s)
    ensures TableMatchesLog(ConfirmStep(s, id, NotFound))
  {
    hide Open;
    forall t: nat {
      OpenSnoc(s.log, Unknown(id), t);
    }
  }

  lemma SendMatches(s: State, row: nat, answer: Option<nat>, now: int)
    requires TableMatchesLog(s) && row in s.db.transactions
    ensures TableMatchesLog(SendStep(s, row, answer, now))
  {
    hide Open;
    var rows := RowsOf(s.db.recipients, row);
    if rows != [] && answer.Some? {
      forall t: nat {
        OpenSnoc(s.log, Sent(row, answer.value, PaymentsOf(rows)), t);
      }
    }
  }

  lemma {:induction false} NewRowsKeys(rows: map<nat, Transaction>, base: nat, count: nat, now: int)
    ensures forall t :: t in NewRows(rows, base, count, now) <==> t in rows || base <= t < base + count
    ensures forall t | t in NewRows(rows, base, count, now) ::
              NewRows(rows, base, count, now)[t]
              == if base <= t < base + count then Transaction(None, None, now) else rows[t]
  {
    if count == 0 {
    } else {
      NewRowsKeys(rows, base, count - 1, now);
    }
  }

  lemma PayMatches(cfg: Config, s: State, ids: seq<nat>, now: int)
    requires TableMatchesLog(s) && forall i | 0 <= i < |ids| :: ids[i] in s.db.accounts
    ensures TableMatchesLog(s.(db := CreateStep(cfg, s.db, ids, now)))
  {
    hide Open, PaymentRows, PayAll, NewRows, TransactionsFor;
    NewRowsKeys(s.db.transactions, s.db.nextTx, TransactionsFor(|ids|), now);
  }

  lemma FewerRowsMatch(s: State, db: Database)
    requires TableMatchesLog(s) && db.nextTx == s.db.nextTx
    requires forall t | t in db.transactions ::
               t in s.db.transactions && db.transactions[t].txId == s.db.transactions[t].txId
    ensures TableMatchesLog(State(db, s.log))
  {
  }

  lemma CleanTransactions(cfg: Config, db: Database, k: Cleaning)
    ensures var c := CleanStep(cfg, db, k);
            c.nextTx == db.nextTx
            && forall t | t in c.transactions :: t in db.transactions && c.transactions[t] == db.transactions[t]
  {
    hide Kept, Remaining, BlocksOf, RecentBlocks, Anchored;
  }

  lemma StepMatches(cfg: Config, s: State, op: Op)
    requires Enabled(cfg, s, op) && TableMatchesLog(s)
    ensures TableMatchesLog(Apply(cfg, s, op))
  {
    hide Open, TableMatchesLog, Kept, ProcessAll, CreateStep, SendStep, CleanStep, Rewarded;
    match op {
      case Pay(ids, now) => PayMatches(cfg, s, ids, now);
      case Send(row, answer, now) => SendMatches(s, row, answer, now);
      case Clean(k) =>
        CleanTransactions(cfg, s.db, k);
        FewerRowsMatch(s, CleanStep(cfg, s.db, k));
      case Confirm(id, NotFound) => ForgetMatches(s, id);
      case _ => FewerRowsMatch(s, Apply(cfg, s, op).db);
    }
  }

  lemma StepLog(cfg: Config, s: State, op: Op)
    requires Enabled(cfg, s, op) && TableMatchesLog(s) && NeverSentTwice(s.log)
    ensures NeverSentTwice(Apply(cfg, s, op).log)
  {
    hide NeverSentTwice, Open, Kept, ProcessAll, CreateStep, CleanStep, Rewarded;
    var after := Apply(cfg, s, op);
    if after.log != s.log {
      var e := after.log[|s.log|];
      assert after.log == s.log + [e];
      LogExtends(s.log, e);
    }
  }

  /** Over every run, a row is sent again only after the wallet reported its previous id unknown. */
  lemma {:induction false} RunNeverSendsTwice(cfg: Config, s: State, ops: seq<Op>)
    requires ValidRun(cfg, s, ops) && TableMatchesLog(s) && NeverSentTwice(s.log)
    ensures TableMatchesLog(Run(cfg, s, ops)) && NeverSentTwice(Run(cfg, s, ops).log)
    decreases ops
  {
    hide Apply, Enabled, TableMatchesLog, NeverSentTwice;
    if ops == [] {
    } else {
      StepMatches(cfg, s, ops[0]);
      StepLog(cfg, s, ops[0]);
      RunNeverSendsTwice(cfg, Apply(cfg, s, ops[0]), ops[1..]);
    }
  }

  /** The same from the empty ledger, with nothing to assume. */
  lemma FromTheStart(cfg: Config, db: Database, ops: seq<Op>)
    requires db.transactions == map[] && ValidRun(cfg, State(db, []), ops)
    ensures NeverSentTwice(Run(cfg, State(db, []), ops).log)
  {
    RunNeverSendsTwice(cfg, State(db, []), ops);
  }

  // ----- what is sent

  /** Every transaction has at most 64 recipient rows, all different accounts; none has an id not given out yet. */
  ghost predicate BatchesFit(db: Database) {
    (forall t: nat :: |RowsOf(db.recipients, t)| <= 64 && DistinctAccounts(RowsOf(db.recipients, t)))
    && forall i | 0 <= i < |db.recipients| :: db.recipients[i].tx < db.nextTx
  }

  lemma {:induction false} RowsOfConcat(a: seq<Recipient>, b: seq<Recipient>, t: nat)
    ensures RowsOf(a + b, t) == RowsOf(a, t) + RowsOf(b, t)
  {
    if b == [] {
      assert a + b == a && RowsOf(b, t) == [];
    } else {
      var n := |b| - 1;
      RowsOfConcat(a, b[..n], t);
      assert a + b == (a + b[..n]) + [b[n]] && b == b[..n] + [b[n]];
      RowsOfSnoc(a + b[..n], b[n], t);
      RowsOfSnoc(b[..n], b[n], t);
    }
  }

  lemma {:induction false} NoRowsOf(rows: seq<Recipient>, t: nat)
    requires forall i | 0 <= i < |rows| :: rows[i].tx != t
    ensures RowsOf(rows, t) == []
  {
    if rows == [] {
    } else {
      NoRowsOf(rows[..|rows| - 1], t);
    }
  }

  lemma {:induction false} RowsOfKept(rows: seq<Recipient>, transactions: set<nat>, accounts: set<nat>, t: nat)
    ensures RowsOf(Kept(rows, transactions, accounts), t) == Kept(RowsOf(rows, t), transactions, accounts)
  {
    if rows == [] {
    } else {
      var n := |rows| - 1;
      var front, r := rows[..n], rows[n];
      RowsOfKept(front, transactions, accounts, t);
      assert rows == front + [r];
      RowsOfSnoc(front, r, t);
      RowsOfSnoc(Kept(front, transactions, accounts), r, t);
      KeptSnoc(RowsOf(front, t), r, transactions, accounts);
      KeptSnoc(front, r, transactions, accounts);
      assert Kept(front, transactions, accounts) + [] == Kept(front, transactions, accounts);
      assert RowsOf(front, t) + [] == RowsOf(front, t);
    }
  }

  /** Every kept row is one of the rows. */
  lemma {:induction false} KeptAreRows(rows: seq<Recipient>, transactions: set<nat>, accounts: set<nat>)
    ensures |Kept(rows, transactions, accounts)| <= |rows|
    ensures forall r | r in Kept(rows, transactions, accounts) :: r in rows
  {
    if rows == [] {
    } else {
      KeptAreRows(rows[..|rows| - 1], transactions, accounts);
    }
  }

  lemma {:induction false} KeptDistinct(rows: seq<Recipient>, transactions: set<nat>, accounts: set<nat>)
    requires DistinctAccounts(rows)
    ensures DistinctAccounts(Kept(rows, transactions, accounts))
  {
    if rows == [] {
    } else {
      var n := |rows| - 1;
      KeptDistinct(rows[..n], transactions, accounts);
      var k := Kept(rows[..n], transactions, accounts);
      KeptAreRows(rows[..n], transactions, accounts);
      forall i | 0 <= i < |k|
        ensures k[i].account != rows[n].account
      {
        assert k[i] in rows[..n];
      }
    }
  }

  lemma KeptFits(db: Database, after: Database, transactions: set<nat>, accounts: set<nat>)
    requires BatchesFit(db) && after.nextTx == db.nextTx
    requires after.recipients == Kept(db.recipients, transactions, accounts)
    ensures BatchesFit(after)
  {
    forall t: nat
      ensures |RowsOf(after.recipients, t)| <= 64 && DistinctAccounts(RowsOf(after.recipients, t))
    {
      hide RowsOf, Kept, DistinctAccounts;
      RowsOfKept(db.recipients, transactions, accounts, t);
      KeptAreRows(RowsOf(db.recipients, t), transactions, accounts);
      KeptDistinct(RowsOf(db.recipients, t), transactions, accounts);
    }
    hide Kept;
    KeptAreRows(db.recipients, transactions, accounts);
    forall i | 0 <= i < |after.recipients|
      ensures after.recipients[i].tx < after.nextTx
    {
      assert after.recipients[i] in db.recipients;
    }
  }

  lemma PayFits(cfg: Config, db: Database, ids: seq<nat>, now: int)
    requires BatchesFit(db) && Listing(ids, DueAccounts(cfg, db.accounts, now))
    ensures BatchesFit(CreateStep(cfg, db, ids, now))
  {
    hide Due, PayAll, NewRows, TransactionsFor, RowsOf, DistinctAccounts;
    var rows := PaymentRows(cfg, db.accounts, ids, db.nextTx);
    var count := TransactionsFor(|ids|);
    forall i | 0 <= i < |rows|
      ensures db.nextTx <= rows[i].tx < db.nextTx + count
    {
      IndexInRange(|ids|, i);
    }
    forall t: nat
      ensures var all := RowsOf(db.recipients + rows, t);
              |all| <= 64 && DistinctAccounts(all)
    {
      RowsOfConcat(db.recipients, rows, t);
      if t < db.nextTx {
        NoRowsOf(rows, t);
        assert RowsOf(db.recipients, t) + [] == RowsOf(db.recipients, t);
      } else {
        NoRowsOf(db.recipients, t);
        assert [] + RowsOf(rows, t) == RowsOf(rows, t);
        if t < db.nextTx + count {
          CreateBatches(cfg, db.accounts, ids, db.nextTx, t - db.nextTx);
        } else {
          NoRowsOf(rows, t);
          NoneDistinct(rows, t);
        }
      }
    }
  }

  lemma NoneDistinct(rows: seq<Recipient>, t: nat)
    requires RowsOf(rows, t) == []
    ensures DistinctAccounts(RowsOf(rows, t))
  {
  }

  lemma StepFits(cfg: Config, s: State, op: Op)
    requires Enabled(cfg, s, op) && BatchesFit(s.db)
    ensures BatchesFit(Apply(cfg, s, op).db)
  {
    hide BatchesFit, RowsOf, Kept, CreateStep, CleanStep, ProcessAll, Rewarded, DistinctAccounts,
         Without, ConfirmedAt, Forgotten;
    var after := Apply(cfg, s, op).db;
    match op {
      case Pay(ids, now) => PayFits(cfg, s.db, ids, now);
      case Clean(k) =>
        CleanKeepsRows(cfg, s.db, k);
        CleanTransactions(cfg, s.db, k);
        KeptFits(s.db, after, StayingTransactions(cfg, s.db, k), StayingAccounts(cfg, s.db, k));
      case Confirm(id, reply) =>
        if reply.Found? && reply.height !in s.db.blocks {
          KeptFits(s.db, after, after.transactions.Keys, after.accounts.Keys);
        } else {
          SameRowsFit(s.db, after);
        }
      case _ => SameRowsFit(s.db, after);
    }
  }

  lemma SameRowsFit(db: Database, after: Database)
    requires BatchesFit(db) && after.recipients == db.recipients && after.nextTx == db.nextTx
    ensures BatchesFit(after)
  {
  }

  function AccountsOf(rows: seq<Recipient>): set<nat> {
    set i | 0 <= i < |rows| :: rows[i].account
  }

  /** The last account is not among the others. */
  lemma NewRecipient(rows: seq<Recipient>)
    requires |rows| > 0 && DistinctAccounts(rows)
    ensures var n := |rows| - 1;
            DistinctAccounts(rows[..n]) && AccountsOf(rows) == AccountsOf(rows[..n]) + {rows[n].account}
            && rows[n].account !in AccountsOf(rows[..n])
  {
    var n := |rows| - 1;
    forall id | id in AccountsOf(rows[..n])
      ensures id in AccountsOf(rows) && id != rows[n].account
    {
      var i :| 0 <= i < n && rows[..n][i].account == id;
      assert rows[i].account == id;
    }
  }

  /** The map of distinct rows has one entry for each of them. */
  lemma {:induction false} PaymentsMatchRows(rows: seq<Recipient>)
    requires DistinctAccounts(rows)
    ensures PaymentsOf(rows).Keys == AccountsOf(rows) && |PaymentsOf(rows)| == |rows|
  {
    if rows == [] {
    } else {
      hide AccountsOf, DistinctAccounts;
      NewRecipient(rows);
      PaymentsMatchRows(rows[..|rows| - 1]);
    }
  }

  lemma {:induction false} PaymentOfRow(rows: seq<Recipient>, i: nat)
    requires DistinctAccounts(rows) && i < |rows|
    ensures rows[i].account in PaymentsOf(rows) && PaymentsOf(rows)[rows[i].account] == rows[i].amount
  {
    var n := |rows| - 1;
    if i == n {
    } else {
      PaymentOfRow(rows[..n], i);
    }
  }

  lemma {:induction false} PaymentsTotal(rows: seq<Recipient>)
    requires DistinctAccounts(rows)
    ensures Total(PaymentsOf(rows)) == Amounts(rows)
  {
    if rows == [] {
    } else {
      var n := |rows| - 1;
      PaymentsTotal(rows[..n]);
      PaymentsMatchRows(rows[..n]);
      NewRecipient(rows);
      TotalUpdate(PaymentsOf(rows[..n]), rows[n].account, rows[n].amount);
    }
  }

  /** A send hands the wallet between one and 64 payments, which add up to what the row owes. */
  ghost predicate Complete(db: Database, e: Event) {
    e.Sent? ==>
      && 1 <= |e.payments| <= 64
      && Total(e.payments) == Amounts(RowsOf(db.recipients, e.row))
      && e.payments.Keys == AccountsOf(RowsOf(db.recipients, e.row))
      && forall r | r in RowsOf(db.recipients, e.row) :: r.account in e.payments && e.payments[r.account] == r.amount
  }

  lemma StepSendsComplete(cfg: Config, s: State, op: Op)
    requires Enabled(cfg, s, op) && BatchesFit(s.db)
    ensures var after := Apply(cfg, s, op).log;
            |s.log| <= |after| <= |s.log| + 1 && after[..|s.log|] == s.log
            && forall i | |s.log| <= i < |after| :: Complete(s.db, after[i])
  {
    hide RowsOf, Kept, CreateStep, CleanStep, ProcessAll, Rewarded, Total, Amounts, PaymentsOf;
    if op.Send? {
      var rows := RowsOf(s.db.recipients, op.row);
      PaymentsMatchRows(rows);
      PaymentsTotal(rows);
      forall i | 0 <= i < |rows|
        ensures rows[i].account in PaymentsOf(rows) && PaymentsOf(rows)[rows[i].account] == rows[i].amount
      {
        PaymentOfRow(rows, i);
      }
    }
  }

  /** Every state of every run keeps the batches, so every send of every run is complete. */
  lemma {:induction false} RunSendsComplete(cfg: Config, s: State, ops: seq<Op>, op: Op)
    requires ValidRun(cfg, s, ops) && BatchesFit(s.db) && Enabled(cfg, Run(cfg, s, ops), op)
    ensures var r := Run(cfg, s, ops);
            var after := Apply(cfg, r, op).log;
            BatchesFit(r.db) && |r.log| <= |after| && forall i | |r.log| <= i < |after| :: Complete(r.db, after[i])
    decreases ops
  {
    hide BatchesFit, Complete, Apply, Enabled;
    if ops == [] {
      StepSendsComplete(cfg, s, op);
    } else {
      StepFits(cfg, s, ops[0]);
      RunSendsComplete(cfg, Apply(cfg, s, ops[0]), ops[1..], op);
    }
  }

  // ----- the methods are runs

  /** The rows of a pass of sendMoney, as operations. */
  function Sends(rows: seq<nat>, answers: seq<Option<nat>>, now: int): seq<Op>
    requires |rows| == |answers|
    decreases rows
  {
    if rows == [] then [] else [Send(rows[0], answers[0], now)] + Sends(rows[1..], answers[1..], now)
  }

  /** A pass over different unsent rows is a run: each is still unsent when its turn comes. */
  lemma {:induction false} PassIsRun(cfg: Config, s: State, rows: seq<nat>, answers: seq<Option<nat>>, now: int)
    requires |rows| == |answers|
    requires forall i | 0 <= i < |rows| :: rows[i] in s.db.transactions && Unsent(s.db.transactions[rows[i]])
    requires forall i, j | 0 <= i < j < |rows| :: rows[i] != rows[j]
    ensures ValidRun(cfg, s, Sends(rows, answers, now))
    ensures Run(cfg, s, Sends(rows, answers, now)) == SendAll(s, rows, answers, now)
    decreases rows
  {
    if rows == [] {
    } else {
      var next := SendStep(s, rows[0], answers[0], now);
      var op := Send(rows[0], answers[0], now);
      PassIsRun(cfg, next, rows[1..], answers[1..], now);
      assert Sends(rows, answers, now)[1..] == Sends(rows[1..], answers[1..], now);
    }
  }
}
