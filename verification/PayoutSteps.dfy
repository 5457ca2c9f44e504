/**
 Batching of due accounts into transactions, committed as one atomic step.
 */
module PayoutSteps {
  import opened Commons
  import opened Tables

  // ----- creating transactions

  /** The payout condition of an account at time now. */
  predicate Due(cfg: Config, a: Account, now: int) {
    || (a.minPayout.Some? && a.pending >= a.minPayout.value + cfg.minerTxFee)
    || (a.nextPayout.Some? && a.nextPayout.value <= now && a.pending >= cfg.minerTxFee)
    || (a.minPayout.None? && a.nextPayout.None? && a.pending >= cfg.minimumPayout + cfg.minerTxFee)
  }

  function DueAccounts(cfg: Config, accounts: map<nat, Account>, now: int): set<nat> {
    set id | id in accounts && Due(cfg, accounts[id], now)
  }

  /** The account after being paid: nothing pending, the next date moved on. */
  function Paid(a: Account, now: int): Account {
    a.(pending := a.pending - a.pending,
       nextPayout := match a.interval
         case None => a.nextPayout
         case Some(Weekly) => Some(now + 7)
         case Some(Daily) => Some(now + 1)
         case Some(Now) => None)
  }

  const MAX_RECIPIENTS: nat := 64

  /** Number of transactions for n recipients. */
  function TransactionsFor(n: nat): nat {
    if n % MAX_RECIPIENTS == 0 then n / MAX_RECIPIENTS else n / MAX_RECIPIENTS + 1
  }

  /** n recipients take n/64 transactions, rounded up. */
  lemma CountIsCeiling(n: nat)
    ensures 64 * TransactionsFor(n) >= n > 64 * (TransactionsFor(n) - 1)
  {
  }

  /** Row i of the recipients: 64 to a transaction, each receives what was pending less the fee. */
  function PaymentRows(cfg: Config, accounts: map<nat, Account>, ids: seq<nat>, base: nat): (rows: seq<Recipient>)
    requires forall i | 0 <= i < |ids| :: ids[i] in accounts
    ensures |rows| == |ids|
  {
    seq(|ids|, i requires 0 <= i < |ids| => PaymentRow(cfg, accounts, ids[i], base, i))
  }

  function PaymentRow(cfg: Config, accounts: map<nat, Account>, id: nat, base: nat, i: nat): Recipient
    requires id in accounts
  {
    Recipient(base + i / MAX_RECIPIENTS, id, accounts[id].pending - cfg.minerTxFee)
  }

  ghost predicate Listing(ids: seq<nat>, s: set<nat>) {
    (forall i | 0 <= i < |ids| :: ids[i] in s)
    && (forall x | x in s :: x in ids)
    && forall i, j | 0 <= i < j < |ids| :: ids[i] != ids[j]
  }

  /** The fee account's share of a payout to n accounts: their fees less the network fees. */
  function FeeMargin(cfg: Config, n: nat): int {
    n * cfg.minerTxFee - TransactionsFor(n) * cfg.poolTxFee
  }

  /** The accounts after paying those listed. */
  function PayAll(accounts: map<nat, Account>, ids: seq<nat>, now: int): (r: map<nat, Account>)
    requires forall i | 0 <= i < |ids| :: ids[i] in accounts
    ensures r.Keys == accounts.Keys
  {
    if ids == [] then accounts
    else
      var r := PayAll(accounts, ids[..|ids| - 1], now);
      var id := ids[|ids| - 1];
      r[id := Paid(r[id], now)]
  }

  lemma {:induction false} Unpaid(accounts: map<nat, Account>, ids: seq<nat>, now: int, id: nat)
    requires (forall i | 0 <= i < |ids| :: ids[i] in accounts) && id in accounts && id !in ids
    ensures PayAll(accounts, ids, now)[id] == accounts[id]
  {
    if ids == [] {
    } else {
      Unpaid(accounts, ids[..|ids| - 1], now, id);
    }
  }

  lemma IndexInRange(n: nat, i: nat)
    requires i < n
    ensures i / MAX_RECIPIENTS < TransactionsFor(n)
  {
  }

  lemma NoPayment(cfg: Config, db: Database, now: int)
    ensures CreateStep(cfg, db, [], now) == db
  {
    assert db.recipients + [] == db.recipients;
    assert NewRows(db.transactions, db.nextTx, 0, now) == db.transactions;
  }

  /** The transaction table with count new rows. */
  function NewRows(rows: map<nat, Transaction>, base: nat, count: nat, now: int): map<nat, Transaction> {
    if count == 0 then rows else NewRows(rows, base, count - 1, now)[base + count - 1 := Transaction(None, None, now)]
  }

  /** One committed payout to the listed accounts. */
  function CreateStep(cfg: Config, db: Database, ids: seq<nat>, now: int): Database
    requires forall i | 0 <= i < |ids| :: ids[i] in db.accounts
  {
    var count := TransactionsFor(|ids|);
    Database(AddPending(PayAll(db.accounts, ids, now), cfg.feeAccount, FeeMargin(cfg, |ids|)),
             db.miners,
             db.blocks,
             NewRows(db.transactions, db.nextTx, count, now),
             db.recipients + PaymentRows(cfg, db.accounts, ids, db.nextTx),
             db.nextTx + count)
  }

  // ----- what a payout conserves

  lemma PayLast(cfg: Config, accounts: map<nat, Account>, ids: seq<nat>, base: nat, now: int)
    requires |ids| > 0 && forall i | 0 <= i < |ids| :: ids[i] in accounts
    ensures var n := |ids| - 1;
            var before := PayAll(accounts, ids[..n], now);
            PayAll(accounts, ids, now) == before[ids[n] := Paid(before[ids[n]], now)]
    ensures var n := |ids| - 1;
            PaymentRows(cfg, accounts, ids, base)
            == PaymentRows(cfg, accounts, ids[..n], base)
               + [PaymentRow(cfg, accounts, ids[n], base, n)]
  {
  }

  /** What leaves the accounts arrives in the recipient rows, less the miners' fees. */
  lemma {:induction false} PaymentMovesPending(cfg: Config, accounts: map<nat, Account>, ids: seq<nat>, base: nat,
                                               now: int)
    requires forall i | 0 <= i < |ids| :: ids[i] in accounts
    requires forall i, j | 0 <= i < j < |ids| :: ids[i] != ids[j]
    ensures TotalPending(PayAll(accounts, ids, now)) + Amounts(PaymentRows(cfg, accounts, ids, base))
              + |ids| * cfg.minerTxFee
            == TotalPending(accounts)
  {
    if ids != [] {
      hide Paid, PayAll, PaymentRows, PaymentRow, Amounts, TotalPending;
      var n := |ids| - 1;
      var front, id := ids[..n], ids[n];
      PaymentMovesPending(cfg, accounts, front, base, now);
      PayLast(cfg, accounts, ids, base, now);
      Unpaid(accounts, front, now, id);
      var before := PayAll(accounts, front, now);
      PaidPending(before[id], now);
      PendingUpdate(before, id, Paid(before[id], now));
      AmountsSnoc(PaymentRows(cfg, accounts, front, base), PaymentRow(cfg, accounts, id, base, n));
      RowAmount(cfg, accounts, id, base, n);
      OneMoreFee(n, cfg.minerTxFee);
    } else {
      assert PaymentRows(cfg, accounts, ids, base) == [];
    }
  }

  lemma RowAmount(cfg: Config, accounts: map<nat, Account>, id: nat, base: nat, i: nat)
    requires id in accounts
    ensures PaymentRow(cfg, accounts, id, base, i).amount == accounts[id].pending - cfg.minerTxFee
  {
  }

  lemma OneMoreFee(n: nat, fee: int)
    ensures (n + 1) * fee == n * fee + fee
  {
  }

  lemma PaidPending(a: Account, now: int)
    ensures Paid(a, now).pending == 0
  {
  }

  lemma {:induction false} AmountsConcat(a: seq<Recipient>, b: seq<Recipient>)
    ensures Amounts(a + b) == Amounts(a) + Amounts(b)
  {
    if b == [] {
      assert a + b == a;
    } else {
      AmountsConcat(a, b[..|b| - 1]);
      assert (a + b)[..|a + b| - 1] == a + b[..|b| - 1];
    }
  }

  /**
   Paying out conserves pending amounts plus recorded amounts plus the network
   fees of the transactions, exactly when the fee margin reaches an account.
   */
  lemma CreateConserves(cfg: Config, db: Database, ids: seq<nat>, now: int)
    requires Listing(ids, DueAccounts(cfg, db.accounts, now))
    ensures Balance(cfg, CreateStep(cfg, db, ids, now))
            == Balance(cfg, db) - (if cfg.feeAccount in db.accounts then 0 else FeeMargin(cfg, |ids|))
  {
    hide Due, TransactionsFor, Paid, TotalPending, Amounts;
    PaymentMovesPending(cfg, db.accounts, ids, db.nextTx, now);
    AddPendingTotal(PayAll(db.accounts, ids, now), cfg.feeAccount, FeeMargin(cfg, |ids|));
    AmountsConcat(db.recipients, PaymentRows(cfg, db.accounts, ids, db.nextTx));
    var count := TransactionsFor(|ids|);
    assert cfg.poolTxFee * (db.nextTx + count) == cfg.poolTxFee * db.nextTx + count * cfg.poolTxFee;
  }

  /**
   A due account is never paid a negative amount, whatever it has pending and
   whenever, exactly when its minimum payout is not negative.
   */
  lemma NegativePayment(cfg: Config, a: Account, base: nat)
    requires cfg.minimumPayout >= 0
    ensures (forall pending: int, now: int | Due(cfg, a.(pending := pending), now) ::
               PaymentRow(cfg, map[7 := a.(pending := pending)], 7, base, 0).amount >= 0)
            <==> (a.minPayout.Some? ==> a.minPayout.value >= 0)
  {
    if a.minPayout.Some? && a.minPayout.value < 0 {
      var due := a.(pending := a.minPayout.value + cfg.minerTxFee);
      assert Due(cfg, due, 0) && PaymentRow(cfg, map[7 := due], 7, base, 0).amount < 0;
    }
  }

  // ----- the recipients of each transaction

  /** The recipient rows of transaction t. */
  ghost function RowsOf(rows: seq<Recipient>, t: nat): seq<Recipient> {
    Where(rows, (r: Recipient) => r.tx == t)
  }

  lemma RowsOfSnoc(rows: seq<Recipient>, r: Recipient, t: nat)
    ensures RowsOf(rows + [r], t) == RowsOf(rows, t) + (if r.tx == t then [r] else [])
  {
    assert (rows + [r])[..|rows|] == rows;
  }

  ghost predicate DistinctAccounts(rows: seq<Recipient>) {
    forall i, j | 0 <= i < j < |rows| :: rows[i].account != rows[j].account
  }

  /** The rows of the j-th new transaction are the j-th run of 64 payment rows. */
  lemma {:induction false} RowsOfPayment(cfg: Config, accounts: map<nat, Account>, ids: seq<nat>, base: nat, j: nat)
    requires forall i | 0 <= i < |ids| :: ids[i] in accounts
    ensures var n := |ids|;
            RowsOf(PaymentRows(cfg, accounts, ids, base), base + j)
            == PaymentRows(cfg, accounts, ids, base)[Min(64 * j, n)..Min(64 * j + 64, n)]
  {
    if ids == [] {
    } else {
      var n := |ids| - 1;
      var rows := PaymentRows(cfg, accounts, ids, base);
      RowsOfPayment(cfg, accounts, ids[..n], base, j);
      assert rows[..n] == PaymentRows(cfg, accounts, ids[..n], base);
      assert rows[n].tx == base + n / 64;
      if n / 64 == j {
        assert 64 * j <= n < 64 * j + 64;
        assert rows[64 * j..n + 1] == rows[..n][64 * j..n] + [rows[n]];
      } else {
        SameSlice(rows, n, j);
      }
    }
  }

  /** Outside its own run of 64 the last row changes no slice. */
  lemma SameSlice(rows: seq<Recipient>, n: nat, j: nat)
    requires |rows| == n + 1 && n / 64 != j
    ensures rows[Min(64 * j, n + 1)..Min(64 * j + 64, n + 1)] == rows[..n][Min(64 * j, n)..Min(64 * j + 64, n)] + []
  {
    if j < n / 64 {
      assert 64 * j + 64 <= n;
      assert rows[64 * j..64 * j + 64] == rows[..n][64 * j..64 * j + 64];
    } else {
      assert n + 1 <= 64 * j;
      assert rows[n + 1..n + 1] == rows[..n][n..n];
    }
  }

  /** Every new transaction has between one and 64 recipients, all different accounts. */
  lemma CreateBatches(cfg: Config, accounts: map<nat, Account>, ids: seq<nat>, base: nat, j: nat)
    requires forall i | 0 <= i < |ids| :: ids[i] in accounts
    requires forall i, k | 0 <= i < k < |ids| :: ids[i] != ids[k]
    requires j < TransactionsFor(|ids|)
    ensures var rows := RowsOf(PaymentRows(cfg, accounts, ids, base), base + j);
            1 <= |rows| <= 64 && DistinctAccounts(rows)
  {
    RowsOfPayment(cfg, accounts, ids, base, j);
    assert 64 * j < |ids|;
  }
}
