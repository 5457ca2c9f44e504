/**
 The ledger: the tables, and the operations that change them. Each committed
 database transaction is one atomic step.
 */
module Payouts {
  import opened Commons
  import opened Tables
  import opened PayoutMessages
  import opened Cleanup
  import opened PayoutSteps
  import opened PayoutCycle

  lemma BlocksSetFirst(db: Database, blocks: map<nat, Block>)
    ensures WithBlocks(db.(blocks := blocks), blocks) == WithBlocks(db, blocks)
  {
    assert WithBlocks(db.(blocks := blocks), blocks).transactions == WithBlocks(db, blocks).transactions;
  }

  lemma PrunedTables(db: Database, k: Cleaning)
    ensures Pruned(db, k).accounts == db.accounts && Pruned(db, k).miners == db.miners * k.active
  {
  }

  lemma AccountsSetFirst(db: Database, before: map<nat, Account>, after: map<nat, Account>)
    ensures WithAccounts(db.(accounts := before), after) == WithAccounts(db, after)
  {
    assert BlocksOf(db.blocks, after.Keys) == BlocksOf(db.(accounts := before).blocks, after.Keys);
    BlocksSetFirst(db, BlocksOf(db.blocks, after.Keys));
    assert WithAccounts(db.(accounts := before), after).transactions == WithAccounts(db, after).transactions;
  }

  lemma SumOfOthers(accounts: map<nat, Account>, miners: set<nat>)
    ensures Part(Pendings(accounts), NonMiners(accounts, miners)) == Pendings(accounts) - miners
  {
  }

  lemma NobodyPaid(cfg: Config, accounts: map<nat, Account>, ids: seq<nat>, base: nat, now: int)
    requires ids == []
    ensures PayAll(accounts, ids, now) == accounts && PaymentRows(cfg, accounts, ids, base) == []
  {
  }

  lemma NextPayment(cfg: Config, accounts: map<nat, Account>, ids: seq<nat>, i: nat, base: nat, now: int)
    requires i < |ids| && forall j | 0 <= j < |ids| :: ids[j] in accounts
    ensures var before := PayAll(accounts, ids[..i], now);
            PayAll(accounts, ids[..i + 1], now) == before[ids[i] := Paid(before[ids[i]], now)]
    ensures PaymentRows(cfg, accounts, ids[..i + 1], base)
            == PaymentRows(cfg, accounts, ids[..i], base) + [PaymentRow(cfg, accounts, ids[i], base, i)]
  {
    hide PayAll, PaymentRows;
    assert ids[..i + 1][..i] == ids[..i];
    PayLast(cfg, accounts, ids[..i + 1], base, now);
  }

  lemma StaleHaveIds(transactions: map<nat, Transaction>, yesterday: int)
    ensures forall t | t in StaleRows(transactions, yesterday) :: t in transactions && transactions[t].txId.Some?
  {
  }

  lemma StaleIds(transactions: map<nat, Transaction>, yesterday: int, rows: seq<nat>, ids: seq<nat>)
    requires Listing(rows, StaleRows(transactions, yesterday))
    requires |ids| == |rows| && forall i | 0 <= i < |ids| :: Some(ids[i]) == transactions[rows[i]].txId
    ensures forall id :: id in ids <==> exists t ::
              t in StaleRows(transactions, yesterday) && transactions[t].txId == Some(id)
  {
    hide Stale;
    forall t | t in StaleRows(transactions, yesterday)
      ensures exists i :: 0 <= i < |ids| && Some(ids[i]) == transactions[t].txId
    {
      var i :| 0 <= i < |rows| && rows[i] == t;
      assert Some(ids[i]) == transactions[t].txId;
    }
    forall i | 0 <= i < |ids|
      ensures rows[i] in StaleRows(transactions, yesterday)
    {
    }
  }

  function Answers<T>(n: nat, answer: nat -> T): (s: seq<T>)
    ensures |s| == n && forall i | 0 <= i < n :: s[i] == answer(i)
  {
    seq(n, i requires 0 <= i < n => answer(i))
  }

  class Ledger {
    const cfg: Config
    var accounts: map<nat, Account>
    var miners: set<nat>
    var blocks: map<nat, Block>
    var transactions: map<nat, Transaction>
    var recipients: seq<Recipient>
    var nextTx: nat
    /** What went to the wallet and came back. */
    ghost var log: seq<Event>

    ghost function Current(): Database
      reads this
    {
      Database(accounts, miners, blocks, transactions, recipients, nextTx)
    }

    ghost function Full(): State
      reads this
    {
      State(Current(), log)
    }

    constructor (cfg: Config)
      ensures this.cfg == cfg && Full() == State(Database(map[], {}, map[], map[], [], 0), [])
    {
      this.cfg := cfg;
      accounts := map[];
      miners := {};
      blocks := map[];
      transactions := map[];
      recipients := [];
      nextTx := 0;
      log := [];
    }

    /**
     Go: validateTransactions. The wallet is asked about every row sent more than
     a day ago and not confirmed; answer says what it replies to the k-th question.
     */
    method ValidateTransactions(yesterday: int, answer: nat -> Reply) returns (ghost asked: seq<nat>)
      modifies this
      ensures forall id :: id in asked <==>
                exists t :: t in StaleRows(old(transactions), yesterday) && old(transactions)[t].txId == Some(id)
      ensures Full() == ConfirmAll(old(Full()), asked, Answers(|asked|, answer))
    {
      hide ConfirmStep, Stale, StaleRows, Answers;
      var rows := Select(StaleRows(transactions, yesterday));
      StaleHaveIds(transactions, yesterday);
      var txsToValidate := WalletIds(transactions, rows);
      asked := txsToValidate;
      StaleIds(transactions, yesterday, rows, asked);
      ghost var answers := Answers(|asked|, answer);
      for i := 0 to |txsToValidate|
        invariant ConfirmAll(old(Full()), asked, answers) == ConfirmAll(Full(), asked[i..], answers[i..])
      {
        ConfirmNext(Full(), asked, answers, i);
        Validate(txsToValidate[i], answer(i));
      }
    }

    method Validate(tx: nat, reply: Reply)
      modifies this
      ensures Full() == ConfirmStep(old(Full()), tx, reply)
    {
      match reply {
        case NoAnswer =>
        case NotFound =>
          transactions := Forgotten(transactions, tx);
          log := log + [Unknown(tx)];
        case Found(height) =>
          if height in blocks {
            transactions := ConfirmedAt(transactions, tx, height);
          } else {
            transactions := Without(transactions, tx);
            recipients := RowsLeft();
          }
      }
    }

    /** Go: sendMoney. answer says what the wallet returns to the k-th payment. */
    method SendMoney(now: int, answer: nat -> Option<nat>) returns (ghost rows: seq<nat>)
      modifies this
      ensures Listing(rows, UnsentRows(old(transactions)))
      ensures Full() == SendAll(old(Full()), rows, Answers(|rows|, answer), now)
    {
      var txs := Select(UnsentRows(transactions));
      rows := txs;
      ghost var answers := Answers(|rows|, answer);
      hide SendStep, Unsent;
      for i := 0 to |txs|
        invariant transactions.Keys == old(transactions.Keys)
        invariant SendAll(old(Full()), rows, answers, now) == SendAll(Full(), rows[i..], answers[i..], now)
      {
        SendNext(Full(), rows, answers, now, i);
        SendRow(txs[i], answer(i), now);
      }
    }

    method SendRow(tx: nat, answer: Option<nat>, now: int)
      requires tx in transactions
      modifies this
      ensures transactions.Keys == old(transactions.Keys) && Full() == SendStep(old(Full()), tx, answer, now)
    {
      var recipToAmounts := RecipientsOf(tx);
      var payments: map<nat, int>;
      if |recipToAmounts| == 1 {
        payments := map[recipToAmounts[0].account := recipToAmounts[0].amount];
        assert recipToAmounts == [] + [recipToAmounts[0]] && PaymentsOf([]) == map[];
      } else {
        payments := IdToAmount(recipToAmounts);
      }
      if recipToAmounts == [] || answer.None? {
        return;
      }
      log := log + [Sent(tx, answer.value, payments)];
      transactions := transactions[tx := transactions[tx].(txId := answer, created := now)];
    }

    method RecipientsOf(tx: nat) returns (rows: seq<Recipient>)
      ensures rows == RowsOf(recipients, tx)
    {
      rows := [];
      assert recipients[..0] == [];
      for i := 0 to |recipients|
        invariant rows == RowsOf(recipients[..i], tx)
      {
        assert recipients[..i + 1] == recipients[..i] + [recipients[i]];
        RowsOfSnoc(recipients[..i], recipients[i], tx);
        if recipients[i].tx == tx {
          rows := rows + [recipients[i]];
        }
      }
      assert recipients[..|recipients|] == recipients;
    }

    static method IdToAmount(rows: seq<Recipient>) returns (idToAmount: map<nat, int>)
      ensures idToAmount == PaymentsOf(rows)
    {
      idToAmount := map[];
      assert rows[..0] == [];
      for i := 0 to |rows|
        invariant idToAmount == PaymentsOf(rows[..i])
      {
        assert rows[..i + 1][..i] == rows[..i];
        idToAmount := idToAmount[rows[i].account := rows[i].amount];
      }
      assert rows[..|rows|] == rows;
    }

    /** The rows of a query, in whatever order the database returns them. */
    method Select(s: set<nat>) returns (ids: seq<nat>)
      ensures Listing(ids, s)
    {
      ids := [];
      var rest := s;
      while rest != {}
        invariant rest <= s && Listing(ids, s - rest)
        decreases rest
      {
        var id :| id in rest;
        rest := rest - {id};
        ids := ids + [id];
      }
    }

    /**
     Go: createTransactions. One database transaction: either every statement
     takes effect or, after an error, none.
     */
    method CreateTransactions(now: int, commit: bool) returns (ghost ids: seq<nat>)
      modifies this
      ensures log == old(log)
      ensures Listing(ids, DueAccounts(cfg, old(accounts), now))
      ensures Current() == if commit then CreateStep(cfg, old(Current()), ids, now) else old(Current())
    {
      hide Due, PayAll, PaymentRows, NewRows, AddPending;
      var pendingInfos := Select(DueAccounts(cfg, accounts, now));
      ids := pendingInfos;
      if |pendingInfos| == 0 || !commit {
        if |pendingInfos| == 0 {
          assert ids == [];
          NoPayment(cfg, Current(), now);
        }
        return;
      }
      var numberTxsToCreate := if |pendingInfos| % MAX_RECIPIENTS == 0
                               then |pendingInfos| / MAX_RECIPIENTS else |pendingInfos| / MAX_RECIPIENTS + 1;
      var newTransactions, dbTxIDs := InsertTransactions(numberTxsToCreate, now);
      var newAccounts, newRecipients := RecordPayments(pendingInfos, dbTxIDs, now);
      accounts := AddPending(newAccounts, cfg.feeAccount,
                             |pendingInfos| * cfg.minerTxFee - numberTxsToCreate * cfg.poolTxFee);
      transactions := newTransactions;
      recipients := newRecipients;
      nextTx := nextTx + numberTxsToCreate;
    }

    /** Go: SetMinPayout, for the messages in whatever order the map yields them. */
    method SetMinPayout(requests: seq<Request>)
      modifies this
      ensures log == old(log)
      ensures Current() == old(Current()).(accounts := ProcessAll(cfg, old(accounts), requests))
    {
      assert requests[..0] == [];
      for i := 0 to |requests|
        invariant log == old(log)
                  && Current() == old(Current()).(accounts := ProcessAll(cfg, old(accounts), requests[..i]))
      {
        assert requests[..i + 1][..i] == requests[..i];
        ProcessMessage(requests[i]);
      }
      assert requests[..|requests|] == requests;
    }

    /** One pass of the loop body. */
    method ProcessMessage(r: Request)
      modifies this
      ensures log == old(log)
      ensures Current() == old(Current()).(accounts := Process(cfg, old(accounts), r))
    {
      var cost: int;
      var minPayoutValue, payoutInterval, nextPayoutDate := None, None, None;
      match r.message {
        case Set(interval) =>
          payoutInterval := Some(interval);
          match interval {
            case Weekly => nextPayoutDate := Some(r.now + 7); cost := cfg.setWeeklyFee;
            case Daily => nextPayoutDate := Some(r.now + 1); cost := cfg.setDailyFee;
            case Now => nextPayoutDate := Some(r.now); cost := cfg.setNowFee;
          }
          if r.account in accounts && accounts[r.account].interval == Some(interval) {
            return;
          }
        case Amount(minPayout) =>
          if minPayout != 0 {
            minPayoutValue := Some(minPayout);
            if r.account in accounts && accounts[r.account].minPayout == Some(minPayout) {
              return;
            }
          }
          cost := cfg.setMinPayoutFee;
        case Garbage =>
          return;
      }
      var enoughFunds := r.account in accounts && accounts[r.account].pending >= cost;
      if !enoughFunds {
        return;
      }
      var a := accounts[r.account];
      accounts := accounts[r.account := Account(a.pending - cost, minPayoutValue, payoutInterval, nextPayoutDate)];
      accounts := AddPending(accounts, cfg.feeAccount, cost);
    }

    /**
     Go: CleanDB. The current height and the ids with submissions left after the
     old blocks are gone come from outside, and so does whether the database
     transaction begins, runs and commits.
     */
    method CleanDB(k: Cleaning)
      modifies this
      ensures log == old(log)
      ensures Current() == CleanStep(cfg, old(Current()), k)
    {
      hide Pruned, Transferred, Staying, WithAccounts;
      ghost var d := Pruned(old(Current()), k);
      PrunedTables(old(Current()), k);
      Prune(k);
      if !k.commit {
        return;
      }
      var ok := TransferPending();
      if !ok {
        return;
      }
      if cfg.feeAccount !in d.accounts {
        NotTransferred(cfg, d.accounts, d.miners);
      }
      ghost var moved := accounts;
      DeleteOldAccounts();
      AccountsSetFirst(d, moved, Staying(cfg, moved, d.miners));
    }

    /** DELETE FROM block, DELETE FROM miner. */
    method Prune(k: Cleaning)
      modifies this
      ensures log == old(log)
      ensures Current() == Pruned(old(Current()), k)
    {
      var cutoff := Cutoff(k.currentHeight);
      blocks := map h | h in blocks && h >= cutoff :: blocks[h];
      assert blocks == RecentBlocks(old(Current()), k.currentHeight);
      DeleteOrphans();
      BlocksSetFirst(old(Current()), blocks);
      miners := miners * k.active;
    }

    /** UPDATE account: the fee account's pending becomes the sum over the accounts that do not mine. */
    method TransferPending() returns (ok: bool)
      modifies this`accounts
      ensures ok <==> !(cfg.feeAccount in old(accounts) && NonMiners(old(accounts), miners) == {})
      ensures accounts == if ok then Transferred(cfg, old(accounts), miners) else old(accounts)
    {
      var others := NonMiners(accounts, miners);
      if cfg.feeAccount !in accounts {
        return true;
      }
      if others == {} {
        return false;
      }
      var sum := SumPending(others);
      SumOfOthers(accounts, miners);
      accounts := accounts[cfg.feeAccount := accounts[cfg.feeAccount].(pending := sum)];
      return true;
    }

    /** DELETE FROM account. */
    method DeleteOldAccounts()
      modifies this
      ensures log == old(log)
      ensures Current() == WithAccounts(old(Current()), Staying(cfg, old(accounts), old(miners)))
    {
      accounts := map id | id in accounts && (id == cfg.feeAccount || id in miners) :: accounts[id];
      blocks := map h | h in blocks && Authors(blocks[h]) <= accounts.Keys :: blocks[h];
      assert accounts == Staying(cfg, old(accounts), old(miners)) && blocks == BlocksOf(old(blocks), accounts.Keys);
      DeleteOrphans();
      BlocksSetFirst(old(Current()).(accounts := accounts), blocks);
    }

    /** Foreign keys: transactions go with their block, rows with their transaction or account. */
    method DeleteOrphans()
      modifies this`transactions, this`recipients
      ensures Current() == WithBlocks(old(Current()), blocks)
    {
      transactions := map t | t in transactions && Anchored(transactions[t], blocks.Keys) :: transactions[t];
      assert transactions == WithBlocks(old(Current()), blocks).transactions;
      recipients := RowsLeft();
    }

    /** The recipient rows whose transaction and account are still there. */
    method RowsLeft() returns (rows: seq<Recipient>)
      ensures rows == Kept(recipients, transactions.Keys, accounts.Keys)
    {
      rows := [];
      assert recipients[..0] == [];
      for i := 0 to |recipients|
        invariant rows == Kept(recipients[..i], transactions.Keys, accounts.Keys)
      {
        assert recipients[..i + 1] == recipients[..i] + [recipients[i]];
        KeptSnoc(recipients[..i], recipients[i], transactions.Keys, accounts.Keys);
        if recipients[i].tx in transactions && recipients[i].account in accounts {
          rows := rows + [recipients[i]];
        }
      }
      assert recipients[..|recipients|] == recipients;
    }

    /** SELECT SUM(pending) over the listed accounts. */
    method SumPending(ids: set<nat>) returns (sum: int)
      requires ids <= accounts.Keys
      ensures sum == Total(Part(Pendings(accounts), ids))
    {
      sum := 0;
      var rest := ids;
      ghost var m := Pendings(accounts);
      assert Part(m, ids - rest) == map[];
      while rest != {}
        invariant rest <= ids
        invariant sum == Total(Part(m, ids - rest))
        decreases rest
      {
        var id :| id in rest;
        ghost var part := Part(m, ids - rest);
        TotalUpdate(part, id, m[id]);
        rest := rest - {id};
        assert Part(m, ids - rest) == part[id := m[id]];
        sum := sum + accounts[id].pending;
      }
      assert ids - rest == ids;
    }

    /** INSERT INTO transaction, count times; ids follow each other. */
    method InsertTransactions(count: nat, now: int) returns (rows: map<nat, Transaction>, dbTxIDs: seq<nat>)
      ensures |dbTxIDs| == count && forall k | 0 <= k < count :: dbTxIDs[k] == nextTx + k
      ensures rows == NewRows(transactions, nextTx, count, now)
    {
      rows, dbTxIDs := transactions, [];
      for i := 0 to count
        invariant |dbTxIDs| == i && forall k | 0 <= k < i :: dbTxIDs[k] == nextTx + k
        invariant rows == NewRows(transactions, nextTx, i, now)
      {
        var id := nextTx + i;
        rows := rows[id := Transaction(None, None, now)];
        dbTxIDs := dbTxIDs + [id];
      }
    }

    /** The loop over the due accounts: set pending to zero, move the date, add a recipient row. */
    method RecordPayments(pendingInfos: seq<nat>, dbTxIDs: seq<nat>, now: int)
      returns (newAccounts: map<nat, Account>, newRecipients: seq<Recipient>)
      requires Listing(pendingInfos, DueAccounts(cfg, accounts, now))
      requires |dbTxIDs| == TransactionsFor(|pendingInfos|) && forall k | 0 <= k < |dbTxIDs| :: dbTxIDs[k] == nextTx + k
      ensures newAccounts == PayAll(accounts, pendingInfos, now)
      ensures newRecipients == recipients + PaymentRows(cfg, accounts, pendingInfos, nextTx)
    {
      hide Due, Paid, TransactionsFor, PayAll, PaymentRows;
      newAccounts, newRecipients := accounts, recipients;
      NobodyPaid(cfg, accounts, pendingInfos[..0], nextTx, now);
      for i := 0 to |pendingInfos|
        invariant newAccounts == PayAll(accounts, pendingInfos[..i], now)
        invariant newRecipients == recipients + PaymentRows(cfg, accounts, pendingInfos[..i], nextTx)
      {
        var id := pendingInfos[i];
        Unpaid(accounts, pendingInfos[..i], now, id);
        NextPayment(cfg, accounts, pendingInfos, i, nextTx, now);
        newAccounts := newAccounts[id := Paid(newAccounts[id], now)];
        IndexInRange(|pendingInfos|, i);
        newRecipients := newRecipients
                         + [Recipient(dbTxIDs[i / MAX_RECIPIENTS], id, accounts[id].pending - cfg.minerTxFee)];
      }
      assert pendingInfos[..|pendingInfos|] == pendingInfos;
    }
  }
}
