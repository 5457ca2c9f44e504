/**
 The database cleanup: old blocks, idle miners, and accounts that no longer mine.
 */
module Cleanup {
  import opened Commons
  import opened Tables

  /** Blocks below this height go; the subtraction is on 64-bit unsigned integers. */
  function Cutoff(currentHeight: nat): (c: nat) {
    (currentHeight - 5000) % TWO_TO_THE_64
  }

  /** The transaction is unconfirmed or its block is still there. */
  predicate Anchored(t: Transaction, heights: set<nat>) {
    t.blockHeight.Some? ==> t.blockHeight.value in heights
  }

  /** The rows whose transaction and account both remain. */
  function Kept(rows: seq<Recipient>, transactions: set<nat>, accounts: set<nat>): seq<Recipient> {
    if rows == [] then []
    else
      var r := rows[|rows| - 1];
      Kept(rows[..|rows| - 1], transactions, accounts)
      + (if r.tx in transactions && r.account in accounts then [r] else [])
  }

  /** The sum over the rows that go. */
  function Dropped(rows: seq<Recipient>, transactions: set<nat>, accounts: set<nat>): int {
    if rows == [] then 0
    else
      var r := rows[|rows| - 1];
      Dropped(rows[..|rows| - 1], transactions, accounts)
      + (if r.tx in transactions && r.account in accounts then 0 else r.amount)
  }

  /** Removing blocks removes the transactions they confirmed, and those remove their rows. */
  function WithBlocks(db: Database, blocks: map<nat, Block>): Database {
    var transactions := map t | t in db.transactions && Anchored(db.transactions[t], blocks.Keys) :: db.transactions[t];
    db.(blocks := blocks, transactions := transactions,
        recipients := Kept(db.recipients, transactions.Keys, db.accounts.Keys))
  }

  function RecentBlocks(db: Database, currentHeight: nat): map<nat, Block> {
    map h | h in db.blocks && h >= Cutoff(currentHeight) :: db.blocks[h]
  }

  function NonMiners(accounts: map<nat, Account>, miners: set<nat>): set<nat> {
    set id | id in accounts && id !in miners
  }

  /** The sum of pending over the accounts that do not mine. */
  ghost function PendingOutside(accounts: map<nat, Account>, miners: set<nat>): int {
    Total(Pendings(accounts) - miners)
  }

  /** The fee account takes over what the accounts that do not mine have pending. */
  ghost function Transferred(cfg: Config, accounts: map<nat, Account>, miners: set<nat>): map<nat, Account> {
    if cfg.feeAccount in accounts
    then accounts[cfg.feeAccount := accounts[cfg.feeAccount].(pending := PendingOutside(accounts, miners))]
    else accounts
  }

  /** The accounts left: the miners and the fee account. */
  function Staying(cfg: Config, accounts: map<nat, Account>, miners: set<nat>): map<nat, Account> {
    map id | id in accounts && (id == cfg.feeAccount || id in miners) :: accounts[id]
  }

  ghost function Remaining(cfg: Config, accounts: map<nat, Account>, miners: set<nat>): map<nat, Account> {
    Staying(cfg, Transferred(cfg, accounts, miners), miners)
  }

  function WithAccounts(db: Database, accounts: map<nat, Account>): Database {
    WithBlocks(db.(accounts := accounts), BlocksOf(db.blocks, accounts.Keys))
  }

  /**
   Blocks go with their winner's account, and with the account of their best
   submission: the submissions go with the account, and the block with that one.
   */
  function BlocksOf(blocks: map<nat, Block>, accounts: set<nat>): map<nat, Block> {
    map h | h in blocks && Authors(blocks[h]) <= accounts :: blocks[h]
  }

  /**
   A cleanup at a height; active are the miners with submissions left after the
   old blocks are gone, and commit says whether the database transaction on the
   accounts succeeds.
   */
  datatype Cleaning = Cleaning(currentHeight: nat, active: set<nat>, commit: bool)

  /** Old blocks and idle miners are gone: two statements outside the database transaction. */
  function Pruned(db: Database, k: Cleaning): Database {
    WithBlocks(db, RecentBlocks(db, k.currentHeight)).(miners := db.miners * k.active)
  }

  /**
   The accounts are cleaned too: the database transaction succeeds. It fails by
   itself when the fee account exists and nobody is outside, because a sum over
   no rows is NULL, which the pending column refuses.
   */
  predicate AccountsGo(cfg: Config, db: Database, k: Cleaning) {
    k.commit && !(cfg.feeAccount in db.accounts && NonMiners(db.accounts, db.miners * k.active) == {})
  }

  /** The whole cleanup. */
  ghost function CleanStep(cfg: Config, db: Database, k: Cleaning): Database {
    var d := Pruned(db, k);
    if AccountsGo(cfg, db, k) then WithAccounts(d, Remaining(cfg, d.accounts, d.miners)) else d
  }

  // ----- what stays, told before the cleanup

  predicate AccountStays(cfg: Config, db: Database, k: Cleaning, id: nat) {
    id in db.accounts && (AccountsGo(cfg, db, k) ==> id == cfg.feeAccount || id in db.miners * k.active)
  }

  /** The block is recent, and if accounts go those of its winner and of its best submission stay. */
  predicate BlockStays(cfg: Config, db: Database, k: Cleaning, h: nat) {
    && h in db.blocks && h >= Cutoff(k.currentHeight)
    && (AccountsGo(cfg, db, k) ==> forall id | id in Authors(db.blocks[h]) :: AccountStays(cfg, db, k, id))
  }

  /** The transaction is unconfirmed, or its block stays. */
  predicate TransactionStays(cfg: Config, db: Database, k: Cleaning, t: nat) {
    && t in db.transactions
    && (db.transactions[t].blockHeight.Some? ==> BlockStays(cfg, db, k, db.transactions[t].blockHeight.value))
  }

  predicate RowStays(cfg: Config, db: Database, k: Cleaning, r: Recipient) {
    TransactionStays(cfg, db, k, r.tx) && AccountStays(cfg, db, k, r.account)
  }

  function StayingAccounts(cfg: Config, db: Database, k: Cleaning): set<nat> {
    set id | id in db.accounts && AccountStays(cfg, db, k, id)
  }

  function StayingTransactions(cfg: Config, db: Database, k: Cleaning): set<nat> {
    set t | t in db.transactions && TransactionStays(cfg, db, k, t)
  }

  // ----- which rows stay

  lemma {:induction false} KeptTwice(rows: seq<Recipient>, t: set<nat>, a: set<nat>, t': set<nat>, a': set<nat>)
    requires t' <= t && a' <= a
    ensures Kept(Kept(rows, t, a), t', a') == Kept(rows, t', a')
  {
    if rows == [] {
    } else {
      var n := |rows| - 1;
      KeptTwice(rows[..n], t, a, t', a');
      KeptSnoc(Kept(rows[..n], t, a), rows[n], t', a');
      assert Kept(rows[..n], t, a) + [] == Kept(rows[..n], t, a);
      assert Kept(rows[..n], t', a') + [] == Kept(rows[..n], t', a');
    }
  }

  lemma KeptSnoc(rows: seq<Recipient>, r: Recipient, t: set<nat>, a: set<nat>)
    ensures Kept(rows + [r], t, a) == Kept(rows, t, a) + (if r.tx in t && r.account in a then [r] else [])
  {
    assert (rows + [r])[..|rows|] == rows;
  }

  lemma {:induction false} KeptAndDropped(rows: seq<Recipient>, t: set<nat>, a: set<nat>)
    ensures Amounts(rows) == Amounts(Kept(rows, t, a)) + Dropped(rows, t, a)
  {
    if rows == [] {
    } else {
      var n := |rows| - 1;
      KeptAndDropped(rows[..n], t, a);
      AmountsSnoc(Kept(rows[..n], t, a), rows[n]);
      assert Kept(rows[..n], t, a) + [] == Kept(rows[..n], t, a);
    }
  }

  /**
   The cleanup keeps exactly the accounts, blocks and transactions that stay, each as it was but
   for the fee account's pending amount, and of the miners those still active.
   */
  lemma CleanKeeps(cfg: Config, db: Database, k: Cleaning)
    ensures var c := CleanStep(cfg, db, k);
            && c.accounts.Keys == StayingAccounts(cfg, db, k)
            && (forall h :: h in c.blocks <==> BlockStays(cfg, db, k, h))
            && c.transactions.Keys == StayingTransactions(cfg, db, k)
            && (forall t | t in c.transactions :: c.transactions[t] == db.transactions[t])
            && (forall h | h in c.blocks :: c.blocks[h] == db.blocks[h])
            && c.miners == db.miners * k.active && c.nextTx == db.nextTx
            && (forall id | id in c.accounts ::
                  c.accounts[id] == if id == cfg.feeAccount && AccountsGo(cfg, db, k)
                                    then db.accounts[id].(pending := PendingOutside(db.accounts, c.miners))
                                    else db.accounts[id])
  {
    hide Kept, Cutoff, NonMiners, PendingOutside;
  }

  /**
   A cleanup whose database transaction succeeds takes every account that neither mines nor
   takes the fees; when all accounts mine, and the fee account exists, none of them changes.
   */
  lemma IdleAccountsGo(cfg: Config, db: Database, k: Cleaning)
    requires k.commit
    ensures forall id | id in CleanStep(cfg, db, k).accounts :: id == cfg.feeAccount || id in db.miners * k.active
    ensures cfg.feeAccount in db.accounts && db.accounts.Keys <= db.miners * k.active ==>
              CleanStep(cfg, db, k).accounts == db.accounts
  {
    hide Kept, Cutoff, PendingOutside, BlocksOf, RecentBlocks, Anchored;
    var miners := db.miners * k.active;
    assert forall id | id in db.accounts && id !in miners :: id in NonMiners(db.accounts, miners);
  }

  /** The rows left are exactly those that stay. */
  lemma CleanKeepsRows(cfg: Config, db: Database, k: Cleaning)
    ensures CleanStep(cfg, db, k).recipients
            == Kept(db.recipients, StayingTransactions(cfg, db, k), StayingAccounts(cfg, db, k))
  {
    CleanKeeps(cfg, db, k);
    hide Anchored, Kept, Remaining, AccountStays, BlockStays, TransactionStays, AccountsGo;
    var d := Pruned(db, k);
    var c := CleanStep(cfg, db, k);
    if AccountsGo(cfg, db, k) {
      RemainingKeys(cfg, d.accounts, d.miners);
      KeptTwice(db.recipients, d.transactions.Keys, d.accounts.Keys, c.transactions.Keys, c.accounts.Keys);
    }
  }

  lemma RemainingKeys(cfg: Config, accounts: map<nat, Account>, miners: set<nat>)
    ensures Remaining(cfg, accounts, miners).Keys <= accounts.Keys
  {
  }

  // ----- what the cleanup conserves

  lemma TransferredTotal(cfg: Config, accounts: map<nat, Account>, miners: set<nat>)
    requires cfg.feeAccount in accounts
    ensures TotalPending(Transferred(cfg, accounts, miners))
            == TotalPending(accounts) - accounts[cfg.feeAccount].pending + PendingOutside(accounts, miners)
  {
    hide TotalPending, PendingOutside;
    PendingUpdate(accounts, cfg.feeAccount, accounts[cfg.feeAccount].(pending := PendingOutside(accounts, miners)));
  }

  /** The pending amounts of those who stay. */
  lemma RemainingTotal(cfg: Config, accounts: map<nat, Account>, miners: set<nat>)
    ensures var moved := Transferred(cfg, accounts, miners);
            TotalPending(Remaining(cfg, accounts, miners))
            == TotalPending(moved) - PendingOutside(moved, miners + {cfg.feeAccount})
  {
    var moved := Transferred(cfg, accounts, miners);
    var staying := miners + {cfg.feeAccount};
    var m := Pendings(moved);
    TotalSplit(m, staying);
    assert Pendings(Remaining(cfg, accounts, miners)) == Part(m, staying);
  }

  /** Those who go had pending all that is outside, less the fee account's part. */
  lemma LeavingTotal(cfg: Config, accounts: map<nat, Account>, miners: set<nat>)
    ensures PendingOutside(Transferred(cfg, accounts, miners), miners + {cfg.feeAccount})
            == PendingOutside(accounts, miners)
               - (if cfg.feeAccount in accounts && cfg.feeAccount !in miners
                   then accounts[cfg.feeAccount].pending else 0)
  {
    var moved := Transferred(cfg, accounts, miners);
    var outside := Pendings(accounts) - miners;
    assert Pendings(moved) - (miners + {cfg.feeAccount}) == outside - {cfg.feeAccount};
    if cfg.feeAccount in outside {
      TotalRemove(outside, cfg.feeAccount);
    } else {
      assert outside - {cfg.feeAccount} == outside;
    }
  }

  /** Pending amounts lost by the transfer. */
  ghost function LostInTransfer(cfg: Config, accounts: map<nat, Account>, miners: set<nat>): int {
    if cfg.feeAccount !in accounts then PendingOutside(accounts, miners)
    else if cfg.feeAccount in miners then accounts[cfg.feeAccount].pending
    else 0
  }

  lemma RemainingConserves(cfg: Config, accounts: map<nat, Account>, miners: set<nat>)
    ensures TotalPending(Remaining(cfg, accounts, miners))
            == TotalPending(accounts) - LostInTransfer(cfg, accounts, miners)
  {
    hide Transferred, Remaining, TotalPending, PendingOutside;
    RemainingTotal(cfg, accounts, miners);
    LeavingTotal(cfg, accounts, miners);
    if cfg.feeAccount in accounts {
      TransferredTotal(cfg, accounts, miners);
    } else {
      NotTransferred(cfg, accounts, miners);
    }
  }

  lemma NotTransferred(cfg: Config, accounts: map<nat, Account>, miners: set<nat>)
    requires cfg.feeAccount !in accounts
    ensures Transferred(cfg, accounts, miners) == accounts
  {
  }

  ghost function Overwritten(cfg: Config, db: Database, k: Cleaning): int {
    if AccountsGo(cfg, db, k) then LostInTransfer(cfg, db.accounts, db.miners * k.active) else 0
  }

  /** The amounts of the rows that do not stay. */
  function LostRows(cfg: Config, db: Database, k: Cleaning): int {
    Dropped(db.recipients, StayingTransactions(cfg, db, k), StayingAccounts(cfg, db, k))
  }

  /** The cleanup loses exactly the rows that do not stay and the pending amounts overwritten. */
  lemma CleanDrift(cfg: Config, db: Database, k: Cleaning)
    ensures Balance(cfg, CleanStep(cfg, db, k)) == Balance(cfg, db) - LostRows(cfg, db, k) - Overwritten(cfg, db, k)
  {
    CleanKeepsRows(cfg, db, k);
    KeptAndDropped(db.recipients, StayingTransactions(cfg, db, k), StayingAccounts(cfg, db, k));
    hide Kept, Dropped, TotalPending, Remaining, Anchored, Amounts, PendingOutside,
         AccountsGo, StayingTransactions, StayingAccounts;
    if AccountsGo(cfg, db, k) {
      RemainingConserves(cfg, db.accounts, db.miners * k.active);
    }
  }

  // ----- when nothing is lost

  ghost predicate NonNegativeRows(rows: seq<Recipient>) {
    forall r | r in rows :: r.amount >= 0
  }

  /** With non-negative amounts nothing is dropped exactly when every row with an amount is kept. */
  lemma {:induction false} NoneDropped(rows: seq<Recipient>, t: set<nat>, a: set<nat>)
    requires NonNegativeRows(rows)
    ensures Dropped(rows, t, a) >= 0
    ensures Dropped(rows, t, a) == 0 <==> forall r | r in rows && r.amount != 0 :: r.tx in t && r.account in a
  {
    if rows == [] {
    } else {
      var n := |rows| - 1;
      NoneDropped(rows[..n], t, a);
      assert rows == rows[..n] + [rows[n]];
    }
  }

  /** No row with an amount is lost: its transaction and account stay. */
  ghost predicate NoRowLost(cfg: Config, db: Database, k: Cleaning) {
    forall r | r in db.recipients && r.amount != 0 :: RowStays(cfg, db, k, r)
  }

  lemma LostRowsIff(cfg: Config, db: Database, k: Cleaning)
    requires NonNegativeRows(db.recipients)
    ensures LostRows(cfg, db, k) >= 0
    ensures LostRows(cfg, db, k) == 0 <==> NoRowLost(cfg, db, k)
  {
    var t, a := StayingTransactions(cfg, db, k), StayingAccounts(cfg, db, k);
    NoneDropped(db.recipients, t, a);
    forall r: Recipient
      ensures RowStays(cfg, db, k, r) <==> r.tx in t && r.account in a
    {
    }
  }

  /**
   No pending amount is overwritten: a mining fee account has none, and without a fee
   account nobody outside has any.
   */
  ghost predicate NothingOverwritten(cfg: Config, db: Database, k: Cleaning) {
    AccountsGo(cfg, db, k) ==>
      if cfg.feeAccount in db.accounts
      then cfg.feeAccount in db.miners * k.active ==> db.accounts[cfg.feeAccount].pending == 0
      else forall id | id in db.accounts && id !in db.miners * k.active :: db.accounts[id].pending == 0
  }

  ghost predicate PendingNonNegative(accounts: map<nat, Account>) {
    forall id | id in accounts :: accounts[id].pending >= 0
  }

  lemma {:induction false} TotalNonNegative(m: map<nat, int>)
    requires forall id | id in m :: m[id] >= 0
    ensures Total(m) >= 0 && (Total(m) == 0 <==> forall id | id in m :: m[id] == 0)
    decreases |m|
  {
    if m == map[] {
    } else {
      var k :| k in m;
      TotalRemove(m, k);
      TotalNonNegative(m - {k});
      assert forall id | id in m :: id == k || (id in m - {k} && (m - {k})[id] == m[id]);
    }
  }

  lemma OverwrittenIff(cfg: Config, db: Database, k: Cleaning)
    requires PendingNonNegative(db.accounts)
    ensures Overwritten(cfg, db, k) >= 0
    ensures Overwritten(cfg, db, k) == 0 <==> NothingOverwritten(cfg, db, k)
  {
    hide AccountsGo;
    var miners := db.miners * k.active;
    var outside := Pendings(db.accounts) - miners;
    TotalNonNegative(outside);
    assert forall id :: id in outside <==> id in db.accounts && id !in miners;
  }

  /** A cleanup conserves the balance exactly when no row is lost and no pending amount is overwritten. */
  lemma CleanConservesIff(cfg: Config, db: Database, k: Cleaning)
    requires NonNegativeRows(db.recipients) && PendingNonNegative(db.accounts)
    ensures Balance(cfg, CleanStep(cfg, db, k)) == Balance(cfg, db)
            <==> NoRowLost(cfg, db, k) && NothingOverwritten(cfg, db, k)
  {
    hide CleanStep, Balance, LostRows, Overwritten, NoRowLost, NothingOverwritten;
    CleanDrift(cfg, db, k);
    LostRowsIff(cfg, db, k);
    OverwrittenIff(cfg, db, k);
  }

  /** No pending amount is lost when the fee account exists and does not mine, whatever the balances. */
  lemma ReadyLosesNothing(cfg: Config, db: Database, k: Cleaning)
    requires cfg.feeAccount in db.accounts && cfg.feeAccount !in db.miners
    ensures Overwritten(cfg, db, k) == 0
  {
  }

  lemma OneRowDropped(rows: seq<Recipient>, t: set<nat>, a: set<nat>)
    requires |rows| == 1 && (rows[0].tx !in t || rows[0].account !in a)
    ensures Dropped(rows, t, a) == rows[0].amount
  {
    assert rows[..0] == [];
  }

  /** An idle miner's account goes, and with it the 30 recorded for him. */
  lemma IdleMinerLosesRow(cfg: Config, db: Database, k: Cleaning)
    requires cfg.feeAccount == 0 && k == Cleaning(6000, {}, true)
    requires db == Database(map[0 := Account(5, None, None, None), 7 := Account(0, None, None, None)], {7}, map[],
                            map[1 := Transaction(None, None, 0)], [Recipient(1, 7, 30)], 2)
    ensures Balance(cfg, CleanStep(cfg, db, k)) == Balance(cfg, db) - 30
  {
    assert 0 in NonMiners(db.accounts, db.miners * k.active);
    assert !AccountStays(cfg, db, k, 7);
    var t, a := StayingTransactions(cfg, db, k), StayingAccounts(cfg, db, k);
    OneRowDropped(db.recipients, t, a);
    hide CleanStep, Balance, Pendings, Dropped;
    assert 7 !in a && LostRows(cfg, db, k) == 30;
    CleanDrift(cfg, db, k);
    ReadyLosesNothing(cfg, db, k);
  }

  /** Account 7 has no miner row and goes; so does the block that names his submission, and the 30 confirmed in it. */
  lemma BestAuthorLosesRow(cfg: Config, db: Database, k: Cleaning)
    requires cfg.feeAccount == 0 && k == Cleaning(10000, {8}, true)
    requires db.accounts.Keys == {0, 7, 8} && db.miners == {8} && db.blocks == map[9000 := Block(None, Some(7))]
    requires db.transactions == map[1 := Transaction(Some(5), Some(9000), 0)] && db.recipients == [Recipient(1, 8, 30)]
    ensures Balance(cfg, CleanStep(cfg, db, k)) == Balance(cfg, db) - 30
  {
    assert 0 in NonMiners(db.accounts, db.miners * k.active);
    assert !AccountStays(cfg, db, k, 7) && 7 in Authors(db.blocks[9000]);
    assert !TransactionStays(cfg, db, k, 1);
    var t, a := StayingTransactions(cfg, db, k), StayingAccounts(cfg, db, k);
    OneRowDropped(db.recipients, t, a);
    hide CleanStep, Balance, Pendings, Dropped;
    assert 1 !in t && LostRows(cfg, db, k) == 30;
    CleanDrift(cfg, db, k);
    ReadyLosesNothing(cfg, db, k);
  }

  // ----- which blocks stay

  /**
   Below height 5000 the subtraction wraps around: then every block of a real
   chain goes, and from 5000 on those up to 5000 below the current height stay.
   */
  lemma BlocksAfterPruning(db: Database, k: Cleaning, h: nat)
    requires h in db.blocks && h < TWO_TO_THE_64 - 5000 && k.currentHeight < TWO_TO_THE_64
    ensures h in Pruned(db, k).blocks <==> k.currentHeight >= 5000 && h + 5000 >= k.currentHeight
  {
    CutoffValue(k.currentHeight);
  }

  lemma CutoffValue(currentHeight: nat)
    requires currentHeight < TWO_TO_THE_64
    ensures Cutoff(currentHeight)
            == if currentHeight >= 5000 then currentHeight - 5000 else TWO_TO_THE_64 + currentHeight - 5000
  {
  }
}
