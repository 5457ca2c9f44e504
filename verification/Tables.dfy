/**
 The tables behind the payouts: accounts, miners, transactions and their
 recipients, and the sums over them.
 */
module Tables {
  import opened Commons

  const TWO_TO_THE_64: nat := 0x1_0000_0000_0000_0000

  datatype Interval = Weekly | Daily | Now

  /** A row of the account table; times are abstract ordered values. */
  datatype Account = Account(pending: int, minPayout: Option<int>, interval: Option<Interval>, nextPayout: Option<int>)

  /** A row of the block table: the winner, and the author of the submission it names as its best. */
  datatype Block = Block(winner: Option<nat>, best: Option<nat>)

  /** The accounts a block's row depends on: it goes with either of them. */
  function Authors(b: Block): set<nat> {
    (if b.winner.Some? then {b.winner.value} else {}) + if b.best.Some? then {b.best.value} else {}
  }

  /** A row of the transaction table. */
  datatype Transaction = Transaction(txId: Option<nat>, blockHeight: Option<nat>, created: int)

  /** A row of the transaction_recipient table. */
  datatype Recipient = Recipient(tx: nat, account: nat, amount: int)

  /**
   The tables; blocks maps a height to its row.
   nextTx is the next automatic transaction id, and so also the number of
   transactions ever created.
   */
  datatype Database = Database(
    accounts: map<nat, Account>,
    miners: set<nat>,
    blocks: map<nat, Block>,
    transactions: map<nat, Transaction>,
    recipients: seq<Recipient>,
    nextTx: nat
  )

  datatype Config = Config(
    feeAccount: nat,
    minerTxFee: int,
    poolTxFee: int,
    minimumPayout: int,
    setWeeklyFee: int,
    setDailyFee: int,
    setNowFee: int,
    setMinPayoutFee: int
  )

  // ----- sums

  ghost function Pendings(accounts: map<nat, Account>): (m: map<nat, int>)
    ensures m.Keys == accounts.Keys && forall k | k in accounts :: m[k] == accounts[k].pending
  {
    map k | k in accounts :: accounts[k].pending
  }

  /** The sum of the values of a map. */
  ghost function Total(m: map<nat, int>): int
    decreases |m|
  {
    if m == map[] then 0
    else
      var k :| k in m;
      m[k] + Total(m - {k})
  }

  lemma {:induction false} TotalRemove(m: map<nat, int>, k: nat)
    requires k in m
    ensures Total(m) == m[k] + Total(m - {k})
    decreases |m|
  {
    var j :| j in m && Total(m) == m[j] + Total(m - {j});
    if j == k {
    } else {
      TotalRemove(m - {j}, k);
      assert m - {j} - {k} == m - {k} - {j};
      TotalRemove(m - {k}, j);
    }
  }

  lemma TotalUpdate(m: map<nat, int>, k: nat, v: int)
    ensures Total(m[k := v]) == Total(m) + v - (if k in m then m[k] else 0)
  {
    TotalRemove(m[k := v], k);
    assert m[k := v] - {k} == m - {k};
    if k in m {
      TotalRemove(m, k);
    } else {
      assert m - {k} == m;
    }
  }

  /** The part of a map at the keys in a set. */
  ghost function Part(m: map<nat, int>, s: set<nat>): map<nat, int> {
    map k | k in m && k in s :: m[k]
  }

  lemma PartStep(m: map<nat, int>, s: set<nat>, k: nat)
    requires k in m
    ensures if k in s
            then k in Part(m, s) && Part(m, s)[k] == m[k]
                 && Part(m, s) - {k} == Part(m - {k}, s) && (m - {k}) - s == m - s
            else k in m - s && (m - s)[k] == m[k] && (m - s) - {k} == (m - {k}) - s && Part(m, s) == Part(m - {k}, s)
  {
  }

  /** The values at keys inside and outside a set. */
  lemma {:induction false} TotalSplit(m: map<nat, int>, s: set<nat>)
    ensures Total(m) == Total(m - s) + Total(Part(m, s))
    decreases |m|
  {
    hide Part;
    if m == map[] {
      NothingToSplit(m, s);
    } else {
      var k :| k in m;
      PartStep(m, s, k);
      TotalRemove(m, k);
      TotalSplit(m - {k}, s);
      if k in s {
        TotalRemove(Part(m, s), k);
      } else {
        TotalRemove(m - s, k);
      }
    }
  }

  lemma NothingToSplit(m: map<nat, int>, s: set<nat>)
    requires m == map[]
    ensures m - s == m && Part(m, s) == m && Total(m) == 0
  {
  }

  ghost function TotalPending(accounts: map<nat, Account>): int {
    Total(Pendings(accounts))
  }

  lemma PendingUpdate(accounts: map<nat, Account>, id: nat, a: Account)
    requires id in accounts
    ensures TotalPending(accounts[id := a]) == TotalPending(accounts) + a.pending - accounts[id].pending
  {
    TotalUpdate(Pendings(accounts), id, a.pending);
    assert Pendings(accounts[id := a]) == Pendings(accounts)[id := a.pending];
  }

  function AddPending(accounts: map<nat, Account>, id: nat, amount: int): (r: map<nat, Account>)
    ensures r.Keys == accounts.Keys
  {
    if id in accounts then accounts[id := accounts[id].(pending := accounts[id].pending + amount)] else accounts
  }

  lemma AddPendingTotal(accounts: map<nat, Account>, id: nat, amount: int)
    ensures TotalPending(AddPending(accounts, id, amount))
            == TotalPending(accounts) + (if id in accounts then amount else 0)
  {
    if id in accounts {
      PendingUpdate(accounts, id, accounts[id].(pending := accounts[id].pending + amount));
    }
  }

  /** One UPDATE per credit; for a missing account it does nothing. */
  function Rewarded(accounts: map<nat, Account>, credits: map<nat, int>): (r: map<nat, Account>)
    ensures r.Keys == accounts.Keys
  {
    map id | id in accounts ::
      if id in credits then accounts[id].(pending := accounts[id].pending + credits[id]) else accounts[id]
  }

  lemma RewardOne(accounts: map<nat, Account>, credits: map<nat, int>, k: nat)
    requires k in credits
    ensures Rewarded(accounts, credits) == AddPending(Rewarded(accounts, credits - {k}), k, credits[k])
  {
  }

  /** What reaches an account. */
  lemma {:induction false} RewardedTotal(accounts: map<nat, Account>, credits: map<nat, int>)
    ensures TotalPending(Rewarded(accounts, credits)) == TotalPending(accounts) + Total(Part(credits, accounts.Keys))
    decreases |credits|
  {
    if credits == map[] {
      assert Rewarded(accounts, credits) == accounts && Part(credits, accounts.Keys) == map[];
    } else {
      hide TotalPending, AddPending, Part;
      var k :| k in credits;
      var rest := credits - {k};
      RewardedTotal(accounts, rest);
      RewardOne(accounts, credits, k);
      AddPendingTotal(Rewarded(accounts, rest), k, credits[k]);
      PartStep(credits, accounts.Keys, k);
      if k in accounts {
        TotalRemove(Part(credits, accounts.Keys), k);
      }
    }
  }

  function Amounts(rows: seq<Recipient>): int {
    if rows == [] then 0 else Amounts(rows[..|rows| - 1]) + rows[|rows| - 1].amount
  }

  lemma AmountsSnoc(rows: seq<Recipient>, r: Recipient)
    ensures Amounts(rows + [r]) == Amounts(rows) + r.amount
  {
    assert (rows + [r])[..|rows|] == rows;
  }

  /** The rows with a property, in order. */
  ghost function Where(rows: seq<Recipient>, p: Recipient -> bool): seq<Recipient> {
    if rows == [] then []
    else Where(rows[..|rows| - 1], p) + (if p(rows[|rows| - 1]) then [rows[|rows| - 1]] else [])
  }

  /**
   What the pool still owes or has recorded as sent: pending amounts, recorded
   recipient amounts, and the network fee of each transaction created.
   */
  ghost function Balance(cfg: Config, db: Database): int {
    TotalPending(db.accounts) + Amounts(db.recipients) + cfg.poolTxFee * db.nextTx
  }
}
