/**
 The life of a transaction row: created, sent, confirmed or sent again, over
 every sequence of operations on the ledger.
 */
module PayoutCycle {
  import opened Commons
  import opened Tables
  import opened PayoutMessages
  import opened Cleanup
  import opened PayoutSteps

  /** What the wallet and the pool exchanged. */
  datatype Event = Sent(row: nat, id: nat, payments: map<nat, int>) | Unknown(id: nat)

  /** The wallet's answer about a transaction. */
  datatype Reply = NoAnswer | NotFound | Found(height: nat)

  datatype State = State(db: Database, log: seq<Event>)

  // ----- validating

  function Forgotten(transactions: map<nat, Transaction>, id: nat): map<nat, Transaction> {
    map t | t in transactions ::
      if transactions[t].txId == Some(id) then transactions[t].(txId := None) else transactions[t]
  }

  function ConfirmedAt(transactions: map<nat, Transaction>, id: nat, height: nat): map<nat, Transaction> {
    map t | t in transactions ::
      if transactions[t].txId == Some(id) then transactions[t].(blockHeight := Some(height)) else transactions[t]
  }

  function Without(transactions: map<nat, Transaction>, id: nat): map<nat, Transaction> {
    map t | t in transactions && transactions[t].txId != Some(id) :: transactions[t]
  }

  /** Every row with the wallet's id is updated; its rows go with a deleted transaction. */
  function ConfirmStep(s: State, id: nat, reply: Reply): State {
    match reply
    case NoAnswer => s
    case NotFound => State(s.db.(transactions := Forgotten(s.db.transactions, id)), s.log + [Unknown(id)])
    case Found(height) =>
      if height in s.db.blocks then s.(db := s.db.(transactions := ConfirmedAt(s.db.transactions, id, height)))
      else
        var rest := Without(s.db.transactions, id);
        s.(db := s.db.(transactions := rest, recipients := Kept(s.db.recipients, rest.Keys, s.db.accounts.Keys)))
  }

  // ----- sending

  /** The amounts by recipient, as the map handed to the wallet. */
  function PaymentsOf(rows: seq<Recipient>): map<nat, int> {
    if rows == [] then map[]
    else PaymentsOf(rows[..|rows| - 1])[rows[|rows| - 1].account := rows[|rows| - 1].amount]
  }

  /** Waiting to be sent: no wallet id and no block. */
  predicate Unsent(t: Transaction) {
    t.txId.None? && t.blockHeight.None?
  }

  /** The wallet refuses a payment to nobody; otherwise it answers with an id or fails. */
  ghost function SendStep(s: State, row: nat, answer: Option<nat>, now: int): State
    requires row in s.db.transactions
  {
    var rows := RowsOf(s.db.recipients, row);
    if rows == [] || answer.None? then s
    else
      State(s.db.(transactions := s.db.transactions[row := s.db.transactions[row].(txId := answer, created := now)]),
            s.log + [Sent(row, answer.value, PaymentsOf(rows))])
  }

  /** Sent before yesterday and not confirmed yet. */
  predicate Stale(t: Transaction, yesterday: int) {
    t.blockHeight.None? && t.created < yesterday && t.txId.Some?
  }

  function UnsentRows(transactions: map<nat, Transaction>): set<nat> {
    set t | t in transactions && Unsent(transactions[t])
  }

  function WalletIds(transactions: map<nat, Transaction>, rows: seq<nat>): (ids: seq<nat>)
    requires forall i | 0 <= i < |rows| :: rows[i] in transactions && transactions[rows[i]].txId.Some?
    ensures |ids| == |rows| && forall i | 0 <= i < |ids| :: Some(ids[i]) == transactions[rows[i]].txId
  {
    seq(|rows|, i requires 0 <= i < |rows| => transactions[rows[i]].txId.value)
  }

  function StaleRows(transactions: map<nat, Transaction>, yesterday: int): set<nat> {
    set t | t in transactions && Stale(transactions[t], yesterday)
  }

  function ConfirmAll(s: State, ids: seq<nat>, replies: seq<Reply>): State
    requires |ids| == |replies|
    decreases ids
  {
    if ids == [] then s else ConfirmAll(ConfirmStep(s, ids[0], replies[0]), ids[1..], replies[1..])
  }

  ghost function SendAll(s: State, rows: seq<nat>, answers: seq<Option<nat>>, now: int): State
    requires |rows| == |answers| && forall i | 0 <= i < |rows| :: rows[i] in s.db.transactions
    decreases rows
  {
    if rows == [] then s else SendAll(SendStep(s, rows[0], answers[0], now), rows[1..], answers[1..], now)
  }

  lemma ConfirmNext(s: State, ids: seq<nat>, replies: seq<Reply>, i: nat)
    requires |ids| == |replies| && i < |ids|
    ensures ConfirmAll(s, ids[i..], replies[i..])
            == ConfirmAll(ConfirmStep(s, ids[i], replies[i]), ids[i + 1..], replies[i + 1..])
  {
    assert ids[i..][1..] == ids[i + 1..] && replies[i..][1..] == replies[i + 1..];
  }

  lemma SendNext(s: State, rows: seq<nat>, answers: seq<Option<nat>>, now: int, i: nat)
    requires |rows| == |answers| && i < |rows| && forall k | 0 <= k < |rows| :: rows[k] in s.db.transactions
    ensures SendAll(s, rows[i..], answers[i..], now)
            == SendAll(SendStep(s, rows[i], answers[i], now), rows[i + 1..], answers[i + 1..], now)
  {
    assert rows[i..][1..] == rows[i + 1..] && answers[i..][1..] == answers[i + 1..];
  }

  // ----- operations

  datatype Op =
    | Join(id: nat)
    | Reward(height: nat, generator: nat, credits: map<nat, int>)
    | Best(height: nat, author: Option<nat>)
    | NewBlock(height: nat)
    | Messages(requests: seq<Request>)
    | Pay(ids: seq<nat>, now: int)
    | Confirm(id: nat, reply: Reply)
    | Send(row: nat, answer: Option<nat>, now: int)
    | Clean(cleaning: Cleaning)

  ghost predicate Enabled(cfg: Config, s: State, op: Op) {
    match op
    case Join(id) => id != cfg.feeAccount
    case NewBlock(height) => height !in s.db.blocks
    case Reward(height, generator, _) => height in s.db.blocks ==> generator in s.db.accounts
    case Best(_, author) => author.Some? ==> author.value in s.db.accounts
    case Pay(ids, now) => Listing(ids, DueAccounts(cfg, s.db.accounts, now))
    case Send(row, _, _) => row in s.db.transactions && Unsent(s.db.transactions[row])
    case _ => true
  }

  /** A new miner: the rows are inserted unless they exist. */
  function JoinStep(db: Database, id: nat): Database {
    db.(accounts := if id in db.accounts then db.accounts else db.accounts[id := Account(0, None, None, None)],
        miners := db.miners + {id})
  }

  /** An UPDATE of a missing row does nothing. */
  function WithWinner(blocks: map<nat, Block>, height: nat, winner: nat): map<nat, Block> {
    if height in blocks then blocks[height := blocks[height].(winner := Some(winner))] else blocks
  }

  function WithBest(blocks: map<nat, Block>, height: nat, author: Option<nat>): map<nat, Block> {
    if height in blocks then blocks[height := blocks[height].(best := author)] else blocks
  }

  ghost function Apply(cfg: Config, s: State, op: Op): State
    requires Enabled(cfg, s, op)
  {
    match op
    case Join(id) => s.(db := JoinStep(s.db, id))
    case NewBlock(height) => s.(db := s.db.(blocks := s.db.blocks[height := Block(None, None)]))
    case Reward(height, generator, credits) =>
      s.(db := s.db.(accounts := Rewarded(s.db.accounts, credits),
                     blocks := WithWinner(s.db.blocks, height, generator)))
    case Best(height, author) => s.(db := s.db.(blocks := WithBest(s.db.blocks, height, author)))
    case Messages(requests) => s.(db := s.db.(accounts := ProcessAll(cfg, s.db.accounts, requests)))
    case Pay(ids, now) => s.(db := CreateStep(cfg, s.db, ids, now))
    case Confirm(id, reply) => ConfirmStep(s, id, reply)
    case Send(row, answer, now) => SendStep(s, row, answer, now)
    case Clean(k) => s.(db := CleanStep(cfg, s.db, k))
  }

  ghost predicate ValidRun(cfg: Config, s: State, ops: seq<Op>)
    decreases ops
  {
    ops == [] || (Enabled(cfg, s, ops[0]) && ValidRun(cfg, Apply(cfg, s, ops[0]), ops[1..]))
  }

  ghost function Run(cfg: Config, s: State, ops: seq<Op>): State
    requires ValidRun(cfg, s, ops)
    decreases ops
  {
    if ops == [] then s else Run(cfg, Apply(cfg, s, ops[0]), ops[1..])
  }

  // ----- conservation

  /** What an operation adds to the balance. */
  ghost function Gain(cfg: Config, s: State, op: Op): int
    requires Enabled(cfg, s, op)
  {
    match op
    case Join(_) => 0
    case NewBlock(_) => 0
    case Reward(_, _, credits) => Total(Part(credits, s.db.accounts.Keys))
    case Best(_, _) => 0
    case Messages(requests) => if cfg.feeAccount in s.db.accounts then 0 else -Charges(cfg, s.db.accounts, requests)
    case Pay(ids, _) => if cfg.feeAccount in s.db.accounts then 0 else -FeeMargin(cfg, |ids|)
    case Confirm(id, reply) => -ConfirmLoss(s.db, id, reply)
    case Send(_, _, _) => 0
    case Clean(k) => -LostRows(cfg, s.db, k) - Overwritten(cfg, s.db, k)
  }

  /** A transaction confirmed in a block that is not stored is deleted with its rows. */
  predicate Deletes(db: Database, reply: Reply) {
    reply.Found? && reply.height !in db.blocks
  }

  function ConfirmLoss(db: Database, id: nat, reply: Reply): int {
    if Deletes(db, reply) then Dropped(db.recipients, Without(db.transactions, id).Keys, db.accounts.Keys) else 0
  }

  lemma ConfirmDrift(cfg: Config, s: State, id: nat, reply: Reply)
    ensures Balance(cfg, ConfirmStep(s, id, reply).db) == Balance(cfg, s.db) - ConfirmLoss(s.db, id, reply)
  {
    hide Kept, Dropped, TotalPending, Forgotten, ConfirmedAt, Without, Amounts;
    if Deletes(s.db, reply) {
      KeptAndDropped(s.db.recipients, Without(s.db.transactions, id).Keys, s.db.accounts.Keys);
    }
  }

  lemma JoinKeepsTotal(accounts: map<nat, Account>, id: nat)
    requires id !in accounts
    ensures TotalPending(accounts[id := Account(0, None, None, None)]) == TotalPending(accounts)
  {
    TotalUpdate(Pendings(accounts), id, 0);
    assert Pendings(accounts[id := Account(0, None, None, None)]) == Pendings(accounts)[id := 0];
  }

  /** One operation changes the balance by exactly its gain. */
  lemma StepDrift(cfg: Config, s: State, op: Op)
    requires Enabled(cfg, s, op)
    ensures Balance(cfg, Apply(cfg, s, op).db) == Balance(cfg, s.db) + Gain(cfg, s, op)
  {
    hide TotalPending, CleanStep, ProcessAll, CreateStep, ConfirmStep, LostRows, Overwritten, Charges, Rewarded, Part,
         FeeMargin, ConfirmLoss, Amounts;
    match op {
      case Join(id) => if id !in s.db.accounts { JoinKeepsTotal(s.db.accounts, id); }
      case Reward(_, _, credits) => RewardedTotal(s.db.accounts, credits);
      case Best(_, _) =>
      case NewBlock(_) =>
      case Messages(requests) => ProcessAllConserves(cfg, s.db.accounts, requests);
      case Pay(ids, now) => CreateConserves(cfg, s.db, ids, now);
      case Confirm(id, reply) => ConfirmDrift(cfg, s, id, reply);
      case Send(_, _, _) =>
      case Clean(k) => CleanDrift(cfg, s.db, k);
    }
  }

  ghost function Gains(cfg: Config, s: State, ops: seq<Op>): int
    requires ValidRun(cfg, s, ops)
    decreases ops
  {
    if ops == [] then 0 else Gain(cfg, s, ops[0]) + Gains(cfg, Apply(cfg, s, ops[0]), ops[1..])
  }

  /** Over every run the balance changes by exactly the gains. */
  lemma {:induction false} RunDrift(cfg: Config, s: State, ops: seq<Op>)
    requires ValidRun(cfg, s, ops)
    ensures Balance(cfg, Run(cfg, s, ops).db) == Balance(cfg, s.db) + Gains(cfg, s, ops)
    decreases ops
  {
    hide Balance, Apply, Gain, Enabled;
    if ops == [] {
    } else {
      StepDrift(cfg, s, ops[0]);
      RunDrift(cfg, Apply(cfg, s, ops[0]), ops[1..]);
    }
  }

  /** The fee account exists and does not mine. */
  predicate FeeAccountReady(cfg: Config, db: Database) {
    cfg.feeAccount in db.accounts && cfg.feeAccount !in db.miners
  }

  lemma StepKeepsFeeAccount(cfg: Config, s: State, op: Op)
    requires Enabled(cfg, s, op) && FeeAccountReady(cfg, s.db)
    ensures FeeAccountReady(cfg, Apply(cfg, s, op).db)
  {
    hide Kept, ProcessAll, Rewarded, PayAll, BlocksOf, RecentBlocks, Anchored, AddPending, PendingOutside;
  }

  /** The amounts credited along a run. */
  ghost function CreditsOf(cfg: Config, s: State, ops: seq<Op>): int
    requires ValidRun(cfg, s, ops)
    decreases ops
  {
    if ops == [] then 0 else CreditedBy(s.db, ops[0]) + CreditsOf(cfg, Apply(cfg, s, ops[0]), ops[1..])
  }

  ghost function CreditedBy(db: Database, op: Op): int {
    if op.Reward? then Total(Part(op.credits, db.accounts.Keys)) else 0
  }

  /** The amounts of the recorded rows that an operation deletes, told before it. */
  function DeletedBy(cfg: Config, db: Database, op: Op): int {
    match op
    case Confirm(id, reply) => ConfirmLoss(db, id, reply)
    case Clean(k) => LostRows(cfg, db, k)
    case _ => 0
  }

  /** The amounts deleted along a run. */
  ghost function DeletionsOf(cfg: Config, s: State, ops: seq<Op>): int
    requires ValidRun(cfg, s, ops)
    decreases ops
  {
    if ops == [] then 0 else DeletedBy(cfg, s.db, ops[0]) + DeletionsOf(cfg, Apply(cfg, s, ops[0]), ops[1..])
  }

  lemma GainWithFeeAccount(cfg: Config, s: State, op: Op)
    requires Enabled(cfg, s, op) && FeeAccountReady(cfg, s.db)
    ensures Gain(cfg, s, op) == CreditedBy(s.db, op) - DeletedBy(cfg, s.db, op)
  {
    hide LostRows, ConfirmLoss, Overwritten, Charges, FeeMargin, Part;
    if op.Clean? {
      ReadyLosesNothing(cfg, s.db, op.cleaning);
    }
  }

  /**
   Ledger conservation: from a ledger whose fee account exists and does not
   mine, pending amounts plus recorded amounts plus network fees change by the
   rewards credited less the recorded rows deleted, and by nothing else.
   */
  lemma {:induction false} LedgerConserved(cfg: Config, s: State, ops: seq<Op>)
    requires ValidRun(cfg, s, ops) && FeeAccountReady(cfg, s.db)
    ensures Balance(cfg, Run(cfg, s, ops).db) == Balance(cfg, s.db) + CreditsOf(cfg, s, ops) - DeletionsOf(cfg, s, ops)
    ensures FeeAccountReady(cfg, Run(cfg, s, ops).db)
    decreases ops
  {
    hide Balance, Apply, Gain, Enabled, DeletedBy, CreditedBy, FeeAccountReady;
    if ops == [] {
    } else {
      StepDrift(cfg, s, ops[0]);
      GainWithFeeAccount(cfg, s, ops[0]);
      StepKeepsFeeAccount(cfg, s, ops[0]);
      LedgerConserved(cfg, Apply(cfg, s, ops[0]), ops[1..]);
    }
  }
}
