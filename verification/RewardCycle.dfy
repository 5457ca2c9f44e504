/**
 Blocks from their arrival to their reward, over every sequence of arrivals,
 submissions, rewards and cleanups: when a height is credited at most once.
 */
module RewardCycle {
  import opened Commons
  import opened Tables
  import opened Cleanup
  import opened Rewards
  import PayoutCycle

  /** A row of the block table, with what the reward adds to it. */
  datatype Row = Row(verified: bool, reward: Option<int>, block: Block)

  /** submissions holds the pairs of height and submitter; credited lists the heights paid out so far. */
  datatype PoolState = PoolState(
    accounts: map<nat, Account>,
    miners: set<nat>,
    blocks: map<nat, Row>,
    submissions: set<(nat, nat)>,
    currentHeight: nat,
    credited: seq<nat>
  )

  /** payoutDelay is the number of blocks after which a block is rewarded. */
  datatype Pool = Pool(payouts: Config, rewards: RewardConfig, nAvg: nat, payoutDelay: nat)

  /** 64-bit subtraction: a block further back than the averaging window is refused. */
  predicate TooOld(nAvg: nat, currentHeight: nat, height: nat) {
    currentHeight != 0 && height < (currentHeight - nAvg) % TWO_TO_THE_64
  }

  /** 64-bit subtraction: a block is rewarded when it is far enough below the current one. */
  predicate Ripe(p: Pool, currentHeight: nat, height: nat) {
    height <= (currentHeight - p.payoutDelay) % TWO_TO_THE_64
  }

  datatype Step =
    | Arrive(height: nat)
    | Join(id: nat)
    | Submit(height: nat, account: nat)
    | Best(height: nat, author: Option<nat>)
    | Lost(height: nat)
    | Won(info: BlockInfo, shareOf: map<nat, real>)
    | Clean(commit: bool)

  /**
   A block of the current height never arrives again; a submitter has an account,
   but not always a miner row; the best submission of a block and the one that
   won it are submissions for it.
   */
  predicate Enabled(p: Pool, s: PoolState, step: Step) {
    match step
    case Arrive(h) => h != s.currentHeight && h !in s.blocks && !TooOld(p.nAvg, s.currentHeight, h)
    case Join(id) => id != p.payouts.feeAccount
    case Submit(h, a) => h in s.blocks && a in s.accounts
    case Best(h, author) => h in s.blocks && (author.Some? ==> (h, author.value) in s.submissions)
    case Lost(h) => h in s.blocks && !s.blocks[h].verified && Ripe(p, s.currentHeight, h)
    case Won(info, _) =>
      && info.height in s.blocks && !s.blocks[info.height].verified && Ripe(p, s.currentHeight, info.height)
      && (info.height, info.generator) in s.submissions
    case Clean(_) => true
  }

  function ArriveStep(s: PoolState, h: nat): PoolState {
    s.(blocks := s.blocks[h := Row(false, None, Block(None, None))],
       currentHeight := if h > s.currentHeight then h else s.currentHeight)
  }

  function JoinStep(s: PoolState, id: nat): PoolState {
    s.(accounts := if id in s.accounts then s.accounts else s.accounts[id := Account(0, None, None, None)],
       miners := s.miners + {id})
  }

  function SubmitStep(s: PoolState, h: nat, a: nat): PoolState {
    s.(submissions := s.submissions + {(h, a)})
  }

  function BestStep(s: PoolState, h: nat, author: Option<nat>): PoolState
    requires h in s.blocks
  {
    s.(blocks := s.blocks[h := s.blocks[h].(block := s.blocks[h].block.(best := author))])
  }

  function LostStep(s: PoolState, h: nat): PoolState
    requires h in s.blocks
  {
    s.(blocks := s.blocks[h := s.blocks[h].(verified := true)])
  }

  /** One database transaction: the credits and the verified flag together. */
  function WonStep(p: Pool, s: PoolState, info: BlockInfo, shareOf: map<nat, real>): PoolState
    requires info.height in s.blocks
  {
    s.(accounts := Rewarded(s.accounts, Credits(p.rewards, info, shareOf)),
       blocks := s.blocks[info.height := Row(true, Some(TotalReward(info)),
                                             s.blocks[info.height].block.(winner := Some(info.generator)))],
       credited := s.credited + [info.height])
  }

  function RowsFrom(blocks: map<nat, Row>, cutoff: nat): map<nat, Row> {
    map h | h in blocks && h >= cutoff :: blocks[h]
  }

  /** Submissions go with their block and with their account. */
  function SubmissionsLeft(submissions: set<(nat, nat)>, heights: set<nat>, accounts: set<nat>): set<(nat, nat)> {
    set x | x in submissions && x.0 in heights && x.1 in accounts
  }

  function Submitters(submissions: set<(nat, nat)>): set<nat> {
    set x | x in submissions :: x.1
  }

  /** Blocks go with the account of their winner, and with that of their best submission. */
  function RowsOfAuthors(blocks: map<nat, Row>, accounts: set<nat>): map<nat, Row> {
    map h | h in blocks && Authors(blocks[h].block) <= accounts :: blocks[h]
  }

  /** Old blocks and miners without submissions go first. */
  function WithoutOld(s: PoolState): PoolState {
    var blocks := RowsFrom(s.blocks, Cutoff(s.currentHeight));
    var submissions := SubmissionsLeft(s.submissions, blocks.Keys, s.accounts.Keys);
    s.(blocks := blocks, submissions := submissions, miners := s.miners * Submitters(submissions))
  }

  function WithAccountsLeft(s: PoolState, accounts: map<nat, Account>): PoolState {
    var blocks := RowsOfAuthors(s.blocks, accounts.Keys);
    s.(accounts := accounts, blocks := blocks,
       submissions := SubmissionsLeft(s.submissions, blocks.Keys, accounts.Keys))
  }

  /** The cleanup; its transaction on the accounts may fail, by itself when the sum is NULL. */
  ghost function CleanPool(p: Pool, s: PoolState, commit: bool): PoolState {
    var d := WithoutOld(s);
    if !commit || (p.payouts.feeAccount in d.accounts && NonMiners(d.accounts, d.miners) == {}) then d
    else WithAccountsLeft(d, Remaining(p.payouts, d.accounts, d.miners))
  }

  ghost function Apply(p: Pool, s: PoolState, step: Step): PoolState
    requires Enabled(p, s, step)
  {
    match step
    case Arrive(h) => ArriveStep(s, h)
    case Join(id) => JoinStep(s, id)
    case Submit(h, a) => SubmitStep(s, h, a)
    case Best(h, author) => BestStep(s, h, author)
    case Lost(h) => LostStep(s, h)
    case Won(info, shareOf) => WonStep(p, s, info, shareOf)
    case Clean(commit) => CleanPool(p, s, commit)
  }

  ghost predicate ValidRun(p: Pool, s: PoolState, steps: seq<Step>)
    decreases steps
  {
    steps == [] || (Enabled(p, s, steps[0]) && ValidRun(p, Apply(p, s, steps[0]), steps[1..]))
  }

  ghost function Run(p: Pool, s: PoolState, steps: seq<Step>): PoolState
    requires ValidRun(p, s, steps)
    decreases steps
  {
    if steps == [] then s else Run(p, Apply(p, s, steps[0]), steps[1..])
  }

  // ----- the window of heights that may arrive

  /** Block heights stay below half of the 64-bit range, and the window is configured within it. */
  const HEIGHT_LIMIT: nat := 0x8000_0000_0000_0000

  /** Below the window's length nothing may arrive; from there on, what is not below the window. */
  lemma TooOldMeans(nAvg: nat, c: nat, h: nat)
    requires 0 < c < HEIGHT_LIMIT && nAvg <= HEIGHT_LIMIT && h < HEIGHT_LIMIT
    ensures TooOld(nAvg, c, h) <==> c < nAvg || h + nAvg < c
  {
    if c < nAvg {
      assert (c - nAvg) % TWO_TO_THE_64 == c - nAvg + TWO_TO_THE_64;
    } else {
      assert (c - nAvg) % TWO_TO_THE_64 == c - nAvg;
    }
  }

  /** A height too old to arrive stays too old, whatever arrives. */
  lemma TooOldStays(nAvg: nat, c: nat, h: nat, arriving: nat)
    requires 0 < c < HEIGHT_LIMIT && nAvg <= HEIGHT_LIMIT && h < HEIGHT_LIMIT && arriving < HEIGHT_LIMIT
    requires TooOld(nAvg, c, h) && !TooOld(nAvg, c, arriving) && arriving > c
    ensures TooOld(nAvg, arriving, h)
  {
    TooOldMeans(nAvg, c, h);
    TooOldMeans(nAvg, c, arriving);
    TooOldMeans(nAvg, arriving, h);
  }

  // ----- what a cleanup removes, told before it

  /** Those with a submission left after the old blocks are gone. */
  function Active(s: PoolState): set<nat> {
    set x | x in s.submissions && x.0 >= Cutoff(s.currentHeight) :: x.1
  }

  predicate AccountsLeave(p: Pool, s: PoolState, commit: bool) {
    commit && !(p.payouts.feeAccount in s.accounts && NonMiners(s.accounts, s.miners * Active(s)) == {})
  }

  /** The account has neither a miner row nor takes the fees. */
  predicate Rowless(p: Pool, s: PoolState, id: nat) {
    id !in s.miners && id != p.payouts.feeAccount
  }

  /** An old block, or one whose winner or best author is rowless, if accounts leave. */
  predicate Removed(p: Pool, s: PoolState, commit: bool, h: nat)
    requires h in s.blocks
  {
    || h < Cutoff(s.currentHeight)
    || (AccountsLeave(p, s, commit) && exists id :: id in Authors(s.blocks[h].block) && Rowless(p, s, id))
  }

  // ----- what every step keeps

  ghost predicate Distinct(heights: seq<nat>) {
    forall i, j | 0 <= i < j < |heights| :: heights[i] != heights[j]
  }

  /** Winners and best authors have submitted for their block. */
  ghost predicate AuthorsSubmitted(s: PoolState) {
    forall h, id | h in s.blocks && id in Authors(s.blocks[h].block) :: (h, id) in s.submissions
  }

  /** Foreign keys: a submission has its block and its account, a miner has his account. */
  ghost predicate Linked(s: PoolState) {
    (forall x | x in s.submissions :: x.0 in s.blocks && x.1 in s.accounts) && s.miners <= s.accounts.Keys
  }

  /** A credited height is marked, or can not arrive any more. */
  ghost predicate CreditsMarked(p: Pool, s: PoolState) {
    forall h | h in s.credited ::
      if h in s.blocks then s.blocks[h].verified else TooOld(p.nAvg, s.currentHeight, h)
  }

  ghost predicate HeightsKnown(s: PoolState) {
    && s.currentHeight < HEIGHT_LIMIT
    && (forall h | h in s.blocks :: h <= s.currentHeight)
    && (forall h | h in s.credited :: h <= s.currentHeight)
    && (s.currentHeight == 0 ==> s.blocks == map[] && s.credited == [])
  }

  ghost predicate Inv(p: Pool, s: PoolState) {
    && 0 < p.nAvg <= HEIGHT_LIMIT
    && AuthorsSubmitted(s) && Linked(s) && CreditsMarked(p, s) && Distinct(s.credited) && HeightsKnown(s)
  }

  /** The cleanup removes exactly the blocks said to be removed, and keeps the links. */
  lemma CleanRemoves(p: Pool, s: PoolState, commit: bool)
    requires AuthorsSubmitted(s) && Linked(s)
    ensures var c := CleanPool(p, s, commit);
            && (forall h :: h in c.blocks <==> h in s.blocks && !Removed(p, s, commit, h))
            && (forall h | h in c.blocks :: c.blocks[h] == s.blocks[h])
            && AuthorsSubmitted(c) && Linked(c) && c.credited == s.credited && c.currentHeight == s.currentHeight
  {
    hide Transferred, Cutoff, NonMiners;
    var d := WithoutOld(s);
    assert d.miners == s.miners * Active(s);
    forall h, id | h in d.blocks && id in Authors(d.blocks[h].block)
      ensures (h, id) in d.submissions && id in Active(s)
    {
      assert (h, id) in s.submissions;
    }
    StayingKeys(p.payouts, d.accounts, d.miners);
  }

  lemma StayingKeys(cfg: Config, accounts: map<nat, Account>, miners: set<nat>)
    ensures forall id ::
              id in Remaining(cfg, accounts, miners) <==> id in accounts && (id == cfg.feeAccount || id in miners)
  {
  }

  // ----- the same steps on the ledger

  /** The tables of the ledger, without transactions. */
  ghost function Ledger(s: PoolState): Database {
    Database(s.accounts, s.miners, map h | h in s.blocks :: s.blocks[h].block, map[], [], 0)
  }

  /** The cleanup here and the cleanup of the ledger are one. */
  lemma CleanAgrees(p: Pool, s: PoolState, commit: bool)
    requires Linked(s)
    ensures Ledger(CleanPool(p, s, commit))
            == CleanStep(p.payouts, Ledger(s), Cleaning(s.currentHeight, Active(s), commit))
  {
    hide Cutoff, NonMiners, Remaining;
    var k := Cleaning(s.currentHeight, Active(s), commit);
    var d, e := WithoutOld(s), Pruned(Ledger(s), k);
    assert d.miners == e.miners;
    assert Ledger(d).blocks == e.blocks && e.transactions == map[];
    var c, f := CleanPool(p, s, commit), CleanStep(p.payouts, Ledger(s), k);
    assert Ledger(c).blocks == f.blocks && f.transactions == map[];
  }

  /** So are the reward and the best submission. */
  lemma WonAgrees(p: Pool, s: PoolState, info: BlockInfo, shareOf: map<nat, real>)
    requires info.height in s.blocks
    ensures var db := Ledger(s);
            Ledger(WonStep(p, s, info, shareOf))
            == db.(accounts := Rewarded(db.accounts, Credits(p.rewards, info, shareOf)),
                   blocks := PayoutCycle.WithWinner(db.blocks, info.height, info.generator))
  {
    assert Ledger(WonStep(p, s, info, shareOf)).blocks
           == PayoutCycle.WithWinner(Ledger(s).blocks, info.height, info.generator);
  }

  lemma BestAgrees(s: PoolState, h: nat, author: Option<nat>)
    requires h in s.blocks
    ensures Ledger(BestStep(s, h, author)) == Ledger(s).(blocks := PayoutCycle.WithBest(Ledger(s).blocks, h, author))
  {
    assert Ledger(BestStep(s, h, author)).blocks == PayoutCycle.WithBest(Ledger(s).blocks, h, author);
  }

  lemma JoinAgrees(s: PoolState, id: nat)
    ensures Ledger(JoinStep(s, id)) == PayoutCycle.JoinStep(Ledger(s), id)
  {
    assert Ledger(JoinStep(s, id)).blocks == Ledger(s).blocks;
  }

  /** No credited height is removed that could still arrive: the condition of a harmless cleanup. */
  ghost predicate NothingReturns(p: Pool, s: PoolState, commit: bool) {
    forall h | h in s.credited && h in s.blocks && Removed(p, s, commit, h) :: TooOld(p.nAvg, s.currentHeight, h)
  }

  ghost predicate Harmless(p: Pool, s: PoolState, step: Step) {
    match step
    case Clean(commit) => NothingReturns(p, s, commit)
    case Arrive(h) => h < HEIGHT_LIMIT
    case _ => true
  }

  lemma CleanKeepsInv(p: Pool, s: PoolState, commit: bool)
    requires Inv(p, s) && NothingReturns(p, s, commit)
    ensures Inv(p, CleanPool(p, s, commit))
  {
    CleanRemoves(p, s, commit);
    hide CleanPool, Removed, TooOld, AuthorsSubmitted, Linked, Distinct;
    assert s.blocks == map[] ==> CleanPool(p, s, commit).blocks == map[];
  }

  lemma ArriveKeepsInv(p: Pool, s: PoolState, h: nat)
    requires Inv(p, s) && Enabled(p, s, Arrive(h)) && h < HEIGHT_LIMIT
    ensures Inv(p, ArriveStep(s, h))
  {
    hide TooOld;
    var t := ArriveStep(s, h);
    forall g | g in t.credited && g !in t.blocks
      ensures TooOld(p.nAvg, t.currentHeight, g)
    {
      if h > s.currentHeight {
        TooOldStays(p.nAvg, s.currentHeight, g, h);
      }
    }
  }

  lemma StepKeeps(p: Pool, s: PoolState, step: Step)
    requires Enabled(p, s, step) && Inv(p, s) && Harmless(p, s, step)
    ensures Inv(p, Apply(p, s, step))
  {
    hide CleanPool, Rewarded, Credits, TotalReward, TooOld, Ripe;
    match step {
      case Clean(commit) => CleanKeepsInv(p, s, commit);
      case Arrive(h) => ArriveKeepsInv(p, s, h);
      case _ =>
    }
  }

  ghost predicate HarmlessRun(p: Pool, s: PoolState, steps: seq<Step>)
    requires ValidRun(p, s, steps)
    decreases steps
  {
    steps == [] || (Harmless(p, s, steps[0]) && HarmlessRun(p, Apply(p, s, steps[0]), steps[1..]))
  }

  /** Over every run whose cleanups let nothing return, each height is credited at most once, and stays marked. */
  lemma {:induction false} CreditedOnce(p: Pool, s: PoolState, steps: seq<Step>)
    requires ValidRun(p, s, steps) && HarmlessRun(p, s, steps) && Inv(p, s)
    ensures var r := Run(p, s, steps);
            Distinct(r.credited) && forall h | h in r.credited && h in r.blocks :: r.blocks[h].verified
    decreases steps
  {
    hide Apply, Enabled, Harmless;
    if steps == [] {
    } else {
      StepKeeps(p, s, steps[0]);
      CreditedOnce(p, Apply(p, s, steps[0]), steps[1..]);
    }
  }

  // ----- the condition is exact

  /** Steps may be put in front of a run. */
  lemma RunStep(p: Pool, s: PoolState, steps: seq<Step>)
    requires steps != [] && Enabled(p, s, steps[0]) && ValidRun(p, Apply(p, s, steps[0]), steps[1..])
    ensures ValidRun(p, s, steps) && Run(p, s, steps) == Run(p, Apply(p, s, steps[0]), steps[1..])
  {
  }

  lemma NoSteps(p: Pool, s: PoolState, steps: seq<Step>)
    requires steps == []
    ensures ValidRun(p, s, steps) && Run(p, s, steps) == s
  {
  }

  /** A stored, unmarked height is submitted for by a new miner and won, once a later block makes it ripe. */
  function WinAgain(later: nat, info: BlockInfo): seq<Step> {
    [Arrive(later), Join(info.generator), Submit(info.height, info.generator), Won(info, map[])]
  }

  lemma WonAgain(p: Pool, s: PoolState, later: nat, info: BlockInfo)
    requires info.height in s.blocks && !s.blocks[info.height].verified && info.generator != p.payouts.feeAccount
    requires later !in s.blocks && s.currentHeight < later < HEIGHT_LIMIT && !TooOld(p.nAvg, s.currentHeight, later)
    requires info.height + p.payoutDelay <= later
    ensures ValidRun(p, s, WinAgain(later, info))
    ensures Run(p, s, WinAgain(later, info)).credited == s.credited + [info.height]
  {
    hide Credits, TotalReward, Rewarded, Run, ValidRun, TooOld;
    var steps := WinAgain(later, info);
    var s1 := ArriveStep(s, later);
    var s2 := JoinStep(s1, info.generator);
    var s3 := SubmitStep(s2, info.height, info.generator);
    var s4 := WonStep(p, s3, info, map[]);
    RipeLater(p, later, info.height);
    NoSteps(p, s4, steps[4..]);
    RunStep(p, s3, steps[3..]);
    RunStep(p, s2, steps[2..]);
    RunStep(p, s1, steps[1..]);
    RunStep(p, s, steps);
  }

  lemma RipeLater(p: Pool, c: nat, h: nat)
    requires h + p.payoutDelay <= c < HEIGHT_LIMIT
    ensures Ripe(p, c, h)
  {
    assert (c - p.payoutDelay) % TWO_TO_THE_64 == c - p.payoutDelay;
  }

  /**
   What follows a cleanup that let height h go: if h was the current height, the
   next block arrives first; then h arrives again, and is won again.
   */
  function Repetition(p: Pool, c: nat, info: BlockInfo): seq<Step> {
    (if info.height == c then [Arrive(c + 1)] else []) + [Arrive(info.height)] + WinAgain(c + p.payoutDelay + 2, info)
  }

  lemma HeightReturns(p: Pool, s: PoolState, info: BlockInfo)
    requires info.height !in s.blocks && info.height <= s.currentHeight && info.generator != p.payouts.feeAccount
    requires 0 < p.nAvg <= HEIGHT_LIMIT && 0 < s.currentHeight && s.currentHeight + p.payoutDelay + 2 < HEIGHT_LIMIT
    requires forall h | h in s.blocks :: h <= s.currentHeight
    requires !TooOld(p.nAvg, s.currentHeight, info.height)
    ensures var steps := Repetition(p, s.currentHeight, info);
            ValidRun(p, s, steps) && Run(p, s, steps).credited == s.credited + [info.height]
  {
    var c, h, later := s.currentHeight, info.height, s.currentHeight + p.payoutDelay + 2;
    TooOldMeans(p.nAvg, c, h);
    TooOldMeans(p.nAvg, c, c + 1);
    TooOldMeans(p.nAvg, c + 1, h);
    TooOldMeans(p.nAvg, c, later);
    TooOldMeans(p.nAvg, c + 1, later);
    hide TooOld, Run, ValidRun, WinAgain;
    var rest := [Arrive(h)] + WinAgain(later, info);
    assert rest[1..] == WinAgain(later, info);
    if h == c {
      var s1 := ArriveStep(s, c + 1);
      var s2 := ArriveStep(s1, h);
      WonAgain(p, s2, later, info);
      RunStep(p, s1, rest);
      var steps := Repetition(p, c, info);
      assert steps == [Arrive(c + 1)] + rest && steps[1..] == rest;
      RunStep(p, s, steps);
    } else {
      WonAgain(p, ArriveStep(s, h), later, info);
      RunStep(p, s, rest);
      assert Repetition(p, c, info) == rest;
    }
  }

  lemma {:induction false} CreditedTwice(heights: seq<nat>, h: nat)
    requires h in heights
    ensures !Distinct(heights + [h])
  {
    var i :| 0 <= i < |heights| && heights[i] == h;
    assert (heights + [h])[i] == (heights + [h])[|heights|];
  }

  /** The steps contain no cleanup, and heights stay in range. */
  ghost predicate Plain(steps: seq<Step>) {
    forall i | 0 <= i < |steps| :: !steps[i].Clean? && (steps[i].Arrive? ==> steps[i].height < HEIGHT_LIMIT)
  }

  lemma {:induction false} PlainIsHarmless(p: Pool, s: PoolState, steps: seq<Step>)
    requires ValidRun(p, s, steps) && Plain(steps)
    ensures HarmlessRun(p, s, steps)
    decreases steps
  {
    hide Apply, Enabled;
    if steps == [] {
    } else {
      assert forall i | 0 <= i < |steps| - 1 :: steps[1..][i] == steps[i + 1];
      PlainIsHarmless(p, Apply(p, s, steps[0]), steps[1..]);
    }
  }

  /** No run from here, without a further cleanup, credits a height twice. */
  ghost predicate NeverTwice(p: Pool, s: PoolState) {
    forall steps | ValidRun(p, s, steps) && Plain(steps) :: Distinct(Run(p, s, steps).credited)
  }

  /** If a credited height can return, an explicit run credits it twice: the earlier reward and the later one. */
  lemma ReturnCreditsTwice(p: Pool, s: PoolState, commit: bool, info: BlockInfo)
    requires Inv(p, s) && s.currentHeight + p.payoutDelay + 2 < HEIGHT_LIMIT && info.generator != p.payouts.feeAccount
    requires info.height in s.credited && info.height in s.blocks && Removed(p, s, commit, info.height)
    requires !TooOld(p.nAvg, s.currentHeight, info.height)
    ensures var t := CleanPool(p, s, commit);
            var steps := Repetition(p, s.currentHeight, info);
            ValidRun(p, t, steps) && Plain(steps) && !Distinct(Run(p, t, steps).credited)
  {
    CleanRemoves(p, s, commit);
    hide CleanPool, Removed, TooOld, ValidRun, Run, Distinct;
    HeightReturns(p, CleanPool(p, s, commit), info);
    CreditedTwice(s.credited, info.height);
  }

  /** After a cleanup each height is credited at most once, on every run, exactly when no credited height can return. */
  lemma CleanIsSafeIff(p: Pool, s: PoolState, commit: bool)
    requires Inv(p, s) && s.currentHeight + p.payoutDelay + 2 < HEIGHT_LIMIT
    ensures NeverTwice(p, CleanPool(p, s, commit)) <==> NothingReturns(p, s, commit)
  {
    var t := CleanPool(p, s, commit);
    if NothingReturns(p, s, commit) {
      CleanKeepsInv(p, s, commit);
      forall steps | ValidRun(p, t, steps) && Plain(steps)
        ensures Distinct(Run(p, t, steps).credited)
      {
        PlainIsHarmless(p, t, steps);
        CreditedOnce(p, t, steps);
      }
    } else {
      var h :| h in s.credited && h in s.blocks && Removed(p, s, commit, h) && !TooOld(p.nAvg, s.currentHeight, h);
      var info := BlockInfo(h, p.payouts.feeAccount + 1, 0, 0);
      ReturnCreditsTwice(p, s, commit, info);
      assert !NeverTwice(p, t);
    }
  }

  // ----- the condition on heights alone

  /** Every winner and best author has a miner row or is the fee account. */
  ghost predicate AuthorsMine(p: Pool, s: PoolState) {
    forall h, id | h in s.blocks && id in Authors(s.blocks[h].block) :: !Rowless(p, s, id)
  }

  /** A cleanup at height c removes height h, and h may still arrive. */
  predicate Reenters(nAvg: nat, c: nat, h: nat) {
    h <= c && h < Cutoff(c) && !TooOld(nAvg, c, h)
  }

  /**
   Some height can reenter exactly in a chain below 5000 with its window inside, or
   with a window longer than 5000.
   */
  lemma ReentersIff(nAvg: nat, c: nat)
    requires 0 < c < HEIGHT_LIMIT && 0 < nAvg <= HEIGHT_LIMIT
    ensures (exists h :: Reenters(nAvg, c, h)) <==> nAvg <= c && (c < 5000 || nAvg > 5000)
  {
    CutoffValue(c);
    if nAvg <= c && (c < 5000 || nAvg > 5000) {
      TooOldMeans(nAvg, c, c - nAvg);
      assert Reenters(nAvg, c, c - nAvg);
    }
    forall h | Reenters(nAvg, c, h)
      ensures nAvg <= c && (c < 5000 || nAvg > 5000)
    {
      TooOldMeans(nAvg, c, h);
    }
  }

  /** When all winners and best authors mine, a cleanup is safe exactly when no credited height reenters. */
  lemma SafeByHeights(p: Pool, s: PoolState, commit: bool)
    requires Inv(p, s) && AuthorsMine(p, s)
    ensures NothingReturns(p, s, commit)
            <==> forall h | h in s.credited && h in s.blocks :: !Reenters(p.nAvg, s.currentHeight, h)
  {
    hide TooOld, Cutoff, AccountsLeave;
  }

  /** So on a chain from height 5000 on, with a window of at most 5000 blocks, every cleanup is safe. */
  lemma MatureIsSafe(p: Pool, s: PoolState, commit: bool)
    requires Inv(p, s) && AuthorsMine(p, s) && p.nAvg <= 5000 <= s.currentHeight
    ensures NothingReturns(p, s, commit)
  {
    SafeByHeights(p, s, commit);
    ReentersIff(p.nAvg, s.currentHeight);
  }

  /** Block 900 of a young chain, credited and cleaned away at height 1000, is credited a second time. */
  lemma EarlyCleanCreditsTwice(p: Pool, s: PoolState)
    requires p.nAvg == 360 && p.payoutDelay == 10 && p.payouts.feeAccount == 0
    requires s == PoolState(map[7 := Account(0, None, None, None)], {7},
                            map[900 := Row(true, Some(0), Block(Some(7), Some(7))),
                                1000 := Row(false, None, Block(None, None))],
                            {(900, 7)}, 1000, [900])
    ensures Inv(p, s) && AuthorsMine(p, s) && Reenters(p.nAvg, 1000, 900)
    ensures !NeverTwice(p, CleanPool(p, s, true)) && !NeverTwice(p, CleanPool(p, s, false))
  {
    CutoffValue(1000);
    TooOldMeans(360, 1000, 900);
    hide TooOld, NeverTwice;
    assert Inv(p, s);
    SafeByHeights(p, s, true);
    SafeByHeights(p, s, false);
    CleanIsSafeIff(p, s, true);
    CleanIsSafeIff(p, s, false);
  }

  /** So is block 14500 of an older chain when the window is longer than 5000 blocks. */
  lemma LongWindowCreditsTwice(p: Pool, s: PoolState)
    requires p.nAvg == 6000 && p.payoutDelay == 10 && p.payouts.feeAccount == 0
    requires s == PoolState(map[7 := Account(0, None, None, None)], {7},
                            map[14500 := Row(true, Some(0), Block(Some(7), Some(7))),
                                20000 := Row(false, None, Block(None, None))],
                            {(14500, 7)}, 20000, [14500])
    ensures Inv(p, s) && AuthorsMine(p, s) && Reenters(p.nAvg, 20000, 14500)
    ensures !NeverTwice(p, CleanPool(p, s, true)) && !NeverTwice(p, CleanPool(p, s, false))
  {
    CutoffValue(20000);
    TooOldMeans(6000, 20000, 14500);
    hide TooOld, NeverTwice;
    assert Inv(p, s);
    SafeByHeights(p, s, true);
    SafeByHeights(p, s, false);
    CleanIsSafeIff(p, s, true);
    CleanIsSafeIff(p, s, false);
  }
}
