# Nogrod: a verified model of the pool's core

Nogrod is a mining pool for Burst. This Dafny project models the parts of it
where a mistake costs money or locks out miners, and proves what they promise:

- **Addresses** (`Gf32`, `ReedSolomon`, `Radix`, `AddressCodec`, `AddressMethods`):
  the Reed-Solomon address codec over GF(32), from the log tables and the in-place
  base conversion to the printed address, its round trips and its minimum distance.
- **Deadlines** (`Shabal`, `ShabalTape`, `ShabalFirst`, `ShabalSecond`,
  `ShabalInitial`, `ShabalLanes`, `ShabalAsm`, `DeadlineSpec`, `DeadlineLaws`,
  `DeadlineMethods`, `WorkerMethods`): Shabal-256 as a one-lane specification with its
  first two compressions computed word by word, the 4- and 8-lane C code and the
  sliding-window assembly proved against it, streaming, and whole deadlines lane by lane.
- **Batching** (`Batching`, `BatchingProofs`): the goroutines that gather deadline
  requests, as interleaved atomic steps with a timer that may be stale.
- **Ledger** (`Tables`, `PayoutMessages`, `PayoutSteps`, `PayoutDates`, `Cleanup`,
  `PayoutCycle`, `PayoutSettings`, `PayoutRepeats`, `PayoutConservation`, `PayoutSafety`,
  `PayoutChecks`, `Payouts`): the tables as maps, each committed database transaction as
  one step, and conservation, at-most-once sending and due dates over every run.
- **Rewards** (`Rewards`, `RewardLaws`, `RewardCycle`, `RewardDelay`, `RewardMethods`):
  the division of a block reward, and blocks from arrival to reward over every run.
- **Caches** (`BlockWindow`, `MinerSums`, `MinerLaws`, `MinerMethods`, `Forge`): the
  bounded window of block heights, each miner's running deadline sum with shared
  objects, and the best submission kept by the forge loop.

Code that updates state in place is a class or a method over an array whose
contract equates the new state with a function of the old one; the theorems are
lemmas about those functions and about runs of them. `dafny verify dfyconfig.toml`
checks the whole project.

Where an expected property is false of the code, the model keeps the code; a lemma
shows an input and another says exactly when the property holds:

- the whole reward is credited: `Rewards.GeneratorWithoutShare`, `Rewards.FeeAccountWithShare`; `Rewards.ForfeitDecides`, `Rewards.NothingForfeitedIff`
- a message read again is free: `PayoutRepeats.ZeroIsChargedEachTime`; `PayoutMessages.SecondPass`, `PayoutMessages.AcceptedAgain`
- payments are not negative: `PayoutDates.NegativeMinimumPays`; `PayoutMessages.NegativeAccepted`, `PayoutSteps.NegativePayment`, `PayoutConservation.PaymentsStayNonNegative`
- a cleanup conserves the balance: `Cleanup.IdleMinerLosesRow`, `Cleanup.BestAuthorLosesRow`; `Cleanup.CleanConservesIff`, `PayoutConservation.ConservedIff`
- a height is credited once: `RewardCycle.EarlyCleanCreditsTwice`, `RewardCycle.LongWindowCreditsTwice`; `RewardCycle.CleanIsSafeIff`, `RewardCycle.ReentersIff`
- a block waits for its reward: `RewardDelay.LowChainRewardsAtOnce`; `RewardDelay.RipeMeans`, `RewardDelay.RunWaits`
- the running sum is exact: `MinerSums.AliasedImprovementDrifts`; `MinerSums.SumAgrees`
- submissions for fast blocks are turned away: `MinerSums.FastBlockIsCounted`; `MinerMethods.FastBlockIff`
- the kept submission survives a restart: `Forge.RestartLosesBest`; `Forge.RestartIff`
- a full batch disarms the timer: `BatchingProofs.FullBatchLeavesTimerArmed`, always

## Model

| member | source | states |
|---|---|---|
| Gf32.GmultIsMul | pkg/rsencoding/encoding.go:15-32 | multiplication through the log tables is polynomial multiplication modulo x^5+x^2+1, for all symbols |
| Gf32.GexpIsPower | pkg/rsencoding/encoding.go:15-23 | entry n mod 31 of the exponent table is the n-th power of 2 |
| Gf32.MulLaws | pkg/rsencoding/encoding.go:25-32 | the product is commutative, associative and distributes over XOR |
| Gf32.MulUnits | pkg/rsencoding/encoding.go:25-32 | 1 is neutral and a product is zero only if a factor is |
| Gf32.PowerOrder | pkg/rsencoding/encoding.go:15-32 | powers of 2 are equal exactly when their exponents agree modulo 31 |
| ReedSolomon.IsCodewordValid | pkg/rsencoding/encoding.go:168-190 | the nested loops accept a word exactly when its four syndromes vanish |
| ReedSolomon.EliminateSyndrome | pkg/rsencoding/encoding.go:168-190 | cancelling one position turns a pair of neighbouring syndromes into one of the shorter word: the step that makes any four columns independent |
| ReedSolomon.SmallSupportIsZero | pkg/rsencoding/encoding.go:168-190 | a nonzero word whose first m syndromes vanish has more than m nonzero symbols |
| ReedSolomon.MinimumDistance | pkg/rsencoding/encoding.go:168-190 | two distinct words that both pass the syndrome check differ in at least five positions |
| ReedSolomon.DataDeterminesCodeword | pkg/rsencoding/encoding.go:168-190 | the 13 data symbols of a valid word determine its parity symbols |
| ReedSolomon.ParityAtRoot | pkg/rsencoding/encoding.go:71-80 | the register after a message of any length is its product with x^4 modulo the generator, evaluated at any root |
| ReedSolomon.GeneratorRoots | pkg/rsencoding/encoding.go:71-80 | the feedback constants 30, 6, 9, 17 are the polynomial with roots a, a^2, a^3, a^4 |
| ReedSolomon.ParityCancels | pkg/rsencoding/encoding.go:71-93 | for a message of any length, the register placed at exponents 27 to 30 cancels it at all four roots, because a^31 = 1 |
| ReedSolomon.EncodedIsCodeword | pkg/rsencoding/encoding.go:71-93 | data followed by its register passes the syndrome check |
| ReedSolomon.CodewordIffParity | pkg/rsencoding/encoding.go:71-93 | a word passes the syndrome check exactly when its last four symbols are the parity of its first thirteen |
| Radix.DivideInPlace | pkg/rsencoding/encoding.go:44-69 | one pass over the digit array leaves the digits of the quotient in place, without leading zeros, returns the remainder, and writes nowhere else: the write index never passes the read index |
| Radix.ValueOfDigits | pkg/rsencoding/encoding.go:44-69 | as many digits of a number as it has, read back in the base, give the number |
| Radix.DigitsOfValue | pkg/rsencoding/encoding.go:129-159 | the digits of the value of a digit sequence are that sequence |
| AddressMethods.FillDigits | pkg/rsencoding/encoding.go:38-69 | the repeated in-place division of the decimal text writes the base-32 expansion, at most 13 symbols, and ends because the value falls |
| AddressMethods.FillParity | pkg/rsencoding/encoding.go:71-82 | the shift register loop writes the parity of the 13 data symbols behind them |
| AddressMethods.PrintWord | pkg/rsencoding/encoding.go:84-96 | the printing loop yields the permuted word in the alphabet with a dash after 4, 8 and 12 symbols |
| AddressMethods.Encode | pkg/rsencoding/encoding.go:35-96 | the whole encoder returns the specified address for every 64-bit number; EncodedAt says which characters that is |
| AddressMethods.ReadWord | pkg/rsencoding/encoding.go:100-127 | the reading loop skips what is not in the alphabet, places symbols by the permutation and refuses more than 17 |
| AddressMethods.FormatData | pkg/rsencoding/encoding.go:129-159 | the second in-place conversion yields a decimal text with the value of the data symbols |
| AddressMethods.Decode | pkg/rsencoding/encoding.go:99-166 | the whole decoder returns the specified result, errors included, for every string; DecodeIffEncode and DecodeErrors say which that is |
| AddressCodec.RoundTrip | pkg/rsencoding/encoding.go:35-166 | decoding the encoding of any 64-bit number gives the number back |
| AddressCodec.DecodeIffEncode | pkg/rsencoding/encoding.go:99-166 | a string of any length decodes to x exactly when its alphabet characters, in order, are those of the encoding of x |
| AddressCodec.DecodeOfCodeword | pkg/rsencoding/encoding.go:99-166 | a valid word decodes exactly when its data value is below 2^64 |
| AddressCodec.FourErrorsDetected | pkg/rsencoding/encoding.go:99-190 | changing one to four alphabet characters of an encoded address makes decoding fail |
| AddressCodec.EncodedAt | pkg/rsencoding/encoding.go:17-96 | every one of the twenty characters of an address: base-32 digits 3 to 0, a dash, digits 7 to 4, a dash, the four parity symbols in order, a dash, digit 12 and digits 8 to 11 |
| AddressCodec.LetterIs | pkg/rsencoding/encoding.go:18-20 | the letters are 2 to 9, A to H, J to N and P to Z in order |
| AddressCodec.DecodeOfSpelled | pkg/rsencoding/encoding.go:99-166 | a string whose alphabet characters are those printed for a number of thirteen digits decodes to it, or is out of range from 2^64 on |
| AddressCodec.DecodeErrors | pkg/rsencoding/encoding.go:99-166 | which error a string gets: too long exactly with more than 17 alphabet characters, out of range exactly if it spells a number from 2^64 on, invalid exactly if it is not too long and spells no number; no other error occurs |
| Shabal.FeedTwice | pkg/burstmath/libs/mshabal256_avx2.c:306-375 | feeding two pieces one after the other is feeding their concatenation: same state, counter and buffered bytes |
| Shabal.ChunkingIndependent | pkg/burstmath/libs/mshabal256_avx2.c:306-375 | the same for any number of pieces of any lengths |
| Shabal.InitialCounterIsOne | pkg/burstmath/libs/mshabal256_avx2.c:248-304 | the counter starts at -1 and is 1 when the first message block is compressed |
| Shabal.RotationLaws | pkg/burstmath/libs/mshabal256_avx2.c:85-105 | the shifts and ORs rotate a word left by 1, 15 and 17 places |
| Shabal.ProductLaws | pkg/burstmath/libs/mshabal256_avx2.c:92-96 | the shifts and additions multiply by 3 and 5 modulo 2^32 |
| Shabal.PreparedAt | pkg/burstmath/libs/mshabal256_avx2.c:78-87 | before the rounds the counter halves go into A[0] and A[1] and the message into B |
| Shabal.StoredWord | pkg/burstmath/libs/mshabal_sse4.c:338-380 | a word is stored low byte first, and loading its bytes gives it back |
| Shabal.PaddedAt | pkg/burstmath/libs/mshabal_sse4.c:338-360 | the closed block is the partial block, one byte 0x80, and zeros |
| Shabal.FinishAt | pkg/burstmath/libs/mshabal_sse4.c:338-380 | byte 4k+i of the digest is byte i of word 8+k of C after four compressions of the closed block at one counter |
| ShabalTape.TapeStep | pkg/burstmath/libs/mshabal256_avx2.c:89-165 | written out as two sequences, every round appends one A word and one B word, computed from two A and four B words at fixed distances |
| ShabalInitial.FirstCompressed | pkg/burstmath/libs/mshabal256_avx2.c:260-281 | all 44 words of the state after the first counting block, computed round by round |
| ShabalInitial.TableIsInitialState | pkg/burstmath/libs/shabal64.s:1331-1342 | the 44 words of the table for 256 bits are the state after the two counting blocks: both compressions, all 96 rounds, on these words |
| ShabalLanes.Registers.Pp | pkg/burstmath/libs/mshabal256_avx2.c:94-111 | one round on the vectors is the one-lane round in every lane |
| ShabalLanes.Registers.Compress | pkg/burstmath/libs/mshabal256_avx2.c:65-228 | the vector compression of a block is the one-lane compression in every lane; TableIsInitialState says what that computes on two blocks |
| ShabalLanes.Context.Compress | pkg/burstmath/libs/mshabal256_avx2.c:35-245 | any number of blocks, with the counter raised after each |
| ShabalLanes.Context.Init | pkg/burstmath/libs/mshabal_sse4.c:226-262 | every lane starts in the state reached from zero by the two counting blocks |
| ShabalLanes.Context.Update | pkg/burstmath/libs/mshabal256_avx2.c:306-375 | for data of any length each lane's state, counter and buffered prefix are those of the one-lane stream, and the pointer stays below 64 |
| ShabalLanes.Context.Close | pkg/burstmath/libs/mshabal_sse4.c:338-380 | each lane's digest is the one-lane digest: padding, then four compressions at one unchanged counter |
| ShabalAsm.AsmMixAIsMixA | pkg/burstmath/libs/shabal64.s:83-1184 | the assembly's regrouped XORs compute the new A word |
| ShabalAsm.PlusRegroup | pkg/burstmath/libs/shabal64.s:1100-1184 | the assembly's order of the A+C additions gives the same sum |
| ShabalAsm.IncrementCounter | pkg/burstmath/libs/shabal64.s:58-82 | the 64-bit counter register increments as the two 32-bit halves do |
| ShabalAsm.WindowStep | pkg/burstmath/libs/shabal64.s:83-1184 | writing word u+16 moves the 16-word view of the 64-word window by one: the rotation of B |
| ShabalAsm.AsmRound | pkg/burstmath/libs/shabal64.s:83-1184 | one assembly round on the window is one round on the rotating state |
| ShabalAsm.AsmContext.Init | pkg/burstmath/libs/shabal64.s:1203-1235 | copying the table and setting the counter to 1 starts the one-lane stream |
| ShabalAsm.AsmContext.InnerBlock | pkg/burstmath/libs/shabal64.s:58-1196 | 48 window rounds, the additions and the final B and C assignment compute the compression of the block |
| ShabalAsm.AsmContext.Inner | pkg/burstmath/libs/shabal64.s:58-1196 | the block loop absorbs any number of blocks |
| ShabalAsm.AsmContext.Update | pkg/burstmath/libs/shabal64.s:1526-1644 | buffered streaming through the assembly is the one-lane stream |
| ShabalAsm.AsmContext.Close | pkg/burstmath/libs/shabal64.s:1645-1729 | the digest is that of the one-lane stream |
| DeadlineSpec.ExtendLength | pkg/burstmath/libs/burstmath.c:59-69 | the nonce generation, 32 bytes in front at a time, ends with exactly the nonce size for any seed |
| DeadlineLaws.SeedAt | pkg/burstmath/libs/burstmath.c:23-32 | behind the nonce data stand the account id and the nonce, each with its eight base-256 digits high digit first |
| DeadlineLaws.NonceDataIff | pkg/burstmath/libs/burstmath.c:53-68 | the nonce data is the one sequence of 262160 bytes that ends in the seed and in which each of the 8192 blocks of 32 bytes is the hash of the 4096 bytes behind it, or of all behind it if fewer |
| DeadlineLaws.ScoopAt | pkg/burstmath/libs/burstmath.c:74-84 | the 64 bytes of a scoop by position: bytes of block n covered by the final hash, then bytes 32 to 63 of block 4095-n |
| DeadlineLaws.DeadlineByPlaces | pkg/burstmath/libs/burstmath.c:48-91 | the deadline from bytes alone: any data chained so, its hash, any 96 bytes standing so, and the first eight digest bytes low byte first divided by the base target |
| DeadlineMethods.GenerateLanes | pkg/burstmath/libs/burstmath.c:147-170 | the backward loop fills every lane with that request's own nonce data |
| DeadlineMethods.CoverLanes | pkg/burstmath/libs/burstmath.c:172-194 | the in-place XOR covers every lane with its own final hash |
| DeadlineMethods.CalculateDeadlines | pkg/burstmath/libs/burstmath.c:93-211 | for every request array the deadline of each lane is that of its request alone, which DeadlineByPlaces describes; for 4 and for 8 lanes |
| DeadlineMethods.CalculateDeadline | pkg/burstmath/libs/burstmath.c:48-91 | the scalar routine, on the assembly version and its table, computes the same deadline |
| WorkerMethods.ProcessReqs | pkg/burstmath/burstmath.go:258-277 | each live request is answered with its own deadline, whatever pads the batch |
| Batching.CollectorLoop.OnRequest | pkg/burstmath/burstmath.go:162-226 | the live requests of the batch sent, if any, followed by those still waiting are those waiting before and the new one; a batch is sent exactly when the request completes it, and is then full; fewer than a batch wait, and the timer is armed; for batches of 4 and of 8 |
| Batching.CollectorLoop.OnTimeout | pkg/burstmath/burstmath.go:162-226 | the live requests of the batch sent are exactly those waiting, be it none, nothing waits afterwards, the slot that pads the batch holds a request, and the timer is off |
| BatchingProofs.StepKeeps | pkg/burstmath/burstmath.go:162-277 | every step of every goroutine keeps the invariant |
| BatchingProofs.BatchesInOrder | pkg/burstmath/burstmath.go:162-226 | over every run, the live prefixes of the batches followed by the pending prefix are the requests received, in order; pending stays below the batch size; a pending request has an armed timer; every slot a worker reads holds a request |
| BatchingProofs.AnsweredOnce | pkg/burstmath/burstmath.go:162-277 | over every run no request is answered twice, and each answer is the request's own deadline |
| BatchingProofs.InternalStepsEnd | pkg/burstmath/burstmath.go:162-277 | every step but an arrival lowers a measure, so work ends once arrivals stop |
| BatchingProofs.AtRestAllAnswered | pkg/burstmath/burstmath.go:162-277 | when nothing can move, exactly the received requests have been answered |
| BatchingProofs.WorkerCanMove | pkg/burstmath/burstmath.go:237-277 | no busy worker is ever stuck |
| BatchingProofs.FullBatchLeavesTimerArmed | pkg/burstmath/burstmath.go:162-226 | a full batch leaves the timer armed, and firing it then sends an empty batch |
| PayoutSteps.CreateConserves | pkg/modelx/modelx.go:1079-1208 | a committed payout keeps pending plus recorded amounts plus network fees, less the fee margin when the fee account is missing |
| PayoutSteps.PaymentMovesPending | pkg/modelx/modelx.go:1150-1185 | what leaves the due accounts arrives in the recipient rows and the miner fees |
| PayoutSteps.RowsOfPayment | pkg/modelx/modelx.go:1177-1185 | the rows of the j-th new transaction are the j-th run of 64 payments |
| PayoutSteps.CreateBatches | pkg/modelx/modelx.go:1127-1187 | for any number of due accounts each new transaction has 1 to 64 recipients, all different |
| PayoutSteps.CountIsCeiling | pkg/modelx/modelx.go:1127-1132 | n due accounts take n/64 transactions, rounded up |
| PayoutSteps.NegativePayment | pkg/modelx/modelx.go:1082-1089 | a due account is never paid a negative amount, whatever is pending and whenever, exactly when its minimum payout is not negative |
| PayoutMessages.ProcessAllConserves | pkg/modelx/modelx.go:1284-1398 | any list of messages keeps the total pending, or loses exactly the charges when the fee account is missing |
| PayoutMessages.NeverOverdrawn | pkg/modelx/modelx.go:1366-1390 | with non-negative fees no message takes a balance below zero, or lowers one already below |
| PayoutMessages.SenderOutcome | pkg/modelx/modelx.go:1293-1398 | each sender's outcome depends on his own account and message only, whatever the order of the map |
| PayoutMessages.FeeAccountOutcome | pkg/modelx/modelx.go:1293-1398 | the fee account gains every charge, whatever the order of the map |
| PayoutMessages.OthersUntouched | pkg/modelx/modelx.go:1293-1398 | accounts that sent nothing stay as they are |
| PayoutMessages.AcceptedAgain | pkg/modelx/modelx.go:1302-1364 | a message read a second time is charged again exactly when it is the number 0 and the account could pay the fee twice |
| PayoutMessages.SecondPass | pkg/modelx/modelx.go:1284-1398 | reading the same messages again, in any order, changes nothing exactly when no sender of the number 0 could pay twice |
| PayoutMessages.NegativeAccepted | pkg/modelx/modelx.go:1340-1362 | minimum payouts stay non-negative exactly when no negative number is accepted, and any affordable one is |
| PayoutRepeats.AcceptedOnce | pkg/modelx/modelx.go:1284-1398 | once an account has a setting, reading its message again is free on every run, with rewards, payouts, other messages and cleanups in between |
| PayoutRepeats.AcceptedThenRepeated | pkg/modelx/modelx.go:1302-1362 | an accepted message leaves the account with its setting, unless it is the number 0 |
| PayoutRepeats.ZeroIsChargedEachTime | pkg/modelx/modelx.go:1340-1398 | the number 0 read n times is charged n times, as far as the account can pay |
| PayoutDates.IntervalTakesEffect | pkg/modelx/modelx.go:1302-1338 | after an accepted interval the account is due exactly from its first date on, with any amount that covers the fee |
| PayoutDates.AmountTakesEffect | pkg/modelx/modelx.go:1340-1362 | after an accepted number the account is due exactly at that amount and the fee, and after 0 at the pool's minimum |
| PayoutDates.PaidComesDue | pkg/modelx/modelx.go:1157-1175 | a paid weekly or daily account is due again exactly one interval later; one paid at once falls back to the pool's minimum |
| PayoutDates.PaidStaysDue | pkg/modelx/modelx.go:1157-1175 | a payment to an account without an interval leaves its payout condition as it was |
| PayoutDates.MessagePrice | pkg/modelx/modelx.go:1302-1390 | an accepted weekly, daily or now message or number takes its own fee |
| PayoutSettings.SettingsAlong | pkg/modelx/modelx.go:1079-1398 | over every run that accepts no message from an account its minimum and interval stay, and its date is what its last payment made it, whatever rewards, payouts and cleanups come between |
| PayoutSettings.JoinedIsDefault | pkg/modelx/modelx.go:592-634 | a miner who joins for the first time has no settings and nothing pending, and no other row changes |
| PayoutSettings.DefaultAlong | pkg/modelx/modelx.go:1082-1089 | so an account without settings is due on every such run exactly at the pool minimum and the fee |
| PayoutSettings.AmountAlong | pkg/modelx/modelx.go:1082-1089 | one with an accepted number exactly at that amount and the fee, at the pool minimum after 0 |
| PayoutSettings.IntervalAlong | pkg/modelx/modelx.go:1082-1089 | one with an accepted interval, with the fee covered, exactly from one interval after its last payment or the message; after a payment at once at the pool minimum |
| PayoutDates.NegativeMinimumPays | pkg/modelx/modelx.go:1341-1351 | a minimum of -50 is accepted, and the miner is due with a payment of -40 |
| PayoutDates.NothingDueAfter | pkg/modelx/modelx.go:1079-1208 | right after a payout no account is due but perhaps the fee account, given a positive fee and non-negative minima |
| Cleanup.CleanKeeps | pkg/modelx/modelx.go:334-367 | the cleanup keeps exactly the accounts, blocks and transactions that stay, told before it: an account unless accounts go and it neither mines nor takes the fees; a block unless old, or the account of its winner or of its best submission goes; a transaction unless confirmed in a block that goes; everything kept is unchanged but for the pending amount of the fee account, and the miners left are the active ones |
| Cleanup.IdleAccountsGo | pkg/modelx/modelx.go:348-364 | a committed cleanup takes every account that neither mines nor takes the fees, and changes none when all mine, as the sum over nobody is NULL |
| Cleanup.CleanDrift | pkg/modelx/modelx.go:334-367 | a cleanup loses exactly the amounts of the rows whose transaction or account does not stay, and the pending amounts overwritten |
| Cleanup.CleanConservesIff | pkg/modelx/modelx.go:334-367 | with non-negative row amounts and balances, a cleanup conserves the balance exactly when no row with an amount loses its transaction or account, a mining fee account has nothing pending, and without a fee account nobody outside has |
| Cleanup.BestAuthorLosesRow | pkg/modelx/modelx.go:334-367 | an account without a miner row takes the block that names its submission, the transaction confirmed there, and another miner's recorded 30 with it |
| Cleanup.IdleMinerLosesRow | pkg/modelx/modelx.go:334-367 | a ledger whose idle miner leaves: the balance falls by the 30 recorded for him |
| Cleanup.ReadyLosesNothing | pkg/modelx/modelx.go:348-352 | no pending amount is lost, whatever the balances, when the fee account exists and does not mine |
| Cleanup.RemainingConserves | pkg/modelx/modelx.go:348-364 | moving the pending amounts of leaving accounts to the fee account keeps the total, except that a mining fee account's own amount is overwritten, and without a fee account everything outside is lost |
| Cleanup.CleanKeepsRows | pkg/modelx/modelx.go:334-367 | the recipient rows left are exactly those whose transaction and account stay, told before the cleanup |
| Cleanup.BlocksAfterPruning | pkg/modelx/modelx.go:337-338 | blocks up to 5000 below the current height stay; below height 5000 the unsigned subtraction wraps and every block goes |
| PayoutCycle.StepDrift | pkg/modelx/modelx.go:334-1398 | every operation changes the balance by exactly its stated gain |
| PayoutCycle.LedgerConserved | pkg/modelx/modelx.go:334-1398 | over every sequence of joins, blocks, best submissions, rewards, messages, payouts, confirmations, sends and cleanups, if the fee account exists and does not mine, the balance changes by the rewards credited less the recorded rows that do not stay |
| PayoutConservation.PaymentsStayNonNegative | pkg/modelx/modelx.go:1079-1398 | from non-negative minima and amounts, over every run whose messages carry no negative number, no minimum and no recorded payment is negative |
| PayoutConservation.ConservedIff | pkg/modelx/modelx.go:334-1398 | if moreover the fee account exists and does not mine, the balance changes by the rewards alone exactly when no confirmation and no cleanup of the run meets a row with an amount that does not stay |
| PayoutConservation.DeletedByIff | pkg/modelx/modelx.go:989-1018 | an operation deletes no amount exactly when no row with an amount loses its transaction or account, judged before it |
| PayoutCycle.RunDrift | pkg/modelx/modelx.go:334-1398 | the same without any condition on the fee account, with every loss accounted for |
| PayoutSafety.RunNeverSendsTwice | pkg/modelx/modelx.go:989-1068 | over every run, between two sends of a row the wallet reported the earlier id unknown |
| PayoutSafety.FromTheStart | pkg/modelx/modelx.go:989-1068 | the same from an empty transaction table |
| PayoutSafety.PastSend | pkg/modelx/modelx.go:1003-1008 | a past send is still open under its id or was reported unknown since |
| PayoutSafety.StepFits | pkg/modelx/modelx.go:1079-1208 | every operation keeps at most 64 different recipients in each transaction |
| PayoutSafety.RunSendsComplete | pkg/modelx/modelx.go:1032-1054 | every send of every run hands the wallet 1 to 64 payments, one for each row with that row's amount, adding up to what the transaction owes: the map loses nothing and the limit is never exceeded |
| PayoutSafety.PaymentsTotal | pkg/modelx/modelx.go:1046-1050 | the map built from distinct recipients adds up to the rows' amounts |
| PayoutSafety.PassIsRun | pkg/modelx/modelx.go:1020-1068 | a pass of sendMoney is a run of sends: each selected row is still unsent when its turn comes |
| PayoutChecks.AnswerOutcome | pkg/modelx/modelx.go:998-1016 | an answer reaches exactly the rows out under the id: unknown, they lose it; in a stored block, they are confirmed there; in another block, they go with their recipients |
| PayoutChecks.RowAlong | pkg/modelx/modelx.go:989-1068 | over every run a row left has the time of its last send and the height of its last confirmation; one not there before is new |
| PayoutChecks.AskedIff | pkg/modelx/modelx.go:991-994 | from an empty table, over every run, the wallet is asked about exactly the rows out under an id, never confirmed, and last sent before yesterday |
| PayoutChecks.ConfirmedForGood | pkg/modelx/modelx.go:989-1068 | a confirmed row is not asked about or sent on any later run |
| Payouts.Ledger.CreateTransactions | pkg/modelx/modelx.go:1079-1208 | the method performs the payout step, or nothing without a commit; SettingsAlong says what that step does to settings and dates, RowsOfPayment and CreateConserves what to amounts |
| Payouts.Ledger.SetMinPayout | pkg/modelx/modelx.go:1284-1398 | the loop over the messages is the fold of the message step |
| Payouts.Ledger.CleanDB | pkg/modelx/modelx.go:334-367 | the statements with their cascades are the cleanup step: on a failed account transaction, or on a NULL sum, blocks and miner rows are gone and the accounts stay |
| Payouts.Ledger.ValidateTransactions | pkg/modelx/modelx.go:989-1018 | the wallet is asked about exactly the stale unconfirmed ids, and each answer is applied to every row with that id |
| Payouts.Ledger.SendMoney | pkg/modelx/modelx.go:1020-1068 | each row without id and block is offered to the wallet once per pass |
| Payouts.Ledger.IdToAmount | pkg/modelx/modelx.go:1046-1050 | the loop builds the map of the rows' amounts |
| Rewards.RoundIsNearest | pkg/modelx/modelx.go:1437-1442 | rounding gives the nearest integer, halves away from zero |
| Rewards.SharesAddUp | pkg/modelx/modelx.go:861-914 | unless the capacity sum is zero the shares are not negative and add up to one; if it is zero there are none |
| RewardLaws.EepsLaw | pkg/modelx/modelx.go:1429-1435 | capacity times weighted sum is the strength of the number of deadlines times 240 genesis base targets; without a sum the capacity is 0 |
| RewardLaws.ShareRatio | pkg/modelx/modelx.go:861-914 | any two shares stand to each other as strength over weighted sum; a sum of zero or a single deadline means share 0 |
| RewardLaws.NoSharesIff | pkg/modelx/modelx.go:905-911 | nobody has a share exactly when every miner has no sum, one deadline or factor 0 |
| RewardLaws.PartsNearest | pkg/modelx/modelx.go:918-931 | the pool fee is the rounded part of block reward in planck plus fees, and the winner's part the rounded part of what the fee leaves |
| RewardLaws.CreditsNearest | pkg/modelx/modelx.go:933-943 | who is credited, and that a sharer gets the rounded share of what is left, plus the winner's part if he forged the block |
| RewardLaws.FeesAreShared | pkg/modelx/modelx.go:918 | a block with reward 1 and fees 30: the single sharer gets 100000030 |
| Rewards.RoundingError | pkg/modelx/modelx.go:939 | rounding n shares of a reward moves their sum by at most n/2 |
| Rewards.RewardDistributed | pkg/modelx/modelx.go:916-946 | with a nonzero capacity sum the total credited differs by at most n/2 from block reward plus transaction fees less what is forfeited: the winner's part if the generator is no sharer, the pool fee if the fee account is one |
| Rewards.ForfeitDecides | pkg/modelx/modelx.go:916-946 | the total is within n/2 of the block reward if nothing is forfeited, and is not if more than n planck are |
| Rewards.NothingForfeitedIff | pkg/modelx/modelx.go:921-942 | nothing is forfeited exactly when the generator shares or the winner gets no part, and the fee account does not share or gets no fee |
| Rewards.GeneratorWithoutShare | pkg/modelx/modelx.go:937-942 | a block whose generator has no share: half the reward goes to nobody |
| Rewards.FeeAccountWithShare | pkg/modelx/modelx.go:922-942 | a block whose fee account has a share: the fee is overwritten |
| Rewards.OnlyTheFee | pkg/modelx/modelx.go:905-946 | with a capacity sum of zero only the pool fee is credited |
| Rewards.CreditsNonNegative | pkg/modelx/modelx.go:916-946 | with fee and winner parts in [0,1] and a non-negative reward every credit is non-negative |
| Tables.RewardedTotal | pkg/modelx/modelx.go:957-969 | the credits raise the total pending by what reaches existing accounts |
| RewardCycle.CleanRemoves | pkg/modelx/modelx.go:334-367 | a cleanup removes exactly the old blocks and, if accounts go, those whose winner or best author has neither a miner row nor the fee account |
| RewardCycle.StepKeeps | pkg/modelx/modelx.go:334-987 | every arrival, submission, reward and harmless cleanup keeps the invariant that a credited height is marked or too old to arrive |
| RewardCycle.CreditedOnce | pkg/modelx/modelx.go:811-987 | over every run whose cleanups let no credited height return, each height is credited at most once, and stays marked while its block is stored |
| RewardCycle.CleanIsSafeIff | pkg/modelx/modelx.go:334-987 | after a cleanup each height is credited at most once on every run exactly when no credited height that the cleanup removes may still arrive |
| RewardCycle.ReturnCreditsTwice | pkg/modelx/modelx.go:334-987 | for every such height an explicit run credits it a second time |
| RewardCycle.ReentersIff | pkg/modelx/modelx.go:337-338 | at height c some removed height may still arrive exactly when the window fits below c and c is below 5000 or the window longer than 5000 |
| RewardCycle.SafeByHeights | pkg/modelx/modelx.go:334-367 | when every winner and best author has a miner row or is the fee account, a cleanup is safe exactly when no credited height is one of those |
| RewardCycle.MatureIsSafe | pkg/modelx/modelx.go:334-367 | so every cleanup from height 5000 on with a window of at most 5000 blocks is safe |
| RewardCycle.TooOldMeans | pkg/modelx/modelx.go:474-477 | the unsigned comparison refuses exactly the heights below the window, and all heights while the chain is shorter than the window |
| RewardCycle.TooOldStays | pkg/modelx/modelx.go:474-477 | a height refused once is refused after every arrival |
| RewardDelay.RipeMeans | pkg/modelx/modelx.go:792 | the unsigned comparison lets a block be rewarded exactly when it is payoutDelay below the current one, or the chain is shorter than that |
| RewardDelay.RunWaits | pkg/modelx/modelx.go:782-859 | from a chain as high as the delay no run credits a block less than payoutDelay below the current one |
| RewardDelay.LowChainRewardsAtOnce | pkg/modelx/modelx.go:792 | on a lower chain a block that has just arrived is rewarded at once |
| RewardCycle.EarlyCleanCreditsTwice | pkg/modelx/modelx.go:337-338 | block 900, cleaned away at height 1000, is credited twice on some run |
| RewardCycle.LongWindowCreditsTwice | pkg/modelx/modelx.go:337-338 | so is block 14500, cleaned away at height 20000 with a window of 6000 blocks |
| RewardCycle.CleanAgrees | pkg/modelx/modelx.go:334-367 | the cleanup of this model is the ledger's |
| RewardCycle.JoinAgrees | pkg/modelx/modelx.go:592-634 | a miner joins this model as he joins the ledger |
| RewardCycle.WonAgrees | pkg/modelx/modelx.go:957-976 | a reward changes this model as it changes the ledger |
| RewardCycle.BestAgrees | pkg/modelx/modelx.go:775-780 | a best submission is recorded in this model as in the ledger |
| RewardMethods.GetShares | pkg/modelx/modelx.go:861-914 | the loops yield each miner's part of the capacity sum, which ShareRatio and SharesAddUp determine |
| RewardMethods.ShareInPlanck | pkg/modelx/modelx.go:916-946 | the loop over the shares, in any order, yields the specified credits |
| RewardMethods.PoolLedger.RewardBlock | pkg/modelx/modelx.go:916-977 | credits and verified flag change together or not at all; a failed capacity query leaves the pool fee only |
| RewardMethods.PoolLedger.RewardBlocks | pkg/modelx/modelx.go:782-859 | a pass handles exactly the selected blocks: best submission recorded, verified unless the wallet or the commit failed, winner and reward stored for those won, each of which is credited once; and it is a run of enabled steps, so the theorems about runs cover it |
| BlockWindow.LargestIsUnique | pkg/modelx/cache.go:75-103 | a set of heights has one choice of its k largest |
| BlockWindow.Blocks.Add | pkg/modelx/cache.go:75-103 | the list stays strictly ascending, the index maps exactly its heights to their own elements, the contents are the maxLen largest heights ever added, and the result is the only height that can have left |
| BlockWindow.Blocks.FindPlace | pkg/modelx/cache.go:84-86 | the walk from the back finds the last element below the height |
| BlockWindow.Blocks.Place | pkg/modelx/cache.go:87-93 | inserting behind that element, and removing the front of a list grown too long, keeps list and index the window of one more height |
| BlockWindow.ReplaceWindow | pkg/modelx/cache.go:87-93 | in a full list the front that goes is the least height, never the new one |
| BlockWindow.KeepWindow | pkg/modelx/cache.go:80-83 | a height already held, or below all of a full list, leaves the window as it is |
| BlockWindow.OrderIrrelevant | pkg/modelx/cache.go:75-103 | two windows of one size to which the same heights were added, in any order and with any repetitions, are equal lists |
| BlockWindow.RemovedIsEvicted | pkg/modelx/cache.go:75-103 | for positive heights the result is exactly the evicted height, and 0 means none |
| BlockWindow.Cache.WasSlowBlock | pkg/modelx/cache.go:240-248 | the results are whether the height is slow and whether it is known |
| BlockWindow.Cache.AddBlock | pkg/modelx/cache.go:254-259 | a block faster than the limit joins the fast window, any other the slow one |
| MinerSums.StepDrift | pkg/modelx/modelx.go:519-773 | the running sum leaves the recomputed sum only when a confirmed newest submission is improved, by old weight less new weight |
| MinerSums.ArriveKeepsDrift | pkg/modelx/modelx.go:519-535 | confirming and evicting keep the drift: eviction does not remove it |
| MinerSums.RunDrift | pkg/modelx/modelx.go:519-773 | over every run the drift is the sum over those improvements |
| MinerSums.AliasedImprovementDrifts | pkg/modelx/modelx.go:668-717 | a confirmed submission improved from 5 to 3 leaves the sum at 5 |
| MinerSums.SumAgrees | pkg/modelx/modelx.go:519-773 | from an exact sum, with positive base targets and weights that fit 64 bits, the sum is exact after a run exactly when no confirmed newest submission was improved |
| MinerLaws.WeightLaw | pkg/modelx/modelx.go:1425-1427 | the weight is the product modulo 2^64, and the product itself where that fits |
| MinerLaws.ArrivalEntries | pkg/modelx/modelx.go:519-535 | which submissions are confirmed after a new block, and that the newest stays |
| MinerLaws.SubmissionLowers | pkg/modelx/modelx.go:699-773 | a submission let through and stored leaves the lesser of the known deadline for its height and its own |
| MinerLaws.KeepsLeast | pkg/modelx/modelx.go:699-773 | over every run along which a height stays known its deadline is the least of those let through |
| MinerSums.ReloadAgrees | pkg/modelx/modelx.go:300-325 | after a restart the sum is exact over the stored submissions, the newest slow block left out |
| MinerSums.SubmissionIff | pkg/modelx/modelx.go:699-773 | a submission changes nothing exactly when its statement fails or a deadline no larger is known for its height, and moves the sum exactly when it beats a confirmed entry of another weight or joins below the newest height with a nonzero weight |
| MinerSums.FastBlockIsCounted | pkg/modelx/modelx.go:722-725 | two submissions for a fast block that are not turned away: one moves the sum, one becomes the newest |
| MinerMethods.TestNeverHolds | pkg/modelx/modelx.go:722-725 | for every cache and height the test that should turn submissions for fast blocks away fails, because the results of the look-up are read in the wrong order |
| MinerMethods.FastBlockIff | pkg/modelx/modelx.go:722-725 | a submission for a height in the fast window and not in the slow one is treated as one for an unknown height that creates no block: it changes nothing exactly when its statement fails or it is no better, and moves the sum exactly when counted |
| MinerMethods.Miner.AddDeadlineParams | pkg/modelx/modelx.go:668-679 | the entry is the object of the newest submission; the values follow the confirming step |
| MinerMethods.Miner.RemoveDeadlineParams | pkg/modelx/modelx.go:661-666 | the values follow the evicting step |
| MinerMethods.Miner.NewBlock | pkg/modelx/modelx.go:519-531 | a new block confirms and evicts as specified |
| MinerMethods.Miner.UpdateOrCreateNonceSubmission | pkg/modelx/modelx.go:699-773 | every branch, shared objects included, does the submission step on the values, with what the cache answers for the height; and the nil dereference happens exactly for height 0 and a miner without submissions |
| MinerMethods.Miner.LoadSubmissions | pkg/modelx/modelx.go:300-325 | the loading loop gives the reloaded values |
| Forge.KeepsEarliestLeast | pkg/pool/pool.go:87-106 | the kept submission is the earliest of least deadline among those of its signature and at least its height since the last accepted change of signature |
| Forge.HeightNeverDecreases | pkg/pool/pool.go:87-106 | the kept height never decreases |
| Forge.BestWasReceived | pkg/pool/pool.go:87-106 | the kept submission was received, and has the signature last changed to |
| Forge.NoOtherSignature | pkg/pool/pool.go:87-106 | since the last change, submissions of another signature were for blocks below the one then kept |
| Forge.Improves | pkg/pool/pool.go:94-98 | within one signature the kept deadlines strictly decrease |
| Forge.NothingIsBeaten | pkg/pool/pool.go:86-98 | from the start without a best submission every one is kept, but one without signature and with the largest deadline |
| Forge.NothingIsForgotten | pkg/pool/pool.go:86-98 | that start has no effect on any stream whose first submission is kept |
| Forge.RestartHarmless | pkg/modelx/modelx.go:416-430 | after a restart, which loses the signature, a submission is treated as before exactly when it is too old, of another signature, or better |
| Forge.RestartLosesBest | pkg/modelx/modelx.go:416-430 | a worse submission for the same block replaces the reloaded one |
| Forge.RestartIff | pkg/pool/pool.go:87-106 | on every stream in which a signature belongs to one block, the loop ends with the same signature, height and deadline as without the restart exactly when something received is at least as high and of another signature or no worse |
| Forge.RestartEndsWithNewBlock | pkg/pool/pool.go:87-106 | from the first submission of a new signature on, as high as all before, the loop keeps the same as without the restart, on every stream |
| Forge.Forger.OnSubmission | pkg/pool/pool.go:87-106 | the receiving case of the loop |
| Forge.Forger.OnTimer | pkg/pool/pool.go:107-109 | the timer case sends the submission kept, once for each setting |
| Forge.SendsEarliestLeast | pkg/pool/pool.go:107-109 | whatever is sent is the earliest of least deadline among what was received by then |

## Left out

Not modelled at all:

- HTTP, gRPC, websockets, templates, logging, configuration and migrations; the schema's keys and cascades are used as facts.
- Wallet requests and failover: the wallet's answers are arbitrary inputs.
- `switchBlock` (pkg/modelx/modelx.go:545-590): its statements are not valid SQL.
- `Stop` of the batching handler, and the names, display values and counters of miners.
- Wall-clock time: timers fire in nondeterministic steps, dates are ordered integers a day apart.
- The cached copies of pending amounts; the ledger is the database.
- A crash between sending a payment and storing its id: the code's own comment says it may then be sent twice.

Simplified:

- ShabalLanes.Registers.Pp: the 48 written-out macro lines are one loop over the round number, and the unaligned stores and the output-size parameter of the 4-lane context are not modelled.
- ShabalLanes.Context.Update: the lanes have data; the C code's treatment of absent lanes is not modelled.
- ShabalAsm.AsmContext.InnerBlock: a window word is stored in its own round, where the assembly keeps it in a register for one round more; registers, stack and alignment are not modelled.
- ShabalAsm.AsmContext.Init: of the sixteen tables only the one for 256 bits is modelled.
- DeadlineMethods.CalculateDeadlines: the requests' parameters are numbers within the widths of the C structure; the base target is not zero, as the division demands.
- AddressCodec.RoundTrip: the decimal text of a number and its parsing are the functions of Go's standard library, written out; the parser accepts decimal digits only and refuses 2^64 and above.
- BatchingProofs.AnsweredOnce: deadlines are a function of the request, which is what the deadline modules prove; there is at least one worker and the queue has room for at least one batch.
- PayoutSteps.CreateConserves: amounts are unbounded integers.
- PayoutMessages.SenderOutcome: for senders other than the fee account; for a list with the fee account as a sender only ProcessAllConserves and NeverOverdrawn hold.
- PayoutConservation.ConservedIff: the condition is stated for a fee account that exists and does not mine; otherwise RunDrift accounts for every loss.
- PayoutMessages.SecondPass: a message is an interval, a parsed number or garbage; the parsing of numbers, fractions included, is not modelled. The fee for setting a minimum is positive.
- PayoutCycle.LedgerConserved: each method of the ledger is atomic, as the job loop runs them one after the other.
- PayoutSafety.RunNeverSendsTwice: row ids are never reused, which holds while the database server keeps running.
- Rewards.RewardDistributed: shares are exact reals, the capacity factor is any function into [0,1], and amounts do not overflow.
- RewardCycle.CreditedOnce: the wallet's block has the height it was asked for, heights stay below 2^63, and a restart is not a step.
- RewardCycle.CleanIsSafeIff: the cache's own refusal of heights it holds is left open; a height whose generation time the wallet could not tell never reaches the cache, so those runs exist.
- RewardMethods.PoolLedger.RewardBlocks: the order of the selected blocks is arbitrary, and the payout messages read before the loop are on the other ledger class.
- BlockWindow.Blocks.Add: the linked list is a sequence of element objects; locks are not modelled.
- MinerSums.StepDrift: weights are exact integers modulo 2^64, the conversion to floating point is not modelled; each submission is one step, with at most one new block in the middle.
- MinerMethods.Miner.UpdateOrCreateNonceSubmission: at the nil dereference the method reports the crash and leaves the values as they are; what the process does then is not modelled.
- Forge.RestartIff: a generation signature belongs to one block height, as in the chain.
- Forge.Forger.OnSubmission: the time until the timer fires is not modelled, nor the database pointer to the best submission.
