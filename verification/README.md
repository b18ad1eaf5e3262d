# Verified model of the section-elder logic of a SAFE network node

A node that serves as an elder collects payments for stored data, turns them into rewards for the
nodes of its section when the section splits, keeps track of which adults hold which chunk, has lost
copies replicated, and keeps an append-only log for every wallet it looks after. This project models
that logic in Dafny and proves what it is meant to guarantee.

| file | what it holds |
|---|---|
| `Arithmetic.dfy`, `Collections.dfy`, `Decimals.dfy`, `Sorting.dfy` | sums, ordered iteration, decimal text, stable sorting, first-of-each-key |
| `RewardCalc.dfy`, `RewardPayout.dfy` | age buckets, the counter rounds, the payout, as loops and in closed form |
| `RewardLaws.dfy`, `RewardFairness.dfy`, `RewardBounds.dfy` | conservation, fairness, iteration and overflow bounds of the payout |
| `SupplyCap.dfy` | minting and burning against the section cap; the caps of all sections together |
| `RewardStage.dfy`, `RewardProcess.dfy`, `RewardMessages.dfy` | signature tallies and the two-phase payout agreement of one elder, under any message |
| `RewardCanon.dfy`, `RewardSystem.dfy` | n elders over an unreliable network, and their refinement to a machine of signer sets |
| `RewardAgreement.dfy`, `RewardProgress.dfy`, `RewardLiveness.dfy`, `RewardEndToEnd.dfy` | safety in every reachable state, progress, exactly when a payout always ends, conservation from payments to propagated credits |
| `SectionFunds.dfy`, `FundsSplit.dfy` | payments, splits and completion on the node; what a split proposes |
| `BlobRegister.dfy` | the two databases of chunk holders, member loss |
| `UsedSpace.dfy`, `ChunkStore.dfy`, `ChunkRestart.dfy`, `Replication.dfy` | space accounting, chunk files, restarts, the replication protocol |
| `TransferLog.dfy`, `History.dfy`, `Replicas.dfy` | the decimal-keyed log, histories derived from it, setup and hand-over of wallets |

How to read it: where the source updates an object in place there is a class whose methods are proved
equal to a function of the old state; the theorems are lemmas about those functions and about all runs
built from them. `Exec`, `Run`, `FundsAfter` and `InsertAll` give the state after an arbitrary run, so a
lemma about them for all step sequences is a statement about every reachable state.

Results about code that falls short of what one might expect of it:

- A payout to nodes that are all below age 6 pays nothing, whatever the reward was
  (`RewardEndToEnd.EndToEndConservation` gives both cases).
- Completion ends the churn before the section key is looked up. If that lookup fails the credits are dropped and
  never propagated by this elder: `RewardAgreement.CompletionPays` says exactly what a finished elder has
  propagated, `RewardEndToEnd.LostPayout` is a run with the loss, and `RewardEndToEnd.KeyLossTwin` shows that any
  completing step can lose its credits in this way.
- One node of age 14 and the whole supply overflow 64 bits (`RewardBounds.AgeFourteenOverflows`). Up to age 13 the
  amounts that can be paid are exactly those below 2^51 · 13² · 19 (`RewardBounds.PayableExactly`). The supply is
  below that bound, and a section that manages at least its payments and at most the supply never pays more
  (`RewardBounds.RewardInRange`); payments of the whole supply into a section that manages nothing are doubled
  beyond it (`RewardBounds.DoubledSupplyOverflows`).
- A reward message that starts a phase is recorded but not evaluated; the next one is. If elders hear their own
  messages too, as sending to their own section suggests, a payout always ends with everyone done exactly if the
  section has at least t + 1 elders or there is nothing to pay (`RewardLiveness.SettlesExactly`). If they do not, and
  nothing is delivered twice, it takes three elders besides (`RewardLiveness.SettlesWithoutEcho`): of two, the newbie
  can be left accumulating (`RewardLiveness.TwoEldersStall`), until it hears itself or a duplicate
  (`RewardLiveness.TwoEldersGoOn`). `RewardProgress.AccumulationsAlone` says when accumulations alone complete an elder.
- `reset` is documented as dropping the stores; the code keeps them registered at zero, and so does the model.
- The total is not always the sum of the local values. It is, throughout a run, exactly if every store is opened on
  a directory with nothing recorded and no release exceeds what its store holds, unless that store holds all there
  is (`UsedSpace.BalancedThroughout`); a reset or a restart restores the balance (`UsedSpace.BalanceAfter`).
  `UsedSpace.RestartLosesTotal` and `UsedSpace.OversizedRelease` are the two ways to lose it.
- A private chunk's owner is overwritten by every store accepted while it has fewer than four holders, whoever sends
  it. Who may delete it is the origin of the last accepted store since it was last absent
  (`BlobRegister.OnlyLastStorerDeletes`), and `BlobRegister.OwnerKeepsExactly` says when an owner keeps that right.
- The register drops a public chunk on a delete from anyone (`BlobRegister.AnyoneDeletesPublic`); the adults that hold it
  refuse (`Replication.PublicStays`).
- `get_debits` is independent of event order and duplication exactly when no two different debits of the log
  share a counter (`History.DebitsOrderFree`).
- Writing a history and reading it back returns it exactly when it is well formed (`History.RoundTrip`).

## Model

| member | source | states |
|---|---|---|
| `RewardCalc.ComputeBuckets` | src/section_funds/reward_calc.rs:63-77 | the insertion loop yields, for exactly the ages of at least 6 that occur, the bucket of all nodes of that age with their wallets |
| `RewardCalc.GrowBuckets` | src/section_funds/reward_calc.rs:67-73 | visiting one more node extends the grouping of the visited nodes to that node and leaves every other bucket alone |
| `RewardCalc.FillRound` | src/section_funds/reward_calc.rs:96-112 | one inner pass pours the remaining amount over the ages in order, each up to its weight, and leaves what the weights could not take; counters and remaining amount keep their sum |
| `RewardCalc.CounterWithin` | src/section_funds/reward_calc.rs:105-109 | while counters and remaining amount sum to the amount, adding to a counter cannot exceed the amount, so the additions overflow no earlier than the amount itself |
| `RewardCalc.FillCounters` | src/section_funds/reward_calc.rs:95-113 | the nested loops end with the closed-form counters, after exactly the number of rounds the closed form predicts |
| `RewardCalc.LastRound` | src/section_funds/reward_calc.rs:95-113 | quotient and remainder of the amount by a full round agree with the state in which the last, possibly partial, round starts, also when the amount is a whole number of rounds |
| `RewardPayout.CountersAreClosedForm` | src/section_funds/reward_calc.rs:86-113 | counters that agree with the closed form age by age are the closed-form map: ages the amount never reached have no entry |
| `RewardPayout.PayBucket` | src/section_funds/reward_calc.rs:116-141 | every node of a bucket gets the even share, the first in name order also the remainder, and earlier payments stay |
| `RewardPayout.PayAll` | src/section_funds/reward_calc.rs:115-141 | the payout loop pays exactly the nodes whose age has a counter, each under its own age and wallet |
| `RewardPayout.DistributeRewards` | src/section_funds/reward_calc.rs:55-146 | buckets, rounds and payout loops compose to the closed-form payout, in the predicted number of rounds |
| `RewardLaws.BucketSum` | src/section_funds/reward_calc.rs:118-141 | the shares of one bucket sum to its counter |
| `RewardLaws.CountersTotal` | src/section_funds/reward_calc.rs:95-113 | the counters of all ages sum to the amount |
| `RewardLaws.PayoutTotal` | src/section_funds/reward_calc.rs:115-141 | the payments of all nodes sum to the counters |
| `RewardLaws.Conservation` | src/section_funds/reward_calc.rs:55-146 | with a node of age 6 or more the payments sum to exactly the amount; without one nothing is paid |
| `RewardLaws.NodeCountIs` | src/section_funds/reward_calc.rs:91 | the node count of the payout is the number of nodes of age 6 or more |
| `RewardFairness.CounterClosedForm` | src/section_funds/reward_calc.rs:86-113 | in ordinary arithmetic: the counter of an age is (amount/S)·w plus min(w, max(0, amount mod S minus the weights of younger ages)), with w = 2^age · nodes · multiplier |
| `RewardFairness.OneRemainder` | src/section_funds/reward_calc.rs:96-119 | at most one age in the whole payout has a counter that its bucket size does not divide |
| `RewardFairness.Fairness` | src/section_funds/reward_calc.rs:96-141 | nodes of the same age get the same amount, except one node at most in the whole payout, which is the first of its bucket and whose extra is less than the bucket's size |
| `RewardFairness.PaidAsThemselves` | src/section_funds/reward_calc.rs:63-77 | a paid node is one of the nodes, is at least of age 6, and is paid under its own age and wallet |
| `RewardFairness.PaidExactly` | src/section_funds/reward_calc.rs:115-141 | a node is paid if and only if it is old enough and its age has a positive counter |
| `RewardFairness.PaidShare` | src/section_funds/reward_calc.rs:118-141 | its amount is its age's counter divided by the number of nodes of that age, plus the rest for the first of them by name |
| `RewardBounds.FactorValue` | src/section_funds/reward_calc.rs:88-93 | the multiplier is amount / (max_age² · nodes · digits), or one |
| `RewardBounds.IterationBound` | src/section_funds/reward_calc.rs:88-113 | T outer rounds on a positive amount satisfy 32(T−1) < max_age² · digits(amount), whatever the amount's size and the node count |
| `RewardBounds.NoOverflow` | src/section_funds/reward_calc.rs:88-104 | for amounts below 2^51 · 13² · 19, which the supply is, ages up to 13 and up to 2^50 nodes every product formed stays below 2^64 |
| `RewardBounds.PayableExactly` | src/section_funds/reward_calc.rs:88-104 | a 64-bit amount can be paid to every set of nodes up to age 13 without overflow if and only if it is below that bound |
| `RewardBounds.AgeThirteenOverflows` | src/section_funds/reward_calc.rs:98-101 | from that bound on, a single node of age 13 overflows |
| `RewardBounds.RewardInRange` | src/section_funds/reward_process.rs:86-94 | a section that manages at least what was paid and at most the supply computes a reward within the supply, and pays it without overflow |
| `RewardBounds.DoubledSupplyOverflows` | src/section_funds/reward_calc.rs:32-36 | without that condition it fails: payments of the whole supply with nothing managed double to an amount that overflows on one node of age 13 |
| `RewardBounds.AgeFourteenOverflows` | src/capacity/mod.rs:18 | the age bound is tight: one node of age 14 with the whole supply exceeds 2^64 |
| `SupplyCap.PayoutTowardsCap` | src/section_funds/reward_calc.rs:24-50 | managed + reward − payments moves to the cap as far as the payments allow, from either side, and never crosses it; the reward is at most twice the payments |
| `SupplyCap.CapIs` | src/section_funds/reward_process.rs:88-89 | the cap of a section is the supply divided by two to the length of its prefix |
| `SupplyCap.HalvesFit` | src/section_funds/reward_process.rs:86-89 | Kraft's inequality with rounding: the rounded-down shares of a prefix-free set of prefixes sum to at most the whole |
| `SupplyCap.GlobalSupplyCap` | src/section_funds/reward_process.rs:86-91 | if every section of a prefix-free set is at or under its cap, the managed totals after payout sum to at most the supply |
| `RewardStage.RewardDetails.AddSig` | src/section_funds/reward_stage.rs:115-141 | an unknown credit is an error that changes nothing; a known share changes nothing; otherwise the share is filed under its index, and from threshold + 1 shares on the agreement is their combination |
| `RewardStage.RewardDetails.AddSigs` | src/section_funds/reward_process.rs:192-195 | the loop over a message equals adding its shares in order, stopping at the first unknown credit |
| `RewardStage.AllOrNothing` | src/section_funds/reward_stage.rs:70-88 | agreements are reported if and only if every reward has one, and then for exactly the rewards, each its own |
| `RewardProcess.SignRewards` | src/section_funds/reward_process.rs:102-142 | every distinct reward ends up in the details with exactly our own share |
| `RewardProcess.RewardProcess.RewardAndMint` | src/section_funds/reward_process.rs:80-100 | the process proposes one credit for each node of the closed-form payout of the minted amount, signed by itself |
| `RewardProcess.RewardProcess.ReceiveChurnProposal` | src/section_funds/reward_process.rs:173-246 | each stage reacts as the protocol's proposal transition; an error leaves the stage as it was |
| `RewardProcess.RewardProcess.ReceiveWalletAccumulation` | src/section_funds/reward_process.rs:248-330 | each stage reacts as the protocol's accumulation transition, newbies jumping straight to accumulating; an error leaves the stage as it was |
| `RewardMessages.ForeignRefused` | src/section_funds/reward_process.rs:174-176 | a proposal or accumulation of another section is refused as of an invalid owner in every stage, whatever it holds, and changes nothing |
| `RewardMessages.ProposalRefusedExactly` | src/section_funds/reward_process.rs:173-246 | a proposal is refused if and only if it is foreign, or names an unknown credit while proposing, each with its own error; that changes nothing |
| `RewardMessages.AccumulationRefusedExactly` | src/section_funds/reward_process.rs:248-330 | an accumulation is refused if and only if it is foreign, names an unknown credit while accumulating, or meets a process without a stage; that changes nothing |
| `RewardMessages.SharesFiled` | src/section_funds/reward_stage.rs:115-141 | a message whose credits are all known leaves under each credit and index the share filed last, a different share replacing the old one, and else fails with a logic error |
| `RewardMessages.CombinedExactly` | src/section_funds/reward_stage.rs:124-137 | shares combine to the section's signature of a message if and only if each is its signer's share of that message |
| `RewardMessages.ProposalStep` | src/section_funds/reward_process.rs:173-246 | under any proposal stages never go back, nothing happens from accumulating on, messages are sent on entering a phase only, and every agreement stays the combination of the shares held from threshold + 1 on |
| `RewardMessages.AccumulationStep` | src/section_funds/reward_process.rs:248-330 | the same under any accumulation; a completed process stays as it is |
| `RewardMessages.AccumulatesExactly` | src/section_funds/reward_process.rs:204-235 | while proposing, a message starts the second phase if and only if every credit then has threshold + 1 shares |
| `RewardMessages.CompletesExactly` | src/section_funds/reward_process.rs:303-316 | while accumulating, a message completes the process if and only if every credit then has threshold + 1 shares, and the proofs are the agreed credits with the combination of those shares |
| `RewardMessages.SharesExactly` | src/section_funds/reward_stage.rs:90-113 | a sent message carries the shares at our index of exactly the credits that have one |
| `RewardCanon.AddAllIsCanon` | src/section_funds/reward_stage.rs:115-141 | a full message of an elder adds that elder to the signers of every credit and does nothing else, known signer or not |
| `RewardCanon.SharesAreCanon` | src/section_funds/reward_stage.rs:90-113 | the shares an elder sends depend on the credits and its own index, not on whose shares it has gathered |
| `RewardCanon.PendingIsCanon` | src/section_funds/reward_stage.rs:70-88 | with shares over common credits, agreement is reached exactly at threshold + 1 signers, and is the section's signature of each credit |
| `RewardCanon.AgreedIsCanon` | src/section_funds/reward_process.rs:208-226 | the second phase is about the same credits, each with the section's signature on it |
| `RewardSystem.NextRefines` | src/section_funds/reward_process.rs:173-330 | every step of the n-elder system is a step of the machine that only remembers signer sets |
| `RewardSystem.ForeignRefines` | src/section_funds/reward_process.rs:174-176 | any message of another section, at any time, changes no state of the n-elder system |
| `RewardSystem.ExecRefines` | src/section_funds/reward_process.rs:173-330 | every run, with any delay, reordering, duplication and loss of messages and any messages of other sections, is state by state the picture of a run of that machine |
| `RewardAgreement.AlwaysInv` | src/section_funds/reward_process.rs:204-325 | in every reachable state gathered signers have sent their message, no message is sent twice, and a quorum of proposals precedes every accumulation |
| `RewardAgreement.Agreement` | src/section_funds/reward_process.rs:173-330 | in every reachable state every share under a credit id is over the one common credit, filed under its signer, and elders that are done have propagated the common proofs or none |
| `RewardAgreement.CompletionPays` | src/node/handle.rs:88-112 | an elder that is done has propagated exactly the common proofs if the section key could be looked up at the step that completed it, and nothing otherwise, in every run from then on |
| `RewardAgreement.DoneCompleted` | src/node/handle.rs:88-112 | whoever is done has a step at which it completed |
| `RewardAgreement.QuorumProvenance` | src/section_funds/reward_process.rs:204-325 | a paid credit has accumulation shares of at least t + 1 distinct elders, and t + 1 distinct elders had sent proposal shares for it before any accumulation was sent |
| `RewardAgreement.MessageBound` | src/section_funds/reward_process.rs:173-330 | an elder sends at most one proposal and one accumulation, so at most 2n messages are sent |
| `RewardProgress.OthersSuffice` | src/section_funds/reward_process.rs:173-330 | two or more others that are a quorum together with the elder suffice, for every threshold: their proposals carry it past proposing, their accumulations complete it, in any order and with any duplication |
| `RewardProgress.AccumulationsAlone` | src/section_funds/reward_process.rs:255-325 | accumulations alone complete an elder if and only if at least two arrive and their senders with itself are a quorum |
| `RewardProgress.ElderCompletes` | src/section_funds/reward_process.rs:248-330 | the elder itself, given the accumulation messages of two or more others that are a quorum with it and anything in between, is done, with the common proofs propagated if the key was known at the completing delivery |
| `RewardProgress.EveryoneSettles` | src/section_funds/reward_process.rs:173-330 | with three elders or more and a quorum among them, once all have begun and heard the messages of the others, if not their own, and anything was sent, every elder has completed, and has propagated the common proofs if it knew the key then |
| `RewardLiveness.ComesToRest` | src/section_funds/reward_process.rs:173-330 | every run can be continued to one in which everyone has begun and received every message, its own included, because at most 2n messages are ever sent |
| `RewardLiveness.OwnAlways` | src/section_funds/reward_process.rs:173-330 | in every run, an elder that has heard its own message of a phase and is still in that phase does not hold a quorum of shares |
| `RewardLiveness.TwoEldersStall` | src/section_funds/reward_process.rs:255-302 | a run of two elders, each having heard the other's messages once, after which the oldie is done and the newbie still accumulates |
| `RewardLiveness.TwoEldersGoOn` | src/section_funds/reward_process.rs:303-316 | from there the newbie's own accumulation, or a duplicate of the oldie's, gets both done |
| `RewardLiveness.NoQuorumNoneDone` | src/section_funds/reward_stage.rs:124-137 | with fewer than t + 1 elders and anything to pay nobody is ever done |
| `RewardLiveness.SettlesExactly` | src/section_funds/reward_process.rs:173-357 | all runs in which every message has reached everyone, its sender included, and anything was sent have everyone done if and only if there are no elders at all, nothing to pay, or at least t + 1 elders |
| `RewardLiveness.SettlesWithoutEcho` | src/section_funds/reward_process.rs:173-330 | the same for messages that have reached everyone but their sender: if and only if there are no elders at all, or at least three and, unless there is nothing to pay, at least t + 1 |
| `RewardLiveness.CanStillFinish` | src/section_funds/reward_process.rs:173-330 | in a section with at least t + 1 elders or nothing to pay, from every reachable state in which anything was sent, some continuation gets everyone done |
| `RewardEndToEnd.CreditsTotal` | src/section_funds/reward_process.rs:144-170 | no credit id is used for two nodes: the credits sum to what the payout sums to |
| `RewardEndToEnd.EndToEndConservation` | src/section_funds/reward_process.rs:80-170 | in every run an elder that completed knowing the section key has propagated each credit once, in id order, and they sum to exactly the reward computed from payments and managed amount; without the key, or without a node old enough, to nothing |
| `RewardEndToEnd.ProposalPaysNodes` | src/section_funds/reward_process.rs:144-170 | the credits proposed are, for each paid node, one with an id of its own to that node's own wallet, of that node's amount and with its age in the text, and no other |
| `RewardEndToEnd.EveryNodeIsPaid` | src/node/handle.rs:88-110 | in every run an elder that completed knowing the section key has propagated to each paid node's own wallet that node's amount, with the section's signatures of both phases |
| `RewardEndToEnd.OnlyNodesArePaid` | src/node/handle.rs:88-110 | and every credit it propagated pays one of those nodes |
| `RewardEndToEnd.KeyLossTwin` | src/node/handle.rs:96-111 | any run that ends in a completing step has a twin, differing in the key lookup only, after which the elder is done and has propagated nothing |
| `RewardEndToEnd.LostPayout` | src/node/handle.rs:96-111 | a concrete run of two elders with such a loss |
| `SectionFunds.ComputeSum` | src/section_funds/mod.rs:99-103 | the fold, in any entry order, is the sum of the amounts |
| `SectionFunds.FundsHolder.BeginSplitAsOldie` | src/node/split.rs:82-156 | without payments only state is pushed; with payments a new process proposes their whole sum and the payments are cleared; a failure before that keeps them |
| `FundsSplit.SplitProposes` | src/node/split.rs:112-147 | a split with payments proposes, and sends, credits that sum to the reward of exactly the payments held: the one that moves the managed amount to the cap as far as those payments allow; to nothing if no wallet belongs to a node old enough |
| `FundsSplit.SplitIsElder` | src/node/split.rs:112-147 | such a split is the start of an oldie in the payout protocol, on the credits of that reward |
| `FundsSplit.SplitPushes` | src/node/split.rs:149-155 | a successful split pushes state to its own prefix and to the one differing in the last bit only, and without payments does nothing else |
| `FundsSplit.SplitFailsExactly` | src/node/split.rs:96-138 | a split fails if and only if there are no funds, or payments and no managed amount to be had; that changes nothing |
| `FundsSplit.MessageFailsExactly` | src/node/handle.rs:79-116 | a message fails at a churning node if and only if its process refuses it, with that reason, or it completes the payout and the section key is not known |
| `FundsSplit.Ignored` | src/node/handle.rs:79-116 | reward messages are ignored unless a payout is under way; without funds payments and wallets are refused |
| `SectionFunds.FundsHolder.ReceiveRewardAccumulation` | src/node/handle.rs:88-116 | completion ends the churn with wallets and payments kept, and yields one propagation for each proof if the section key is known; else an error, the churn over and nothing propagated |
| `SectionFunds.PropagateCredits` | src/node/interaction.rs:43-65 | one propagation for each proof, in id order |
| `SectionFunds.PaymentAdds` | src/section_funds/mod.rs:44-51 | a payment raises the sum by its amount less that of the payment it replaces |
| `SectionFunds.EventBalances` | src/node/split.rs:96-147 | any one event balances held payments, the payment coming in and what a split consumes |
| `SectionFunds.PaymentConservation` | src/node/split.rs:96-147 | over every run with distinct payment ids, all that was paid in equals what successful splits consumed plus what is still held, across splits during churn, failed splits and completion |
| `SectionFunds.WalletsFollow` | src/section_funds/mod.rs:73-90 | in every run the wallet of a node is the one last registered for it, or none once removed, through payments, splits, messages and completion |
| `SectionFunds.NodeIsElder` | src/node/handle.rs:79-116 | handling a message changes a churning node as it changes an elder of the protocol: same stage, same reply, same credits propagated, or lost for want of the section key; wallets and payments stay |
| `BlobRegister.TopUp` | src/metadata/blob_register.rs:94-109 | existing holders stay, only closest adults are added, never beyond four, and none is left out while there is room |
| `BlobRegister.TopUpInOrder` | src/metadata/blob_register.rs:102-108 | they are added in name order: whoever is left out comes after whoever is added |
| `BlobRegister.CollectTargets` | src/metadata/blob_register.rs:94-109 | the loop computes that top-up |
| `BlobRegister.Register.SetChunkHolder` | src/metadata/blob_register.rs:213-256 | both databases gain the pair; a private chunk gets its owner |
| `BlobRegister.Register.RemoveChunkHolder` | src/metadata/blob_register.rs:258-310 | both databases lose the pair, and an entry that becomes empty goes |
| `BlobRegister.Register.Store` | src/metadata/blob_register.rs:72-146 | rejected with four holders already, with the answer for private or public chunks; otherwise exactly the targets become holders |
| `BlobRegister.StoreAnswered` | src/metadata/blob_register.rs:72-146 | a store is sent on if and only if there are fewer than four holders, and then to exactly those registered as holders afterwards; else a private chunk is answered as existing and a public one as stored |
| `BlobRegister.StoreCopies` | src/metadata/blob_register.rs:72-146 | a store keeps the databases consistent, keeps existing holders, leaves min(4, existing ∪ closest) of them and touches no other chunk |
| `BlobRegister.Register.Delete` | src/metadata/blob_register.rs:168-211 | unknown chunks and foreign owners are refused with nothing changed; otherwise all holders are told and dropped |
| `BlobRegister.DeleteAnswered` | src/metadata/blob_register.rs:168-211 | a delete is answered as missing if and only if the chunk is not there, as denied if and only if it has another owner, and else goes to exactly its holders and leaves no chunk |
| `BlobRegister.DeleteRemoves` | src/metadata/blob_register.rs:168-211 | a delete keeps the databases consistent, leaves no trace of the chunk in either and touches no other chunk |
| `BlobRegister.Register.RemoveHolder` | src/metadata/blob_register.rs:460-498 | returns exactly the chunks the node held, each with exactly its remaining holders |
| `BlobRegister.LoseKeeps` | src/metadata/blob_register.rs:460-498 | the lost node occurs in neither database, every other holder stays, and the index stays mutual |
| `BlobRegister.LossKeeps` | src/metadata/blob_register.rs:460-498 | member loss keeps one to four holders for every chunk left |
| `BlobRegister.Register.GetReplicationMsgs` | src/metadata/blob_register.rs:324-361 | one command for each closest adult that does not hold the chunk, and no other |
| `BlobRegister.Register.ReplicateChunks` | src/metadata/blob_register.rs:312-322 | commands go, without repetition, for exactly the chunks the node held, to exactly the closest adults that do not remain holders; remaining and new holders together cover the closest adults of every such chunk |
| `BlobRegister.AlwaysConsistent` | src/metadata/blob_register.rs:72-310 | in every state reached by stores, deletes and losses each database is the inverse of the other, no entry is empty and each chunk has one to four holders |
| `BlobRegister.OwnerIsLastStorer` | src/metadata/blob_register.rs:228-234 | in every run the owner of a private chunk is the origin of the last accepted store since it was last absent, and it is there if and only if there was such a store |
| `BlobRegister.OnlyLastStorerDeletes` | src/metadata/blob_register.rs:168-211 | in every run a private chunk can be deleted by that origin and by nobody else |
| `BlobRegister.AnyoneDeletesPublic` | src/metadata/blob_register.rs:168-211 | in every run a delete of a public chunk is sent on for any origin if and only if the chunk is there |
| `BlobRegister.OustedExactly` | src/metadata/blob_register.rs:72-310 | an owner loses the right to delete at a step if and only if it is another's store while there are fewer than four holders, its own delete, or the loss of the last holder |
| `BlobRegister.OwnerKeepsExactly` | src/metadata/blob_register.rs:72-310 | an owner keeps the right to delete throughout a run if and only if no step of the run is such a one |
| `UsedSpace.Account.AddLocalStore` | src/chunk_store/used_space.rs:177-211 | the store takes over the value recorded for its directory, a fresh id, and leaves the total alone |
| `UsedSpace.Account.Increase` | src/chunk_store/used_space.rs:215-252 | charges local value, total and record alike, or changes nothing on overflow, lack of space or an unknown store |
| `UsedSpace.Account.Decrease` | src/chunk_store/used_space.rs:256-284 | releases local value and total, each stopping at zero, and records it |
| `UsedSpace.Account.Reset` | src/chunk_store/used_space.rs:133-145 | total, local values and their records become zero, other records stay, stores stay registered |
| `UsedSpace.StoreOpened` | src/chunk_store/used_space.rs:177-211 | a store gets an id no other has, and the value recorded for its directory or zero; everything else stays |
| `UsedSpace.IncreaseExactly` | src/chunk_store/used_space.rs:215-252 | which of the errors occurs, if and only if what; else total, local value and record go up alike and nothing else changes |
| `UsedSpace.DecreaseExactly` | src/chunk_store/used_space.rs:256-284 | a release fails if and only if the store is unknown; else total, local value and record go down by it but not below zero |
| `UsedSpace.ResetClears` | src/chunk_store/used_space.rs:133-145 | a reset leaves every store registered on its directory with value and record zero, the total zero, and other records as they were |
| `UsedSpace.AlwaysAccounted` | src/chunk_store/used_space.rs:133-284 | in every run and interleaving, oversized releases, resets and restarts included, the total is within the capacity and within the sum of the local values |
| `UsedSpace.RestartLosesTotal` | src/chunk_store/used_space.rs:192-209 | after a restart the inequality can be strict: the reopened store's value is not in the total |
| `UsedSpace.BalanceAfter` | src/chunk_store/used_space.rs:133-284 | from any accounted state, total and local values agree after a reset or restart always, after another operation if and only if they agreed and it keeps that, or it is a release that empties the only store holding anything |
| `UsedSpace.BalanceKept` | src/chunk_store/used_space.rs:133-284 | an agreement survives an operation if and only if a store is opened on nothing recorded and a release is within what its store holds, or that store holds the whole total |
| `UsedSpace.BalancedThroughout` | src/chunk_store/used_space.rs:133-284 | over every run, total and local values agree all along if and only if every operation of the run is such a one |
| `UsedSpace.OversizedRelease` | src/chunk_store/used_space.rs:256-284 | a release beyond what a store holds, while others hold something, leaves the total below the sum of the local values |
| `ChunkStore.Store.DoDelete` | src/chunk_store/mod.rs:199-206 | the space of an existing file is released and the file removed; a missing file changes nothing |
| `ChunkStore.Store.Delete` | src/chunk_store/mod.rs:140-142 | as the removal of one file |
| `ChunkStore.Store.Put` | src/chunk_store/mod.rs:99-135 | old file out, space reserved, file written, and the space given back if the write fails |
| `ChunkStore.AlwaysExact` | src/chunk_store/mod.rs:99-142 | for stores opened on empty directories, in every interleaving of the steps of their puts and deletes, each local value is the size of the store's files up to the operation in progress, and the total is the sum of the local values |
| `ChunkStore.ExactAtRest` | src/chunk_store/mod.rs:99-206 | whenever no operation is in progress, total, sum of local values and size of all chunk files are equal and within the capacity |
| `ChunkStore.PutInSteps` | src/chunk_store/mod.rs:99-135 | an uninterrupted put is its steps in a row |
| `ChunkStore.RemovalInSteps` | src/chunk_store/mod.rs:199-206 | an uninterrupted delete is its steps in a row, and leaves exactly the other files |
| `ChunkStore.PutKeeps` | src/chunk_store/mod.rs:99-135 | an uninterrupted put keeps the account exact |
| `ChunkStore.PutOutcome` | src/chunk_store/mod.rs:99-135 | the chunk is there exactly if it fitted once the old one was gone and the write succeeded; otherwise nothing is left under the id, the old chunk included |
| `ChunkRestart.AlwaysSiteOk` | src/chunk_store/mod.rs:64-79 | in every run with restarts at any moment and reopened directories, the files of each store are bounded by its local value, those of each closed directory by its record, and all of them by the total, up to operations in progress, adopted values and files left behind |
| `ChunkRestart.DiskBounded` | src/chunk_store/mod.rs:64-206 | whenever no operation is in progress, the size of all files is at most the total plus the values adopted on reopening plus the sizes of files whose removal a restart cut off after their release |
| `ChunkRestart.OrderlyDiskBounded` | src/chunk_store/used_space.rs:192-209 | with restarts at rest only, the size of all files is at most the total plus the values adopted on reopening |
| `Replication.ChunkStorage.TryStore` | src/chunks/chunk_storage.rs:72-96 | private chunks only from their owner, never over an existing chunk, else a put |
| `Replication.ChunkStorage.Delete` | src/chunks/chunk_storage.rs:194-240 | a missing chunk is no error; public chunks and foreign owners are refused with nothing changed; else the file goes |
| `Replication.ChunkStorage.GetForReplication` | src/chunks/chunk_storage.rs:145-173 | an answer under the query's id if and only if the chunk is held |
| `Replication.ChunkStorage.StoreForReplication` | src/chunks/chunk_storage.rs:175-188 | a held chunk is left as it is with success, else a put |
| `Replication.ReplicaStored` | src/chunks/chunk_storage.rs:175-188 | a replica is added exactly if it is new, fits and is written; no held chunk changes and the account stays exact |
| `Replication.ClientStoreExactly` | src/chunks/chunk_storage.rs:72-96 | a client's chunk is added if and only if it is public or the client's own, new, fits and is written |
| `Replication.AlwaysInv` | src/node/handle.rs:341-379 | under any delivery order, duplication and misdelivery, with client stores and deletes in between, every message goes back to a command for that name and every copy of a chunk is the same |
| `Replication.AlwaysCharged` | src/chunks/chunk_storage.rs:175-188 | in every reachable state a node's used space is the size of the distinct chunks it holds, so duplicates are charged once |
| `Replication.OnlyOwnAnswers` | src/node/handle.rs:362-379 | an answer a node accepts goes back to a command for that name addressed to that very node |
| `Replication.DeletedKeeps` | src/chunks/chunk_storage.rs:194-240 | the owner's delete removes exactly that chunk and keeps the account exact; any other changes nothing |
| `Replication.NextHolds` | src/chunks/chunk_storage.rs:72-240 | of all steps, a chunk survives a step at a node, unchanged, if and only if the step is not its owner's delete there |
| `Replication.NeverOverwrites` | src/chunks/chunk_storage.rs:72-240 | over every run of replication messages, client stores and deletes a held chunk stays held and unchanged until its owner deletes it there |
| `Replication.PublicStays` | src/chunks/chunk_storage.rs:216-222 | a public chunk once held is held for ever |
| `Replication.ExchangeDelivers` | src/chunks/chunk_storage.rs:121-188 | if command, query to a node holding the chunk at that time and answer are delivered, with anything before, between and after, the new holder has the chunk, provided it had it or had room, until its owner deletes it there |
| `Decimals.ParsePrinted` | src/transfers/store.rs:56-62 | reading the decimal text of a number gives it back, for every number a usize holds |
| `TransferLog.InsertAppends` | src/transfers/store.rs:76-85 | into a log, the key-exists error cannot occur, and the event becomes the last |
| `TransferLog.LogRefinement` | src/transfers/store.rs:76-85 | after any run of insertions no error occurred, the keys are exactly the decimal strings of 0 to n − 1 and the log is the sequence of inserted events |
| `TransferLog.SortedItemsAreLog` | src/transfers/store.rs:66-70 | sorting the parsed items by number puts every event at its position of insertion |
| `TransferLog.ReadAll` | src/transfers/store.rs:50-73 | whatever order the database lists its keys in, the events come back in insertion order |
| `TransferLog.TransferStore.TryInsert` | src/transfers/store.rs:76-85 | always succeeds on a log and appends |
| `TransferLog.TransferStore.GetAll` | src/transfers/store.rs:50-73 | returns the log |
| `Sorting.SortIsStable` | src/transfers/replicas.rs:211 | the sort keeps the order of items with the same key |
| `Sorting.SortedUnique` | src/transfers/replicas.rs:211 | with distinct keys the sorted order is determined by the items alone |
| `History.HistoryIsWellFormed` | src/transfers/replicas.rs:187-214 | whatever the log, the history has no credit id or debit id twice and its debits in counter order |
| `History.CreditsExactly` | src/transfers/replicas.rs:187-197 | the credits of a history are those of the events that first propagate an id, in the order of these events |
| `History.DebitsExactly` | src/transfers/replicas.rs:199-214 | a debit is in the history if and only if some event registers it and none before registers its id |
| `History.ValidationsIgnored` | src/transfers/replicas.rs:187-206 | logging validations changes no history |
| `History.LoggedInOrder` | src/transfers/replicas.rs:94-111 | a history is logged credits first, then debits, each in order |
| `History.RoundTrip` | src/transfers/replicas.rs:78-112 | writing a history into an empty log and reading it back returns it if and only if it is well formed |
| `History.Absorbs` | src/transfers/replicas.rs:187-214 | logging transfers whose ids are in the log already changes no history |
| `History.SelfMerge` | src/transfers/replicas.rs:74-112 | merging a log's own history into it changes nothing, for any log |
| `History.RepeatedRoundTrip` | src/transfers/replicas.rs:78-112 | a well-formed history survives any positive number of writes |
| `History.DebitsOrderFree` | src/transfers/replicas.rs:199-214 | the debits depend only on which debits are registered, not on order or number of the events, if and only if no two different ones share a counter |
| `History.SwapShows` | src/transfers/replicas.rs:199-214 | two different debits with one counter make two logs with the same debits give different lists |
| `Replicas.Replicas.TryInsert` | src/transfers/replicas.rs:442-464 | the wallet's store is loaded or created, held from then on, and its log extended; no other log changes |
| `Replicas.Replicas.Setup` | src/transfers/replicas.rs:78-112 | in key order, every wallet before the first one with a foreign transfer gets its history appended and is held; it succeeds if and only if every credit goes to and every debit comes from the key it is listed under, and nothing after the first failing wallet is written |
| `Replicas.SetupWrites` | src/transfers/replicas.rs:78-112 | the wallets written are exactly those with no foreign transfer in themselves or in any wallet of smaller key |
| `Replicas.Replicas.GetHistory` | src/transfers/replicas.rs:155-185 | the history of the wallet's log, empty when there is none |
| `Replicas.Replicas.UserWallets` | src/transfers/replicas.rs:130-139 | exactly the held wallets, each with its history |
| `Replicas.SetupRoundTrip` | src/transfers/replicas.rs:78-185 | a fresh node gives a wallet back exactly as it was set up if and only if it was well formed |
| `Replicas.RepeatedSetup` | src/transfers/replicas.rs:78-112 | after any positive number of setups with the same wallets the node gives them back |
| `Replicas.SetupKeepsOwn` | src/transfers/replicas.rs:86-93 | setup, successful or stopped midway, keeps foreign transfers out of every log |
| `Replicas.HandOver` | src/transfers/replicas.rs:130-139 | wallets handed to a fresh node by one whose logs hold only their own wallets' transfers, as setup keeps them, are accepted and give the same history for every wallet |

## Left out

- Names and public keys are natural numbers in the order of the ordered maps; `MessageId::combine` is taken as collision free.
- Signature shares are abstract: the share of an index over a message; combining shares gives a function of the message if all are over it, and a worthless signature otherwise. One key set per process. Failures of the signing service inside a process are left out; they come before the stage is replaced and leave it unchanged. The key lookup after completion is modelled.
- Integers are unbounded except where 64-bit limits decide an outcome (`UsedSpace`) or are the subject (`RewardBounds`).
- `Times`, `Quotient` and `Remainder` stand for `*`, `/` and `%`; `TimesIs` and `QuotientIs` prove them equal.
- `CreditProposal` and `CreditAccumulation`, with their details, share one tally type; the text of a credit is the pair it is formatted from.
- Fields of outgoing messages that only say where and how to send (destination, aggregation) are left out. Both reward messages are addressed to the sender's own section; whether routing brings them back to the sender is not part of this model, so any message may be delivered to anyone, and the results on when a payout ends name the deliveries they assume (`SettlesExactly` with the sender's own, `SettlesWithoutEcho` without).
- Database, record and directory errors are taken not to occur; a failed chunk write is modelled and leaves no file.
- Which adults are closest to a name (XOR distance) is a parameter, with at most four of them; registers assume it, and `update_holders`, which nothing calls and which does not observe the limit, is not part of the steps.
- Replication takes all copies of one address, and what clients store under it, to be the same chunk, as content addressing makes them.
- `SectionFunds.PaymentConservation`: is about an elder that stays one; the split of a newbie and the step down from elder start with or drop all payments. A split refused before it looks at the funds (no transfers, no replica information) changes nothing and is not a separate event. Ids of propagated messages are taken to be computable.
- `merge` does not wait for `setup`; the properties are about setup run to completion. Opening a store for reading creates an empty database, which the model does not tell from an absent one.
- `TransferLog.ReadAll`: a log has at most 2^64 entries, as many as a usize can number.
- Wallet validation, registration, propagation and balances of transfers, which rest on the wallet replica of another crate.
- Map and sequence storage, capacity and rate limits, event mapping, messaging, configuration, simulated payouts, reading of blobs, and the wallet registry, which would add only easy members.
