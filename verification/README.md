# A model of the BIP 300/301 enforcer

This project models the parts of the enforcer that decide money, history and
interleavings, and proves what they promise:

- the **validator**: coinbase messages M1-M4 and M7, deposits (M5), withdrawals
  (M6) and BMM requests (M8), the diff that every block leaves, and the chain that
  blocks connect to and disconnect from (`Ledger`, `Validator`, `Treasury`,
  `TreasuryTxs`, `Accounting`, `Blocks`, `Books`, `Safety`, `ConnectModes`,
  `Tipless`, `Chain`, `ChainSafety`, `ChainBooks`, `PendingBound`), and what each of its
  rules does to the tables and accepts, said apart from the code that works it out
  (`VoteEffects`, `MessageEffects`, `TreasuryRules`, `BmmRequests`);
- the **block producer**: the policy database that follows the chain through
  reorgs (`PolicyMarks`, `PolicyDb`, `PolicyRuns`, `PolicyExact`) and reads what the
  validator's blocks did (`PolicyEvents`), the M4 of a coinbase
  (`ProducerCoinbase`), the BMM auction and its accepts (`Template`), and the
  transactions that it appends to a block (`Suffix`, `SuffixAccepted`, `SuffixRun`,
  `SuffixTheorem`, `SuffixEnd`, `SuffixSpends`, `SuffixPays`, `SuffixWeight`,
  `Reservation`);
- the **bytes** both exchange (`Encoding`, `Script`, `Transactions`, `TxCodec`,
  `CodecExact`, `BlindedM6`, `Messages`, `CoinbaseList`, `Votes`);
- two protocols and a normal form: proof-of-work on several threads (`Grind`), the
  peer-to-peer exchange that sends a transaction (`SendTx`), and the summary by which
  two validators are compared (`PendingSort`, `SyncSummary`, `SyncStates`,
  `SyncReachable`).

`dafny verify dfyconfig.toml` checks the whole project.

Hash functions are parameters. A result holds for every such function unless it says
that ids are collision free. A chain stands for the hash of its last block in the
policy database; everywhere else blocks have hashes. Iteration over hash maps is an
arbitrary choice of the next key, so a result about a loop holds in every order. Amounts
and counters are unbounded, with the machine bound stated where the code depends on it.

## Findings

Properties that the code does not have, each with an input and the exact condition:

- *A paid bundle can be accepted again.* A row holds one mark. A later failure on the same
  branch overwrites the mark of a payout (`PolicyExact.PaidThenFailedAccepted`, no reorg
  needed), and a reorg that takes a later settlement back clears the mark without restoring
  the one before (`PolicyExact.PaidBundleAccepted`). Exactly which bundles are refused, after
  every run: `PolicyExact.RefusedAfterEveryRun`; after runs that lose no mark:
  `PolicyExact.RefusedExactly`; and `PolicyEvents.RefusedOnValidator` says that the promise
  holds on chains on which nothing is proposed twice.
- *A bundle or a proposal can be queued at no height.* Submitted while the validator has no
  tip though the cursor has one, it disagrees with the chain exactly when the chain has it
  already: `PolicyExact.SubmittedWithoutTip`, `PolicyExact.ProposedWithoutTip`, and runs that
  get there in `PolicyExact.QueuedWithoutTip`.
- *Disconnecting without a tip can corrupt the tables.* The tip is compared only if there is
  one (`lib/validator/task/mod.rs:1634-1641`). `ChainSafety.LostProposal` is a run that loses
  a proposal. Such a step is right exactly when the diff does not fit empty tables, which is
  an error, or the parent's tables hold nothing but proposals that the block makes fail:
  `Chain.DisconnectWithoutTip`. A run stays consistent exactly when each of its steps is right
  in this sense: `Chain.ConsistentExactlyWhenGuarded`.
- *A non-canonical fee push makes a bundle unpayable.* `BlindedM6::try_from` accepts a
  push with OP_PUSHDATA, and the id of the finalized transaction is that of another bundle:
  `BlindedM6.M6idRoundTrip`, `SuffixAccepted.NonCanonicalRefused`. So does a payout to an
  active slot's treasury script: `SuffixAccepted.TreasuryPayoutRefused`. The producer
  includes both; `SuffixAccepted.PayoutAcceptedExactly` is the exact condition.
- *Upvotes for positions 0xFFFE and 0xFFFF read as alarm and abstain*:
  `Votes.VotesRoundTrip`. With the maximal ages of `lib/types.rs:67-90` no list of pending
  bundles gets that long: `PendingBound.EveryRunFewPending`, `PendingBound.M4OnEveryChain`.
- *A hopeless proposal can stay for one block.* A proposal should fail once it can no longer
  reach its threshold in time (`lib/validator/task/mod.rs:422-430`). One that was never acked
  stays a block longer: `MessageEffects.HopelessYetThere`, with the exact rule in
  `MessageEffects.FailsWhenHopeless`.
- *An empty diff does not mean identical summaries* when one was read from a file that
  repeats an entry: `SyncSummary.RepeatedEntryUnseen`, with the exact meaning in
  `SyncSummary.EmptyDiffMeans`.
- *Equal summaries do not mean equal states*: the order of pending bundles, the older
  treasury UTXOs and the re-proposals of active sidechains are forgotten, and nothing
  else: `SyncStates.OrderForgotten`, `SyncStates.HistoryForgotten`,
  `SyncStates.SummariesEqualExactly`.

## Model

| member | source | states |
|---|---|---|
| `PolicyRuns.RunSound` | lib/block_producer/db.rs:535-653 | over every run, with no proviso, each mark names a block of the cursor's chain, above the row's queue height, that carries the row's event; `paid_out` is set exactly when `settled_in` is |
| `PolicyRuns.RunAgrees` | lib/block_producer/db.rs:560-653 | over every run in which no step loses a mark, every mark is what a scan of the whole chain gives |
| `PolicyRuns.OneMatchRunAgrees` | lib/block_producer/db.rs:560-653 | over every run of reorgs, rebuilds, reads and submissions with at most one matching block per branch, the marks are those of a rebuild |
| `PolicyRuns.GrowingRunAgrees` | lib/block_producer/db.rs:560-653 | on runs that disconnect nothing, incremental marks are those of a rebuild, however often a row matches |
| `PolicyRuns.PathIndependent` | lib/block_producer/db.rs:560-653 | two runs that end with the same rows and the same cursor end with the same database |
| `PolicyRuns.RefusedExactlyWhenPaid` | lib/block_producer/db.rs:492-531 | after every run with one match per branch, a bundle is refused exactly when it is queued and the chain pays it out above its queue height |
| `PolicyRuns.ReconcileAgrees` | lib/block_producer/db.rs:570-653 | reconciling keeps agreement with the scan exactly when no mark is lost, and a rebuild establishes it |
| `PolicyExact.RefusedExactly` | lib/block_producer/db.rs:492-531 | after every run that loses no mark, however often a bundle is settled, it is refused exactly when it is queued, the reconciling keeps its mark, and the last block that settles it above its queue height pays it out |
| `PolicyExact.ProposalRefusedExactly` | lib/block_producer/db.rs:351-376 | after every run that loses no mark, a proposal is refused exactly when it is queued and no block of the chain above its queue height has it, or this submission's reconciling drops its mark |
| `PolicyExact.AcceptedThenRead` | lib/block_producer/db.rs:253-277 | an accepted proposal is queued at the tip's height and listed by the next read, an accepted bundle likewise, and no other row changes |
| `PolicyExact.EveryMarkExactly` | lib/block_producer/db.rs:535-653 | after every run, with no proviso, a bundle's mark is the last block that settles it at or above the row's floor, the height below which the run made it forget blocks |
| `PolicyExact.RefusedAfterEveryRun` | lib/block_producer/db.rs:492-531 | after every run, with no proviso, a bundle is refused exactly when it is queued and the last block that settles it pays it out and is not below the row's floor |
| `PolicyExact.PaidBundleAccepted` | lib/block_producer/db.rs:591-602 | a reorg that takes back only a second settlement makes the producer accept a bundle that the chain still pays out |
| `PolicyExact.PaidThenFailedAccepted` | lib/block_producer/db.rs:619-640 | without any reorg, a bundle that is paid out and fails later on the same branch is accepted again |
| `PolicyExact.SubmittedWithoutTip` | lib/block_producer/db.rs:492-531 | a bundle submitted without a tip agrees with the scan exactly when the cursor's chain does not settle it |
| `PolicyExact.ProposedWithoutTip` | lib/block_producer/db.rs:351-376 | a proposal submitted without a tip agrees with the scan exactly when the cursor's chain does not have it |
| `PolicyExact.QueuedWithoutTip` | lib/block_producer/db.rs:535-558 | runs that queue at no height what any given chain already has |
| `PolicyEvents.HitMeans` | lib/validator/task/mod.rs:1457-1516 | what the policy database reads of a block about a bundle is exactly whether the block's diff pays it out or lets it fail |
| `PolicyEvents.BlockSettles` | lib/validator/task/mod.rs:1399-1516 | a block settles only what was pending or what it proposes, and what it settles is not pending behind it |
| `PolicyEvents.ProposedEachTime` | lib/validator/task/mod.rs:1142-1162 | on every chain that replays, each settlement of a bundle has a proposal of its own, after the settlement before it |
| `PolicyEvents.RefusedOnValidator` | lib/block_producer/db.rs:492-531 | following the validator through any reorgs, on chains on which nothing is proposed twice, a bundle is refused exactly when it is queued and a block of the validator's chain above its queue height pays it out |
| `PolicyMarks.MovedAgrees` | lib/block_producer/db.rs:591-640 | one row stays in agreement exactly when its mark is not lost: disconnected, with an older match kept and none newly connected |
| `PolicyMarks.LostByReorg` | lib/block_producer/db.rs:591-602 | every chain with a match, extended by another match that a reorg replaces, loses the mark |
| `PolicyMarks.LastCommonAncestor` | lib/validator/dbs/block_hashes.rs:304-371 | the walk down from equal heights finds the number of blocks two chains share |
| `PolicyDb.Reconcile` | lib/block_producer/db.rs:570-653 | the loops over disconnected and connected blocks give every row the mark that moving or rebuilding prescribes, and return the tip's height |
| `PolicyRuns.Db.ProposeSidechain` | lib/block_producer/db.rs:351-376 | queues a new or an already mined proposal at the tip's height, refuses a pending one, and an error rolls back the reconciling too |
| `PolicyRuns.Db.PutWithdrawalBundle` | lib/block_producer/db.rs:492-531 | queues a new, pending or failed bundle at the tip's height, refuses a paid one, and an error rolls back |
| `PolicyRuns.Db.OurProposals` | lib/block_producer/db.rs:253-277 | reconciles, and returns exactly the proposals without a mark |
| `PolicyRuns.Db.StartCursor` | lib/block_producer/db.rs:213-251 | with a tip and no cursor, the cursor goes to the tip, every row is queued there without a mark, and all marks are those of a scan; otherwise nothing changes |
| `ChainSafety.EveryRunSafe` | lib/validator/task/mod.rs:1328-1654 | after every guarded run of connects and disconnects the tables are the replay of the active chain, votes are within their bounds, and every stored payout had the votes, neither too early nor too late |
| `Chain.RunConsistent` | lib/validator/task/mod.rs:1523-1654 | every guarded run keeps headers at the height of their chain, infos with all ancestors and the replayed diff, and the tables at the tip's replay |
| `Chain.ConnectKeeps` | lib/validator/task/mod.rs:1295-1616 | connecting accepts a block exactly when it builds on the tip and its chain replays, and keeps the invariant either way |
| `Chain.DisconnectTip` | lib/validator/task/mod.rs:1620-1654 | disconnecting the tip never fails and steps back to the chain before it |
| `Chain.SameTipSameTables` | lib/validator/task/mod.rs:1523-1654 | runs that end at the same tip have the same tables |
| `Chain.DisconnectWithoutTip` | lib/validator/task/mod.rs:1634-1653 | without a tip, disconnecting a block keeps the invariant exactly when its diff does not fit empty tables, and nothing changes, or its parent's tables hold nothing but proposals that the block makes fail |
| `Chain.ConsistentExactlyWhenGuarded` | lib/validator/task/mod.rs:1620-1654 | a run of connects and disconnects stays consistent throughout exactly when every disconnect without a tip meets that condition |
| `Tipless.UndoOnEmptyExactly` | lib/validator/task/mod.rs:1642-1650 | undoing a block's diff on empty tables gives the parent's tables exactly when they hold nothing but proposals that the block makes fail |
| `ChainSafety.LostProposal` | lib/validator/task/mod.rs:1634-1653 | a run after which the tip's proposal is missing from the tables |
| `Blocks.UndoConnect` | lib/validator/task/mod.rs:1618-1654 | for every valid state and every block that connects, undoing the block's diff restores every table |
| `Blocks.AbstainChangesNothing` | lib/validator/task/mod.rs:1442-1455 | one abstention per active sidechain, which an absent M4 stands for, changes nothing |
| `Ledger.UndoApplyMsg` | lib/validator/dbs/diff.rs:76-405 | undoing a coinbase message diff restores proposals, active sidechains and pending bundles |
| `Ledger.UndoApplyFailed` | lib/validator/dbs/diff.rs:410-520 | putting failed bundles back restores every position |
| `Ledger.UndoApplyTx` | lib/validator/dbs/diff.rs:568-670 | undoing an M5 or M6 restores the treasuries and the paid bundle's position |
| `Treasury.Tables.PutCtip` | lib/validator/dbs/mod.rs:110-151 | recording a treasury UTXO pushes it on its slot's history and overwrites the outpoint's index row; the four tables stay in line exactly when the outpoint is new |
| `Treasury.Tables.DeleteCtip` | lib/validator/dbs/mod.rs:153-191 | taking the current UTXO back pops it, restores the one before, and fails exactly when there is none |
| `Treasury.IndexAnswers` | lib/validator/dbs/mod.rs:25-43 | a lookup by outpoint finds the slot and value of every UTXO in the histories, and nothing else |
| `Treasury.TablesDetermined` | lib/validator/dbs/mod.rs:25-43 | the histories determine all four tables |
| `Validator.HandleMessageFits` | lib/validator/task/mod.rs:268-710 | the diff of every accepted M1-M4 fits the state it was computed against |
| `VoteEffects.M4Effect` | lib/validator/task/mod.rs:486-710 | an M4 is accepted exactly when it has one code per active sidechain and each is a sentinel or a position there is (and a wide one needs a code above 0xFD); then abstaining changes nothing, an alarm takes a vote from every bundle, a position gains a vote and all others lose one, the bundle 50 ahead gains, or the bundle that the parent's M4 upvoted gains wherever it is now; nothing but votes changes |
| `MessageEffects.M1Effect` | lib/validator/task/mod.rs:268-305 | an M1 queues its sidechain without votes at this height, unless it is queued already |
| `MessageEffects.M2Effect` | lib/validator/task/mod.rs:307-395 | an ACK of a proposal from an earlier block puts it into its slot exactly when its votes exceed the threshold within the maximal age, those of bundles if the slot is used; otherwise only its votes grow by one |
| `MessageEffects.M3Effect` | lib/validator/task/mod.rs:443-484 | an M3 is accepted exactly when its sidechain is active and its bundle not pending, and appends it with one vote |
| `MessageEffects.M7Effect` | lib/validator/task/mod.rs:1169-1179 | an M7 is accepted exactly when it is the first of its slot |
| `MessageEffects.ActiveExactly` | lib/validator/task/mod.rs:1399-1541 | across a block a slot gets a new sidechain exactly when the coinbase acks a proposal from before the block and the ACK carries it; every other slot keeps what it had |
| `MessageEffects.FailsWhenHopeless` | lib/validator/task/mod.rs:397-440 | a proposal fails exactly when not even an ACK in every block it has left would carry it, but for one without any vote, which stays a block longer |
| `MessageEffects.HopelessYetThere` | lib/validator/task/mod.rs:422-430 | a proposal that can no longer be carried and is still there, for one block |
| `MessageEffects.HopelessStays` | lib/validator/task/mod.rs:422-430 | with one vote a block at most, no later ACK carries a hopeless proposal |
| `MessageEffects.BundlesAge` | lib/validator/task/mod.rs:716-749 | exactly the bundles past their maximal age fail, and the others stay in order |
| `BmmRequests.RequestRoundTrip` | lib/messages.rs:790-826 | a transaction parses to a request exactly when its first output is OP_RETURN with the tag, the slot, the commitment and the parent |
| `BmmRequests.TxAcceptedExactly` | lib/validator/task/mod.rs:1183-1230 | a transaction is accepted exactly when the treasury rules accept it and its request, if any, was accepted with its commitment, builds on the parent and is the first of its slot |
| `BmmRequests.RequestsHonoured` | lib/validator/task/mod.rs:143-162 | in every block that connects each request has an accept with its commitment in the coinbase, builds on the parent, and is the only one of its slot |
| `TreasuryRules.TreasuryTxExactly` | lib/validator/task/mod.rs:800-1099 | a transaction passes the treasury rules exactly when it has one treasury output per active slot at most, a new one for every treasury it spends, and all its changes are deposits or consolidations or the only one is a withdrawal of a voted bundle |
| `TreasuryRules.DepositNamesRecipient` | lib/validator/task/mod.rs:1003-1022 | an accepted transaction that raises a treasury has an OP_RETURN push right behind the treasury output |
| `Validator.LeaderBySorting` | lib/validator/task/mod.rs:555-591 | the leader by 50 does not depend on how the sort by votes breaks ties |
| `Validator.ActiveSlotsInOrder` | lib/validator/task/mod.rs:490-505 | an M4 lists one vote per active sidechain, in slot order |
| `TreasuryTxs.CombineInAnyOrder` | lib/validator/task/mod.rs:898-1099 | the loop over the sidechains that a transaction touches reaches the same verdict in every order |
| `Accounting.TxAccounting` | lib/validator/task/mod.rs:800-1099 | every accepted transaction changes what a sidechain holds by exactly the new treasury output less what was spent |
| `Accounting.OneTreasurySpent` | lib/validator/task/mod.rs:858-867 | where inputs are unspent and distinct, no two spend recorded treasuries of one slot |
| `Books.ConnectBooks` | lib/validator/task/mod.rs:1328-1541 | across a block a treasury changes by exactly the sum of what its transactions add and take |
| `Books.OnlyBundlesTake` | lib/validator/task/mod.rs:755-798 | a transaction that takes from a treasury pays out one of its pending bundles, which has the votes |
| `Books.TakesPayoutAndFee` | lib/messages.rs:914-974 | what is taken is exactly the payout and fee of the bundle that was voted on, and the payees get what it promises |
| `ChainBooks.ReplayBooks` | lib/validator/task/mod.rs:1328-1541 | on every chain a treasury holds exactly what its transactions added less what they took, so a sidechain never pays out more than was paid in |
| `ChainBooks.EveryRunBooks` | lib/validator/task/mod.rs:1523-1654 | the same for the treasuries that the validator holds after any guarded run |
| `ChainBooks.ReplayChained` | lib/validator/dbs/mod.rs:110-151 | on every chain each recorded treasury UTXO says what the treasury held before it |
| `ChainBooks.OnlyVotedBundlesTake` | lib/validator/task/mod.rs:755-798 | every amount taken on a chain is a payout of a bundle with the votes, recorded in the block's diff |
| `PendingBound.EveryRunFewPending` | lib/validator/task/mod.rs:716-749 | after every guarded run no sidechain has more bundles pending than the maximal age and one |
| `PendingBound.M4OnEveryChain` | lib/block_producer/coinbase.rs:351-376 | on top of every chain the chosen votes survive encoding and the M4 is accepted exactly when the check lets it through, for every maximal age below 0xFFFD |
| `Safety.ConnectBounded` | lib/validator/task/mod.rs:314-440 | a block adds at most one vote per bundle and proposal, fails what is too old, and pays out approved bundles only |
| `ConnectModes.Environment.ConnectBlock` | lib/validator/cusf_enforcer.rs:197-352 | commit and dry run reach the same verdict; a dry run keeps nothing and shows the database that commit would leave; an event is sent exactly when the block's effects are committed; a fatal error keeps nothing |
| `ConnectModes.Environment.PartialDryRun` | lib/validator/cusf_enforcer.rs:582-640 | shows the tables after the block's transactions, and keeps nothing |
| `ConnectModes.Environment.DisconnectBlock` | lib/validator/cusf_enforcer.rs:426-451 | commits the step back and tells the listeners, or leaves no trace of an error |
| `ConnectModes.RefusalAddsHeaderOnly` | lib/validator/cusf_enforcer.rs:192-257 | a refused block adds its own header at most |
| `ConnectModes.PartialAgrees` | lib/validator/cusf_enforcer.rs:582-640 | connecting accepts exactly what the partial run accepts with nothing left to consolidate, and leaves its tables |
| `Suffix.SuffixTxs` | lib/block_producer/coinbase.rs:524-626 | in every order of the sidechains, each gets the same payouts and the same consolidated treasury |
| `Suffix.PayOne` | lib/block_producer/coinbase.rs:530-592 | an approved bundle is paid exactly when there is a treasury and it covers payout and fee; other sidechains are untouched |
| `Suffix.FinalizeM6` | lib/block_producer/coinbase.rs:432-471 | fails exactly when the treasury cannot cover the bundle; the successor is output 0 with what is left |
| `Suffix.PaySlotSound` | lib/block_producer/coinbase.rs:530-592 | the first payout spends all a sidechain had, each other one output 0 of the one before, and money is conserved |
| `SuffixPays.FilterExactly` | lib/block_producer/coinbase.rs:496-514 | the filter takes the votes of exactly those bundles that are no longer pending with the votes |
| `SuffixPays.SuffixPaysExactly` | lib/block_producer/coinbase.rs:524-592 | a stored bundle is paid exactly when its votes on record exceed the threshold, it is still pending with the votes, its slot has a treasury, and what earlier payouts leave covers payout and fee; and then its transaction is in the suffix |
| `SuffixPays.PaidBeforeIs` | lib/block_producer/coinbase.rs:584-590 | what earlier payouts took is payout and fee of each bundle that is paid |
| `SuffixEnd.SuffixIsAccepted` | lib/block_producer/coinbase.rs:524-626 | the validator accepts the whole suffix in every order; then no deposit waits and each treasury holds what it had less payouts and fees |
| `SuffixAccepted.PayoutAcceptedExactly` | lib/validator/task/mod.rs:755-1099 | a finalized bundle is accepted exactly when no payout is an active slot's treasury output and its canonical form is pending with the votes |
| `SuffixAccepted.TreasuryPayoutRefused` | lib/validator/task/mod.rs:800-845 | a payout to an active slot's treasury script is refused |
| `SuffixAccepted.NonCanonicalRefused` | lib/types.rs:1296-1325 | a bundle with a non-canonical fee push is refused once finalized, unless its canonical twin is pending with the votes |
| `SuffixSpends.NoDoubleSpend` | lib/block_producer/coinbase.rs:529-625 | no two inputs of a suffix spend the same outpoint |
| `Reservation.SuffixFits` | lib/block_producer/mod.rs:392-416 | for every prefix the validator accepts, the suffix weighs no more than the one on the made-up treasuries and the prefix's weight tweaks together |
| `Reservation.StepAddsAtMost` | lib/validator/cusf_enforcer.rs:541-561 | an accepted transaction adds at most one waiting deposit per treasury output |
| `Reservation.FilterReady` | lib/block_producer/coinbase.rs:496-514 | the bundles that the filter leaves are pending with enough votes |
| `SuffixWeight.WithinDeposits` | lib/types.rs:384-401 | besides the reserved payouts a suffix needs at most the variable allowance per deposit and one fixed part, counts that take more bytes included |
| `BlindedM6.IntoM6` | lib/types.rs:1220-1265 | the loop gives the finalized transaction, or fails exactly when the treasury cannot cover the bundle |
| `BlindedM6.M6idRoundTrip` | lib/messages.rs:914-974 | unblinding then reblinding gives the bundle's own id and slot exactly when its fee script is canonical |
| `BlindedM6.ValidBundle` | lib/types.rs:1274-1326 | a valid bundle has a nonzero payout and at least two outputs; its fee output is canonical exactly when the script has ten bytes |
| `BlindedM6.NonCanonicalBundleExists` | lib/types.rs:1296-1325 | some valid bundle has no canonical fee script |
| `TxCodec.BundleRoundTrip` | lib/types.rs:1155-1217 | deserializing undoes both the standard and the legacy encoding of every valid bundle |
| `TxCodec.LegacyIsNotStandard` | lib/types.rs:1177-1217 | the standard decoder refuses a legacy frame unless it has exactly one output |
| `TxCodec.DeserializeTx` | lib/types.rs:1155-1217 | reads the standard frame if it can and else the legacy frame, which is what the round trips are about |
| `CodecExact.ReadExactly` | lib/types.rs:1155-1217 | a bundle is read from the bytes of its standard or its legacy frame, and from no others |
| `CodecExact.CanonicalIsBundle` | lib/types.rs:1274-1326 | every list of payouts whose sum is positive and fits 64 bits makes a valid bundle, with any fee |
| `TxCodec.ReadTxOuts` | lib/types.rs:1185-1217 | the cursor loop reads exactly the outputs that the decoder specifies |
| `Script.TreasuryScriptRoundTrip` | lib/messages.rs:844-860 | a script parses to a slot exactly when it is that slot's treasury script |
| `Messages.PrintRoundTrip` | lib/messages.rs:342-460 | every printed message parses to itself |
| `Messages.MessageBytes` | lib/messages.rs:40-296 | the tag and the layout of every message, and the bytes of its script |
| `Messages.ParseDataExact` | lib/messages.rs:342-407 | whatever parses is well typed, and its encoding is the parsed data |
| `CoinbaseList.CoinbaseMessages.Push` | lib/messages.rs:523-584 | appends unless the message repeats one, names the output it repeats, keeps the index in line with a scan, and a refusal changes nothing |
| `CoinbaseList.CoinbaseMessages.FromOutputs` | lib/messages.rs:586-610 | reads exactly the messages that a scan finds, or refuses a repeated one |
| `CoinbaseList.CoinbaseBuilder.Add` | lib/messages.rs:678-745 | queues a message for the next free output, or refuses a repeated one |
| `CoinbaseList.CoinbaseBuilder.Build` | lib/messages.rs:645-676 | reparsing the built coinbase finds exactly the builder's messages at the outputs it assigned, behind the untouched original ones |
| `Votes.VotesEndToEnd` | lib/types.rs:690-733 | the chosen votes survive printing and parsing, each names the first acked, else policy-chosen, pending bundle |
| `Votes.ResolveBacks` | lib/types.rs:690-733 | the vote is the first acked pending bundle, and only without one what the policy says |
| `Votes.VotesRoundTrip` | lib/messages.rs:235-281 | encoding loses nothing exactly when no upvote names 0xFFFE or 0xFFFF |
| `Votes.WideOnlyWhenNeeded` | lib/messages.rs:235-262 | the two-byte form is used exactly when an index exceeds 0xFD |
| `ProducerCoinbase.M2sMayActivateUnusedSlot` | lib/block_producer/coinbase.rs:133-172 | the check finds an ACK that activates an unused slot exactly when there is one |
| `ProducerCoinbase.CheckIsExact` | lib/block_producer/coinbase.rs:118-172 | a coinbase's messages leave the active slots as they are exactly when the check finds nothing |
| `ProducerCoinbase.M4AcceptedExactly` | lib/block_producer/coinbase.rs:351-376 | the M4 has one vote per sidechain active behind the other messages, and is accepted, exactly when the check lets it through |
| `Template.AuctionWinners` | lib/block_producer/mod.rs:542-555 | each slot's winner has the highest fee, and is the first of equals |
| `Template.OneBidPerSlot` | lib/block_producer/mod.rs:353-391 | the auction keeps exactly one bid of each slot that has one in the mempool, of maximal fee |
| `Template.AcceptRequests` | lib/block_producer/mod.rs:497-514 | every request in the prefix gets an accept, and only those |
| `Template.AcceptsMatchRequests` | lib/block_producer/mod.rs:497-514 | after the auction, every request in the block has exactly one accept, with its own commitment, and there are no others |
| `Template.RequestsAcceptable` | lib/validator/task/mod.rs:1183-1234 | every request that the auction leaves is one the validator accepts, and none repeats a slot |
| `Grind.GrindMeetsTarget` | lib/mining.rs:157-213 | in every interleaving the returned nonce meets the target, and none is returned exactly when no 32-bit nonce does |
| `Grind.EveryThreadReturns` | lib/mining.rs:176-206 | a thread that is scheduled often enough returns, however stale its loads are |
| `Grind.CheapRejectSound` | lib/mining.rs:188-190 | the reject on the most significant byte never discards a hash that meets the target |
| `Grind.MidstateHashesHeader` | lib/mining.rs:163-185 | what is hashed from the midstate is the header with the candidate as its nonce |
| `SendTx.Exchange.Handle` | lib/p2p/send_tx.rs:194-234 | each message moves the state and sends what it calls for, or is an error that changes nothing |
| `SendTx.Exchange.Run` | lib/p2p/send_tx.rs:238-258 | the transaction is sent exactly to a node that, idle messages apart, sends a version with relaying and segwit, an acknowledgement and a request for it; whatever it sends, the trace without pongs is the script up to the state, and handled pings are answered in order |
| `SendTx.Exchange.AwaitProcessed` | lib/p2p/send_tx.rs:263-281 | ends well exactly when the pong for its own ping comes with only idle messages before it, and keeps the trace on the script |
| `SendTx.SentOnceExactlyWhenDone` | lib/p2p/send_tx.rs:216-232 | the transaction is sent once if the exchange is done, and not before |
| `SyncSummary.Diff` | lib/validator/sync_state_summary.rs:162-220 | reports exactly the differences there are |
| `SyncSummary.DiffDecidesEquality` | lib/validator/sync_state_summary.rs:157-179 | between canonical summaries an empty diff means they are identical |
| `SyncSummary.EmptyDiffMeans` | lib/validator/sync_state_summary.rs:182-220 | an empty diff means the same tip and the same entry for every key |
| `SyncSummary.RepeatedEntryUnseen` | lib/validator/sync_state_summary.rs:157-179 | a repeated entry makes summaries differ without a difference being reported |
| `SyncStates.Summarize` | lib/validator/sync_state_summary.rs:19-98 | the list is canonical and has exactly the state's rows, the active sidechain winning over its re-proposal |
| `SyncStates.RowsSay` | lib/validator/sync_state_summary.rs:34-85 | what each field of a row says: the sidechain's own numbers, the current treasury UTXO with its sequence number, and the bundles ordered by id |
| `SyncStates.SummaryUnique` | lib/validator/sync_state_summary.rs:15-17 | there is one summary only, whatever order the tables are read in |
| `SyncStates.SummariesEqualExactly` | lib/validator/sync_state_summary.rs:15-98 | for states without a hash collision between them, summaries are equal exactly when active sidechains, visible proposals, current treasuries and their numbers agree and pending lists are permutations |
| `SyncStates.StatesToCompare` | lib/validator/sync_state_summary.rs:15-98 | two different states that meet these conditions and have equal summaries |
| `SyncStates.OrderForgotten` | lib/validator/sync_state_summary.rs:69-70 | swapping any two pending bundles changes the state and not the summary |
| `SyncStates.HistoryForgotten` | lib/validator/sync_state_summary.rs:46-52 | older treasury UTXOs do not show in a summary |
| `PendingSort.SortedEqualExactly` | lib/validator/sync_state_summary.rs:69-70 | sorted bundle lists are equal exactly when the lists are permutations |
| `SyncReachable.EveryRunSummarizable` | lib/validator/sync_state_summary.rs:19-98 | every state the validator reaches is filed as a summary expects |

## Left out

- TreasuryTxs.FillOne: a transaction that spends two recorded treasuries of one slot is
  refused here, where the code asserts that it cannot be (`lib/validator/task/mod.rs:866`);
  `Accounting.OneTreasurySpent` shows that it does not arise from unspent inputs.
- ConnectModes.Fatal: of the database errors, only those for missing entries are modelled;
  failures of LMDB itself are not.
- TxCodec: witness stacks are read and dropped, and the cap on the size of a legacy frame
  is not modelled.
- BlindedM6: the several errors for a malformed fee or treasury script are one.
- TreasuryTxs.Combine: which of several sidechains' errors a refused transaction reports.
- Ledger: the downvoted bundles in a diff are a set, as only membership matters.
- Guarded runs: `ChainSafety.EveryRunSafe` leaves out those disconnects without a tip that
  corrupt the tables, which the code does not refuse; see Findings.
- `sync_to_tip` and header sync: the bulk path that stores headers and connects blocks
  read from disk or REST; blocks go through the same connect.
- `accept_tx`: mempool acceptance, apart from the weight it reserves.
- `select_sidechain_acks`, `select_sidechain_proposal`, `select_bundle_proposal`: filters
  that would only add easy members.
- SQLite, its migrations and the legacy seed table; the tables are maps.
- Real SHA-256, merkle roots, BIP 325 signing, block assembly and node calls.
- Sockets, timeouts, failed writes, cancellation and tracing.
- RPC servers, protobuf conversions, the wallet, configuration and the command line.
