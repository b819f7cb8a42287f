# Verified model of a market scanner's evidence algorithms

The repository watches token markets and keeps evidence about positions, histories and spending.
This project models the algorithms behind that evidence in Dafny 4.11 and proves what they
promise. It checks with `dafny verify dfyconfig.toml`.

- **Position lineage** (`Position*.dfy`, `MapTotals.dfy`). A replay of ordered token transfers over
  mixed fungible balances keeps a guaranteed lower bound and an upper bound per account. The model
  has a specification of the replay, an imperative replay proved equal to it, and a *world*: any
  assignment of purchased units to transfers that the balances allow. Soundness quantifies over
  every world. The parser that produces the batches and the resolver that fetches account
  histories from a worklist are modelled around it, and `PositionCoverage.dfy` puts them together:
  with honest providers, declared coverage and a complete analysis, the reported bounds are true.
  `PositionCompleteness.dfy` says exactly when an analysis ends complete, and
  `PositionTightness.dfy` that no better bounds would be true in every world.
- **Resumable history** (`Ranges.dfy`, `HistoryTasks.dfy`, `HistoryReader.dfy`, `PoolHistory.dfy`).
  Interval algebra, descending paginated reads with provider failover, and a record whose
  "covered" always implies "read".
- **Coordination** (`Matching.dfy`, `Coordination.dfy`). Augmenting paths certified by a vertex
  cover, a two-pointer window, and the maximal-group filter.
- **Checkpoint codec** (`CanonicalJson.dfy`, `Base64.dfy`, `GzipMembers.dfy`, `Checkpoint*.dfy`).
  A JSON printer with its reader, base64 (section 4 of RFC 4648), gzip members with an extra field
  (sections 2.2 and 2.3.1.1 of RFC 1952), and the manifest that puts the members together again.
- **Budgets and limits** (`RpcBudget.dfy`, `RpcLimiter.dfy`). Unit grants across crashes and lost
  replies; leaky buckets and pacing over real time.
- **EVM evidence** (`TransferPath.dfy`, `LogRange.dfy`, `EvmPosition.dfy`). The ordered proof that
  a pool's output reaches one wallet, the bisecting log reader, and the smaller lineage ledger.
- **Smaller state machines** (`TokenRetirement.dfy`, `WalletActivity.dfy`, `SignalDedup.dfy`,
  `BalanceBatch.dfy`).

Providers, clocks, storage and the compressor are parameters with stated laws: a listing is
complete for its window, an answer below the row limit is complete, a body inflates to what was
deflated, and the digest tells apart the texts that are really compared. `Wrappers.dfy` holds the
small values that all modules share.

Where a promise fails in the code, the code is kept and the failure is stated:

- A sale can be over-claimed in the very transaction that raises the first gap: an account found
  after a hidden credit enters with too small a balance
  (`PositionCounterexamples.SoldCanBeOverclaimed`). One transfer keeps the bounds true in every
  world with the same balances exactly when a claim that it passes on comes out of a recorded
  balance that is not below the real one (`PositionSoundness.LegSoundIff`); claims are sound for
  every run whose transfers all satisfy that (`AllClaimsCovered`, a condition on the transactions
  and the seeds alone), which every run that ends complete does.
- The `sold` upper bound ignores units that leave the tracked accounts and come back
  (`PositionCounterexamples.SoldUpperIgnoresReturns`). One transfer keeps every upper bound true in
  every world with the same balances exactly when what an untracked sender may bring into a tracked
  account still fits under that account's bound, and when an account that it finds was empty or can
  hold nothing that the sender does not pass on (`KeepsUppers`, `PositionUppers.UppersKeptIff`). On
  a run whose transfers all satisfy that, the reported upper bounds hold
  (`PositionUppers.UpperBoundsHold`); on any other complete run they are exceeded by at most the
  units that came back (`PositionUppers.UpperBoundsUpToReturns`). After a gap the `sold` bound
  promises nothing short of the whole purchase (`PositionUppers.IncompleteSoldIff`).
- A history request that its second lane refuses has already used the first lane's slot, although
  a refusal by one limiter changes nothing (`RpcLimiter.Lanes.AcquireHistory`).

## Model

| member | source | states |
|---|---|---|
| `PositionInvariants.LegKeeps` | `solana_position_lineage.py:690-737` | one transfer keeps 0 <= lower <= upper <= balance, never raises the guaranteed total, and a gap's zero lower bounds stay zero |
| `PositionInvariants.DebitKeeps` | `solana_position_lineage.py:699-708` | what a debit passes on as guaranteed leaves the sender's guarantee, and after a gap nothing is guaranteed |
| `PositionInvariants.CreditKeeps` | `solana_position_lineage.py:733-737` | a credit adds no more guarantee than the debit released |
| `PositionInvariants.DiscoverKeeps` | `solana_position_lineage.py:722-732` | discovering a recipient creates no guaranteed units |
| `PositionInvariants.BatchesKeep` | `solana_position_lineage.py:663-756` | over any number of transactions the bounds stay ordered, guaranteed plus sold never grows, and incompleteness is absorbing |
| `PositionInvariants.SettleKeeps` | `solana_position_lineage.py:774-782` | confirming closing balances keeps the same invariant |
| `PositionInvariants.StartKeeps` | `solana_position_lineage.py:572-617` | valid seeds start within the frozen purchases, with all lower bounds zero when history is incomplete |
| `PositionSoundness.ClaimIsCertainIff` | `solana_position_lineage.py:700-706` | a debit's guaranteed part holds for every mixing of units exactly when nothing is claimed or the recorded balance covers the real one |
| `PositionSoundness.LegSoundIff` | `solana_position_lineage.py:690-737` | one transfer keeps the lower bounds true in every world with the same balances exactly when the claim it passes on is covered by the recorded balance |
| `PositionSoundness.LegSound` | `solana_position_lineage.py:690-737` | for any feasible attribution of one transfer, bounds that held before it hold after it |
| `PositionSoundness.ShortfallGrows` | `solana_position_lineage.py:699-737` | while a ledger stays complete, a recorded balance that is too small can never recover, so the closing check would reveal it |
| `PositionSoundness.CompleteCovers` | `solana_position_lineage.py:690-756` | a transaction that ends without a gap recorded every debit on a balance that covers the real one |
| `PositionSoundness.CompleteBatch` | `solana_position_lineage.py:663-756` | a transaction that leaves the ledger complete had exact opening balances, so all its claims are covered |
| `PositionSoundness.BatchSound` | `solana_position_lineage.py:663-756` | one covered transaction keeps guaranteed holdings and sales true in every world |
| `PositionSoundness.CompleteRunCovered` | `solana_position_lineage.py:663-756` | every claim of a run that ends complete is covered |
| `PositionSoundness.ReplaySound` | `solana_position_lineage.py:663-756` | over any run, with discoveries and unobserved stretches, guaranteed holdings and sales stay below the truth in every world |
| `PositionBounds.AnalysisConserves` | `solana_position_lineage.py:783-787` | guaranteed held plus sold never exceeds the purchases: the error raised there is unreachable |
| `PositionBounds.HoldingFits` | `solana_position_lineage.py:785-802` | what an account really holds fits in the unknown share plus its guarantee, and in what is not surely sold |
| `PositionBounds.SettledBounds` | `solana_position_lineage.py:774-802` | after closing balances the bounds still hold of every world they held of, and the whole report is true: each account's holding, both groups and the sales |
| `PositionBounds.AnalysisSound` | `solana_position_lineage.py:556-802` | in every world that explains the run and covers its claims, the report is true: each account holds between its bounds, so do the original owners' accounts together and all others together, and the claimed sales took place |
| `PositionBounds.CompleteAnalysisSound` | `solana_position_lineage.py:556-802` | the same report is true without any condition on claims when the analysis ends complete |
| `PositionBounds.Summarize` | `solana_position_lineage.py:783-793` | original, transferred, sold and unknown add up to the frozen purchases, and the two aggregate upper bounds are those that `GroupsBounded` proves true |
| `PositionBounds.GroupsBounded` | `solana_position_lineage.py:788-793` | what the original owners' tracked accounts, or all others, really hold together lies between the guaranteed and the reported upper amount, in every world |
| `PositionUppers.LegUppers` | `solana_position_lineage.py:699-737` | one transfer raises the excess of true holdings and sales over the upper bounds by at most the units that return from untracked accounts |
| `PositionUppers.UppersBoundAllButReturns` | `solana_position_lineage.py:663-756` | over a complete run that excess is at most the units that returned |
| `PositionUppers.UpperBoundsUpToReturns` | `solana_position_lineage.py:801-812` | the held and sold upper bounds are exceeded by at most the units that came back from outside |
| `PositionUppers.NothingReturnsIff` | `solana_position_lineage.py:722-737` | a transfer lets no purchased unit back in any world that the bounds allow exactly when it shows no entry, or the guarantees already cover the whole purchase |
| `PositionUppers.UppersKeptIff` | `solana_position_lineage.py:699-737` | one transfer keeps every account's upper bound true, and its sales within what it adds to the sold bound, in every world with the same balances exactly when it satisfies `KeepsUppers` |
| `PositionUppers.UpperBoundsHold` | `solana_position_lineage.py:722-812` | on a run whose transfers all satisfy `KeepsUppers`, a condition on policy, ledger and snapshots, the upper bounds of a complete analysis, closing balances included, hold: sales of tracked accounts and each tracked holding |
| `PositionUppers.IncompleteSoldIff` | `solana_position_lineage.py:801-811` | on an incomplete ledger the reported sold bound holds in every world that may follow exactly when it is the whole purchase |
| `PositionCompleteness.FailedChangeNothing` | `solana_position_lineage.py:663-665` | removing every failed transaction from a history changes nothing in the whole analysis |
| `PositionCompleteness.BatchCompletesIff` | `solana_position_lineage.py:663-756` | a parsed transaction that truly happened leaves a complete ledger complete exactly when it hides nothing |
| `PositionCompleteness.RunCompletesIff` | `solana_position_lineage.py:663-756` | a run that explains real balances ends complete exactly when each of its transactions failed or is parsed and hides nothing |
| `PositionCompleteness.AnalysisCompletesIff` | `solana_position_lineage.py:556-812` | on truthful evidence the analysis ends complete exactly when nothing was missing at the start, every transaction failed or hides nothing, and every closing balance is usable |
| `PositionCompleteness.IssuesTell` | `solana_position_lineage.py:606-803` | an incomplete analysis names an issue, and a complete one names nothing but tracking limits |
| `PositionCompleteness.ObservedSales` | `solana_position_lineage.py:711-712` | the observed sales are the sum over the verified sales of the replayed transactions |
| `PositionCompleteness.TrackedArePaid` | `solana_position_lineage.py:722-732` | an account is tracked after a run exactly when it was before or a tracked account paid it attributable units, one step further each, unless a limit is on record; and a limit goes on record only where it is reached |
| `PositionCompleteness.StartIsSeeds` | `solana_position_lineage.py:572-617` | without a gap at the start, the replay begins with exactly the seeds as given and no issue |
| `PositionCompleteness.BoughtIsTotal` | `solana_position_lineage.py:580-603` | the frozen purchase is what was bought over all seeds, each account once |
| `PositionTightness.LowerIsBest` | `solana_position_lineage.py:699-737` | after a transfer the lower bound of each tracked account is the largest number true of it in every world that the bounds before allow |
| `PositionTightness.SoldLowerIsBest` | `solana_position_lineage.py:704-713` | and so for what is claimed as sold |
| `PositionTightness.UpperIsBest` | `solana_position_lineage.py:699-737` | after a transfer that brings nothing in from outside, the upper bound of each tracked account is the smallest number true of it in every world that the bounds before allow |
| `PositionTightness.HeldUpperIsNear` | `solana_position_lineage.py:794-812` | the upper bound reported for an account is reached in some world that the evidence allows, on a complete ledger up to the slack between its own bounds |
| `PositionTightness.GroupUpperIsBest` | `solana_position_lineage.py:788-793` | the bound reported for the original owners' accounts together is reached in some world, and that of all others exactly when their balances allow it |
| `PositionCounterexamples.SoldCanBeOverclaimed` | `solana_position_lineage.py:722-737` | a concrete transaction whose claimed sale is 10 while no purchased unit was sold; it fails the covering condition |
| `PositionCounterexamples.OverclaimIsUncovered` | `solana_position_lineage.py:704-713` | whenever a transaction's claimed sales exceed the real ones, one of its claims came out of an under-recorded balance |
| `PositionCounterexamples.SoldUpperIgnoresReturns` | `solana_position_lineage.py:711-811` | a whole complete analysis of one transaction, from a valid seed, sells all 10 purchased units against a reported upper bound of zero, and only the condition on its transfers fails |
| `PositionOrder.Deduplicate` | `solana_position_lineage.py:619-635` | one batch per signature survives, conflicting signatures are exactly those delivered with different bodies, and the gaps say so |
| `PositionOrder.Place` | `solana_position_lineage.py:637-650` | exactly the batches with a usable slot inside the horizon are kept |
| `PositionOrder.Order` | `solana_position_lineage.py:651-659` | the result is in chain order and drops exactly the slots whose order is ambiguous |
| `PositionOrder.Arrange` | `solana_position_lineage.py:618-659` | the arranged batches and gaps depend only on the set of delivered batches |
| `PositionOrder.OrderUnique` | `solana_position_lineage.py:651-659` | the order of unambiguous batches is unique |
| `PositionOrder.ArrivalOrderIsIrrelevant` | `solana_position_lineage.py:618-662` | deliveries of the same batches in any order or number are replayed alike |
| `PositionReplay.Replay.DebitSender` | `solana_position_lineage.py:699-708` | updates the sender in place as the specification's debit does and returns what it released |
| `PositionReplay.Replay.ApplyLeg` | `solana_position_lineage.py:690-737` | the in-place transfer step refines the specification step that the soundness theorems are about |
| `PositionReplay.Replay.ReadRows` | `solana_position_lineage.py:674-689` | reading recorded balances row by row in any order refines the specification |
| `PositionReplay.Replay.ApplyAll` | `solana_position_lineage.py:663-756` | replaying all batches in place refines the specification of a run, failed transactions included |
| `PositionReplay.Replay.ConfirmClosings` | `solana_position_lineage.py:757-773` | the first closing balance per account is confirmed, a conflict withdraws it |
| `PositionReplay.Run` | `solana_position_lineage.py:614-756` | arranging and replaying raw batches refines the specification, so all bounds apply to it |
| `PositionTwins.ReplayIgnoresCompleteness` | `solana_position_lineage.py:597-617` | two runs that differ only in the completeness flag and in seed boundaries track the same accounts with the same balances, uppers and depths |
| `PositionParser.NetIsBalance` | `solana_position_lineage.py:261-268` | running the kept transfers changes an account's balance by exactly its net delta |
| `PositionParser.Unreconciled` | `solana_position_lineage.py:261-270` | exactly the complete accounts whose transfers do not explain their snapshots are marked |
| `PositionParser.Overdrawn` | `solana_position_lineage.py:271-283` | exactly the accounts that some prefix of the transfers overdraws are marked |
| `PositionParser.ClaimSales` | `solana_position_lineage.py:286-297` | a transfer is a verified sale exactly when some witness that holds selects it |
| `PositionParser.CleanAddsUp` | `solana_position_lineage.py:265-283` | in a clean transaction before plus net transfers equals after for every account |
| `PositionParser.ParsedIsSafe` | `solana_position_lineage.py:261-302` | batches made this way satisfy what the replay's soundness needs |
| `PositionParser.Parse` | `solana_position_lineage.py:176-301` | every parsed batch is safe for the replay, and it is fully parsed exactly when nothing is malformed, unresolved, unreconciled or unproved |
| `PositionResolver.Resolver.TakeRow` | `solana_position_lineage.py:1031-1081` | a row is free of issues exactly when it is stored under its signature with its own content inside the window; nothing stored is replaced, and nothing is stored that no page showed |
| `PositionResolver.Resolver.TakePage` | `solana_position_lineage.py:962-1034` | a page is free of issues exactly when it comes from one provider, is finalized, in scope and free of reported gaps, all its rows are stored and, if it is the last page of a receipt account, the boundary is proved |
| `PositionResolver.Resolver.FetchAccount` | `solana_position_lineage.py:937-1098` | pages of one account until done, stuck or a limit, all of whose rows are gathered; on clean rows a history is complete exactly when its pages are a full, linked pass from one provider which, for a receipt account, proves the boundary |
| `PositionResolver.Resolver.Discover` | `solana_position_lineage.py:920-933` | exactly the newly tracked accounts are queued, once each, in order of depth and account |
| `PositionResolver.Resolver.Step` | `solana_position_lineage.py:936-1100` | each round uses a page or shortens the queue, so the worklist terminates |
| `PositionResolver.Resolver.Resolve` | `solana_position_lineage.py:935-1100` | when the queue is empty every account of the provisional replay has been fetched |
| `PositionResolver.ResolvePosition` | `solana_position_lineage.py:819-1117` | the result is the settled replay of transactions that pages showed; when coverage is declared complete, every account of it was read in full by one provider, every fetched receipt account had its boundary shown by a page, and no account, depth or event limit was hit |
| `PositionResolver.CleanIsCovered` | `solana_position_lineage.py:920-1117` | the other direction: with clean providers, proved receipt boundaries, a budget that is not used up and no tracking limit, coverage is declared complete and the receipt seeds count as verified |
| `PositionCoverage.ReplayIsChain` | `solana_position_lineage.py:618-662` | a complete replay of collected transactions is the replay of exactly the collected part of the chain, in its order, with nothing withdrawn |
| `PositionCoverage.ChainExplains` | `solana_position_lineage.py:920-1108` | the part of a chain that was collected explains its end, as long as what was not collected lists no tracked account |
| `PositionCoverage.CoverageMakesBoundsTrue` | `solana_position_lineage.py:819-1117` | with honest providers, declared coverage and a complete analysis, the whole report (accounts, groups and sales) is true of the chain, although only the tracked accounts' transactions were read and the others may lack a place in it |
| `Ranges.NormalUnique` | `pool_history.py:8-15` | merged ranges are the only normal form of the seconds they cover |
| `Ranges.MergeRanges` | `pool_history.py:8-15` | sorted, disjoint, non-adjacent ranges that cover exactly the same seconds |
| `Ranges.MissingRanges` | `pool_history.py:18-31` | the normal form of exactly the seconds of the window that are not covered |
| `Ranges.MissingSeconds` | `pool_history.py:34-35` | the number of uncovered seconds in the window |
| `HistoryTasks.FillRange` | `pool_history.py:40-52` | one missing range is tiled without overlap, and each fitting task is kept unless it runs into a kept one that begins no later |
| `HistoryTasks.ReconcileTasks` | `pool_history.py:38-53` | tasks tile the missing seconds exactly, in order and disjoint, and a task whose seconds are all still missing keeps its cursor unless it runs into a kept one that begins no later |
| `HistoryTasks.ApartAreKept` | `pool_history.py:40-52` | so tasks that do not overlap all keep their cursors |
| `HistoryReader.AllReadSeconds` | `pool_history.py:56-133` | coverage implies reading exactly when every archived transaction in a covered second is known |
| `HistoryReader.PageReads` | `pool_history.py:81-121` | an honest descending page proves its range read down to the second above its oldest row, and wholly when no cursor follows |
| `HistoryReader.ReadRange` | `pool_history.py:56-133` | whatever fails over, stalls or is handed off, everything reported covered has been read, the unread rest stays pending, and the read ends only for the reasons that its requests show: done, page budget, stall, or no provider left |
| `HistoryReader.FailureExhausts` | `pool_history.py:89-98` | a read fails only when no replacement is offered for a set of providers each of which refused a request or gave no valid page |
| `HistoryReader.OneProviderSuffices` | `pool_history.py:89-101` | if every untried provider is offered and one of them always answers with a valid page, the read does not fail |
| `HistoryReader.UnreadIsOldest` | `pool_history.py:117-121` | what stays unread ends no later than the oldest second of any valid page |
| `PoolHistory.Fold` | `pool_history.py:164-169` | folding a read into the record covers exactly the old and the new seconds, keeps covered-implies-read, leaves tasks for exactly the missing seconds, and keeps the cursors of tasks that were not read unless they run into one another |
| `PoolHistory.ChooseRepair` | `pool_history.py:171-190` | the repair is the first task that reaches the priority window, clipped to it; or else the first that reaches the live window, clipped to that; or else the first of all |
| `PoolHistory.Repair` | `pool_history.py:170-199` | a repair reads the chosen task, adds exactly what that read covered, and leaves every other task and the unread rest |
| `PoolHistory.CompactCoverage` | `pool_history.py:201-204` | forgetting covered ranges turns their seconds into tasks again |
| `PoolHistory.CompactedKeeps` | `pool_history.py:201-202` | beyond the limit exactly the first range and the latest 127 stay covered |
| `PoolHistory.CompactTasks` | `pool_history.py:205-210` | beyond the limit one fresh task spans the oldest ones, the latest keep their cursors, and every missing second keeps a task |
| `PoolHistory.Watermark` | `pool_history.py:236-240` | the largest second up to which everything from the start is covered |
| `PoolHistory.NoTasksIffCovered` | `pool_history.py:211-217` | no task remains exactly when every second of the window is covered |
| `PoolHistory.Conclude` | `pool_history.py:200-244` | the published record is bounded, loses no missing second, and its flags say exactly what is missing |
| `PoolHistory.Record.Collect` | `pool_history.py:136-255` | one collection is one head read and at most one repair, each ended for a reason that its requests show; it keeps covered-implies-read, covers and returns exactly what those reads did before compaction, and fails and changes nothing exactly when the head read fails without any coverage |
| `PoolHistory.Run` | `pool_history.py:136-255` | over every run, each archived transaction in a covered second is among those returned by then, and only pages supply what is returned |
| `Matching.WeakDuality` | `coordinated_activity.py:174-194` | no matching of owners to transactions is larger than a cover of their trades |
| `Matching.TightPairs` | `coordinated_activity.py:174-194` | a cover as small as the matching covers each matched pair exactly once |
| `Matching.FailureCertifies` | `coordinated_activity.py:180-187` | the transactions a failed search has seen turn the cover into one for the failed owner too, at the same size |
| `Matching.Matcher.Assign` | `coordinated_activity.py:180-187` | a search either grows the matching by one owner and one transaction or changes nothing and exhausts what it reached |
| `Matching.CountDistinct` | `coordinated_activity.py:189-194` | trying each owner once counts a maximum matching, cut off at three |
| `Matching.CountIsCappedMaximum` | `coordinated_activity.py:174-194` | the count is the smaller of three and the size of a maximum matching |
| `Coordination.ThreeMatchedIffIndependent` | `coordinated_activity.py:174-194` | a matching of three exists exactly when three rows have three owners and three transactions |
| `Coordination.DistinctTransactions` | `coordinated_activity.py:174-194` | the count reaches three exactly when the window holds three independent purchases |
| `Coordination.Windows` | `coordinated_activity.py:163-171` | every window fits and has three owners, and every group of fitting rows by three owners lies inside one window |
| `Coordination.SynchronousSignals` | `coordinated_activity.py:280-284` | every group of fitting buys with three independent ones has its owners reported together, and whatever is reported is the owners of one such window |
| `Coordination.PreparationSignals` | `coordinated_activity.py:332-338` | every group whose fundings and purchases both fit has its owners reported together although each time is windowed alone, and nothing else is reported |
| `Coordination.NothingIsLost` | `coordinated_activity.py:403-407` | every dropped group lies inside a kept group of its code and source |
| `Coordination.KeptAreApart` | `coordinated_activity.py:403-407` | no kept group lies inside another of its code and source |
| `Coordination.PublishSynchronous` | `coordinated_activity.py:280-407` | every group of every pattern lies inside a published group of its code and source, published groups are apart, and each is a candidate or the owners of one window with three independent buys |
| `Coordination.ReportedIff` | `coordinated_activity.py:280-407` | after the filter a synchronous purchase is reported exactly when three independent buys fit in the window |
| `CanonicalJson.CharRoundTrip` | `runtime_checkpoint.py:28-30` | reading an escaped character gives it back, surrogate pairs included |
| `CanonicalJson.ReadPrinted` | `runtime_checkpoint.py:28-30` | a printed value followed by any text that does not continue a number reads back, leaving that text |
| `CanonicalJson.ParsePrint` | `runtime_checkpoint.py:28-30` | parsing the canonical text gives the value back |
| `CanonicalJson.PrintInjective` | `runtime_checkpoint.py:28-30` | the canonical text identifies the value |
| `Base64.DecodeEncode` | `runtime_checkpoint.py:77-84` | decoding undoes encoding for every byte string |
| `Base64.EncodeConcat` | `runtime_checkpoint.py:77-84` | encodings of whole three-byte groups join to the encoding of the joined bytes |
| `Base64.PlainIffAligned` | `runtime_checkpoint.py:80-81` | there is no padding sign exactly when the length is a multiple of three |
| `GzipMembers.IdentityInjective` | `runtime_checkpoint.py:79` | the name written into a member identifies path, role and index |
| `GzipMembers.MemberIsAligned` | `runtime_checkpoint.py:77-84` | every member is a whole number of base64 groups, whatever its content and name |
| `GzipMembers.ReadOneMember` | `runtime_checkpoint.py:77-84` | a reader that skips the extra field finds the slice and the rest of the stream |
| `GzipMembers.MembersDiffer` | `runtime_checkpoint.py:77-84` | members of different records or slices are never equal |
| `CheckpointLayout.MakeGroups` | `runtime_checkpoint.py:57-72` | the generator's loop cuts where the bucket changes and the group is large enough |
| `CheckpointLayout.CutIsFirstBoundary` | `runtime_checkpoint.py:64-66` | a group ends at the first bucket boundary where it has the minimum size, and nowhere else |
| `CheckpointLayout.GroupsAreFew` | `runtime_checkpoint.py:60-72` | all groups of a map but the last have the minimum size, however sparse its buckets are |
| `CheckpointLayout.MakeFragments` | `runtime_checkpoint.py:49-74` | the generator yields the specified records for any state |
| `CheckpointLayout.FragmentsJoin` | `runtime_checkpoint.py:49-74` | the records join to exactly the canonical text |
| `CheckpointLayout.GroupsAreDistinct` | `runtime_checkpoint.py:57-72` | group labels of one map never repeat, because their buckets increase |
| `CheckpointLayout.FragmentsAreDistinct` | `runtime_checkpoint.py:49-74` | no two records share path and role, and none is empty |
| `CheckpointPieces.CutJoins` | `runtime_checkpoint.py:109-134` | the slices of a record join to its text however sizes were halved |
| `CheckpointPieces.CutIsProper` | `runtime_checkpoint.py:109-134` | every slice is a genuine member, numbered from zero, within the record size, and its name fits the extra field |
| `CheckpointPieces.SliceIsLargest` | `runtime_checkpoint.py:110-116` | a slice is the first in the sequence of halved sizes that fits a part, and one that does not fit is metadata or at the floor |
| `CheckpointManifest.ScanRefs` | `runtime_checkpoint.py:182-212` | the scan accepts exactly references with unique ids that form unbroken numbered runs, each run once |
| `CheckpointManifest.Validate` | `runtime_checkpoint.py:168-215` | the validator accepts exactly the valid manifests |
| `CheckpointStaging.StagedRefs` | `runtime_checkpoint.py:101-134` | staged references are listed in runs and no name repeats |
| `CheckpointStaging.IdsDiffer` | `runtime_checkpoint.py:121-123` | different slices have different ids |
| `CheckpointStaging.StagedRefsOk` | `runtime_checkpoint.py:183-212` | within the sizes staged references pass the identity and ordering checks |
| `CheckpointStaging.StagedInlines` | `runtime_checkpoint.py:106-125` | the runtime metadata becomes at most one inline member, with its place |
| `CheckpointStaging.TotalsSplit` | `runtime_checkpoint.py:213-215` | part and inline sizes add up to the joined data and to the decoded text |
| `Checkpoint.DurableIsCanonical` | `runtime_checkpoint.py:89-93` | the durable state is exactly the entries that cannot be rebuilt, in order |
| `Checkpoint.StagedIsValid` | `runtime_checkpoint.py:146-253` | within the limits, a built manifest always passes its own validator |
| `CheckpointRestore.GenuineReads` | `runtime_checkpoint.py:218-237` | a genuine member passes every integrity check and gives its slice |
| `CheckpointRestore.SlotsAreOrdered` | `runtime_checkpoint.py:288-298` | inserting the inline member where the manifest says restores the original order |
| `CheckpointRestore.Hydrate` | `runtime_checkpoint.py:281-306` | the loop returns the joined members exactly when all checks of the specification pass |
| `CheckpointRestore.HydrationNeverDiffers` | `runtime_checkpoint.py:281-306` | whatever a part store answers, hydration gives the staged members or fails |
| `CheckpointRestore.HydrationSucceeds` | `runtime_checkpoint.py:281-306` | with the staged parts stored, hydration succeeds |
| `CheckpointRestore.DecodingRestores` | `runtime_checkpoint.py:150-165` | decoding the joined members gives back exactly the durable state |
| `CheckpointBuild.Staging.Slice` | `runtime_checkpoint.py:110-116` | the halving loop ends at the specified slice size |
| `CheckpointBuild.Staging.AddRecord` | `runtime_checkpoint.py:109-134` | staging a record succeeds exactly when no member and no total exceeds its limit |
| `CheckpointBuild.Documents` | `runtime_checkpoint.py:240-253` | documents are released exactly when manifest and parts are stageable |
| `CheckpointBuild.Build` | `runtime_checkpoint.py:87-147` | a build succeeds exactly within the size limits, never failing its own layout or ordering checks |
| `CheckpointBuild.SaveAndLoad` | `runtime_checkpoint.py:87-306` | building, storing, hydrating and decoding returns exactly the durable state |
| `RpcBudget.Account.Reserve` | `rpc_budget.py:143-151` | reserves in the month that the clock shows, within its limit, or leaves the ledger alone |
| `RpcBudget.Account.Allocate` | `rpc_budget.py:237-250` | charges a whole grant within the limit or leaves the ledger alone |
| `RpcBudget.ChargesGrow` | `rpc_budget.py:143-151` | a charge adds its units to its own month and to no other |
| `RpcBudget.Grant.Reserve` | `rpc_budget.py:221-227` | a grant sends exactly when its month has come and it has the units left, and never more than its limit |
| `RpcBudget.Chunks.Renew` | `rpc_budget.py:274-289` | in a steady month a renewal charges the smaller of what is left and the larger of chunk and request, or nothing when too little is left; the grant has exactly that limit, and is issued exactly when the write was acknowledged |
| `RpcBudget.Chunks.Reserve` | `rpc_budget.py:269-294` | units sent come from a covered grant, a request that the grant in use pays for charges nothing and any other at most one chunk or itself, a failed write disables the run for good, and otherwise a renewable request succeeds |
| `RpcBudget.Parent.DispatchWorker` | `rpc_budget.py:237-250` | a worker gets a grant of exactly its units, charged and persisted first, or nothing is handed over |
| `RpcBudget.Parent.SpendDirect` | `rpc_budget.py:143-151` | a direct request charges exactly its units to the month the clock shows, or nothing |
| `RpcBudget.CoveredAfterCharge` | `rpc_budget.py:242-250` | a charge whose write was lost or taken keeps every grant covered |
| `RpcBudget.CoveredAfterGrant` | `rpc_budget.py:277-289` | a grant issued for a durable charge is covered and within the limit |
| `RpcBudget.GrantsAreCharged` | `rpc_budget.py:253-294` | units sent through grants in a month are at most the durable charges and the limit |
| `RpcBudget.Run` | `rpc_budget.py:110-294` | over any interleaving of spending, worker grants, crashes, month changes and lost replies, what the events report as sent is what grants sent, and stays within durable charges and the monthly limit; each event charges at most its own units or, for a request of the parent, one chunk; and in a smooth month every request goes out |
| `RpcBudget.ReservationCovers` | `rpc_budget.py:80-95` | the reservation for a history page is the price of a full page and covers any page it may return; each hundred rows begun costs ten credits |
| `RpcLimiter.Limiter.Acquire` | `rpc_limiter.py:42-67` | waits the computed delay or refuses without any change; the log of starts keeps its bound |
| `RpcLimiter.Limiter.WaitIsLeast` | `rpc_limiter.py:42-60` | the wait is the shortest: from now on, exactly the starts after it keep the bounds that the limiter promises |
| `RpcLimiter.IntervalBound` | `rpc_limiter.py:42-67` | a bounded log of starts is bounded over every interval of time by the slack of the last start in it |
| `RpcLimiter.BucketRate` | `rpc_limiter.py:51-66` | in any interval at most the capacity plus rate times length is granted |
| `RpcLimiter.PaceRate` | `rpc_limiter.py:49-63` | in any interval at most rate times length plus the weight of its last request is granted |
| `RpcLimiter.Lanes.AcquireHistory` | `rpc_limiter.py:82-90` | a granted history request waits for both lanes in turn and takes a slot of each; a refused one changes nothing exactly when the indexed lane itself refuses |
| `RpcLimiter.RefusalLeavesCharge` | `rpc_limiter.py:82-90` | a concrete refused request that used up its indexed slot |
| `TransferPath.TransferNet` | `robinhood.py:387-401` | the net amount an address gains, or an error when some transfer cannot be decoded |
| `TransferPath.PoolOutputReaches` | `robinhood.py:424-450` | accepts exactly when the wallet gains the amount, the pool loses it, everyone else nets zero and nobody forwards more than received |
| `TransferPath.Settled` | `robinhood.py:449-450` | the final test on running balances is exactly the statement about net transfers |
| `TransferPath.NeverOverdrawn` | `robinhood.py:438-448` | at no prefix has anyone but the pool forwarded more than received |
| `TransferPath.AcceptedTransfers` | `robinhood.py:387-450` | once accepted, the net transfers of wallet, pool and any other address are as claimed |
| `LogRange.GetLogs` | `robinhood.py:673-691` | returns exactly the matching logs of the range, once each and in chain order, and fails exactly when one of the chunks it asks for is not served |
| `LogRange.CooperationServes` | `robinhood.py:673-691` | a provider that answers with proper rows and never truncates a single block serves every range |
| `LogRange.SortValues` | `robinhood.py:691` | the collected values in chain order, none lost |
| `EvmPosition.Replay` | `position_evidence.py:22-55` | sorting and replaying refines the specification, repeated events and failed reconciliation included |
| `EvmPosition.ReplayIff` | `position_evidence.py:27-52` | a replay succeeds exactly when no tracked wallet is overdrawn and each ends with its observed balance |
| `EvmPosition.OnceIsFirsts` | `position_evidence.py:27-32` | reading repeated keys once keeps exactly the first transfer of each key, in order |
| `EvmPosition.ChronologicalIsStable` | `position_evidence.py:28` | sorting puts the transfers in chain order and, place by place, loses, adds and swaps none |
| `EvmPosition.MoveKeeps` | `position_evidence.py:33-48` | a transfer keeps known within balance, creates no known units and takes back no sale |
| `EvmPosition.MoveSound` | `position_evidence.py:36-48` | known units and sales stay true for every mixing of one transfer |
| `EvmPosition.KnownIsBest` | `position_evidence.py:36-48` | after a transfer the known amount of a wallet is the largest that is true in every mixing |
| `EvmPosition.SoldIsBest` | `position_evidence.py:42-48` | and so is what is known to be sold |
| `EvmPosition.ReplayKeeps` | `position_evidence.py:22-55` | a replay never shrinks sales or the unknown share |
| `EvmPosition.SeedIsGood` | `position_evidence.py:14-19` | a seed claims no more than was bought |
| `EvmPosition.SeedIsExact` | `position_evidence.py:14-19` | each wallet starts with its balance and its retained bound, as an original and with nothing sold |
| `EvmPosition.SummaryPossible` | `position_evidence.py:58-66` | the summary raises exactly when more is claimed than bought, and otherwise its shares add up |
| `EvmPosition.SummaryTrue` | `position_evidence.py:58-66` | what originals and others really hold and what was really sold is at least what the summary says, and exactly that in the world that holds what is known |
| `EvmPosition.RunSound` | `position_evidence.py:14-66` | over any sequence of replays and any mixing, known units are really held, sales really happened and a summary is possible |
| `TokenRetirement.ChainSpan` | `token_retirement.py:86-92` | a chain of n quotes spans at most n - 1 of the widest gaps |
| `TokenRetirement.DayNeedsThirteen` | `token_retirement.py:82-96` | a chain of a day holds at least thirteen quotes, so the sample test never decides |
| `TokenRetirement.ObserveKeeps` | `token_retirement.py:60-96` | every reading leaves a record that an unbroken chain of low quotes backs |
| `TokenRetirement.RetiresExactly` | `token_retirement.py:60-96` | a reading retires a token exactly when it is a current low quote that completes a day |
| `TokenRetirement.RecordIsBacked` | `token_retirement.py:55-99` | after any rounds a token's record is backed by quotes that those rounds read, one round after another, with no round since the first disputing them |
| `TokenRetirement.RecordExistsIff` | `token_retirement.py:60-98` | a record exists exactly when some low reading has been followed by nothing that ends the watch: unverified readings within two hours of the newest quote, and verified ones that are outdated, or low and within two hours |
| `TokenRetirement.LastingIsWatched` | `token_retirement.py:60-98` | such rounds leave a record at least as new as their newest quote, which reaches back to the first reading if that was the newest |
| `TokenRetirement.RetirementIsDue` | `token_retirement.py:60-96` | in a run, a reading retires a token exactly when it is a current low quote that makes the record a day long |
| `TokenRetirement.DayOfLowQuotesRetires` | `token_retirement.py:82-96` | a watch that lasts for a day retires the token on the next low quote that is not outdated |
| `TokenRetirement.Watches.ObserveToken` | `token_retirement.py:60-96` | updates one record in place as the specification of a reading says and leaves the others |
| `TokenRetirement.Run` | `token_retirement.py:55-99` | over any rounds the retirements are exactly those of the readings, and each stands on a day-long chain of quotes that earlier rounds verified, low, undisputed since, and never more than two hours apart |
| `WalletActivity.ReadTxsRead` | `wallet_activity.py:227-245` | after a page each of its transactions is stored or an issue remembers why not, and no event is replaced |
| `WalletActivity.PageProgress` | `wallet_activity.py:219-248` | an honest page extends what has been read of one provider's listing, without a hole |
| `WalletActivity.WindowComplete` | `wallet_activity.py:256-260` | a pass that ends without issues has stored every transaction of its window |
| `WalletActivity.ServedPage` | `wallet_activity.py:215-248` | a page of a clean window is read without an issue, and one that is not the last gets further |
| `WalletActivity.Audit.Advance` | `wallet_activity.py:192-277` | a page is accepted exactly when it passes the checks and none of its events is refused; it leaves the next page to read, the window to read again, or, without issues on the last page, a checkpoint at the end of the window; a failed page changes no evidence |
| `WalletActivity.Run` | `wallet_activity.py:192-277` | over any passes every transaction up to the checkpoint has its events stored and no open issue, and more passes than transactions over a clean window complete it to its end |
| `SignalDedup.MergeCommutes` | `signal_evaluation.py:279-295` | merging two exports of a checkpoint does not depend on their order |
| `SignalDedup.MergeAssociates` | `signal_evaluation.py:279-295` | merging three exports does not depend on their grouping |
| `SignalDedup.JoinMore` | `signal_evaluation.py:279-295` | merging one more export keeps the join of all of them |
| `SignalDedup.JoinUnique` | `signal_evaluation.py:241-295` | a set of exports has one join |
| `SignalDedup.MergeCaptures` | `signal_evaluation.py:253-295` | the table holds the join of all exports per token, catch time and horizon, and says which captures conflict |
| `SignalDedup.Deduplicate` | `signal_evaluation.py:253-311` | exclusions are exactly reused ids, conflicts and repeated tokens, in that order |
| `SignalDedup.EarliestOnly` | `signal_evaluation.py:300-305` | a token keeps at most one episode, its earliest capture |
| `SignalDedup.ExportOrderIsIrrelevant` | `signal_evaluation.py:253-311` | exports with the same rows, in any order and number, are evaluated alike |
| `BalanceBatch.Select` | `balance_batch.py:141-150` | the distinct owners split into a bounded selection and the rest |
| `BalanceBatch.FirstsExtend` | `balance_batch.py:141-150` | owners keep the order of their first mention |
| `BalanceBatch.LeftOutDoesNotFit` | `balance_batch.py:152-182` | a usable inventory is read unless the request is too full for it |
| `BalanceBatch.ReadGroup` | `balance_batch.py:183-210` | each account kept from a request was answered for its owner at a slot no older than demanded and has lost nothing |
| `BalanceBatch.RestatedIsPrimed` | `balance_batch.py:215-225` | a stored result has every known account, none smaller, and the total is their sum |
| `BalanceBatch.Inventory.Prime` | `balance_batch.py:130-236` | distinct owners split exactly into primed and full-enumeration-required; of the selected ones exactly those are primed whose accounts were all asked for and answered well, the others are marked; stored totals stay the sums of their accounts |

## Left out

- PositionBounds.AnalysisSound: assumes `AllClaimsCovered`, a condition on recorded and real balances at each claiming debit; it is sufficient and, for each single transfer, necessary (`LegSoundIff`), but a later transfer may hide an uncovered claim, so it is not necessary for a whole run.
- PositionUppers.UpperBoundsHold: the condition is exact for each single transfer (`UppersKeptIff`) and sufficient for a run: a later transfer may bring a bound back above the truth. Sales by accounts that the ledger does not track are outside the sold bound.
- EvmPosition.RunSound: takes the recorded balance as the real one inside a replay, as `replay_position` does once the observed final balance agrees.
- PositionTightness.LowerIsBest: the bounds are the best ones after each single transfer; that no run as a whole has better ones is not stated.
- PositionTightness.UpperIsBest: leaves out accounts paid by an untracked sender or found with a balance, whose upper bound may be too low (`UppersKeptIff`).
- PositionResolver.CleanIsCovered: assumes that every page asked for is clean and that the cursors end, and says nothing of a budget that is just used up.
- PositionUppers.UpperBoundsUpToReturns: about the replay of a complete run before closing balances.
- PositionCoverage.CoverageMakesBoundsTrue: assumes honest providers, and that the transactions were parsed and the closing balances reported truthfully.
- RpcLimiter.Limiter.Acquire: assumes a monotone clock and a sleep that is never short; floating point is modelled by reals.
- GzipMembers.ReadOneMember: compression is a parameter with the law that one body inflates to what was deflated and leaves the rest of the stream.
- CheckpointRestore.HydrationNeverDiffers: assumes the digest tells apart the staged members and the texts the store offers for them.
- CheckpointRestore.Hydrate: every refusal is one outcome; the older manifest form without aligned members is not modelled.
- CanonicalJson.ParsePrint: strings are sequences of Unicode scalar values, so Python strings with lone surrogates are not covered, and numbers carry the text Python prints for them.
- HistoryReader.OneProviderSuffices: a read that does not fail may still stop at its page budget or at a page that gets no further.
- LogRange.GetLogs: a provider is a function of chunk size and range, complete below a thousand rows.
- WalletActivity.Run: assumes that every provider's listing of a window holds all transactions of the wallet in it.
- BalanceBatch.Inventory.Prime: totals are raw amounts; the division by the token's decimals and the mint, schema and type checks of a record are not modelled.
- Edges, observed slots and rows of other mints in `analyze_position`: reporting only.
- Seed scopes and shape errors that raise before the replay are one refusal condition.
- `freeze_receipt_seeds`, `annotate_pool_activity` and the wallet flow decoder: descriptive case analysis.
- The sorting and deduplication of the transactions that `collect_history` returns, its statistics and its legacy keys.
- `_normalize_trades`, holdings, funding filters, turnover patterns, materiality and the truncation to twelve signals in `coordinated_activity.py`.
- The choice between duplicate details of one candidate key: only the group is modelled.
- `restore_checkpoint`, usage statistics and error texts of `runtime_checkpoint.py`.
- Provider pricing tables other than indexed history pages, and the snapshots of budgets.
- `routed_buy`, `beneficiary_buy`, `window_start`, `token_age` and `recheck_cohort` in `robinhood.py`, and its node discovery around `replay_position`.
- `current_record`, `recapture_proof` and `purge_retired_state` in `token_retirement.py`.
- Outcome windows, matching and statistics in `signal_evaluation.py`, and the parsing of raw rows.
- `remember_enumeration` in `balance_batch.py`.
- HTTP, subprocesses, SQLite, files, environment, dashboards and scoring: no law to model.
