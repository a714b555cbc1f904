# Verified models of a Lightning node toolkit

A Dafny model of the parts of the repository where many cases, shared state or arithmetic meet, with proofs of
what those parts keep. `dafny verify dfyconfig.toml` checks everything.

| File | What it models |
|---|---|
| `ChangesToRecord.dfy` | the change set between a stored record and fresh data, and how it is applied |
| `GuardedSync.dfy` | the read, plan, guarded write protocol of all record syncs, with any number of clients |
| `PaymentHtlc.dfy`, `PeerSync.dfy`, `PolicySync.dfy` | three tables that follow the protocol, and the events of their writes |
| `ChannelTable.dfy` | the channel table, which a sync and a close mark share |
| `FundingPsbt.dfy`, `FundingSizes.dfy`, `FundingFees.dfy` | fees, sizes, outputs and token balance of a transaction funded by several members |
| `Shuffle.dfy` | the in-place shuffle of an array copy |
| `Percentile.dfy`, `LiquidityTokens.dfy`, `PeerLiquidity.dfy` | percentile, selection and sums of liquidity |
| `ConflictingBalances.dfy` | pending outputs that are double spent or already invalid |
| `ForwardFirewall.dfy`, `FirewallRules.dfy`, `FirewallRuns.dfy` | the forward request rules: the handlers, what a decision means, and whole runs |
| `Paging.dfy` | page by page fetches with an early stop |
| `PendingChannels.dfy` | the poll that emits newly opening and closing channels |
| `Balances.dfy` | the balance roll-up of a node |
| `Sequences.dfy`, `Wrappers.dfy` | shared vocabulary: rounding up, distinct elements, sums, stable sort, options and results |

## How the code is carried over

- Handlers that change fields over time are classes (`Table`, `Attempt`, `Handler`, `CloseHandler`, `Transaction`,
  `Firewall`, `Request`, `Subscription`). Their methods are proved against functions on values, and the statements
  about whole runs are proved about folds of those functions over all step sequences.
- A handler that awaits something is cut at the awaits. A sync has two atomic pieces (read, guarded write); a forward
  request has five (chain check, wallet reply if it was asked, stop list, pair list, limits). Anything may run between two pieces.
- The database is a class with three atomic operations: `GetItem`; `PutItem`, which fails if the record exists;
  and `UpdateItem`, which fails unless the revision matches. Record keys are taken to be injective.
- Answers of the node (peers, channels, wallet info, pages, random draws, times) are inputs of the steps.
- Dates are numbers in date order; buffers are hex strings; rates, halves and interpolated values are reals.

## What the code does that its names and comments do not say

- Conflicting balances: the indices count unconfirmed outputs, but the tokens are read from the whole list, so a
  confirmed output listed first makes the totals those of other outputs. `TotalsMeanIndicesIff` is the exact
  condition, `ConfirmedFirstMisreports` an instance. Two unconfirmed outputs of one transaction also count as a
  conflict (`SiblingOutputsConflict`); `FlagMeansOtherIff` says exactly when the flag means another transaction.
- The close mark does not bump the revision, so two marks read before either is written both succeed and both emit
  (`DoubleCloseOverwrites`); `SequentialIff` is the exact condition under which the table is linearisable.
- A channel first seen with a transaction but without capacity gets an outpoint and no capacity
  (`OutpointWithoutCapacity`, `TogetherIff`).
- `new_peer` asks for two parts of a sync result that never come together (`NewPeerIsNeverEmitted`).
- The forward HTLC update lists the revision among the compared attributes on one side only, which erases it
  (`ComparedRevisionIsErased`).
- Two members who both list funding are charged for 43 virtual bytes too few, which only the rounding of two fees can
  make up for (`FeesCoverSizeIff`); tokens are conserved only under the count condition of `TokensConservedIff`.
- The order of the policies decides whether a peer is kept exactly when they list both an unknown or zero rate and a
  known positive rate within the maximum (`OrderMattersIff`, and `ZeroRateDependsOnOrder` as an instance).
- A forward with HTLC index 0 on either side is never counted by the rate rule (`IndexZeroIsNotCounted`); the count is
  that of all pending forwards exactly when none of them lacks a channel or an index (`RateCountIsWholeIff`).
- A wallet reply that arrives late replaces newer chain info (`LateReplyTurnsBack`); `TimeTurnsBackIff` says exactly
  when the time of the last block goes back.
- When a forward comes in and leaves through channels with the same peer, the resolved pair depends on the order of
  keys (`PeersResolveIff`).

## Model

| member | source | states |
|---|---|---|
| ChangesToRecord.FilterChanged | sync/changes_to_record.js:33-42 | the kept attributes are exactly those that differ, lists compared as sets, and it fails exactly when some comparison throws |
| ChangesToRecord.CollectChanges | sync/changes_to_record.js:49-54 | the first fold sets each changed attribute and adds one to the revision unless the revision itself is changed |
| ChangesToRecord.CollectValues | sync/changes_to_record.js:56-68 | the other two folds hold the value of every changed attribute and nothing else |
| ChangesToRecord.Derive | sync/changes_to_record.js:32-71 | filter and folds together give the specified difference, for any order of the attribute names |
| ChangesToRecord.ApplyReachesUpdated | sync/changes_to_record.js:33-70 | applying the change set brings every compared attribute to its new value, leaves all others alone and adds one to the revision |
| ChangesToRecord.SyncReachesUpdated | sync/changes_to_record.js:33-70 | for records of the tables the comparison never throws, and an attribute is reported exactly when it differed |
| ChangesToRecord.PreviousUndoes | sync/changes_to_record.js:56-61 | writing back the previous values restores every attribute but the revision |
| ChangesToRecord.SecondSyncIsSilent | sync/changes_to_record.js:44-47 | deriving again after the write finds no change |
| ChangesToRecord.RevisionBumpedIff | sync/changes_to_record.js:49-54 | the revision is incremented exactly when it is not itself among the differing attributes |
| ChangesToRecord.ComparedRevisionIsErased | sync/update_forward_htlc.js:184-218 | comparing a revision of 0 with none always reports a change and erases the stored revision |
| ChangesToRecord.ThrowsIff | sync/changes_to_record.js:33-42 | the comparison throws exactly when some attribute has a list on one side and, on the other, a truthy value that cannot be iterated |
| ChangesToRecord.ReportedIff | sync/changes_to_record.js:2-42 | of two lists, an attribute is reported exactly when some element is in one and not in the other; of two plain values, when they differ; a list against nothing, when it is not empty; against a text, by its characters |
| ChangesToRecord.SameRecordIsUnchanged | sync/changes_to_record.js:44-47 | a record compared with itself reports nothing |
| ChangesToRecord.ReportHolds | sync/changes_to_record.js:49-70 | the three parts of a report are about the same attributes: the new value as change and as update, the old one as previous |
| ChangesToRecord.SyncStoresElements | sync/changes_to_record.js:33-70 | after a sync a stored list has exactly the elements of the updated list, and a plain value is the updated one |
| ChangesToRecord.ApplyMeans | sync/changes_to_record.js:49-54 | a written change sets its attribute or adds to it, and attributes without a change stay |
| GuardedSync.Table.PutItem | sync/update_payment_htlc.js:172-179 | a create succeeds exactly when the key is absent, and then stores the record |
| GuardedSync.Table.UpdateItem | sync/update_payment_htlc.js:193-199 | an update succeeds exactly when the stored revision is the expected one, and then applies all changes at once |
| GuardedSync.Attempt.Load | sync/update_payment_htlc.js:111-112 | an attempt reads what is stored at that moment |
| GuardedSync.Attempt.Finish | sync/update_payment_htlc.js:171-200 | the guarded write acts on what is stored by then, with the plan made from what was read |
| GuardedSync.RunIsFaithful | sync/update_payment_htlc.js:111-200 | in every interleaving the table is the replay of the finished attempts, each of which read some earlier state |
| GuardedSync.RevisionCountsWrites | sync/update_payment_htlc.js:121-122 | the stored revision counts the writes of its key, so it grows by one with each |
| GuardedSync.RevisionDeterminesRecord | sync/update_payment_htlc.js:193-199 | along a run, equal revisions of a key mean equal records |
| GuardedSync.WriteSawCurrent | sync/update_payment_htlc.js:193-199 | a write that goes through was planned from exactly the record it lands on |
| GuardedSync.ReplayIsHistory | sync/update_payment_htlc.js:115-200 | the real effect of a log is the sequential fold of the update function over the written inputs in commit order |
| GuardedSync.EntryEffect | sync/update_payment_htlc.js:115-200 | around one attempt: what was stored, what it read and what is stored after it |
| GuardedSync.Linearisation | sync/update_payment_htlc.js:115-200 | under any interleaving, refusal and retry each stored record is that fold, and every written attempt read the fold right before it |
| GuardedSync.GuardDecides | sync/update_payment_htlc.js:171-200 | a create goes through exactly when nothing is stored, an update exactly when the revision read is the stored one, and a refused write leaves the table as it is |
| PaymentHtlc.Handler.FinishAttempt | events/event_payment_htlc.js:27-65 | an attempt writes, emits at most one event and asks for a retry exactly when it was refused or failed |
| PaymentHtlc.PlannedIsDisciplined | sync/update_payment_htlc.js:115-169 | the payment planner creates only absent records at revision 0 and increments the revision of present ones |
| PaymentHtlc.UpdateReachesArgs | sync/update_payment_htlc.js:143-165 | an update takes all seven attributes from one input, keeping millitokens and timeout when the input has none |
| PaymentHtlc.WriteReflectsInput | sync/update_payment_htlc.js:115-169 | after a write the whole record reflects its one input, never a mix of two |
| PaymentHtlc.RecordsAreSequential | sync/update_payment_htlc.js:115-200 | in every run each payment record is the sequential fold of its written inputs, and reflects the last one |
| PaymentHtlc.StoredMtokens | sync/update_payment_htlc.js:157-157 | the stored millitokens are the last non-empty ones written |
| PaymentHtlc.WriteEmitsEdges | events/event_payment_htlc.js:40-62 | one write emits sent exactly when the confirmation rises, failed exactly when only the failure rises, attempting exactly on a creation with millitokens |
| PaymentHtlc.EmissionIsEdges | events/event_payment_htlc.js:27-65 | in every run the events are exactly those edges of the committed history, with the last non-empty millitokens committed earlier; unwritten attempts emit nothing |
| PaymentHtlc.CreatedPayment | sync/update_payment_htlc.js:115-134 | each field of a created payment record, from the input |
| PaymentHtlc.UpdatedPayment | sync/update_payment_htlc.js:143-165 | each field of a synced payment record: five from the input, millitokens and timeout from the input unless empty or zero, the key as stored |
| PaymentHtlc.PaymentWritesIff | sync/update_payment_htlc.js:115-200 | a sync fails exactly without a date or a key, creates exactly what is absent, and updates exactly what differs from the input |
| PaymentHtlc.EventNamesHtlc | events/event_payment_htlc.js:40-62 | an event names the channel and key of the input, with its millitokens on an attempt and those of the record read otherwise |
| PeerSync.Handler.FinishAttempt | events/event_peer_connection.js:22-40 | an attempt writes, emits what its report says and asks for a retry exactly when it was refused or failed |
| PeerSync.PlannedIsDisciplined | sync/sync_peer.js:105-206 | the peer planner creates only absent records at revision 0 and increments the revision of present ones |
| PeerSync.ListedPeerIsSynced | sync/peer_update.js:74-91 | a listed peer sets every compared attribute, features only when some are listed |
| PeerSync.MissingPeerIsCleared | sync/sync_peer.js:149-156 | a missing peer clears the presence and nothing else |
| PeerSync.WriteEmitsPresence | events/event_peer_connection.js:27-37 | one write emits exactly the change of presence it makes |
| PeerSync.RecordsAreSequential | sync/sync_peer.js:105-206 | in every run each peer record is the sequential fold of its written inputs, and reflects the last one |
| PeerSync.EventsTrackPresence | events/event_peer_connection.js:27-37 | the number of events of a peer has the parity of its stored presence |
| PeerSync.PresenceAlternates | events/event_peer_connection.js:21-40 | in every run disconnected and reconnected alternate for a peer, starting with disconnected |
| PeerSync.ReportSays | sync/sync_peer.js:209-248 | a report tells of a creation exactly when a listed peer was not stored, and of an update exactly when one is planned |
| PeerSync.NewPeerIsNeverEmitted | events/event_peer_connection.js:35-37 | no sync result makes the handler emit new_peer |
| PeerSync.CreatedPeer | sync/sync_peer.js:111-128 | each field of a created peer record, the feature bits in their order |
| PeerSync.UpdatedPeer | sync/peer_update.js:74-91 | each field of a synced peer record; its features have exactly the bits the peer lists, or stay when it lists none |
| PeerSync.PeerWritesIff | sync/sync_peer.js:105-206 | a sync creates exactly a listed peer that is not stored, and updates exactly a missing peer stored as connected or a listed one that differs |
| PolicySync.PlannedIsDisciplined | sync/sync_channel_policy.js:114-191 | the policy planner creates only absent records at revision 0 and increments the revision of present ones |
| PolicySync.CreateReflects | sync/policy_record.js:48-74 | a created policy record has every attribute of the author's policy |
| PolicySync.UpdateReflects | sync/policy_update.js:95-123 | an updated policy record has every attribute of the author's policy |
| PolicySync.WriteReflectsInput | sync/sync_channel_policy.js:115-160 | after a write every compared attribute is the one of its one input |
| PolicySync.RecordsAreSequential | sync/sync_channel_policy.js:115-191 | in every run each policy record is the sequential fold of its written inputs, and reflects the last one |
| PolicySync.WrittenPolicy | sync/policy_record.js:48-74 | a write stores each field of the author's first policy, and a creation the channel id and author too |
| PolicySync.PolicyWritesIff | sync/sync_channel_policy.js:114-191 | a sync writes exactly when the author's first policy is dated and calls for it, a stored one only for a dated channel, and fails exactly when a needed policy is missing |
| ChannelTable.CloseHandler.FinishAttempt | events/event_channel_closed.js:20-33 | the close handler emits exactly when the record it read was open and its write did not fail |
| ChannelTable.SyncFillsFunding | sync/channel_update.js:47-58 | a sync creates an open record with the funding of the channel, or fills in a missing funding and changes nothing else but the revision |
| ChannelTable.RecordGrows | sync/mark_channel_closed.js:60-66 | records never disappear, revisions never fall, equal revisions agree on all but the close height, and closed stays closed |
| ChannelTable.WriteSawCore | sync/sync_channel.js:161-167 | a write lands on a record that agrees with the one read on all but the close height |
| ChannelTable.FundingIsFrozen | sync/channel_update.js:47-58 | once a capacity is stored, capacity and outpoint stay, under any interleaving of syncs and marks |
| ChannelTable.FundingChangesOnce | sync/channel_update.js:47-58 | the funding of a stored record changes at most once, from no capacity to a capacity |
| ChannelTable.TogetherIff | sync/channel_record.js:36-56 | capacity and outpoint are always stored together exactly when no record is created from a channel with a transaction but no capacity |
| ChannelTable.OutpointWithoutCapacity | sync/channel_record.js:47-56 | a channel with a transaction and no capacity is stored with an outpoint and no capacity |
| ChannelTable.ClosedIffMarked | sync/mark_channel_closed.js:54-67 | a record is closed exactly when some mark of it was written |
| ChannelTable.EmissionsAreEarlyReads | events/event_channel_closed.js:20-33 | in every run the emissions are the mark attempts that read before the first written mark, less those a sync refused; with none refused the numbers agree |
| ChannelTable.ChannelTableIsSafe | sync/sync_channel.js:96-168 | in every run funding once stored is frozen and a closed channel never reopens |
| ChannelTable.SequentialIff | sync/mark_channel_closed.js:60-66 | the table is at all times the sequential fold exactly when every written mark found the record open or closed at its own height |
| ChannelTable.DoubleCloseOverwrites | sync/mark_channel_closed.js:51-67 | a schedule in which two marks succeed, both emit, and the later height replaces the first |
| ChannelTable.AbsentChannelIsCreated | sync/sync_channel.js:96-114 | with nothing stored, a sync creates exactly when the channel is found |
| ChannelTable.StoredChannelIsFundedIff | sync/channel_update.js:47-58 | a stored channel is updated exactly when the found one has a capacity and a transaction id and the stored one no capacity, and fails exactly when only the id is missing |
| ChannelTable.CreatedChannel | sync/channel_record.js:36-56 | each field of a created channel record, with the funding exactly when the transaction id is known |
| ChannelTable.FilledChannel | sync/channel_update.js:47-58 | filling in stores capacity and outpoint of the channel, adds one to the revision and leaves all else |
| ChannelTable.MarkWritesIff | sync/mark_channel_closed.js:51-67 | a mark fails exactly at height 0, writes exactly on an open record, and sets the close height alone |
| ChannelTable.SyncedChannelIsStored | sync/sync_channel.js:96-168 | in every run, once a sync of a found channel has finished, whether written or refused, the channel is in the table |
| FundingPsbt.SizeIgnoresOrder | funding/assemble_unsigned_psbt.js:119-119 | the virtual size does not depend on the order of inputs or outputs |
| FundingPsbt.SignInputs | funding/assemble_unsigned_psbt.js:102-116 | each new input gets the dummy witness of its type, and the first unsupported type fails |
| FundingPsbt.AddMember | funding/assemble_unsigned_psbt.js:90-116 | the shared transaction grows by exactly the member's scripts and signed inputs |
| FundingPsbt.ChargeMember | funding/assemble_unsigned_psbt.js:82-132 | a member is charged what the transaction grew by, its wrapper share and its pair correction, and gets its funding and change outputs |
| FundingPsbt.ChargeAll | funding/assemble_unsigned_psbt.js:73-132 | charging in turn over one shared transaction gives the outputs specified member by member |
| FundingPsbt.ReorderPermutes | funding/assemble_unsigned_psbt.js:135-138 | ordering by random keys is a permutation, whatever the draws |
| FundingPsbt.DeriveOutputs | funding/assemble_unsigned_psbt.js:55-141 | the outputs step fails for a missing capacity, a missing rate or an unsupported input, and else gives the scripted outputs in the drawn order: exactly the scripts and amounts due to the members |
| FundingPsbt.MemberIsDue | funding/assemble_unsigned_psbt.js:124-131 | a member's outputs are its non-empty funding scripts at the capacity, and its change script at its inputs less its commitment less its fee |
| FundingPsbt.OutputsAreDue | funding/assemble_unsigned_psbt.js:82-135 | the outputs of all members are, as a multiset of scripts and amounts, exactly those due to each and no others |
| FundingPsbt.ReorderFollowsDraws | funding/assemble_unsigned_psbt.js:136-138 | each value keeps its own draw, and the draws of the result ascend |
| FundingSizes.SupportedIff | funding/assemble_unsigned_psbt.js:16-17 | the supported inputs are those of 22 byte key hash scripts and 34 byte taproot scripts by their prefixes |
| FundingSizes.SizeIsWeight | funding/assemble_unsigned_psbt.js:77-119 | the measured size is the weight of the wrapper, the scripts and 274 or 230 quarter bytes for each input, over four and rounded up |
| FundingSizes.ShareIsLeast | funding/assemble_unsigned_psbt.js:76-80 | the members share ten bytes, each a whole number and none a byte too many |
| FundingSizes.FeeIsLeast | funding/assemble_unsigned_psbt.js:118-122 | a fee is the least whole number of tokens that pays the rate for the bytes the member adds, its share and its pair correction |
| FundingSizes.TermsAre | funding/assemble_unsigned_psbt.js:76-88 | all members are charged with their number, the capacity, the rate and one share of the wrapper |
| FundingFees.ChargedTelescopes | funding/assemble_unsigned_psbt.js:87-119 | the sizes charged to the members add up to the whole size, the wrapper shares and the pair corrections |
| FundingFees.ShareBounds | funding/assemble_unsigned_psbt.js:76-80 | the wrapper shares pay for the wrapper and for fewer bytes beyond it than there are members |
| FundingFees.FeesCoverCharge | funding/assemble_unsigned_psbt.js:118-122 | the fees are at least the rate for the corrected size, and less than that for n - 1 bytes more plus n tokens |
| FundingFees.PairTotal | funding/assemble_unsigned_psbt.js:19-19 | the pair corrections sum to 43 bytes per member without funding, less 21.5 per member of a pair |
| FundingFees.FeesCoverSize | funding/assemble_unsigned_psbt.js:74-122 | the fees pay the rate for every virtual byte unless both members of a pair list funding |
| FundingFees.FeesCoverSizeIff | funding/assemble_unsigned_psbt.js:19-122 | at any rate that exception is exact, up to what rounding up the two fees adds; rounding cannot make up for it once 43 bytes are worth two tokens |
| FundingFees.RoundingsBelow | funding/assemble_unsigned_psbt.js:122-122 | rounding adds less than one token for each member |
| FundingFees.MeasuredScripts | funding/assemble_unsigned_psbt.js:85-138 | the scripts measured for the fees and the scripts put out are the same multiset |
| FundingFees.AssembledSizeIsMeasured | funding/assemble_unsigned_psbt.js:134-159 | the size charged for is the size of the transaction assembled in the end, however it is ordered |
| FundingFees.Residual | funding/assemble_unsigned_psbt.js:82-138 | inputs less outputs are exactly the fees, the change nobody claims, and what is committed beyond the funding outputs |
| FundingFees.CountsAgreeIff | funding/assemble_unsigned_psbt.js:88-88 | members count as many outputs as they have scripts exactly when each lists funding without empty scripts |
| FundingFees.PairBalances | funding/assemble_unsigned_psbt.js:9-19 | when two members count twice the scripts: one lists a single script and the other none, or both list nothing |
| FundingFees.TokensConservedIff | funding/assemble_unsigned_psbt.js:82-138 | with change for every member, inputs less outputs are the fees exactly when all are fully funded, or a pair counts twice its scripts |
| Shuffle.PickInRange | arrays/shuffle.js:28-28 | a draw below 1 picks an index from 0 to i |
| Shuffle.ShuffleArray | arrays/shuffle.js:21-33 | the in-place loop on a copy gives the specified swaps and leaves the input array unchanged |
| Shuffle.ShuffledPermutes | arrays/shuffle.js:27-31 | the result is a permutation for any choices and any array |
| Shuffle.ChoicesForLead | arrays/shuffle.js:27-31 | every permutation of distinct elements is reached by some choices |
| Shuffle.ChoicesAreUnique | arrays/shuffle.js:27-31 | different choices give different orders of distinct elements |
| Shuffle.ShuffleIsBijection | arrays/shuffle.js:25-33 | choice sequences and permutations of distinct elements correspond one to one |
| Shuffle.EachOrderIsEquallyLikely | arrays/shuffle.js:27-31 | an order comes up exactly when each draw falls in one interval of width 1 / (i + 1) |
| Shuffle.ShuffleExchangesInTurn | arrays/shuffle.js:25-33 | the result comes about by exchanging, for each draw from the last position down, that position with the one drawn |
| Percentile.TopBetweenOrderStatistics | peers/percentile.js:38-53 | the percentile lies between two adjacent order statistics, and the exit at the top of the range is for one element only |
| Percentile.TopInterpolates | peers/percentile.js:28-53 | between neighbouring ranks, ends and exits included, the percentile is the straight line between the order statistics |
| Percentile.TopAtTheEnds | peers/percentile.js:28-36 | at or below 0 it is the least token, at or above 1 the greatest |
| Percentile.TopMonotoneInAbove | peers/percentile.js:20-54 | a higher percentile is never smaller, across all exits |
| Percentile.TopIgnoresOrder | peers/percentile.js:26-26 | the order of the tokens does not matter |
| Percentile.SortKeepsDominated | peers/percentile.js:26-26 | sorting preserves pointwise domination |
| Percentile.TopMonotoneInTokens | peers/percentile.js:20-54 | raising tokens never lowers the percentile |
| Percentile.TopOfNone | peers/percentile.js:22-24 | without tokens the percentile is 0 |
| Percentile.OrderStatistics | peers/percentile.js:26-26 | the order statistics are the tokens in ascending order |
| LiquidityTokens.InboundFeeRates | peers/liquidity_tokens.js:33-50 | the loop over policies gives each peer the fold of its rates in order |
| LiquidityTokens.GetTokens | peers/liquidity_tokens.js:32-87 | the tokens are the balances of the active, listed, affordable channels, or their rounded 90th percentile |
| LiquidityTokens.FoldIsLeastOfLastRun | peers/liquidity_tokens.js:41-46 | the fold is the least rate after the last unknown or zero one, or that one if it comes last |
| LiquidityTokens.FeeAllowedIff | peers/liquidity_tokens.js:62-76 | with known positive rates a peer is kept exactly when one of its policies is within the maximum |
| LiquidityTokens.FeeAllowedIgnoresOrder | peers/liquidity_tokens.js:62-76 | with known positive rates the order of the policies does not matter |
| LiquidityTokens.FeeAllowedExactly | peers/liquidity_tokens.js:41-75 | in general a peer is kept exactly when a rate after its last unknown or zero one is within the maximum |
| LiquidityTokens.OrderMattersIff | peers/liquidity_tokens.js:41-75 | two orders of the policies decide differently about a peer exactly when a maximum applies and the policies list both an unknown or zero rate and a known positive one within the maximum |
| LiquidityTokens.ZeroRateDependsOnOrder | peers/liquidity_tokens.js:42-75 | an instance: a zero rate and a positive one within the maximum keep the peer one way round and drop it the other |
| LiquidityTokens.PeerIsKeptIff | peers/liquidity_tokens.js:33-76 | the fee rule keeps a peer exactly for outbound liquidity, without a maximum, or when some channel lists a positive rate of the peer within it and no later channel an unknown or zero one |
| LiquidityTokens.TokensAreWanted | peers/liquidity_tokens.js:52-86 | the tokens are the balances, on the side asked for, of the active channels with a listed and affordable peer, each once and in order |
| LiquidityTokens.TopIsRounded | peers/liquidity_tokens.js:82-84 | asked for the top, the answer is the 90th percentile of those tokens to the nearest whole number |
| ConflictingBalances.Register | nodes/conflicting_balances.js:44-59 | registering an output keeps the dictionary and the conflict list what they mean for one output more |
| ConflictingBalances.Invalidate | nodes/conflicting_balances.js:70-80 | the outputs added are exactly those that spend one of the given outpoints |
| ConflictingBalances.CollectInvalid | nodes/conflicting_balances.js:63-81 | an output is listed as invalid exactly when it shares an outpoint with a confirmed transaction |
| ConflictingBalances.GetConflictingBalances | nodes/conflicting_balances.js:30-93 | both balances are the totals at the indices defined by shared outpoints, looked up in the whole list |
| ConflictingBalances.TotalsFitInAll | nodes/conflicting_balances.js:83-92 | the two index sets are disjoint and in range, so the balances together never exceed all tokens |
| ConflictingBalances.IndicesIgnoreOrder | nodes/conflicting_balances.js:37-80 | with one transaction for each id, neither index set depends on the order of the transactions |
| ConflictingBalances.SiblingOutputsConflict | nodes/conflicting_balances.js:45-53 | of two unconfirmed outputs of one transaction with inputs, the later one is always flagged |
| ConflictingBalances.FlagMeansOtherIff | nodes/conflicting_balances.js:36-59 | the conflict flag of an output means that it shares an outpoint with another transaction exactly when it is invalid, does share one, or has neither a repeated input nor an earlier output of its own transaction |
| ConflictingBalances.IndicesIgnoreTokens | nodes/conflicting_balances.js:36-81 | which outputs are flagged does not depend on their amounts |
| ConflictingBalances.TotalsMeanIndicesIff | nodes/conflicting_balances.js:36-87 | the balances are those of the flagged outputs, whatever the amounts, exactly when no confirmed output comes at or before a flagged position |
| ConflictingBalances.UnconfirmedFirstSuffices | nodes/conflicting_balances.js:83-87 | with unconfirmed outputs first, both balances are those of the flagged outputs |
| ConflictingBalances.ConfirmedFirstMisreports | nodes/conflicting_balances.js:36-87 | a confirmed output listed first makes its own tokens the invalid balance |
| ConflictingBalances.PendingAre | nodes/conflicting_balances.js:36-36 | the pending outputs are those without confirmations, each once and in order |
| ConflictingBalances.InvalidIff | nodes/conflicting_balances.js:63-81 | an output is invalid exactly when its transaction and some confirmed one spend the same outpoint |
| ConflictingBalances.ConflictingIff | nodes/conflicting_balances.js:36-84 | an output is conflicting exactly when it is not invalid and its transaction repeats an input or shares one with that of an earlier pending output |
| ConflictingBalances.TotalIsSum | nodes/conflicting_balances.js:83-92 | a balance is the sum of the tokens listed at its indices, each once |
| ForwardFirewall.Firewall.OnBlock | monitor/enforce_forward_request_rules.js:106-121 | a block sets the height, and the time unless none is known yet |
| ForwardFirewall.Firewall.OnBlockTime | monitor/enforce_forward_request_rules.js:110-118 | the first block time comes from the wallet, and a failure ends the monitoring |
| ForwardFirewall.Firewall.OnForward | monitor/enforce_forward_request_rules.js:136-157 | a notice records, removes or is ignored |
| ForwardFirewall.Firewall.AsksWallet | monitor/enforce_forward_request_rules.js:181-184 | the wallet is asked exactly when a chain rule is set and no block time is known |
| ForwardFirewall.Firewall.TakeWalletInfo | monitor/enforce_forward_request_rules.js:184-193 | the reply replaces the chain info as it is by then, and a failure rejects and ends the monitoring |
| ForwardFirewall.Firewall.FindKeys | monitor/enforce_forward_request_rules.js:215-229 | keys come from the cache or a lookup, and found ones are remembered |
| ForwardFirewall.Firewall.CheckStopChannels | monitor/enforce_forward_request_rules.js:196-240 | the stop list step decides and remembers as specified, with one lookup for each unknown channel |
| ForwardFirewall.Firewall.CheckPairs | monitor/enforce_forward_request_rules.js:242-291 | the allow and deny list step decides and remembers as specified |
| ForwardFirewall.Firewall.CheckLimits | monitor/enforce_forward_request_rules.js:293-333 | the last step decides by block time, pending rate and channel age |
| ForwardFirewall.Firewall.Advance | monitor/enforce_forward_request_rules.js:170-337 | one step of a request answers or moves it on, and emits exactly when it rejects |
| ForwardFirewall.Firewall.OnForwardRequest | monitor/enforce_forward_request_rules.js:170-337 | an uninterrupted request is answered exactly once, with the decision |
| ForwardFirewall.KnownStays | monitor/enforce_forward_request_rules.js:225-226 | remembering looked up keys does not change the keys at hand |
| FirewallRules.TrackedIffLastUnresolved | monitor/enforce_forward_request_rules.js:136-157 | an HTLC is tracked exactly when its last relevant notice is unresolved, with the time of that notice |
| FirewallRules.RateCountsForwards | monitor/enforce_forward_request_rules.js:308-316 | the count of the rate rule is the number of distinct unresolved forwards since a time |
| FirewallRules.RateCountIsWholeIff | monitor/enforce_forward_request_rules.js:136-145 | the count never exceeds the number of pending forwards, and is that number exactly when none of them lacks a channel or an index, or has index 0 |
| FirewallRules.IndexZeroIsNotCounted | monitor/enforce_forward_request_rules.js:138-140 | an instance: a pending forward with inbound index 0 is not counted |
| FirewallRuns.RateRuleOverRuns | monitor/enforce_forward_request_rules.js:302-317 | in every run the rate rule rejects a request at its last step exactly when the block told last is recent and that many distinct forwards with channels and nonzero indices were noticed within the hour and not resolved; it says when these are all pending ones |
| FirewallRules.DecisionSteps | monitor/enforce_forward_request_rules.js:181-336 | keys remembered by one step do not change what the next one decides |
| FirewallRules.AcceptedIffAllHold | monitor/enforce_forward_request_rules.js:181-336 | a request is accepted exactly when every configured rule holds |
| FirewallRules.RejectedForFirstViolation | monitor/enforce_forward_request_rules.js:181-336 | otherwise it is rejected for the first rule it violates, in the order of the checks |
| FirewallRules.UnknownChannelRejects | monitor/enforce_forward_request_rules.js:237-289 | a channel that a list rule needs and that is not found rejects the request |
| FirewallRules.CacheActsAsLookup | monitor/enforce_forward_request_rules.js:204-264 | a channel in the cache acts as one that can be looked up, and the cache matters in no other way |
| FirewallRules.CacheDoesNotMatter | monitor/enforce_forward_request_rules.js:204-264 | with a cache that agrees with the lookups the decision is the one made without a cache |
| FirewallRules.PeersResolveIff | monitor/enforce_forward_request_rules.js:266-270 | the peers of a forward are told right exactly when they differ, or the node's own key comes first in both channels |
| FirewallRules.ListsAreComplementary | monitor/enforce_forward_request_rules.js:271-290 | one list used to allow or to deny gives opposite outcomes when both channels are found, and rejects either way when not |
| FirewallRules.CountedIff | monitor/enforce_forward_request_rules.js:136-157 | a forward is counted exactly when it has both channels and indices and its last notice is recent and neither confirmed nor failed |
| FirewallRules.ThrownIff | monitor/enforce_forward_request_rules.js:51-69 | setting the rules throws exactly for both lists at once or for an empty one |
| FirewallRules.RemembersIff | monitor/enforce_forward_request_rules.js:196-264 | a step remembers a channel exactly when it can be looked up and the step needs it: the outbound one and those of the stop list, unless the first cannot be found, or the two of a request for a list of pairs |
| FirewallRules.PeersOfStrangers | monitor/enforce_forward_request_rules.js:266-270 | the peers of channels without a common key are the first key of each |
| FirewallRuns.RunTracksNotices | monitor/enforce_forward_request_rules.js:136-157 | whatever the requests do, the tracked HTLCs are a function of the notices |
| FirewallRuns.AnsweredExactlyOnce | monitor/enforce_forward_request_rules.js:170-337 | however steps interleave, five turns answer a request, and never twice |
| FirewallRuns.BlockTimeIsLastTold | monitor/enforce_forward_request_rules.js:106-187 | in every run the rules go by the block time told last, by a block, its wallet reply or the reply to a request |
| FirewallRuns.TimeTurnsBackIff | monitor/enforce_forward_request_rules.js:106-187 | a step turns the block time back exactly when it tells an earlier one than is known |
| FirewallRuns.LateReplyTurnsBack | monitor/enforce_forward_request_rules.js:182-187 | a schedule in which a block comes in while the wallet is asked, and the reply replaces its height and time |
| FirewallRuns.RejectionsAreEmitted | monitor/enforce_forward_request_rules.js:171-179 | in every run a request has one rejected event, with its two channels and its reason, if it was rejected, and none otherwise |
| FirewallRuns.RunIsSound | monitor/enforce_forward_request_rules.js:181-291 | in every run, with lookups failing at any time, the cache agrees with the network, and a waiting request has passed its earlier steps for good |
| FirewallRuns.AnswerIsCachelessDecision | monitor/enforce_forward_request_rules.js:170-337 | in every run, with lookups failing at any time, an answer rejects for a failed call of its own step, or is what an uninterrupted handler without a cache and without failing lookups would give at that moment |
| FirewallRuns.AcceptedIffAllHoldInRun | monitor/enforce_forward_request_rules.js:170-337 | in every run, with lookups failing at any time, a request is accepted exactly at its last step and when every rule holds for the network, the block and height told last and the forwards noticed so far |
| FirewallRuns.ChainInfoIsLastTold | monitor/enforce_forward_request_rules.js:106-193 | in every run the height and the block time in force are those told last, by a block or by a wallet reply to the start or to a request that asked |
| FirewallRuns.NoChainRuleNeverAsks | monitor/enforce_forward_request_rules.js:181-184 | without a rule on blocks or ages no request ever waits for the wallet |
| Paging.TwoFilters | transactions/get_all_invoices.js:97-100 | filtering by confirmation and then by creation is one filter by both |
| Paging.GetAllInvoices | transactions/get_all_invoices.js:76-119 | the paging loop ends and returns the first failure it meets, or the filter of the pages up to the first with an old item |
| Paging.GetPayments | transactions/get_payments.js:101-139 | the same for payments, with one filter |
| Paging.ReadThenUnread | transactions/get_all_invoices.js:104-107 | the full filter is the answer followed by the filter of the pages left unread |
| Paging.CompleteIff | transactions/get_all_invoices.js:104-107 | the answer is the full filter exactly when no unread page has a matching item |
| Paging.NewestFirstIsComplete | transactions/get_payments.js:120-123 | with items newest first across the pages the early stop loses nothing |
| Paging.FailsIff | transactions/get_all_invoices.js:90-107 | a fetch fails exactly with the first failure that no page with an old item precedes |
| Paging.OldBeforeNewLosesItems | transactions/get_payments.js:120-123 | an old item on a page before a matching one loses the matching one |
| Paging.KeepSelects | transactions/get_all_invoices.js:97-100 | filtering keeps exactly the items confirmed and created late enough, each once and in order |
| Paging.ItemsMore | transactions/get_all_invoices.js:76-119 | the items are those of the pages, page after page |
| Paging.AnswerIsAskedFor | transactions/get_all_invoices.js:76-119 | pages are read up to the first that fails, is the last or has an old item, and the answer is the failure or the items asked for among those read |
| PendingChannels.Subscription.OnPoll | monitor/subscribe_to_pending_channels.js:51-106 | a poll replaces what is remembered, emits what is new, and stops on a failure or when nothing listens |
| PendingChannels.RunRemembersLast | monitor/subscribe_to_pending_channels.js:81-85 | a run that has not stopped remembers exactly what the last poll showed |
| PendingChannels.EmittedIffRisingEdge | monitor/subscribe_to_pending_channels.js:51-106 | an outpoint is emitted at a poll exactly when it shows there, did not show at the poll before, and polling has not stopped |
| PendingChannels.GoneBetweenEmissions | monitor/subscribe_to_pending_channels.js:62-79 | between two emissions of an outpoint some poll does not show it |
| PendingChannels.AppearanceIsEmitted | monitor/subscribe_to_pending_channels.js:87-103 | an outpoint that shows later but not at the first poll has been emitted |
| PendingChannels.EmittedListsAreNew | monitor/subscribe_to_pending_channels.js:63-103 | a poll emits first the closing and then the opening channels that the poll before did not show, each list in order and none that is empty |
| Balances.Change | nodes/detailed_balances.js:82-90 | the change outputs are the unconfirmed ones at an address of an unconfirmed outgoing transaction |
| Balances.PendingIsChange | nodes/get_node_funds.js:115-147 | pending on-chain funds are the change outputs; confirmed funds are the confirmed outputs and the counted locked ones |
| Balances.ConfirmedHasNoConflicts | nodes/get_node_funds.js:115-141 | asked for confirmed funds only, nothing is conflicted or invalid |
| Balances.OffchainIsPerChannel | nodes/detailed_balances.js:102-175 | the sum over four lists is, channel by channel, the balance, sent HTLCs and the initiator's fee and anchor |
| Balances.PendingIsPerChannel | nodes/detailed_balances.js:92-182 | the pending and closing sums are, channel by channel, what an opener has in it, its sent HTLCs, and what is not recovered yet |
| Balances.VbytesIsExact | nodes/detailed_balances.js:139-204 | the size estimate is the least whole number that holds the quarter bytes of overhead and inputs, 0 without inputs |
| Balances.ConfirmedSelects | nodes/detailed_balances.js:80-80 | the confirmed outputs, each once and in order |
| Balances.ChangeSelects | nodes/detailed_balances.js:82-90 | the unconfirmed outputs at an address that an unconfirmed outgoing transaction pays, each once and in order |
| Balances.AmountsAdd | nodes/detailed_balances.js:103-137 | one output more adds its tokens, and one payment more adds its tokens when it is outgoing |
| Balances.LockedCountsIff | nodes/get_node_funds.js:80-101 | a locked output counts with a value exactly when its lock has not expired and its transaction is known, confirmed and has that output |
| Balances.LockedValuesAdd | nodes/get_node_funds.js:80-103 | one locked output more adds its value when it counts and nothing otherwise |
| Balances.FundsAre | nodes/get_node_funds.js:115-147 | which outputs the size, the on-chain total, the conflicts and the number of outputs are about, for confirmed funds and for all |
| PeerLiquidity.TotalsIgnoreSettled | peers/peer_liquidity.js:30-84 | inbound plus pending inbound, and outbound plus pending outbound, do not depend on which payment is settled |
| PeerLiquidity.TotalsAreSidesAndFlights | peers/peer_liquidity.js:30-84 | inbound totals are remote balances and sent payments, outbound totals local balances and received payments |
| PeerLiquidity.EachTokenCountedOnce | peers/peer_liquidity.js:30-84 | every balance and every pending payment is counted exactly once in the four sums |
| PeerLiquidity.OnePaymentMore | peers/peer_liquidity.js:30-69 | one payment more adds its tokens to one sum: inbound when sent, outbound when received, pending unless it is the settled one |
| PeerLiquidity.OneChannelMore | peers/peer_liquidity.js:30-75 | one channel more adds its remote balance to inbound and its local one to outbound, and one opening channel more likewise to the opening sums |

## Left out

- Awaits inside a step: within one sync the fresh data is fetched after the read and before the write, and is an
  input of the write; within one list step of a forward request the lookups answer without other handlers
  between. The keys of a channel do not change during a run.
- The database engine beyond its three operations, hash collisions of record keys, and the timing and number of retries.
- Forward HTLC records in the concurrent theorem: only the erased revision is shown; what a guard on an erased
  revision does depends on an engine that is not part of this model.
- Node synchronisation, which runs before the peer and channel syncs, and the policy events: other tables, same protocol.
- Argument presence checks, apart from those that decide an outcome here (funding, payment HTLCs, close marks, lists).
- PSBT encoding, signing, script and transaction decoding, bech32 and key handling; only sizes of BIP 141 are used.
- A server that keeps naming next pages for ever: the chain of pages is finite.
- Channel id decoding: a request carries the two heights of its channel ids; an id that does not decode is not modelled.
- Teardown of the forward monitoring when listeners leave; a run is then simply over.
- Rounding of floating point numbers: rates, halves and percentiles are exact reals.
- The maximum fundable amount, transaction records and the ancestor walk, node scores, display and descriptions.
