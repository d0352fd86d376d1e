# Konduit, verified

Konduit is a payment channel with two halves. Off-chain (L2) an adaptor keeps a
*receipt*: a signed *squash*, the compact form of a set of settled cheques, and the
locked and unlocked cheques on top of it. On-chain (L1) a *channel* holds the funds and
moves through the stages Opened, Closed and Responded. This project models both halves,
the code that turns their steps into a transaction, and the bytes they sign and store,
and proves what the halves promise each other.

| file | what it holds |
|---|---|
| `Types.dfy` | the data: cheques, squashes, stages, steps, redeemers |
| `Entries.dfy`, `Cheques.dfy` | sums and filters over (index, amount) lists and cheque lists |
| `Squashes.dfy`, `SquashCells.dfy` | the squash algebra over sets, and the in-place edits proved against it |
| `Preparation.dfy`, `Places.dfy` | what a sub or respond step shows, and in which order |
| `Receipts.dfy`, `ReceiptCells.dfy`, `Proposals.dfy` | the receipt, its runs, its mutable form, when it can propose |
| `Server.dfy`, `ServerCells.dfy` | the server's channel and its funds check, and the object that drives its receipt in place |
| `Channels.dfy`, `RespondedRuns.dfy` | the L1 step machine, its timing and termination, and the settling of pendings |
| `Joint.dfy` | both halves together, from opening to the last unlock |
| `Values.dfy`, `Fuel.dfy`, `Fewest.dfy`, `Staging.dfy` | multi-asset values, fuel selection, when it takes the fewest inputs, transaction staging |
| `Cbor.dfy`, `Codec.dfy`, `CodecCells.dfy` | the wire format, its round trips, the signed messages, and the encoder and decoder objects |
| `Wire.dfy`, `Decoded.dfy` | which bytes stand where, read without the decoders of `Codec.dfy`; and what any decoded value satisfies |

Everything about squashes is stated through the set `S(body)`: the indexes up to
`body.index` that are not excluded. The hash behind a lock and signature verification
are function parameters about which nothing is assumed. Errors are values.

Amounts, indexes and milliseconds are natural numbers in the functions. The methods that
add them say where a u64 must not overflow, the codec is exact on u64, and
`Joint.TotalsFit` shows that no total of a joint run leaves u64 while the deposit fits.

The main results, in the order they build on each other:

1. Folding a cheque into a squash adds exactly its index to `S`. A list of cheques, in
   whatever order, folds exactly when its indexes are distinct and unsettled and every
   prefix leaves at most ten indexes unsettled; in ascending order only the whole list
   counts; any order that succeeds gives the identical body, and no fold of useds
   changes what a later claim pays.
2. Every run of the receipt keeps its invariant, what is owed never falls, and the
   receipt's own proposal is applied without loss, even when it comes back late. More
   than ten holes below an unlocked cheque block the proposal for good, and timeouts
   alone can lead there.
3. The server's funds check, even against an out-of-date view of the chain, keeps the
   L1 channel able to pay: every claim and the final respond pay, uncapped, all that is
   owed except unlocked cheques that timed out unshown, and what the respond leaves
   covers all pendings. Every cheque and squash held, and so all that is shown on chain,
   carries the consumer's signature.
4. After the respond each pending is settled at most once, and the adaptor's gain is
   exactly what it unlocked. `Joint.EndToEnd` chains 3 and 4 into one account of the
   whole deposit. Over any run of the channel, the steps other than adds and no-op
   unlocks are bounded by the funds and the cheques offered
   (`Channels.ProgressBounded`).
5. Fuel selection is sound and complete; it takes the fewest inputs on every wallet
   exactly for the targets `Fewest.Easy` describes, which include all that staging
   asks for; both selectors agree; staged transactions balance and align.
6. Redeemers, stages and squashes round-trip before any trailing bytes, with each field
   where the format puts it; whatever is decoded can be written again; signed messages
   determine their tag and body, and no bytes are both a cheque and a squash message.
7. Every operation of the server, the receipt and the channel is accepted exactly under
   conditions a caller can read off its inputs (`Server.AcceptedExactly`,
   `Receipts.ReplaceExactly`, `Channels.AcceptedExactly` and their neighbours), and what
   it leaves is stated field by field.

Where the code and its documentation differ, the model follows the code:

- `docs/design/31_5_l2_protocol.md:347` has the consumer check that the proposed body is
  greater than the current one in the order on bodies. In the order the code defines, a
  body that squashes one cheque or more is never greater (`Squashes.AdvanceIsNeverGreater`).
- `packages/konduit/tx2/src/fuel.rs:9` promises the minimal set of inputs. On every
  wallet that holds exactly when the target has no token, or needs each of its tokens
  once and either has just one of them or no more than three units in all, counting
  tokens and lovelace (`Fewest.GreedyFewestExactly`).
- The unlock step resolves a pending by secret only once the pending's own timeout lies
  before the window's upper bound, as documented at
  `packages/konduit/tx2/src/channel.rs:418`, while the design documents speak of using
  secrets before the timeout.
- The receipt accepts squashes that are worth more than the cheques they settle, or that
  settle fewer indexes than the current one. `Joint.ShrinkingSquashPaysTwice` shows a used
  claimed twice; `Joint.AcceptedSquashSolvent` says exactly which accepted squashes keep
  the halves solvent, and `Joint.ReplaceRaise` the same for replacements.

## Model

| member | source | states |
|---|---|---|
| `Squashes.FoldExact` | packages/konduit/data/src/squash_body.rs:122-142 | a successful squash adds exactly its index to S and its amount to the total; it fails exactly on a settled index or when the exclude list would pass ten |
| `Squashes.ExtendedExactly` | packages/konduit/data/src/indexes.rs:79-102 | which check refuses a range first, and the appended indexes one by one |
| `Squashes.FoldAllExact` | packages/konduit/data/src/squash_body.rs:122-142 | any successful list of squashes adds exactly its distinct, unsettled indexes and its total |
| `Squashes.AscendingFoldSucceeds` | packages/konduit/data/src/indexes.rs:79-102 | in ascending order, folding succeeds exactly when at most ten indexes below the new top stay unsettled |
| `Squashes.OrderIndependent` | packages/konduit/data/src/squash_body.rs:122-142 | if any order succeeds the ascending one does, with the identical body |
| `Squashes.AnyOrderFoldSucceeds` | packages/konduit/data/src/squash_body.rs:122-142 | in any order, folding succeeds exactly when the indexes are distinct and unsettled and every prefix leaves at most ten unsettled below its own top |
| `Squashes.Canonical` | packages/konduit/data/src/squash_body.rs:22-29 | a valid body is determined by its amount and its set |
| `Squashes.SquashedIffInS` | packages/konduit/data/src/squash_body.rs:144-150 | the three-way test decides membership in S |
| `Squashes.FoldNeutral` | packages/konduit/data/src/squash_body.rs:122-142 | folding a used leaves squashed amount plus unsquashed useds unchanged |
| `Squashes.FoldAllNeutral` | packages/konduit/tx2/src/channel.rs:122-125 | no sequence of such squashes changes squashed amount plus unsquashed useds |
| `Channels.FoldedSubPaysTheSame` | packages/konduit/tx2/src/channel.rs:299-325 | after folding useds into the squash a sub shows the same cheques for the same gain, or refuses alike |
| `Channels.FoldedRespondPaysTheSame` | packages/konduit/tx2/src/channel.rs:344-376 | and a respond leaves the very same channel |
| `Squashes.OrderIsIntended` | packages/konduit/data/src/squash_body.rs:31-60 | a <= b means a claims no more and settles all that b settles; Equal is equality; Less mirrors Greater |
| `Squashes.OrderTransitive` | packages/konduit/data/src/squash_body.rs:31-60 | the order is transitive |
| `Squashes.AdvanceIsNeverGreater` | docs/design/31_5_l2_protocol.md:345-349 | a body that squashes one or more cheques is incomparable to the old one, or less when they are free, so the documented check never accepts it |
| `SquashCells.CheckIndexes` | packages/konduit/data/src/indexes.rs:67-77 | accepts exactly the bounded strictly ascending lists, and says which bound failed |
| `SquashCells.IsSupersetOf` | packages/konduit/data/src/indexes.rs:143-156 | the peeking scan decides inclusion of sorted lists |
| `SquashCells.CompareIndexes` | packages/konduit/data/src/indexes.rs:130-141 | the order is reverse strict inclusion, Equal is equality of lists |
| `SquashCells.IndexesMut.Extend` | packages/konduit/data/src/indexes.rs:79-102 | appends the range or leaves the list alone, with the source's errors in its order |
| `SquashCells.IndexesMut.Insert` | packages/konduit/data/src/indexes.rs:104-115 | adds exactly one member and keeps the list sorted and bounded |
| `SquashCells.IndexesMut.Remove` | packages/konduit/data/src/indexes.rs:117-123 | removes exactly that member, or reports it missing |
| `SquashCells.IndexesMut.Has` | packages/konduit/data/src/indexes.rs:125-127 | binary search decides membership |
| `SquashCells.SquashBodyMut.Squash` | packages/konduit/data/src/squash_body.rs:122-142 | the in-place squash settles exactly one index more, or leaves the body unchanged |
| `SquashCells.SquashBodyMut.IsSquashed` | packages/konduit/data/src/squash_body.rs:144-150 | decides membership in S |
| `Receipts.RunKeeps` | packages/konduit/tmp/src/receipt.rs:120-222 | over any run of mutations: indexes ascend outside S, owed <= committed, owed never falls, committed only loses timed-out cheques |
| `Receipts.EventKeeps` | packages/konduit/tmp/src/receipt.rs:143-222 | the same for one mutation, with the exact loss of a timeout |
| `Receipts.EventActs` | packages/konduit/tmp/src/receipt.rs:143-222 | an accepted event takes effect: held, owed, dropped, replaced or squashed |
| `Receipts.LockedExactly` | packages/konduit/tmp/src/receipt.rs:143-149 | a cheque is accepted exactly at the next index, becomes the last one whole, and moves no other |
| `Receipts.SecretExactly` | packages/konduit/tmp/src/receipt.rs:152-167 | a secret is accepted exactly when a cheque is locked under it; each such cheque keeps index, amount, timeout and signature and gets the secret, every other is left alone |
| `Receipts.ReplaceExactly` | packages/konduit/tmp/src/receipt.rs:178-202 | a replacement is accepted exactly when it outbids a locked cheque of its index and lock in amount and time, and takes just its place |
| `Receipts.SquashExactly` | packages/konduit/tmp/src/receipt.rs:207-222 | a squash is accepted exactly when it is worth at least the current one plus the cheques it settles; those go and the others stay in order |
| `Receipts.LockedKeeps` | packages/konduit/tmp/src/receipt.rs:143-149 | an accepted cheque raises committed by its amount and owed by nothing |
| `Receipts.SecretKeeps` | packages/konduit/tmp/src/receipt.rs:152-167 | a secret adds to what is owed exactly the cheques locked under it, and changes nothing of what is committed |
| `Receipts.ReplaceKeeps` | packages/konduit/tmp/src/receipt.rs:178-202 | a replacement keeps the invariant and strictly raises what is committed |
| `Receipts.SquashKeeps` | packages/konduit/tmp/src/receipt.rs:207-222 | an accepted squash changes committed by exactly its excess over the cheques it settles |
| `Receipts.ProposeExact` | packages/konduit/tmp/src/receipt.rs:299-306 | the proposal's amount is what is owed, its set is S plus the unlocked indexes, and exactly when it exists |
| `Receipts.ProposeThenApply` | packages/konduit/tmp/src/receipt.rs:204-222 | applying the own proposal never errs, leaves exactly the locked cheques, keeps owed and committed |
| `Receipts.AcceptsShrinkingSquash` | packages/konduit/tmp/src/receipt.rs:207-222 | a squash with a smaller set can be accepted |
| `Proposals.DenseProposes` | packages/konduit/tmp/src/receipt.rs:299-306 | a receipt without holes and with at most ten cheques always has a proposal |
| `Proposals.AlwaysProposes` | packages/konduit/tmp/src/receipt.rs:299-306 | from a null squash, runs of cheques, secrets and agreed squashes can always propose, and agreeing is accepted |
| `Proposals.LiveActs` | packages/konduit/tmp/src/receipt.rs:143-222 | each step of those runs moves what it names |
| `Proposals.HolesBlockForGood` | packages/konduit/tmp/src/receipt.rs:299-306 | with more than ten holes below an unlocked cheque the proposal fails, and still fails after any run of events other than a squash |
| `Proposals.TimeoutsBlockProposal` | packages/konduit/tmp/src/receipt.rs:171-174 | a run of cheques, timeouts and one secret leads there from the null squash |
| `ReceiptCells.ReceiptMut.ApplyLocked` | packages/konduit/tmp/src/receipt.rs:143-149 | appends the next cheque or changes nothing, keeping the invariant |
| `ReceiptCells.ReceiptMut.ApplySecret` | packages/konduit/tmp/src/receipt.rs:152-167 | after the loop no cheque is locked under that secret; an error means none was |
| `ReceiptCells.ReceiptMut.ApplyTimeout` | packages/konduit/tmp/src/receipt.rs:171-174 | exactly the locked cheques with timeout <= now are dropped |
| `ReceiptCells.ReceiptMut.ApplyReplace` | packages/konduit/tmp/src/receipt.rs:178-202 | replaces a locked cheque under the three safety conditions or changes nothing |
| `ReceiptCells.ReceiptMut.ApplySquash` | packages/konduit/tmp/src/receipt.rs:207-222 | drops the squashed cheques and installs the squash, or changes nothing |
| `ReceiptCells.ReceiptMut.ProposeSquashBody` | packages/konduit/tmp/src/receipt.rs:299-306 | the loop computes the proposal; its amount is what is owed; an error names the first cheque that cannot be folded |
| `ReceiptCells.ReceiptMut.PrepSub` | packages/konduit/tmp/src/receipt.rs:230-252 | one pass over the cheques and one over the useds agree with the transaction route, and the recorded amounts add up to the respond total |
| `ReceiptCells.ReceiptMut.PrepRespond` | packages/konduit/tmp/src/receipt.rs:256-283 | one accumulating pass agrees with the transaction route on cheques, pendings and total |
| `Preparation.RespondTotalIsSubTotal` | packages/konduit/tx2/src/channel.rs:127-164 | the respond total is the sum of the useds a sub would record |
| `Preparation.ActiveCommutes` | packages/konduit/tx2/src/channel.rs:101-120 | both active filters pick the same unlocked cheques |
| `Preparation.ActiveInOrder` | packages/konduit/tx2/src/channel.rs:101-120 | the cheques shown are, in order, exactly those that outlive the window and have no used |
| `Preparation.ActiveUnlockedInOrder` | packages/konduit/tx2/src/channel.rs:101-120 | the same for the unlocked cheques of a sub |
| `Preparation.PendingsInOrder` | packages/konduit/tx2/src/channel.rs:144-164 | the pendings are, in order, those of the active locked cheques, each with its cheque's amount, timeout and lock |
| `Preparation.SortStable` | packages/konduit/tx2/src/channel.rs:127-141 | the sort of the useds is stable |
| `Server.AcceptedExactly` | packages/konduit/server/src/channel.rs:282-289 | a cheque is accepted exactly when signed, on an active channel with both halves and room, at the next index, and covered; it is then held and nothing else moves |
| `Server.RefusedInOrder` | packages/konduit/server/src/channel.rs:197-207 | which refusal comes first |
| `Server.SquashAcceptedExactly` | packages/konduit/server/src/channel.rs:267-278 | a squash is accepted exactly when signed and worth enough |
| `Server.SecretAcceptedExactly` | packages/konduit/server/src/channel.rs:292-295 | a secret is accepted exactly when a held cheque is locked under it |
| `Server.SecretsExactly` | packages/konduit/server/src/channel.rs:298-303 | a batch goes through up to the first refusal; without one nothing stays locked under any of the secrets |
| `Server.OffersExactly` | packages/konduit/server/src/channel.rs:218-226 | only an active channel with both halves offers an index, above all that is held and used |
| `Server.AcceptedIsCovered` | packages/konduit/server/src/channel.rs:282-289 | an accepted cheque leaves everything committed covered by the retainer's deposit, and at most ten cheques held |
| `ServerCells.ChannelMut.Uncommitted` | packages/konduit/server/src/channel.rs:197-207 | the deposit less what the held receipt commits, or the reason nothing is free |
| `ServerCells.ChannelMut.ApplyLocked` | packages/konduit/server/src/channel.rs:282-289 | verifies, checks funds, appends to the receipt in place; any refusal changes nothing |
| `ServerCells.ChannelMut.ApplySquash` | packages/konduit/server/src/channel.rs:267-278 | creates or advances the receipt on a verified squash; any refusal changes nothing |
| `ServerCells.ChannelMut.ApplySecret` | packages/konduit/server/src/channel.rs:292-295 | resolves the cheques of one secret or changes nothing |
| `ServerCells.ChannelMut.ApplySecrets` | packages/konduit/server/src/channel.rs:298-303 | secrets apply in order up to the first refusal |
| `Joint.UncommittedIsExact` | packages/konduit/server/src/channel.rs:197-207 | with a current retainer, uncommitted is exactly the deposit less what is committed |
| `Joint.NextIndexIsAccepted` | packages/konduit/server/src/channel.rs:218-226 | the receipt accepts exactly the index the server offers |
| `Joint.RunsStaySolvent` | packages/konduit/server/src/channel.rs:197-289 | joint solvency over every run of both halves, even with an out-of-date retainer |
| `Joint.RunsStayAuthentic` | packages/konduit/server/src/channel.rs:267-289 | over every run the squash and every cheque held are signed for the channel |
| `Joint.ShownIsAuthentic` | packages/konduit/tx2/src/channel.rs:299-376 | so is all that a sub or a respond shows |
| `Joint.RevealedIsShown` | packages/konduit/tmp/src/receipt.rs:152-167 | a revealed cheque that outlives the window and has no used is shown, whole, by the next accepted sub |
| `Joint.StepActs` | packages/konduit/server/src/channel.rs:267-303 | each step of a run moves what it names |
| `Joint.StepKeeps` | packages/konduit/tx2/src/channel.rs:286-339 | each step of either half keeps the joint invariant |
| `Joint.TotalsFit` | packages/konduit/tmp/src/receipt.rs:125-131 | while the deposit fits in u64 so does every total of the run, pendings included, and the buffered amount while there is room for the buffer |
| `Joint.ShownIsOwed` | packages/konduit/tx2/src/channel.rs:144-164 | what a respond shows is exactly what the receipt is owed less the unlocked cheques that timed out unshown |
| `Joint.ClaimUncapped` | packages/konduit/tx2/src/channel.rs:299-325 | a sub with the receipt's evidence pays its full relative owed, never capped: all that is owed less the lapsed cheques |
| `Joint.RespondUncapped` | packages/konduit/tx2/src/channel.rs:344-376 | a respond with the receipt's evidence pays all that is owed less the lapsed cheques, and leaves at least the sum of all pendings |
| `Joint.EndToEnd` | packages/konduit/tx2/src/channel.rs:344-494 | from opening to the last settlement the adaptor gets what it is owed less the lapsed cheques plus what it unlocked, and the deposit is accounted for |
| `Joint.DelayedProposalAdvances` | packages/konduit/tmp/src/receipt.rs:204-222 | a proposal that comes back after more cheques, secrets and timeouts is still an exact, growing squash |
| `Joint.AcceptedSquashSolvent` | packages/konduit/tmp/src/receipt.rs:207-222 | after any accepted squash the halves stay solvent exactly when its excess fits the headroom and it forgets no used |
| `Joint.ReplaceRaise` | packages/konduit/tmp/src/receipt.rs:178-202 | after a replacement the halves stay solvent exactly when the raise fits the headroom |
| `Joint.ShrinkingSquashPaysTwice` | packages/konduit/tmp/src/receipt.rs:207-222 | an accepted squash that forgets an index lets a used be claimed again |
| `Channels.PrepareRespond` | packages/konduit/tx2/src/channel.rs:144-164 | the loop splits the active cheques into pendings and an unlocked amount |
| `Channels.StepConserves` | packages/konduit/tx2/src/channel.rs:286-339 | add, sub and close keep amount plus subbed up to the add, and subbed within the owed shown |
| `Channels.AcceptedExactly` | packages/konduit/tx2/src/channel.rs:272-494 | each of the eight wants is accepted exactly when its stage, window and amounts allow, and is a wrong pair exactly off its stage |
| `Channels.StepLeaves` | packages/konduit/tx2/src/channel.rs:286-494 | what each step leaves: amount, stage, terms, and a gain that pays what is owed as far as the amount goes |
| `Channels.RunConserves` | packages/konduit/tx2/src/channel.rs:286-339 | over any adds, subs and closes amount plus subbed is the initial value plus the accepted adds |
| `Channels.StatedGain` | packages/konduit/tx2/src/channel.rs:313-324 | the stated gain is what leaves the channel; for an unlock exactly while the pendings it can open fit the amount |
| `Channels.UnlockGain` | packages/konduit/tx2/src/channel.rs:421-457 | an unlock's gain is the sum of the pendings before the upper bound whose secret was given |
| `Channels.StepSaysWant` | packages/konduit/tx2/src/step.rs:155-160 | the redeemer step is the one wanted; it shows exactly what was offered and is active, and each pending is unlocked, expired or kept as its lock and timeout say |
| `Channels.ClaimFitsStage` | packages/konduit/tx2/src/step.rs:95-117 | a batch claim is never the wrong step for its stage, and carries all of the batch that the stage can use |
| `Channels.SubIsIdempotent` | packages/konduit/tx2/src/channel.rs:299-325 | the same evidence at the same or a later bound gives NoStep, even after the channel was drained; useds ascend outside S |
| `Channels.StepFalls` | packages/konduit/tx2/src/channel.rs:299-494 | every continuing step but an add or a no-op unlock falls in the lexicographic measure |
| `Channels.ProgressBounded` | packages/konduit/tx2/src/channel.rs:299-494 | over any run such steps are at most the initial amount plus three, plus the adds, plus the cheques offered in the respond |
| `Channels.CloseThenLater` | packages/konduit/tx2/src/channel.rs:327-395 | an elapse starts more than the close period after the close's window; a respond's window ends before the elapse time |
| `RespondedRuns.SettledAtMostOnce` | packages/konduit/tx2/src/channel.rs:421-494 | over any run the entry pendings split into unlocked, expired and remaining, the stored total is exact, the amount covers it and after an expire equals it, and the gain is the unlocked sum |
| `Channels.UnlockShowsSecrets` | packages/konduit/tx2/src/channel.rs:421-438 | which pendings an unlock resolves, and that it shows a secret of each |
| `RespondedRuns.ExpireExact` | packages/konduit/tx2/src/channel.rs:462-487 | an expire drops exactly the pendings timed out before the lower bound |
| `RespondedRuns.RespondLeaves` | packages/konduit/tx2/src/channel.rs:344-376 | a respond leaves one pending per active locked cheque, in order, with that cheque's amount, timeout and lock |
| `RespondedRuns.EndAfterTimeouts` | packages/konduit/tx2/src/channel.rs:397-416 | the channel cannot end before every cheque responded with has timed out |
| `RespondedRuns.ExpireAfterTimeouts` | packages/konduit/tx2/src/channel.rs:462-487 | an expire drops exactly the pendings whose cheque has timed out |
| `RespondedRuns.RemainingInOrder` | packages/konduit/tx2/src/channel.rs:445-450 | what remains keeps its order |
| `RespondedRuns.EndIffExpireClears` | packages/konduit/tx2/src/channel.rs:397-416 | a channel with pendings can end exactly when an expire would clear them all |
| `RespondedRuns.RespondFunds` | packages/konduit/tx2/src/channel.rs:344-376 | a respond leaves its pendings funded exactly when they add up to nothing or owed and pendings together fit the amount |
| `RespondedRuns.UnfundedUnlockLosesGain` | packages/konduit/tx2/src/channel.rs:452-455 | after a respond of a closed channel that could not fund its pendings, the saturating unlock pays less than it resolves |
| `Values.SubAmounts` | packages/konduit/tx2/src/fuel.rs:60-81 | the saturating difference, asset by asset, in normal form |
| `Values.AddAmounts` | packages/cardano/sdk/src/cardano/value.rs:145-164 | the sum, asset by asset, in normal form |
| `Values.EmptyIsNothing` | packages/cardano/sdk/src/cardano/value.rs:290-292 | a value in normal form is empty exactly when every amount is zero |
| `Values.SaturatingSubValue` | packages/konduit/tx2/src/fuel.rs:60-81 | the in-place edits compute the saturating difference |
| `Fuel.Coverage` | packages/konduit/tx2/src/fuel.rs:42-57 | the nested loops count the needed assets the candidate holds |
| `Fuel.BestIndex` | packages/konduit/tx2/src/fuel.rs:21-24 | the last of the best-scoring candidates |
| `Fuel.SelectFuel` | packages/konduit/tx2/src/fuel.rs:11-37 | the loop with swap-remove computes the greedy selection |
| `Fuel.SwapRemoveAt` | packages/konduit/tx2/src/fuel.rs:30-34 | removal puts the last candidate in the gap and moves no other |
| `Fuel.InputsAt` | packages/konduit/tx2/src/fuel.rs:30-37 | the inputs handed on are those of the picks, in order |
| `Fuel.SelectSound` | packages/konduit/tx2/src/fuel.rs:11-37 | a selection is part of the wallet and covers the target in every asset |
| `Fuel.PartDistinct` | packages/konduit/tx2/src/fuel.rs:11-37 | a part of a wallet has distinct inputs |
| `Fuel.SelectShortfall` | packages/konduit/tx2/src/fuel.rs:26-28 | an error carries exactly what the whole wallet lacks |
| `Fuel.SelectComplete` | packages/konduit/tx2/src/fuel.rs:11-37 | selection succeeds exactly when the whole wallet covers the target |
| `Fuel.GreedyIsFewest` | packages/konduit/tx2/src/fuel.rs:5-37 | for lovelace the greedy selection is no longer than any covering part |
| `Fuel.PrefixIsFewest` | packages/konduit/tx/src/fuel.rs:6-32 | the largest-first prefix is no longer than any covering part |
| `Fuel.SortLargeStable` | packages/konduit/tx/src/fuel.rs:6-32 | equal amounts keep their order in the sort |
| `Fuel.TakesPrefix` | packages/konduit/tx/src/fuel.rs:6-32 | what is taken is a prefix, in order, and no shorter one covers |
| `Fuel.SelectPrefix` | packages/konduit/tx/src/fuel.rs:6-32 | the loop over the sorted wallet takes the shortest covering prefix, its saturating total never hiding a shortfall |
| `Fuel.SelectorsAgree` | packages/konduit/tx/src/fuel.rs:6-32 | both selectors succeed on the same wallets with the same, fewest, number of inputs |
| `Fewest.GreedyFewestExactly` | packages/konduit/tx2/src/fuel.rs:5-37 | the greedy selection is the fewest on every wallet exactly when the target is lovelace, lovelace and one single token, or single tokens and lovelace of at most three units |
| `Staging.InputsAlign` | packages/konduit/tx2/src/staged_tx.rs:162-180 | step k is the step of input k, inputs ascend, only input 0 carries Main |
| `Staging.OutputsAlign` | packages/konduit/tx2/src/staged_tx.rs:148-160 | the continuing outputs follow the continuing steps in order |
| `Staging.OpensComeLast` | packages/konduit/tx2/src/staged_tx.rs:148-160 | among all outputs those of the continuing steps come first, each at its step's place, then the opens in their order |
| `Staging.StagedBalance` | packages/konduit/tx2/src/staged_tx.rs:109-121 | spent less produced is the gain plus a buffer per ended channel less buffered opens, exactly when every spent output held its buffer |
| `Staging.TargetIsEnough` | packages/konduit/tx2/src/staged_tx.rs:209-213 | fuel covering the target makes spent plus fuel cover produced plus the fee buffer in every asset |
| `Staging.TargetAmounts` | packages/konduit/tx2/src/staged_tx.rs:209-213 | the target is exactly what is missing in each asset plus the fee buffer |
| `Staging.SpentAmounts` | packages/konduit/tx2/src/staged_tx.rs:197-208 | the spent value is the sum over the spent outputs in every asset |
| `Staging.FundTarget` | packages/konduit/tx2/src/staged_tx.rs:209-213 | the chosen fuel closes the balance and is the fewest for an easy target; it fails exactly when the fuel wallet cannot cover, with the exact shortfall |
| `Staging.TargetHasNoTokens` | packages/konduit/tx2/src/staged_tx.rs:197-213 | channels hold lovelace only, so fuel is only ever needed in lovelace |
| `Staging.StagedTx.Want` | packages/konduit/tx2/src/staged_tx.rs:74-79 | registers the resolved intent over any earlier one, or changes nothing |
| `Staging.StagedTx.DropIntent` | packages/konduit/tx2/src/staged_tx.rs:81-83 | forgets one intent and returns it |
| `Staging.StagedTx.AddOpen` | packages/konduit/tx2/src/staged_tx.rs:95-97 | adds an open once |
| `Staging.StagedTx.Build` | packages/konduit/tx2/src/staged_tx.rs:184-275 | the parts handed to the builder are aligned, outputs before opens, funded by the fewest inputs, and balance the gain exactly when every spent output held its buffer; errors keep the intents, success clears them |
| `Cbor.HeadRoundTrip` | packages/konduit/data/src/cbor_with/plutus_list.rs:3-22 | heads of every width are read back before any bytes |
| `Cbor.ByteStringRoundTrip` | packages/konduit/data/src/cbor_with/plutus_bytes.rs:5-30 | byte strings of any length, chunked beyond 64, are read back |
| `Cbor.ListRoundTrip` | packages/konduit/data/src/cbor_with/plutus_list.rs:3-33 | lists of any length are read back whenever their elements are |
| `Codec.LockWire` | packages/konduit/data/src/lock.rs:83-99 | a lock is written as 0x58 0x20 and its bytes |
| `Codec.ChequeRoundTrip` | packages/konduit/data/src/cheque.rs:148-217 | cheques are read back |
| `Codec.BodyRoundTrip` | packages/konduit/data/src/cheque_body.rs:82-117 | cheque bodies are read back for either latch |
| `Wire.BodyWire` | packages/konduit/data/src/cheque_body.rs:82-99 | on the wire a cheque body is index, amount, timeout, latch, in that order |
| `Wire.SquashBodyWire` | packages/konduit/data/src/squash_body.rs:153-166 | a squash body is amount, index, excluded indexes |
| `Wire.UsedWire` | packages/konduit/data/src/used.rs:27-40 | a used is index, amount |
| `Wire.PendingWire` | packages/konduit/data/src/pending.rs:36-50 | a pending is amount, timeout, lock |
| `Wire.StageWire` | packages/konduit/data/src/stage.rs:39-75 | a stage is its tag, amount, list, and for a closed one the elapse time |
| `Wire.SignedWire` | packages/konduit/data/src/cheque.rs:148-176 | what is signed comes before its signature; the constructor says whether a cheque is unlocked |
| `Wire.ContWire` | packages/konduit/data/src/redeemer.rs:127-177 | the bytes of each continuing step around its fields |
| `Wire.StepWire` | packages/konduit/data/src/redeemer.rs:252-278 | the bytes of a step around its field |
| `Wire.RedeemerWire` | packages/konduit/data/src/redeemer.rs:319-346 | the bytes of a redeemer around its steps |
| `Wire.EolWire` | packages/konduit/data/src/redeemer.rs:85-104 | the bytes of both final steps |
| `Wire.UnpendWire` | packages/konduit/data/src/unpend.rs:43-56 | the bytes of each unpend |
| `Wire.UnpendByLength` | packages/konduit/data/src/unpend.rs:58-73 | an unpend is read by length alone |
| `Wire.MessageWire` | packages/konduit/data/src/tag.rs:27-40 | a signed message is the tag, then the body |
| `Wire.HeadWire` | packages/konduit/data/src/cbor_with/plutus_list.rs:3-22 | heads byte by byte, most significant first |
| `Wire.ListWire` | packages/konduit/data/src/cbor_with/plutus_list.rs:3-22 | an empty list is a definite array, any other indefinite |
| `Wire.ItemsWire` | packages/konduit/data/src/cbor_with/plutus_list.rs:3-22 | items follow one another in the list's order |
| `Wire.DefiniteListReads` | packages/konduit/data/src/cbor_with/plutus_list.rs:24-33 | a list of stated length is read like an indefinite one |
| `Wire.ChunksWire` | packages/konduit/data/src/cbor_with/plutus_bytes.rs:5-20 | a long byte string goes out in chunks of 64 |
| `Wire.LastChunkWire` | packages/konduit/data/src/cbor_with/plutus_bytes.rs:5-20 | the rest in one |
| `Wire.ChunkedFields` | packages/konduit/data/src/cbor_with/plutus_bytes.rs:22-30 | a signature is read whole or in chunks, a lock or secret only whole |
| `Wire.UnknownTagsFail` | packages/konduit/data/src/redeemer.rs:179-248 | each enumeration refuses every tag it does not use |
| `Decoded.StageFits` | packages/konduit/data/src/stage.rs:77-133 | any decoded stage has the fixed sizes and is read back when written again |
| `Decoded.RedeemerFits` | packages/konduit/data/src/redeemer.rs:348-379 | any decoded redeemer has the fixed sizes and valid squashes and is read back when written again |
| `Codec.UnlockedUndoes` | packages/konduit/data/src/cheque_signed.rs:87-121 | unlocked cheques are read back |
| `Codec.SquashBodyRoundTrip` | packages/konduit/data/src/squash_body.rs:153-183 | an encoded body is read back exactly when it is valid, refused otherwise |
| `Codec.DecodedIsValid` | packages/konduit/data/src/indexes.rs:168-173 | a body decoded from any bytes is sorted, bounded and below its index |
| `Codec.SquashRoundTrip` | packages/konduit/data/src/squash.rs:123-151 | signed squashes are read back |
| `Codec.UnpendUndoes` | packages/konduit/data/src/unpend.rs:43-73 | unpends are read back from the length of their bytes |
| `Codec.UsedUndoes` | packages/konduit/data/src/used.rs:27-54 | useds are read back |
| `Codec.PendingUndoes` | packages/konduit/data/src/pending.rs:36-65 | pendings are read back |
| `Codec.StageRoundTrip` | packages/konduit/data/src/stage.rs:39-133 | stages are read back |
| `Codec.ContRoundTrip` | packages/konduit/data/src/redeemer.rs:127-248 | continuing steps are read back |
| `Codec.StepUndoes` | packages/konduit/data/src/redeemer.rs:252-315 | steps are read back |
| `Codec.RedeemerRoundTrip` | packages/konduit/data/src/redeemer.rs:319-379 | every redeemer is read back, leaving exactly the trailing bytes |
| `Codec.EmptyConstructorIgnoresLength` | packages/konduit/data/src/redeemer.rs:348-378 | each of the six empty constructors is read from any array head, whatever it states, and from nothing else |
| `Codec.AnyLengthReads` | packages/konduit/data/src/redeemer.rs:355-358 | every definite length and the indefinite one give the same value and leave the same bytes |
| `Codec.ChequeMessageInjective` | packages/konduit/data/src/tag.rs:27-40 | a signed cheque message determines tag and body |
| `Codec.SquashMessageInjective` | packages/konduit/data/src/tag.rs:27-40 | a signed squash message determines tag and body |
| `Codec.MessagesDisjoint` | packages/konduit/data/src/tag.rs:27-40 | no bytes are both a cheque message and a squash message |
| `CodecCells.TagData` | packages/konduit/data/src/tag.rs:27-40 | the encoder run writes the signed message |
| `CodecCells.Encoder.PlutusBytes` | packages/konduit/data/src/cbor_with/plutus_bytes.rs:5-20 | the chunk loop writes the byte string |
| `CodecCells.Encoder.PlutusList` | packages/konduit/data/src/cbor_with/plutus_list.rs:3-22 | the item loop writes the list |
| `CodecCells.Encoder.SquashBody` | packages/konduit/data/src/squash_body.rs:153-166 | the writes append the encoded body |
| `CodecCells.Encoder.Cheque` | packages/konduit/data/src/cheque.rs:148-176 | the writes append the encoded cheque |
| `CodecCells.Encoder.Stage` | packages/konduit/data/src/stage.rs:39-75 | the writes append the encoded stage |
| `CodecCells.Encoder.Cont` | packages/konduit/data/src/redeemer.rs:127-177 | the writes append the encoded step |
| `CodecCells.Encoder.Redeemer` | packages/konduit/data/src/redeemer.rs:319-346 | the writes append the encoded redeemer |
| `CodecCells.Decoder.PlutusBytes` | packages/konduit/data/src/cbor_with/plutus_bytes.rs:22-30 | the chunk loop reads exactly what the byte-string parser does |
| `CodecCells.Decoder.PlutusList` | packages/konduit/data/src/cbor_with/plutus_list.rs:24-33 | the item loop reads exactly what the list parser does |
| `CodecCells.Decoder.SquashBody` | packages/konduit/data/src/squash_body.rs:168-183 | the reads and checks give a valid body and leave the unread bytes |
| `CodecCells.Decoder.Cont` | packages/konduit/data/src/redeemer.rs:179-248 | the reads agree with the parser on every input |
| `CodecCells.Decoder.Step` | packages/konduit/data/src/redeemer.rs:280-315 | the reads agree with the parser on every input |
| `CodecCells.Decoder.Redeemer` | packages/konduit/data/src/redeemer.rs:348-379 | the reads agree with the parser on every input |
| `CodecCells.Decoder.Stage` | packages/konduit/data/src/stage.rs:77-133 | the reads agree with the parser on every input |

## Left out

- u64 overflow: the functions add natural numbers; methods that add carry the bound under which the source does not overflow, and wrap-around beyond it is not modelled. `GainOf` is an integer where the source casts to i64.
- Durations are whole milliseconds; sub-millisecond parts, which the wire format drops, are not modelled.
- The minicbor library is not part of the repository: heads, tags, byte strings, array iteration and break are modelled from RFC 8949 and the way the source calls them. Error messages are one failure value.
- Used, pending, unpend and unlocked cheques are written and read by functions inside the list loops, and `Eol` by its parser; they have no encoder or decoder method of their own on both sides.
- Ed25519 and SHA-256: verification and the hash are parameters. The verified and unverified markers carry no behaviour and are dropped.
- Sorting and binary search are library calls: the stable sorts are functions, binary search is a loop of its own. Ordered maps iterate in key order; the set of opens keeps insertion order instead of its derived order.
- Values in normal form: fuel targets have no zero quantity and no empty policy, as the staging code builds them.
- `Transaction::build`, fee balancing, addresses, datum bytes and signatories: the balance stops at the parts handed to the builder, whose answer is a parameter.
- The database, HTTP handlers, command lines, wallets, exchange rates, Lightning calls and wasm bindings: input and output.
- `apply_retainer` and the client's sync loop, which their own comments mark as incorrect; a joint run takes a snapshot of the opened channel instead.
- The older L1 channel crate: only its fuel selector is compared.
- JSON forms, PlutusData conversions and the channel datum around a stage.
- Retaining opens by a predicate and listing signers: filters over the same data.
