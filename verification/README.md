# Covenant emulator, modelled and proved in Dafny

The covenant emulator watches a Babylon chain for pending Bitcoin delegations, checks each of them against the staking
parameters of its own version, has a remote signer sign it, and submits the signatures in batches. This project models
that logic and proves what it keeps over every input, every interleaving and every run.

`dafny verify dfyconfig.toml` checks the whole project.

## How the model is laid out

| part of the system | modules |
|---|---|
| submitting a batch and resending it without the messages that fail | `MessageIndex`, `Resend` |
| the paginated, filtered scan of the pending delegations | `Pagination`, `StatefulScan` |
| cutting the scan's answer into batches | `Batches` |
| the versioned parameter cache | `ParamsCache` |
| the filter, the signing rules and the signing loop | `Covenant`, `CachedFilter`, `Submission` |
| the wire formats, the HMAC gate and the remote signer | `Hex`, `Wire`, `RemoteSigning`, `SignerApp` |
| the key cell shared by lock, unlock and signing requests | `KeyProtocol`, `SigningService` |
| the chain, the tick loop and whole runs | `Chain`, `Emulator`, `Safety`, `Quorum`, `Runs`, `Freshness` |
| all of it put together: one cache, one shared signer, whole runs | `CachedScan`, `Deployment` |
| concrete inputs | `PlainCodec`, `Witness`, `Examples` |
| derivation paths | `DerivationPath` |
| shared vocabulary | `Wrappers`, `Lists`, `Text`, `Btc`, `Types` |

Code the repository only calls (transaction encoding, script builders, the slashing check, Schnorr and adaptor signing,
HMAC, JSON, the chain itself) appears as function-valued fields of `Btc.Library`, `Covenant.Staking`,
`RemoteSigning.Codec`, `ParamsCache.Chain` and `Chain.System`. The facts used about them are the `Lawful`, `Honest` and
`Valid` predicates beside those types: decoders invert encoders, a wiped key signs nothing, a successful slashing check
covers the output it names, the parameters of a version never change, a batch reported as delivered was executed as a whole.
`Witness` builds concrete deployments that meet all of these predicates at once: a library, a chain, parameter queries, a
channel to the signer (over the codec of `PlainCodec`) and a configuration.

Where the Go code mutates, so does the model: `RemoveMsgAtIndex` shifts the caller's array, the loops are loops with
invariants, the cache, the key ring, the handler and the HTTP request are classes. Each such method is proved equal to a
function, and the laws are proved about the function.

The parts are put together in two layers. `Emulator` defines the tick loop in surroundings that may refuse but never lie:
lookups, fetches and the signer may answer differently at every turn of every batch. `Safety` proves that whatever is sent
and stored follows the rules, `Quorum` that nothing goes beyond the quorum, `Freshness` when nothing is sent twice, and
`Runs` draws the conclusion for whole runs. `CachedScan` and `Deployment` carry the one parameter cache through the scan and
the batches, let the signer serve many requests between locks and unlocks and the emulator start again at any time, and
prove that every run of this composition is a run of the plain loop in such surroundings.

## What the proofs found

- The scan stops on a page that is not full and otherwise continues from the returned key. An absent key also means "from
  the start", so when the number of pending delegations is a positive multiple of the page limit the scan starts over. It
  then returns accepted delegations more than once (`Pagination.ScanIsPrefixIffNoWrap`, with the smallest example in
  `Pagination.OneOfTwoRepeats`), or, when nothing is accepted, it never ends (`Pagination.ScanNeverEnds`, with the
  smallest example in `Pagination.OneDroppedNeverEnds`).
- As a consequence a tick can send signatures for a delegation whose signature it recorded a moment before. When nothing
  else goes wrong this happens exactly when the scan starts over and its answer does not fit into one batch
  (`Freshness.TickResendsIff`, for a whole deployment `Deployment.TockResendsIff`, concretely `Witness.TickSendsAgain`). A
  configuration whose delegation limit is at most its batch size never does it, whatever the chain holds.
- The quorum is tested on what the scan returned. Over every run without late executions this member's signatures are among
  the first that make up the quorum (`Runs.RunIsSafe`). A batch that was reported as rejected and is executed later keeps to
  the quorum exactly when the quorum of every delegation it names is still open (`Quorum.LateKeepsQuorumIff`);
  `Witness.LateExecutionIsBeyondQuorum` is a run in which it is not.
- The slashing half of the quorum test counts the unbonding signatures. The test still agrees with the intended one in every
  state a run can reach, because signature sets are recorded whole (`Covenant.QuorumTestAgreesIff`, `Runs.RunIsSafe`).
- When the attempts of a submission run out, the caller may be told that it succeeded although nothing was delivered. This
  happens exactly when at least as many messages are skipped as there are attempts and a duplicate is among the first that
  many (`Resend.SuccessWithoutDeliveryIff`, concretely `Examples.RejectedBatchReportsSuccess`: one message that never
  verifies and one duplicate). The comment above the Go function says that the last error is returned; the code joins all
  errors and may return none. The model follows the code.
- Remote signing refuses requests without a finality provider or with an empty script, which local signing would sign
  (`RemoteSigning.RemoteSigningIsLocalSigning` states exactly what the channel carries;
  `Examples.RefusedRemotelySignedLocally` is a request without a finality provider).
- The fee check subtracts int64 values without an overflow check. It is the rule "staking output = unbonding output + fee"
  exactly when the difference fits an int64 (`Covenant.FeeIsExact`), which outputs that are not negative always do.

## Model

| member | source | states |
|---|---|---|
| `Deployment.DeployedRunIsSafe` | covenant/covenant.go:695-744 | over every run of the whole deployment from an empty cache, whatever parameter queries fail, however the signer is locked, unlocked and shared, and whenever the emulator starts again: everything `Runs.RunIsSafe` states of signatures stored and messages sent; without late executions all signatures of this member are within the quorum; and when every tick scans in one pass or submits a single batch, nothing is sent for a delegation that carries this member's signature or has reached its quorum at the time of the send |
| `Deployment.TickRefines` | covenant/covenant.go:705-738 | a tick with the real cache and the shared signer is a plain tick in honest surroundings, keeps the cache sound, and its scan comes to an end; it needs one pass or a single batch whenever the cached scan does |
| `Deployment.RunRefines` | covenant/covenant.go:695-744 | every run of the deployment, restarts included, is a legal run of the plain loop with the same chain and the same sends, without late executions and without repeating scans when it has none itself |
| `Deployment.RestartIsHarmless` | covenant/cache_params.go:25-31 | starting again empties the cache, leaves the chain and the sends as they are, and the queries answered anew keep the deployment linked |
| `Deployment.ReliableTick` | covenant/covenant.go:705-738 | when every lookup succeeds, a tick with the cache is the plain tick under the published parameters, whatever the cache holds |
| `Deployment.TockResendsIff` | covenant/covenant.go:705-738 | when nothing goes wrong, a tick of the deployment re-sends a recorded delegation exactly when its scan starts over and its answer exceeds one batch |
| `Deployment.TockTakesTurns` | covenant/covenant.go:707-738 | a tick whose scan fails changes nothing but the cache; any other submits every batch of the answer, one after the other, each on what the one before left, whatever became of that |
| `Deployment.RunTick` | covenant/covenant.go:705-738 | the reaction to the ticker scans, splits, signs and submits batch after batch through the one cache, going on after a failed batch; the cache and the state it leaves are exactly those of `TickWithCache` |
| `Deployment.SubmitAll` | covenant/covenant.go:728-737 | the loop over the batches leaves exactly the cache and the state of `SubmitAllWithCache` |
| `Deployment.SubmitOne` | covenant/covenant.go:276-289 | signing one batch and submitting what was signed leaves exactly the cache and the state of `SubmitWithCache`, on a well-formed chain |
| `Deployment.SubmitWithCacheIsSubmit` | covenant/covenant.go:87-290 | a batch signed through the cache is a plain batch in which each delegation finds what the lookups of its own turn found |
| `CachedScan.QueryPendingDelegations` | clientcontroller/babylon.go:309-358 | the page loop with the emulator's filter returns exactly the answer and the cache of the scan over the whole stream, and comes to an end whenever the scan does not start over or its first pass accepts something or fails |
| `CachedScan.OtherwiseNeverEnds` | clientcontroller/babylon.go:349-354 | in every other case the scan with the cache is still looking, with nothing found, after any number of passes |
| `CachedScan.QueryPage` | clientcontroller/babylon.go:319-354 | one query and its page: the final answer, or a later place in the same pass or the next pass |
| `CachedScan.TakePage` | clientcontroller/babylon.go:324-347 | the inner loop over a page with the cached filter collects exactly what the specification collects |
| `CachedScan.ScanWithCacheIsScan` | clientcontroller/babylon.go:309-358 | the scan with the cache is the plain scan in which lookups find what the cache holds in the end |
| `CachedScan.ReliableScan` | clientcontroller/babylon.go:309-358 | when every lookup succeeds, the scan with the cache answers as the plain scan under the published parameters and comes to an end exactly when that does |
| `StatefulScan.CollectFromIsCollect` | clientcontroller/babylon.go:324-347 | a filter whose verdicts stay once given collects what the fixed filter of its final state collects |
| `CachedFilter.AcceptDelegation` | covenant/covenant.go:613-656 | the filter with its lookups answers and leaves the cache as `AcceptFrom` does |
| `CachedFilter.ValidatePrevious` | covenant/covenant.go:660-692 | the checks of an expansion answer and leave the cache as `ValidateFrom` does |
| `CachedFilter.IsKeyInCommittee` | covenant/covenant.go:580-596 | true exactly when the key is in the committee of the looked-up version, an error exactly when the lookup fails |
| `CachedFilter.FindSignature` | covenant/covenant.go:599-609 | true exactly when the delegation carries a signature of the key |
| `CachedFilter.AcceptFromIsAccept` | covenant/covenant.go:613-692 | the cached filter answers as the plain filter does under what the cache holds afterwards, and only adds to the cache |
| `SigningService.ObtainedAnswers` | remotesigner/signer.go:67-81 | whatever the emulator obtains over the channel, with the signer serving many requests between locks and unlocks, are the signatures the configured key makes on the request it meant |
| `SigningService.ObtainedIff` | remotesigner/signer.go:67-81 | what can be obtained over the shared channel is exactly what an undisturbed unlocked signer answers |
| `SigningService.ServedAsUndisturbed` | covenant-signer/signerservice/handlers/signtransactions.go:11-43 | a request completed in any interleaving is answered exactly as by an undisturbed server with the configured key |
| `SigningService.CompletedIsSigned` | covenant-signer/signerapp/signer.go:52-95 | a request completed in any interleaving was signed whole under the configured key |
| `Runs.RunIsSafe` | covenant/covenant.go:695-744 | over every run that interleaves ticks, growth of the chain and late executions, with lookups that may fail at any turn, a signer that may refuse and a network that may reject: every signature of this member that the chain stores is that of a message sent for the same delegation; every message ever sent holds exactly the signatures the configured key makes of the request that the rules describe for the delegation the chain stores, under its own parameter version and committee, expansion signature included; each was sent while the quorum of its delegation was open or this member had signed it; no delegation carries two signatures of this member; the quorum test agrees with the quorum on all three lists; and without late executions every signature of this member is at a position below the quorum of its delegation's version |
| `Safety.RightfulMeans` | covenant/covenant.go:400-413 | for a message that was made: the key is in the committee of the delegation's own version, times and amounts are in range, the staked amount is the unbonded amount plus the fee, both adaptor lists have the length of its finality provider list, signature `j` of each is the one encrypted to its finality provider `j`, the unbonding signature is by the same key, and an expansion signature is present exactly for expansions |
| `Safety.AskedMeans` | covenant/covenant.go:415-500 | for a request asked for a stored delegation, answered or not: its four transactions are the delegation's own, both slashing transactions pass the check under its own parameter version, and the three scripts are the ones the script builder makes of its staker, its finality providers, that version's committee and quorum, its times and its amounts |
| `Safety.AskedExpansionMeans` | covenant/covenant.go:292-342 | for a request asked for an expansion: two inputs, the first spending the very transaction whose hash the filter validated, which is the staking transaction of a stored delegation; a positive other funding output; the key in the committees of both delegations; and the unbonding script that the script builder makes of the previous delegation under its own version |
| `Safety.RightfulExpansionMeans` | covenant/covenant.go:255-274 | the expansion signature of a message that was made is the one the configured key makes over the previous stake's output |
| `Emulator.ScanReturnsScanned` | covenant/covenant.go:613-626 | whatever the scan returns, wrapped or not, is stored under its own hash and accepted by the filter under the published parameters |
| `Emulator.ScanVerdictIff` | covenant/covenant.go:613-692 | what the scan does with a stored delegation: it is kept, unchanged, exactly when it can be read and is acceptable; it ends the scan exactly when it cannot be read or the filter fails on it |
| `Emulator.TickTakesTurns` | covenant/covenant.go:707-738 | the same of the plain tick: every batch has its turn, also after a batch that failed |
| `Emulator.SubmittingMeans` | clientcontroller/babylon.go:175-240 | submitting messages sends them all first, then without each message the answer before named, at most as often as the cap allows; all these sends are recorded, and the chain executes the last one exactly when it was answered as delivered |
| `Chain.ConvertIff` | clientcontroller/babylon.go:374-476 | a chain response is refused exactly when a transaction text is missing, the unbonding time exceeds 65535 or the amount exceeds the largest int64; every other one keeps all its fields |
| `Chain.AppliedIff` | clientcontroller/babylon.go:175-198 | a message is recorded exactly when its delegation is stored, carries no signature set of the same key and the chain verifies the signatures |
| `Safety.RequestIsAsked` | covenant/covenant.go:113-253 | every request put together for a scanned delegation under flaky lookups, answered or not, follows the rules on the chain it is put together on, and the quorum was open when it was scanned |
| `Safety.VerdictIsMade` | covenant/covenant.go:87-290 | a signature set produced under flaky lookups is what the key makes of a request that follows the rules on the chain it was made for, and names the hash of its own delegation |
| `Safety.TickKeepsInv` | covenant/covenant.go:705-738 | one tick keeps every stored signature traced to a send, and everything sent made |
| `Safety.LateKeepsInv` | clientcontroller/babylon.go:164-171 | executing late a batch that was sent before, whatever its sender was told, keeps that too |
| `Quorum.TickRipens` | covenant/covenant.go:113-122 | one tick sends nothing for a delegation whose quorum is reached at the time of the send, unless this member signed it earlier, and keeps every signature of this member within the quorum |
| `Quorum.RunKeepsQuorum` | covenant/covenant.go:113-122 | the same over every run, the second half without late executions |
| `Quorum.LateKeepsQuorumIff` | clientcontroller/babylon.go:164-171 | executing a batch late keeps this member within the quorum exactly when the quorum of every delegation it names is still open |
| `Freshness.TickSendsFresh` | covenant/covenant.go:695-744 | a tick whose scan needs one pass, or whose limit is at most the batch size, sends nothing for a delegation that carries this member's signature at the time of the send |
| `Freshness.RunSendsFresh` | covenant/covenant.go:695-744 | over every run of such ticks, nothing is sent for a delegation that carries this member's signature or has reached its quorum at the time of the send |
| `Freshness.TickResendsIff` | covenant/covenant.go:705-738 | when nothing goes wrong, a tick re-sends a recorded delegation exactly when its scan starts over and its answer exceeds one batch |
| `Freshness.TickRecordsAll` | covenant/covenant.go:705-738 | when nothing goes wrong, one tick leaves this member's signature on every delegation its scan returned, even when the scan starts over |
| `Freshness.GreedyRecordsAll` | clientcontroller/babylon.go:203-240 | after the greedy pass over verifiable messages every delegation they name carries the member's signature |
| `Freshness.VerdictStays` | covenant/covenant.go:292-342 | recording signatures never changes what becomes of a delegation already scanned, its expansion included |
| `Witness.TickSendsAgain` | covenant/covenant.go:705-738 | a concrete deployment, with all assumptions met and the signatures obtained over the channel, whose first tick from a chain without signatures re-sends |
| `Witness.LateExecutionIsBeyondQuorum` | clientcontroller/babylon.go:164-171 | a concrete run of a deployment in which a late execution puts this member's signature beyond the quorum |
| `Chain.ExecuteExtends` | clientcontroller/babylon.go:175-198 | a committed batch of whole signature sets keeps the chain well formed, all terms unchanged and all recorded signatures |
| `Chain.ExecuteLeavesOthers` | clientcontroller/babylon.go:175-198 | delegations a committed batch does not name are untouched |
| `Resend.ResendIsGreedy` | clientcontroller/babylon.go:203-240 | against a chain that runs batches atomically and names the first failing message, the loop delivers exactly the greedy skip-on-failure subsequence and its end state, in skipped + 1 sends; when the cap is too small it makes exactly the allowed sends and delivers nothing; reported indices never decrease |
| `Resend.ResendConserves` | clientcontroller/babylon.go:203-266 | for every network: original = live + removed as multisets, every batch sent is a non-empty order-preserving subsequence, and sends are bounded by the cap and reach it on exhaustion |
| `Resend.ExhaustionRemovesEveryMessage` | clientcontroller/babylon.go:244-256 | with in-range indices and no effective cap, exhaustion means that each message was removed by exactly one failure |
| `Resend.SuccessWithoutDeliveryIff` | clientcontroller/babylon.go:203-240 | against a chain that names the first failing message and writes the expected error exactly for duplicates: success is reported without delivery if and only if the greedy pass skips at least as many messages as there are attempts and a duplicate is among the first that many |
| `Examples.RejectedBatchReportsSuccess` | clientcontroller/babylon.go:235-239 | a message that never verifies and a duplicate: nothing is delivered and success is reported |
| `Resend.ExhaustionReportsSuccessIffSomeDuplicate` | clientcontroller/babylon.go:235-239 | for every network, an exhausted loop reports success exactly when some failure text contains the duplicate-signature error |
| `Resend.RenderingChainIsHonest` | clientcontroller/babylon.go:213-220 | a chain that renders failures as `message index: k` is read correctly by the loop |
| `Resend.ResendLoop` | clientcontroller/babylon.go:203-234 | the loop over the caller's backing array performs exactly the run `Resend` describes: ending, errors, sends and remaining messages |
| `Resend.SendUpTo` | clientcontroller/babylon.go:207-233 | the loop with its attempts left ends as the given run ends |
| `Resend.SendInCourse` | clientcontroller/babylon.go:208-232 | one send concludes the run or leaves it at the next attempt |
| `Resend.SendOnce` | clientcontroller/babylon.go:208-232 | one send ends the loop or removes the named message in place |
| `Resend.SendMsgsResending` | clientcontroller/babylon.go:203-240 | the first send is the whole batch and each further one drops the message named by the answer before; the caller gets the answer to the last send when it was delivered or names no message; otherwise the attempts ran out, and success is reported exactly when some answer contains the text of the already-submitted error |
| `Resend.OutcomeMeans` | clientcontroller/babylon.go:203-240 | the same for every network, batch and cap, as a law of the run |
| `Resend.RemoveMsgAtIndex` | clientcontroller/babylon.go:258-266 | removes the message in place, nothing for an index out of bounds; the array past the new length keeps what it held |
| `Resend.BatchRetries` | clientcontroller/babylon.go:244-256 | the batch length without a cap, otherwise the smaller of the two |
| `MessageIndex.FailedIndexIsLeftmostMatch` | clientcontroller/babylon.go:271-282 | an index is returned if and only if it is the decimal value of the leftmost match and fits an int |
| `MessageIndex.RenderedIndexIsRecovered` | clientcontroller/babylon.go:39 | a rendered index with no earlier match and no digit after it is recovered exactly |
| `Resend.NamedIff` | clientcontroller/babylon.go:213-220 | an error text names a message exactly when it contains `message index: ` with the space and the leftmost match of the pattern is a number that fits an int; and it is that number |
| `Pagination.QueryDelegationsWithStatus` | clientcontroller/babylon.go:309-358 | whenever the scan comes to an end it returns the answer of the whole-store specification within a bounded number of page queries |
| `Pagination.ScanPages` | clientcontroller/babylon.go:318-355 | the page loop follows the query-by-query machine |
| `Pagination.QueryPage` | clientcontroller/babylon.go:319-354 | one query and its page take the machine one step |
| `Pagination.TakePage` | clientcontroller/babylon.go:324-347 | the inner loop over a page: conversion errors, filter errors, skipping, the limit |
| `Pagination.PageLimit` | clientcontroller/babylon.go:310-313 | the smaller of the limit and 1000 |
| `Pagination.ScanIsFilteredStream` | clientcontroller/babylon.go:309-358 | without errors the answer is the first `limit` of the accepted list, or of its endless repetition when the store wraps |
| `Pagination.ScanIsPrefixIffNoWrap` | clientcontroller/babylon.go:349-354 | the answer is the first `limit` accepted delegations if and only if that many are accepted or the store size is not a positive multiple of the page limit; otherwise element `i` is accepted delegation `i` modulo their number |
| `Pagination.ScanAtFirstError` | clientcontroller/babylon.go:325-334 | an error fails the scan exactly when the limit was not reached before it |
| `Pagination.ScanNeverEnds` | clientcontroller/babylon.go:349-354 | a wrapping store without an accepted delegation keeps the scan asking for ever |
| `Pagination.ReturnedWereKept` | clientcontroller/babylon.go:336-342 | everything returned was accepted by the filter |
| `Pagination.OnePassAnswer` | clientcontroller/babylon.go:344-353 | a scan of one pass returns accepted delegations of a front part of the store, each once |
| `Pagination.AcceptedKeys` | clientcontroller/babylon.go:324-347 | one pass over pending delegations never returns the same delegation twice |
| `Pagination.OneOfTwoRepeats` | clientcontroller/babylon.go:349-354 | with two pending delegations, one accepted, and a limit of two, the answer holds it twice |
| `Pagination.OneDroppedNeverEnds` | clientcontroller/babylon.go:349-354 | with one pending delegation, not accepted, and a limit of one, the scan never ends |
| `Pagination.WrappedRepeats` | clientcontroller/babylon.go:349-354 | an answer of more than one pass repeats a delegation of its first batch after that batch |
| `Batches.DelegationsToBatches` | covenant/covenant.go:563-576 | the loop with its unchecked uint64 counter computes the split for every batch size of at least one |
| `Batches.SplitCuts` | covenant/covenant.go:563-576 | the batches concatenate to the input, none is empty or too large, all but the last are full, and their number is the ceiling of the quotient |
| `ParamsCache.CacheAgreesWithChain` | covenant/cache_params.go:34-51 | over every run of lookups with failures and changing checkpoint parameters: an answer has each versioned field equal to the published one and its checkpoint fields equal to those of some answered query, a version is cached exactly when it was fetched and is fetched once, each lookup makes at most five queries |
| `ParamsCache.ToVersionedIff` | clientcontroller/babylon.go:121-157 | the conversion succeeds exactly when both staking times are at most 65535 and every committee key is a point, and then each field is the published field of the same name, each committee key the point with even y |
| `ParamsCache.QueryIff` | clientcontroller/babylon.go:107-157 | one attempt gives parameters exactly when both queries are answered, with the two checkpoint fields and the converted staking fields |
| `ParamsCache.AnswersStay` | covenant/cache_params.go:38-41 | an answer is given again, without a query, after any further lookups |
| `ParamsCache.RunIsSound` | covenant/cache_params.go:34-51 | every run keeps the cache sound, keeps all entries and adds only versions that were asked for |
| `ParamsCache.GetIsSound` | covenant/cache_params.go:34-51 | a hit asks nothing; a failed miss asks five times and stores nothing |
| `ParamsCache.RetryQueries` | covenant/cache_params.go:53-78 | the retry stops at the first success, uses all attempts when it fails, and returns the published parameters field by field |
| `ParamsCache.LookupFailsIff` | covenant/cache_params.go:34-78 | a lookup fails exactly when the version is not cached and the next five queries all fail |
| `ParamsCache.CacheVersionedParams.Get` | covenant/cache_params.go:34-51 | the new map and the answer are those of the lookup function |
| `ParamsCache.CacheVersionedParams.GetParamsByVersion` | covenant/cache_params.go:53-78 | the loop is the bounded retry |
| `Covenant.AcceptedIff` | covenant/covenant.go:613-692 | accepted if and only if not yet signed by this key, in the committee of the delegation's version and, for an expansion, the previous delegation hashes to the named hash and lists the key in its own version; an error if and only if the previous delegation cannot be fetched, or the delegation is not signed yet and its parameters are missing, or its committee lists the key and the previous delegation is unreadable, has another hash or lacks its parameters |
| `Covenant.AcceptanceIsXOnly` | covenant/covenant.go:580-610 | negating any committee, signer or own keys never changes the filter's answer, errors included (Public Key Conversion in BIP 340) |
| `Covenant.QuorumTestAgreesIff` | types/delegation.go:83-134 | the quorum test agrees with the quorum on all three lists, for every quorum, exactly when the slashing list is no shorter than the shorter of the other two |
| `Covenant.BuildRequestIff` | covenant/covenant.go:113-253 | the ordered checks with their early exits build a request exactly for the delegations that meet every rule, and it is the request the rules describe |
| `Covenant.BaseRequestIff` | covenant/covenant.go:113-238 | the same for the part without expansion: quorum open, times and values in range, both slashing checks, the fee rule, the encryption keys and the three scripts |
| `Covenant.StkExpRequestIff` | covenant/covenant.go:366-398 | the same for the expansion part |
| `Covenant.FeeIsExact` | covenant/covenant.go:192-202 | the fee check on int64 outputs holds exactly when staking output - unbonding output - fee is 0 or plus or minus 2^64; it is the rule staking output = unbonding output + fee, for every fee, exactly when the difference fits an int64; outputs that are not negative always do |
| `Submission.AddCovenantSignatures` | covenant/covenant.go:87-282 | the loop with the real cache leaves exactly the cache, and returns exactly the result, of `AddWithCache` |
| `Submission.LoopIsImage` | covenant/covenant.go:87-282 | the result is the signed image of the batch, each delegation judged by what the lookups of its own turn found; nothing is submitted exactly when a delegation's own version could not be looked up in its turn |
| `Submission.LoopReturns` | covenant/covenant.go:87-282 | an error for an empty batch, an error exactly when the version of some delegation cannot be looked up in its turn, and otherwise the order-preserving image of the signed delegations |
| `Submission.TurnsSeePublished` | covenant/covenant.go:107-111 | whatever a turn finds out is what the chain published |
| `Submission.SignOne` | covenant/covenant.go:113-274 | the verdict on one delegation under what the cache finds now, and the cache after exactly the lookup it makes |
| `Submission.BuildStkExpSigningRequest` | covenant/covenant.go:292-342 | the expansion part of the request under what the cache finds now, and the cache after exactly the lookup it makes |
| `Submission.SignedIff` | covenant/covenant.go:87-290 | a delegation is signed if and only if its parameters are found, it meets every rule, and the signer answers the request the rules describe |
| `Submission.SignedIsImage` | covenant/covenant.go:255-282 | the submitted list is the order-preserving image of the signed verdicts, nothing missing and nothing added |
| `Submission.SkippedDelegationIsInvisible` | covenant/covenant.go:93-282 | a delegation that is skipped never changes what is submitted for the others |
| `Submission.SkippedIsInvisibleToCache` | covenant/covenant.go:93-282 | the same of the loop with the real cache, when every lookup of a published version succeeds |
| `Submission.ReliableLoopIsPlain` | covenant/covenant.go:87-282 | when every lookup succeeds, what the loop submits does not depend on what the cache holds |
| `SignerApp.SignAll` | covenant-signer/signerapp/signer.go:52-95 | the signing loop equals signing every provider, the unbonding and the expansion, and fails whole |
| `SignerApp.ResponseIsAligned` | covenant-signer/signerapp/signer.go:62-94 | signature `i` of both lists is the one the key makes for provider `i` on the two slashing transactions, the unbonding signature is on the unbonding transaction, and an expansion signature, over both spent outputs, is present exactly when asked for |
| `SignerApp.ZeroKeySignsNothing` | covenant-signer/signerapp/signer.go:74-77 | a wiped key answers no request |
| `Wire.RequestRoundTrip` | covenant-signer/signerservice/types/signtransactions.go:48-236 | parsing an encoded request gives the request back, field for field and provider for provider, unless one of its scripts is empty, which is refused |
| `Wire.ResponseRoundTrip` | covenant-signer/signerservice/types/signtransactions.go:238-334 | parsing an encoded response gives it back, unless a list of adaptor signatures is empty, which is refused |
| `Wire.ParseIff` | covenant-signer/signerservice/types/signtransactions.go:48-164 | a parsed request is exactly the one whose parts the fields of the same name decode to, and a missing script is refused |
| `Wire.EncodedCarries` | covenant-signer/signerservice/types/signtransactions.go:166-236 | encoding puts each part of a request into the field of that name |
| `Wire.ParseResponseIff` | covenant-signer/signerservice/types/signtransactions.go:267-334 | a parsed response is exactly the one whose parts the fields of the same name decode to, and missing adaptor signatures are refused |
| `Wire.EncodedResponseCarries` | covenant-signer/signerservice/types/signtransactions.go:238-265 | encoding puts each part of a response into the field of that name |
| `Wire.EncodeRequest` | covenant-signer/signerservice/types/signtransactions.go:166-236 | the index-filling loops compute the encoding |
| `Wire.ParseRequest` | covenant-signer/signerservice/types/signtransactions.go:48-164 | the loops with their early exits compute the parse |
| `Wire.EncodeResponse` | covenant-signer/signerservice/types/signtransactions.go:238-265 | the loops compute the encoding |
| `Wire.DecodeResponse` | covenant-signer/signerservice/types/signtransactions.go:267-334 | the loops compute the parse |
| `RemoteSigning.RemoteSigningIsLocalSigning` | remotesigner/signer.go:67-81 | a response comes back if and only if the channel carries the request, the server's key signs the original request and the answer fits the client's limit; and the response is exactly those signatures |
| `Examples.RefusedRemotelySignedLocally` | covenant-signer/signerservice/types/signtransactions.go:267-334 | a request without finality providers that can be written and that the key signs, and to which no channel brings back an answer |
| `RemoteSigning.SigningAnswers` | remotesigner/signer.go:15-51 | the mappings on both ends preserve which signature is made on what |
| `RemoteSigning.AnswerIsUnique` | covenant-signer/signerapp/signer.go:52-95 | one key has at most one answer to a request |
| `RemoteSigning.StampedRequestPassesIff` | covenant-signer/signerservice/middlewares/hmac_auth.go:71-102 | a client-stamped body passes the gate exactly when the server has no key or both keys give the same code; equal keys always pass (section 2 of RFC 2104) |
| `RemoteSigning.HMACAuthMiddleware` | covenant-signer/signerservice/middlewares/hmac_auth.go:22-68 | whatever the header, the gate passes exactly when no key is configured or the header is the hex text of the code of this very body, and the handler behind it reads the authenticated bytes |
| `Hex.EncodedAt` | covenant-signer/signerservice/middlewares/hmac_auth.go:82 | byte `i` of a code is written as two lower-case hex digits at position `2 i`, the high one first |
| `RemoteSigning.ServeIff` | covenant-signer/signerservice/handlers/signtransactions.go:11-43 | whatever header and body come in, the server answers exactly when the body fits, the header authenticates it, it can be read, the signer is unlocked and its key signs the request; and with exactly those signatures |
| `KeyProtocol.EveryInterleavingIsSound` | covenant-signer/signerapp/signer.go:52-95 | in every interleaving of requests with lock and unlock: a completed response is exactly what the configured key makes of the whole request, no cell but the current one holds a key, each counter counts the requests that ended that way, and received = succeeded + failed + in flight |
| `KeyProtocol.LockedMidwayNeverAnswers` | covenant-signer/keystore/cosmos/cosmoskeyretriever.go:72-87 | a request with signatures still to make when the key is locked never answers, in every continuation, even after another unlock |
| `KeyProtocol.StartedLockedNeverSigns` | covenant-signer/keystore/cosmos/cosmoskeyretriever.go:40-49 | a request that asks for the key while it is locked makes no signature, whatever happens later |
| `KeyProtocol.WrongPassphraseNeverSigns` | covenant-signer/keystore/cosmos/cosmoskeyretriever.go:51-70 | from a locked ring, in every run whose passphrases are all wrong, the ring stays locked, no cell gets a key, and no request with signatures still to make, nor any later one, is answered |
| `KeyProtocol.LockedIsIdle` | covenant-signer/keystore/cosmos/cosmoskeyretriever.go:40-49 | on a locked ring these are exactly the requests that have neither an answer nor all their signatures |
| `KeyProtocol.UndisturbedIsSigner` | covenant-signer/signerapp/signer.go:62-94 | signing call by call on an undisturbed cell equals signing in one go, success and failure alike |
| `KeyProtocol.SigningCompletes` | covenant-signer/signerapp/signer.go:62-94 | a signable request that holds a live cell answers when it is left to itself, from any state |
| `KeyProtocol.KeyringRetriever.PrivKey` | covenant-signer/keystore/cosmos/cosmoskeyretriever.go:40-49 | hands out the current cell itself, and nothing when locked |
| `KeyProtocol.KeyringRetriever.Unlock` | covenant-signer/keystore/cosmos/cosmoskeyretriever.go:51-70 | succeeds exactly when already unlocked or the passphrase opens the ring; a failure leaves the ring locked and no new cell; already unlocked, nothing changes; otherwise exactly one fresh cell holds the key |
| `KeyProtocol.KeyringRetriever.Lock` | covenant-signer/keystore/cosmos/cosmoskeyretriever.go:72-87 | wipes the shared cell in place and forgets it; no other cell changes |
| `KeyProtocol.KeyringRetriever.constructor` | covenant-signer/keystore/cosmos/cosmoskeyretriever.go:34-37 | starts locked with no cell handed out |
| `KeyProtocol.Handler.SignTransactions` | covenant-signer/signerservice/handlers/signtransactions.go:11-43 | unparsable bodies are not counted; every other request is counted once on arrival and once on completion, and the answer is the encoded signature set |
| `DerivationPath.PathRoundTrip` | covenant-signer/keyutils/bip32deriv.go:59-92 | a list of indices comes from some accepted path exactly when it is in range (five values, the first three in [2^31, 2^32), per Extended keys in BIP 32), and printing such a list parses back to it |
| `DerivationPath.ParsePathIff` | covenant-signer/keyutils/bip32deriv.go:59-92 | exactly which texts are accepted, and as which values: three hardened and two normal elements with slashes between them |
| `DerivationPath.HardenedIff` | covenant-signer/keyutils/bip32deriv.go:17-44 | a hardened element is digits and `h` below 2^31, and adding 2^31 never wraps |
| `DerivationPath.NormalIff` | covenant-signer/keyutils/bip32deriv.go:46-57 | a normal element is digits below 2^32 |

## Left out

- Why a delegation is skipped: the reason is only logged; `Covenant.Skip` names it, and no law is stated about it.
- Covenant signatures in a chain response that are no valid points or signatures: the chain stores none; the Go conversion panics on the former and ends the scan on the latter.
- Babylon and btcd internals (scripts, the slashing check, Schnorr and adaptor signing, transaction encoding): parameters of the model with the laws named above.
- gRPC and HTTP transport, JSON text, TLS, timeouts, routing: only the JSON round trip, the body limits and the header are modelled, as `RemoteSigning.Codec` and `RemoteSigning.Server`.
- Configuration, CLI, keyring files, key creation, logging, tracing, gauges and timers: no rule of the protocol depends on them.
- `DeriveChildKey`: a loop of five library calls over the parsed path.
- Tickers, wait groups, start and stop: a tick is one step of a run; the emulator stops, and starts again with an empty cache, between ticks.
- Chain growth during a tick: other parties act between ticks; within a tick the chain changes only by the batches the tick commits.
- Rejected sends within a tick: a batch that the client reports as rejected takes effect, if at all, after the tick (`Late` executes any earlier send at any later moment between ticks).
- Stake-expansion signatures on the chain: the chain's record keeps the three signature lists the emulator reads back; what is proved of the expansion signature is proved of the message that was sent.
- Runs.RunIsSafe: the passages where the Go code panics are excluded by assumption: staking times above 65535, nil delegations, a batch size of zero.
- Deployment.RunTick: a send whose expected error the client library swallows (an answer without a transaction) counts as executed; the code passes no expected errors to that library. Fetches of delegations may fail, but the same ones throughout one scan.
- KeyProtocol.EveryInterleavingIsSound: a library call reads the key once; a lock in the middle of one call is not modelled.
- Pagination.QueryDelegationsWithStatus: the store does not change during a scan, and failing page queries are errors of the tick.
- Secrecy and unforgeability of keys, signatures and codes: outside functional correctness.
