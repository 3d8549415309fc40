# Cred402 verification model

This project models the parts of Cred402 on which money or trust depends, and proves what they guarantee. It
keeps the program's own shapes: code that updates state in place is a class or an in-place array method, proved
against a mathematical specification, and the promises are theorems about that specification.

**Cross-chain proofs.** A relayer batches satellite-chain events, hashes them into a Merkle tree, signs the root
once and hands out one inclusion proof per event. `hashing`, `merkle`, `merkle_soundness`, `canonical_json` and
`proof_service` show exactly which proofs a root accepts, for any index and any branch, and carry that through
the canonical JSON text and the signature to whole histories of signed batches. `merkle_address`, `json_reader` and
`proof_texts` say to the letter what is hashed, signed and handed out. Nothing is assumed of blake2b except that
digests have 66 characters. Where a collision could spoil a result, the result asks that the texts actually hashed
by the two computations at hand (a finite list, written out) do not collide.

**Relaying.** `root_relayer` is the checkpointed relay loop with its calls to Casper, including replies that
throw; `relay_runs` follows any number of syncs over a growing log, and `relay_meaning` says which calls its events
mean and what the counters count.

**Several relayers.** `coordinator` is the bonded multi-relayer coordinator; `coordinator_safety` proves what
every reachable state keeps and `coordinator_outcome` what each call does there, told by the attestations alone;
`trust_ladder` is the registry that dispatches the different proof types and joins the two trust models.

**Paid requests on NEAR.** `near_store` is the durable replay barrier, `near_payments` the route as a state
machine in which each handler is suspended at its awaits while others run, and `near_routes` the program, one
method per uninterrupted stretch. `near_safety`, `near_guarantees` and `near_reconciliation` prove what holds
under every interleaving, over restarts, failed copies of receipts and ledger resets. `near_anchor`,
`near_anchor_laws` and `near_usage` cover the receipts behind the payments and the public usage totals, and
`near_refinement` proves that the route's ledger is what the anchor's registry and copies look like to the route.
`near_answers` says what clients are told for each outcome, now and later, and `near_receipts` what receipts say and
which payments get one; `near_payer` shows when the request that pays gets its answer, and `near_report` runs route
and anchor together and ties the public report to the payments of the route.

**Texts and schemas.** `decimal`, `cspr` and `cspr_meaning` are the CSPR amount printer and parser; `validator` and
`validator_meaning` the envelope validator with an independent definition of conformance.

## Where the code and its promises part

Each of these is proved: a concrete input or run that breaks the promise, and the exact condition under which it
holds.

- The relayer's comment promises at-most-once anchoring (crosschain/relayers/casper_root_relayer.ts:19). The
  checkpoint advances only at the end of a sync, so a sync that throws after a call repeats that call when it is
  retried. No event leads to two calls if and only if, in every sync but the last, no event that makes it throw
  has an acting event before it among the fresh ones, or acts itself (`RelayRuns.AtMostOnceExactly`). Casper
  refuses a repeated receipt or draw, so only a repayment can take effect twice
  (`RelayRuns.OnlyRepaymentsRepeat`), and one does: `RelayRuns.RetryRepaysTwice`.
- The coordinator promises that a relayer attesting another root loses its bond
  (crosschain/trust-ladder/multi_relayer.ts:6-11). Registering again replaces the bond, so the loss can be as
  small as 1 (`CoordinatorSafety.CheapDissent`); it is the bond attested with if and only if the last registration
  since, if any, was with the same bond (`CoordinatorSafety.CostOfDissent`).
- The attempt store calls itself a durable exact-once barrier (lib/x402/near_payment_attempt_store.ts:58-64;
  lines 111-113 concede that the in-memory mode is best-effort). Exactly-once settlement over all runs holds if
  and only if a data directory is configured (`NearGuarantees.ExactlyOnceIffDurable`).
- A handler that a restart interrupts while it awaits its settlement leaves its payment settling for ever: a
  payment can still leave that state if and only if a handler is waiting for its settle call
  (`NearGuarantees.LostForGood`).
- Reconciliation skips payments whose verdict is terminal (api/near_x402_routes.ts:44), but looks before the
  await and writes after it. Two overlapping checks can leave the store saying confirmed and the ledger saying
  challenged, and crash the paying request (`NearReconciliation.OverlapContradicts`). A verdict stands for good
  exactly when no check of that payment is in flight (`NearReconciliation.VerdictStands`). While the ledger is not
  reset, the paying request cannot lose its answer exactly when it has no receipt or the ledger has already finalized
  it (`NearPayer.PayerIsSafe`).
- A failed copy of a receipt is tolerated (api/near_receipt_anchor.ts:173-179), and a restart starts from the
  copies. Store and ledger agree about a payment in every continuation without a ledger reset exactly when its
  verdict is terminal, no check of it is in flight and, with a durable store, the copy of its receipt is current
  (`NearReconciliation.AgreementLasts`); a finalized or challenged receipt stands under the last of these alone
  (`NearReconciliation.ReceiptStands`).
- The usage report counts every finalized transaction of the receipts that the two stores hold once if and only
  if no two of those receipts have one transaction (`NearUsage.ReportExactlyInRuns`). That takes two deliveries of a
  transaction, a ledger reset or a like restart between them, and two finalizations (`NearUsage.CountedTwice`);
  calling the anchor again after a reset is such a run (`NearAnchorLaws.ResetCountsTwice`), and the paid route never
  makes that call (`NearUsage.RoutePaymentsCountedOnce`). A payment whose finalization did not reach the disk is
  missing from the report after a restart (`NearUsage.LostFinalization`); the report is complete if and only if no
  finalization was lost that way (`NearUsage.UsageIsExact`).
- The parser does not accept every amount the printer prints; it accepts exactly the ones from 0 up to
  1000 CSPR printed without suffix (`Cspr.ReadsOwnOutput`). Without the separators it accepts every amount that
  is not negative (`Cspr.RoundTrip`).
- The validator asks the language whether a name is present, and that sees inherited members: a required
  `constructor` is satisfied by an empty object (`ValidatorMeaning.InheritedNameCounts`). An accepted value is
  rightly accepted if and only if every required name is an own entry wherever own entries lead
  (`ValidatorMeaning.AcceptedRightly`), and a value that own entries would admit is admitted if and only if the
  inherited values standing in for its missing properties conform (`ValidatorMeaning.RejectedRightly`).
- Appending a copy of the last leaf to an odd batch leaves the root unchanged (`MerkleSoundness.RepeatedLastLeaf`);
  two batches share a root exactly when they agree after padding (`MerkleSoundness.RootBinding`).

## Model

| member | source | states |
|---|---|---|
| Merkle.BuildMerkleTree | crosschain/proof-service/merkle.ts:31-59 | The in-place builder returns the batch's root and, for every position, the proof with that leaf's hash, that index and the siblings on its way to the root; it terminates because n nodes become ceil(n/2) |
| Merkle.ExtendBranches | crosschain/proof-service/merkle.ts:42-49 | One level's loop appends to every branch the sibling of that leaf's node, an odd last node being its own sibling, and halves every position |
| Merkle.NextLevel | crosschain/proof-service/merkle.ts:50-56 | The pairing loop yields the parents of a level, an odd last node paired with itself |
| Merkle.VerifyMerkleProof | crosschain/proof-service/merkle.ts:62-71 | The loop accepts exactly when climbing from the leaf along the branch ends at the expected root |
| Merkle.ClimbsToRoot | crosschain/proof-service/merkle.ts:41-71 | Under any integer index, the built branch of the leaf that the index addresses climbs to the root |
| Merkle.Completeness | crosschain/proof-service/merkle.ts:31-71 | Every proof the builder emits verifies against the root it emits, and its branch is as long as the tree is deep |
| MerkleSoundness.DomainsAreSeparate | crosschain/proof-service/merkle.ts:18-28 | No leaf text equals a node text, whatever strings they contain |
| MerkleSoundness.StepReadsBack | crosschain/proof-service/merkle.ts:26-28 | A node text determines both children although a prover's sibling may have any length, because one half is a digest |
| MerkleSoundness.HeightsAgree | crosschain/proof-service/merkle.ts:61-71 | A climb from a leaf that meets a node of the tree has taken exactly as many steps as that node is high |
| MerkleSoundness.Acceptance | crosschain/proof-service/merkle.ts:22-71 | For any index and any branch of any length, a payload is accepted by a batch's root if and only if it is the payload at the addressed position and the branch is the built one |
| MerkleSoundness.EmptyBatchAcceptance | crosschain/proof-service/merkle.ts:32-35 | The fixed root of the empty batch accepts the empty payload without a branch and nothing else |
| MerkleSoundness.RootBinding | crosschain/proof-service/merkle.ts:31-59 | Two non-empty batches have one root if and only if they have equal depth and agree at every address after padding |
| MerkleSoundness.RootBindsBatch | crosschain/proof-service/merkle.ts:31-59 | Two batches of one length have one root if and only if they are equal |
| MerkleSoundness.RepeatedLastLeaf | crosschain/proof-service/merkle.ts:45-54 | Repeating the last leaf of an odd batch of three or more never changes the root |
| MerkleAddress.RootIsTopNode | crosschain/proof-service/merkle.ts:18-59 | Told by addresses: a leaf hashes "00" and its payload, a node "01" and its left and right child in this order, an odd last node being its own partner; the root is the one node at the top |
| MerkleAddress.ProofIsPartners | crosschain/proof-service/merkle.ts:36-49 | Entry k of a proof's branch is the node next to the leaf's ancestor at height k |
| CanonicalJson.SortedKeys | lib/core/hash.ts:31 | Lists each key of an object once, in increasing order of UTF-16 code units |
| CanonicalJson.ReadsBack | lib/core/hash.ts:23-33 | The text of a value can be read off the front of a longer text in one way only |
| CanonicalJson.StringifyIsInjective | lib/core/hash.ts:22-33 | Two JSON values have one canonical text if and only if they are equal, and no text is empty |
| JsonReader.ReadsCanonicalText | lib/core/hash.ts:22-33 | A JSON reader written after RFC 8259 reads the canonical text of every value back as that value, with nothing left over |
| JsonReader.KeyOrder | lib/core/hash.ts:31 | The order in which keys are sorted is that of their UTF-16 code units |
| JsonReader.ObjectText | lib/core/hash.ts:30-32 | The text of an object is its members, quoted key, colon and value, in the order of their keys, between braces and separated by commas |
| JsonReader.PlainText | lib/core/hash.ts:24 | A string without control characters, quotation marks and backslashes stands as it is between quotation marks |
| ProofService.LeafPayloadIsInjective | crosschain/proof-service/proof_service.ts:45-49 | A leaf text determines chain, type, height and payload, so none can be exchanged |
| ProofService.EmittedProofsVerify | crosschain/proof-service/proof_service.ts:61-104 | Every proof of a committed batch carries its event and passes verification by whoever trusts the relayer's key |
| ProofService.RootMessageSplits | crosschain/proof-service/proof_service.ts:68-100 | The signed text splits into chain and root in one way, whatever characters the chain name has |
| ProofService.Authenticity | crosschain/proof-service/proof_service.ts:45-104 | After any history of commitBatch calls, a proof whose signature, if it checks, was made by one of those calls is accepted if and only if the envelope's own checks hold and some committed batch of that key contains exactly the claimed record at the claimed place |
| ProofService.AcceptedIsEmitted | crosschain/proof-service/proof_service.ts:61-104 | For a relayer whose own signatures check, a proof is accepted if and only if its signature checks and the relayer emitted it, up to version, unused index bits and signature bytes; and everything it emits is accepted |
| ProofTexts.LeafText | crosschain/proof-service/proof_service.ts:45-49 | The leaf text is, to the letter, the object of chain, height, payload and type under the keys c, o, p and t |
| ProofTexts.BatchIsWhatItSays | crosschain/proof-service/proof_service.ts:61-90 | A batch of one chain is committed to the root of its leaf texts, node by node, signed as chain, bar and root, with one proof per event that carries exactly its record, hashes, root, key and signature; a batch of several chains is refused |
| ProofTexts.RefusedForTheFirstFailure | crosschain/proof-service/proof_service.ts:93-110 | Verification refuses a proof for the first of its six checks that fails, and accepts it if and only if none does |
| RootRelayer.CasperAdapter.Invoke | packages/chain-adapters/src/adapters/casper/CasperAdapter.ts:48-111 | A call is recorded and answered by an arbitrary adapter, which may succeed, refuse or throw |
| RootRelayer.CasperRootRelayer.constructor | crosschain/relayers/casper_root_relayer.ts:38-50 | A new relayer stands at checkpoint zero with no calls made |
| RootRelayer.CasperRootRelayer.Sync | crosschain/relayers/casper_root_relayer.ts:53-90 | The sync loop commits, re-verifies and routes the events after the checkpoint in order, stops at the first throw leaving the checkpoint, and otherwise moves it to the end; its own proofs are never rejected |
| RootRelayer.CasperRootRelayer.Route | crosschain/relayers/casper_root_relayer.ts:92-126 | An event leads to at most one Casper call, fixed by its type and fields, and to exactly one counter unless it throws |
| RelayRuns.LoopActs | crosschain/relayers/casper_root_relayer.ts:78-86 | The loop calls Casper for exactly the acting events up to where it stops, and stops early only at an event that throws |
| RelayRuns.SmoothRunIsExact | crosschain/relayers/casper_root_relayer.ts:53-126 | In any run of non-throwing syncs over a growing log, Casper has received one call per acting event, in log order, wherever the syncs cut the log and whatever it replied |
| RelayRuns.SyncAccounts | crosschain/relayers/casper_root_relayer.ts:56-126 | Anchored, draws, repayments, rejected and skipped add up to the fresh events of a sync that does not throw |
| RelayRuns.RunAccounts | crosschain/relayers/casper_root_relayer.ts:53-126 | Over any run of non-throwing syncs the counters add up to the checkpoint, which is the length of the log |
| RelayRuns.BreaksIsDirty | crosschain/relayers/casper_root_relayer.ts:78-90 | A sync throws after a call exactly when, by the log and Casper's replies, the first event that makes it throw acts or follows a fresh event that acts |
| RelayRuns.AtMostOnceExactly | crosschain/relayers/casper_root_relayer.ts:19-90 | No log position leads to two calls of Casper in a run if and only if no sync but the last breaks after a call, a condition on the log and the replies; it counts calls, not their effects |
| RelayRuns.DirtyRepeats | crosschain/relayers/casper_root_relayer.ts:54-88 | A sync after one that threw in the middle repeats a call |
| RelayRuns.OnlyRepaymentsRepeat | lib/ledger/contracts/external_receipt_registry.ts:42-48 | With a Casper that refuses a receipt or draw it has accepted, of two calls that one event led to both succeed only if they are repayments |
| RelayRuns.RetryRepaysTwice | lib/ledger/contracts/global_exposure_manager.ts:75-80 | A repayment followed by a draw with a malformed amount: retrying repays twice, and the exposure differs from one repayment's exactly when the amount is not zero and less than what was owed |
| RelayMeaning.EventsMean | crosschain/relayers/casper_root_relayer.ts:92-126 | Every event is exactly one of these: it leads to one call, which its kind and fields determine; it is a receipt without a truthy envelope and rejected; it is of another kind and skipped; its amount cannot be read and it throws |
| RelayMeaning.CallsAreMeant | crosschain/relayers/casper_root_relayer.ts:53-126 | In every run, throws and retries included, each call is the one that the event at its place in the log leads to |
| RelayMeaning.SmoothRunMeans | crosschain/relayers/casper_root_relayer.ts:53-126 | After a run without throws the calls are, in log order, exactly those that the events of the log lead to, and no event was unreadable |
| RelayMeaning.CountersCount | crosschain/relayers/casper_root_relayer.ts:56-126 | Anchored, draws and repayments are the numbers of calls of their kind that Casper answered with success, rejected those it refused and the receipts without envelope, skipped the events of other kinds |
| Coordinator.MultiRelayerCoordinator.constructor | crosschain/trust-ladder/multi_relayer.ts:51-62 | A new coordinator knows no relayer, no attestation and no decided height |
| Coordinator.MultiRelayerCoordinator.RegisterRelayer | crosschain/trust-ladder/multi_relayer.ts:64-69 | A positive bond overwrites the key's entry with a whole, active one; any other bond is refused and changes nothing |
| Coordinator.MultiRelayerCoordinator.Submit | crosschain/trust-ladder/multi_relayer.ts:76-88 | An attestation is appended to its height exactly when its relayer is active, the signature checks, the height is open and the relayer has not attested it; otherwise the matching error and no change |
| Coordinator.MultiRelayerCoordinator.Finalize | crosschain/trust-ladder/multi_relayer.ts:94-137 | A decided height is returned as it is, an open window is refused, and otherwise the plurality root with a quorum is recorded with its attesters and the slashed challengers |
| Coordinator.MultiRelayerCoordinator.GroupByRoot | crosschain/trust-ladder/multi_relayer.ts:100-106 | The first loop groups the keys by root in submission order, roots in order of first attestation |
| Coordinator.MultiRelayerCoordinator.PickLeader | crosschain/trust-ladder/multi_relayer.ts:107-115 | The second loop keeps the leading root and its supporters |
| Coordinator.MultiRelayerCoordinator.SlashDissenters | crosschain/trust-ladder/multi_relayer.ts:121-133 | The slashing loop takes the bond of every registered dissenter and lists them |
| CoordinatorSafety.TallyIsPlurality | crosschain/trust-ladder/multi_relayer.ts:100-115 | A root is picked if and only if it has more attestations than every other, or as many and was attested first |
| CoordinatorSafety.SlashEffect | crosschain/trust-ladder/multi_relayer.ts:121-133 | Exactly the dissenters lose their whole bond, once, and no other entry changes |
| CoordinatorSafety.SupportersAre | crosschain/trust-ladder/multi_relayer.ts:101-106 | The attesters of a root are exactly the relayers with an attestation of it |
| CoordinatorSafety.DissentersAre | crosschain/trust-ladder/multi_relayer.ts:121-133 | The challengers of a root are exactly the registered relayers with an attestation of another |
| CoordinatorSafety.InvKept | crosschain/trust-ladder/multi_relayer.ts:64-137 | Every call keeps attestations signed and one per relayer and height, and recorded statuses equal to the decision on their lists |
| CoordinatorSafety.FinalizedIsFrozen | crosschain/trust-ladder/multi_relayer.ts:82-136 | Once a height has a status, neither the status nor its attestations change in any continuation |
| CoordinatorSafety.VotingSafety | crosschain/trust-ladder/multi_relayer.ts:76-137 | If the honest attesters of a decided height agree on a root and are a majority, the outcome is exactly that root when it meets the quorum and no agreement otherwise, and no honest relayer is slashed for it |
| CoordinatorSafety.AgreedRootIsVouched | crosschain/trust-ladder/multi_relayer.ts:76-137 | With fewer dishonest attesters than the quorum, an agreed root carries a valid signature of an honest attester |
| CoordinatorSafety.StatusPartition | crosschain/trust-ladder/multi_relayer.ts:84-136 | Attesters and challengers of a finalized height partition the relayers that attested it, all distinct, attesters at least a quorum |
| CoordinatorSafety.BondConservation | crosschain/trust-ladder/multi_relayer.ts:64-133 | Over every run bond plus slashed equals the latest registered bond, and a relayer is active exactly while its bond is whole, until a height is decided against it |
| CoordinatorSafety.CostOfDissent | crosschain/trust-ladder/multi_relayer.ts:64-133 | A relayer whose height is decided against it is left without bond, having lost the bond it attested with if and only if its last registration since, if any, was with the same bond |
| CoordinatorSafety.CheapDissent | crosschain/trust-ladder/multi_relayer.ts:64-133 | A concrete run, under the default quorum of 2 and any window: a relayer attests a false root with bond 100, registers again with 1, is outvoted by two honest ones and loses 1 |
| CoordinatorOutcome.SignedTextSplits | crosschain/trust-ladder/multi_relayer.ts:80 | The text a relayer signs, chain, bar, decimal height, bar and root, determines height and root, so a signature is good for one height only |
| CoordinatorOutcome.RecordedWasSigned | crosschain/trust-ladder/multi_relayer.ts:76-88 | In every run an attestation recorded for a height stands for a root that its relayer signed for that very height |
| CoordinatorOutcome.SubmissionIsTaken | crosschain/trust-ladder/multi_relayer.ts:76-88 | In every reachable state a submission is recorded, last of its height, if and only if its relayer has a bond, its signature checks for that chain, height and root, the height is open and its relayer has not attested it; otherwise it is refused for the first of these reasons and changes nothing |
| CoordinatorOutcome.RegistrationIsWhole | crosschain/trust-ladder/multi_relayer.ts:64-69 | In every run a registration with a positive bond makes the entry whole and active, and any other changes nothing |
| CoordinatorOutcome.DecisionIsThePlurality | crosschain/trust-ladder/multi_relayer.ts:94-137 | In every reachable state, told by places in the list: before its window closes a height is not decided; then the root with the most places, ties going to the one attested first, is agreed if and only if it is not empty and has a quorum of places, attesters and challengers are listed in order, exactly the challengers lose their bonds, and nothing else changes |
| TrustLadder.ProofTypeRegistry.constructor | crosschain/trust-ladder/proof_types.ts:80-85 | The constructor's loop fills the slots from the list it is given |
| TrustLadder.SlotsHoldTheLast | crosschain/trust-ladder/proof_types.ts:83-85 | A slot is filled exactly when the list has a verifier of its type, and then by the last one |
| TrustLadder.ProofTypeRegistry.Verify | crosschain/trust-ladder/proof_types.ts:97-106 | A proof passes exactly when, in the list the registry was made from, the last verifier of its type exists and passes it |
| TrustLadder.DefaultRegistryAccepts | crosschain/trust-ladder/proof_types.ts:44-106 | The default registry accepts an inclusion proof exactly when a committed batch of its key vouches for it, a threshold proof exactly when it names enough distinct attesters, and no other proof |
| TrustLadder.FinalizedPassesThreshold | crosschain/trust-ladder/proof_types.ts:55-68 | Every finalized height of every reachable coordinator, packaged with its quorum, passes the default registry |
| NearStore.NearPaymentAttemptStore.constructor | lib/x402/near_payment_attempt_store.ts:65-92 | A store over an empty directory, or without one, holds nothing |
| NearStore.NearPaymentAttemptStore.Reopen | lib/x402/near_payment_attempt_store.ts:84-92 | A new process finds everything again if there is a directory and nothing otherwise |
| NearStore.NearPaymentAttemptStore.GetByProofHash | lib/x402/near_payment_attempt_store.ts:186-193 | Returns what the two tiers together hold and changes at most the cache |
| NearStore.NearPaymentAttemptStore.Claim | lib/x402/near_payment_attempt_store.ts:147-184 | Puts a settling attempt if the proof is absent, and reports whether it did |
| NearStore.NearPaymentAttemptStore.ClaimTransaction | lib/x402/near_payment_attempt_store.ts:105-134 | The first claim of a transaction wins and every claim returns the winner |
| NearStore.NearPaymentAttemptStore.Settle | lib/x402/near_payment_attempt_store.ts:207-214 | Stores the settlement of a known attempt in both tiers; an unknown one is refused |
| NearStore.NearPaymentAttemptStore.Mark | lib/x402/near_payment_attempt_store.ts:216-230 | Changes only the status of a known attempt |
| NearStore.NearPaymentAttemptStore.RecordFinality | lib/x402/near_payment_attempt_store.ts:232-245 | Overwrites only the finality record of a known attempt |
| NearRoutes.PaidRoutes.ReplayKnown | api/near_x402_routes.ts:196-226 | A known proof is answered from its attempt: conflict, stored answer, refusal or in progress |
| NearRoutes.PaidRoutes.Arrive | api/near_x402_routes.ts:227-229 | A request with a known proof is answered at once, any other awaits authorization |
| NearRoutes.PaidRoutes.AfterAuthorize | api/near_x402_routes.ts:229-266 | Claims the proof, then the transaction, and only the winner of both reaches the settle call |
| NearRoutes.PaidRoutes.RefuseTransaction | api/near_x402_routes.ts:251-264 | The loser's attempt fails; it is answered with the owner's resource only for the same request, else 409 |
| NearRoutes.PaidRoutes.AfterSettle | api/near_x402_routes.ts:266-329 | Unknown, rejected and successful settlements are recorded; a success is stored, anchored, stored with its receipt and reconciled |
| NearRoutes.PaidRoutes.ReconcileNearPayment | api/near_x402_routes.ts:41-58 | A reconciliation starts a check only of a settled payment without a terminal verdict; with nothing to check, a paying handler still stores and sends its own answer |
| NearRoutes.PaidRoutes.Tell | api/near_x402_routes.ts:72-76 | A terminal verdict finalizes or challenges the payment's receipt and copies it if the volume is up; which calls throw |
| NearRoutes.PaidRoutes.AfterCheck | api/near_x402_routes.ts:71-77 | The returned verdict is recorded before the ledger is told |
| NearRoutes.PaidRoutes.FinishReconciled | api/near_x402_routes.ts:330-355 | The paying handler's answer gets the finality and the receipt's status, is stored and sent |
| NearRoutes.PaidRoutes.RespondPaymentAttempt | api/near_x402_routes.ts:92-128 | A status request reconciles settled attempts and reports others |
| NearRoutes.PaidRoutes.Restart | api/state.ts:139-149 | A new process keeps what the directory keeps: attempts, owners and receipt copies, finalized ones credited; no handler survives |
| NearRoutes.PaidRoutes.Dispatch | api/near_x402_routes.ts:131-356 | Each event changes store, ledger, handlers and answers exactly as the state machine's step |
| NearSafety.SettleCalled | api/near_x402_routes.ts:234-266 | A settle call is the first for its proof and for its transaction |
| NearSafety.StepSound | api/near_x402_routes.ts:41-356 | Every event keeps the invariant that ties suspended handlers to the store, and never undoes an owner, a request hash or a decided attempt |
| NearGuarantees.SettlesOnce | api/near_x402_routes.ts:234-266 | However handlers interleave, settle is called at most once per payment proof and at most once per transaction |
| NearGuarantees.NewPaymentsSettle | api/near_x402_routes.ts:229-266 | In every reachable state an authorized payment leads to its settle call exactly when its proof and its transaction are both new |
| NearGuarantees.ForgottenPayment | lib/x402/near_payment_attempt_store.ts:105-116 | Without a directory, a restart lets the same proof be settled twice |
| NearGuarantees.ExactlyOnceIffDurable | lib/x402/near_payment_attempt_store.ts:58-92 | Exactly-once settlement over all runs, restarts included, holds if and only if there is a data directory |
| NearGuarantees.DeliveryBinding | api/near_x402_routes.ts:196-355 | Every 200 answers the request hash it was paid for and was paid by a settle call; two 200s paid by one transaction answer one request and differ at most in the payment's state |
| NearGuarantees.OutcomeIsFinal | api/near_x402_routes.ts:250-280 | An attempt that left settling keeps its status, transaction and receipt in every continuation; a failed one never pays for a 200 |
| NearGuarantees.PaidAnswerRepeats | api/near_x402_routes.ts:196-227 | In every continuation a settled proof is answered 200 with the answer then stored, for its own request and transaction, and 409 for any other request, without a settle call |
| NearGuarantees.LostForGood | api/near_x402_routes.ts:234-279 | A settling payment stays settling in every continuation if and only if no handler is waiting for its settle call |
| NearGuarantees.SettlingServesNothing | api/near_x402_routes.ts:207-225 | While a payment is settling no 200 has been paid for by its transaction |
| NearGuarantees.AnchoredOnce | api/near_x402_routes.ts:250-314 | The route hands each transaction to the anchor at most once, whatever interleaving, restart or ledger reset |
| NearAnswers.NewRequestWaits | api/near_x402_routes.ts:227-229 | A request without a payment, or with a proof nobody has claimed, awaits its authorization and changes nothing else |
| NearAnswers.UnauthorizedIsRefused | api/near_x402_routes.ts:229-230 | A payment that is not authorized is answered 402 and leaves no trace |
| NearAnswers.NoSignatureIsRefused | api/near_x402_routes.ts:231-233 | An authorized request without a payment signature is answered 400 and leaves no trace |
| NearAnswers.KnownProofIsReplayed | api/near_x402_routes.ts:234-238 | An authorized request whose proof was claimed meanwhile is answered as if it arrived now, without a settle call |
| NearAnswers.TakenTransaction | api/near_x402_routes.ts:250-264 | A new proof whose transaction another proof owns is never settled: it is answered 200 with the owner's answer for the same request and 409 otherwise, and is refused with 409 in every continuation |
| NearAnswers.NewPaymentWaits | api/near_x402_routes.ts:234-266 | A new proof with a new transaction is sent to settle, and until that returns new requests with it get 202, or 409 for another request |
| NearAnswers.UnknownIsNeverRejected | api/near_x402_routes.ts:196-277 | When the outcome of a settlement is unknown the request is answered 502, and in every continuation new requests with its proof get 202, or 409 for another request: the client is never told to pay again |
| NearAnswers.RejectedStaysRejected | api/near_x402_routes.ts:196-280 | When a settlement is rejected the request is answered 402, and in every continuation new requests with its proof get 409 |
| NearAnswers.SuccessIsServedForGood | api/near_x402_routes.ts:196-325 | When a settlement succeeds it is handed to the anchor, its handler goes on to check it with its own transaction and receipt, and in every continuation new requests with its proof get 200 with an answer to its own request and transaction, or 409 for another request |
| NearAnswers.StatusRequest | api/near_x402_routes.ts:80-104 | A status request is answered 404 for an unknown payment, starts a check of a settled payment whose verdict is not terminal, and reports any other at once; nothing else changes |
| NearReconciliation.StepKeeps | api/near_x402_routes.ts:41-78 | Every event keeps that only settled transactions have receipts and that the ledger is told once; every event but a restart or a ledger reset keeps store and ledger in agreement |
| NearReconciliation.OneLedgerCall | api/near_x402_routes.ts:41-78 | While the checks of a payment do not overlap, the ledger was told of it exactly once if its verdict is terminal and it has a receipt, and never otherwise, over restarts and ledger resets too |
| NearReconciliation.LedgerAgrees | api/near_x402_routes.ts:41-78 | If moreover each restart finds a current copy of its receipt and the ledger is not reset, the receipt has the status its verdict calls for |
| NearReconciliation.PayingHandlerIsServed | api/near_x402_routes.ts:71-355 | While the checks of a payment do not overlap and the ledger is not reset, whatever its check returns the paying handler is answered 200 for its own request, with the verdict and the receipt's new status |
| NearReconciliation.OverlapContradicts | api/near_x402_routes.ts:41-78 | Two overlapping checks leave a confirmed attempt with a challenged receipt, two ledger calls and a crashed paying handler |
| NearReconciliation.VerdictStands | api/near_x402_routes.ts:44-71 | A terminal verdict stands in every continuation if and only if no check of that payment is in flight |
| NearReconciliation.TwoPollsDisagree | api/near_x402_routes.ts:92-104 | From any state with an undecided payment, two status requests at once can make store and ledger disagree |
| NearReconciliation.AgreementLasts | api/near_x402_routes.ts:41-78 | Store and ledger agree about a payment with a receipt in every continuation without a ledger reset, restarts from the durable copies included, if and only if its verdict is terminal, no check of it is in flight and, with a durable store, the copy of its receipt is current |
| NearReconciliation.RevenueCountedOnce | lib/ledger/ledger.ts:124-158 | In every run whatever, overlapping checks, restarts, failed copies and ledger resets included, the ledger has credited sellers once per receipt it has as finalized and for nothing else |
| NearReconciliation.ReceiptStands | lib/ledger/ledger.ts:124-158 | A finalized or challenged receipt stays so in every continuation without a ledger reset if and only if its durable copy says the same or there is no durable store |
| NearPayer.PayerIsAnswered | api/near_x402_routes.ts:41-355 | In any reachable state, when the check of a paying handler returns it is answered 200, with the verdict and the receipt's status, if and only if its payment has no receipt, the verdict is not terminal, or the live receipt exists and is not to be finalized while challenged; otherwise the request crashes |
| NearPayer.PayerIsSafe | api/near_x402_routes.ts:41-355 | In every continuation without a ledger reset, whenever its check returns and whatever it says, a waiting payer is answered 200 if and only if its payment has no receipt or the ledger already has it finalized |
| NearAnchor.ReceiptAnchor.AnchorNearSettlement | api/near_receipt_anchor.ts:44-118 | A payment yields no receipt, the receipt its transaction already has, or one new anchored receipt with its durable copy |
| NearAnchor.ReceiptAnchor.Find | api/near_receipt_anchor.ts:54-58 | The search returns the first receipt of the chain and transaction |
| NearAnchor.ReceiptAnchor.Record | lib/ledger/contracts/external_receipt_registry.ts:42-74 | The registry takes an envelope exactly when its fields are present, its amount is a number, its id is new and its nonce unused |
| NearAnchor.ReceiptAnchor.PersistProof | api/near_receipt_anchor.ts:169-180 | The live receipt overwrites its durable copy, if there is a store and the volume is up |
| NearAnchor.ReceiptAnchor.Finalize | api/near_receipt_anchor.ts:120-123 | An unknown or challenged receipt throws; any other becomes finalized and is copied |
| NearAnchor.ReceiptAnchor.Challenge | api/near_receipt_anchor.ts:125-128 | An unknown receipt throws, a finalized one stays, any other becomes challenged |
| NearAnchor.ReceiptAnchor.Restart | api/state.ts:139-149 | The registry is rebuilt from the durable copies in the order the directory lists them, skipping known ids and used nonces |
| NearAnchor.ReceiptAnchor.Reset | api/state.ts:1504-1518 | A ledger reset empties the registry and leaves the durable copies |
| NearAnchor.ReceiptAnchor.ReportUsage | api/near_receipt_anchor.ts:131-157 | The merging and summing loops count the finalized NEAR credit-score receipts of both stores, their payers and their total |
| NearAnchorLaws.OneReceiptPerTransaction | api/near_receipt_anchor.ts:44-118 | In any run without a ledger reset the registry never holds two receipts of one chain and transaction |
| NearAnchorLaws.RedeliveryReturnsIt | api/near_receipt_anchor.ts:54-71 | Delivering a payment whose transaction has a receipt adds nothing, and returns that receipt exactly when the settlement is the same |
| NearAnchorLaws.UsageIsLive | api/near_receipt_anchor.ts:131-157 | The report over both stores exceeds the live registry's by exactly the finalized copies missing from it, and equals it if and only if there are none |
| NearAnchorLaws.ResetCountsTwice | api/near_receipt_anchor.ts:44-157 | A fact about the exported functions: the anchor called again for a payment after a ledger reset leaves two finalized receipts and a report of two |
| NearUsage.ReportExactly | api/near_receipt_anchor.ts:131-157 | The report counts every finalized transaction of the network once if and only if no two finalized receipts that the stores hold, live or copied, have one transaction |
| NearUsage.ReportExactlyInRuns | api/near_receipt_anchor.ts:44-157 | The same in every run of the anchor, ledger resets, restarts and failed copies included |
| NearUsage.CountedTwice | api/near_receipt_anchor.ts:44-157 | In any run, a report counts a transaction twice only if it was delivered twice under two ids, both receipts were finalized after their deliveries, and in between the ledger was reset, or restarted over copies of different transactions with one nonce |
| NearUsage.PlainNonces | lib/ledger/contracts/external_receipt_registry.ts:46-48 | Receipts whose accounts and transaction hashes have no colon, as NEAR's have none, are told apart by their nonce whatever their chains are called, so for them only a ledger reset can do that |
| NearUsage.DeliveredOnceCountedOnce | api/near_receipt_anchor.ts:44-157 | If every payment is delivered to the anchor once, every transaction is counted once, whatever resets, restarts and failed copies occur |
| NearUsage.RoutePaymentsCountedOnce | api/near_x402_routes.ts:250-314 | The payments that the paid route hands to the anchor, under every interleaving, are reported once each |
| NearUsage.ReportedIsOnRecord | api/near_receipt_anchor.ts:120-157 | Without a ledger reset a transaction is reported exactly when the run finalized it and every later restart found it finalized on disk, or it was finalized again since |
| NearUsage.UsageIsExact | api/near_receipt_anchor.ts:120-157 | Without a ledger reset count and total are those of the transactions finalized and still on record, each once; every transaction the run ever finalized is counted if and only if no restart lost one for good |
| NearUsage.NothingIsLost | api/near_receipt_anchor.ts:120-180 | None is lost when the run has no restart, or a directory whose volume was up at every finalization |
| NearUsage.LostFinalization | api/near_receipt_anchor.ts:169-180 | A concrete run: a payment finalized while the volume is down is not reported after a restart |
| NearRefinement.StepRefines | api/near_receipt_anchor.ts:44-180 | Every event of the anchor, seen by transaction, is the matching step of the route's ledger, failed copies, restarts and resets included |
| NearRefinement.FinalizeRefines | api/near_receipt_anchor.ts:120-123 | Finalizing a live receipt throws in the anchor exactly when it throws in the route's ledger, and otherwise changes both alike |
| NearRefinement.RunRefines | api/near_receipt_anchor.ts:44-180 | Over every run without digest collisions, what the route sees of registry and copies is the ledger the route's model keeps; with ledger resets, if each payment is delivered once and accounts and hashes have no colon |
| NearReport.RouteKeepsTheBooks | api/near_x402_routes.ts:41-355 | Route and anchor run together: under the events that the route produces, whatever the interleaving, failed copies, restarts and ledger resets, the anchor's registry and copies are, by transaction, the route's ledger |
| NearReport.ReportIsTheLedgers | api/near_receipt_anchor.ts:131-157 | In every such run the public report counts exactly the transactions that the route's ledger shows as finalized, live or else by their copy, each once |
| NearReport.PaymentIsReported | api/near_x402_routes.ts:41-78 | While ledger and store agree about a payment with a receipt, the report counts it if and only if the store has it as confirmed |
| NearReport.ReportCountsConfirmed | api/near_receipt_anchor.ts:131-157 | If no two checks of a payment overlap, restarts find current copies and the ledger is not reset, the report counts exactly the confirmed payments with a receipt |
| NearReceipts.ReceiptsSayWhatWasPaid | api/near_receipt_anchor.ts:73-101 | In every run each receipt in either store states, field by field, a payment that was delivered, under the digest of its envelope, and is finalized only if it was finalized since |
| NearReceipts.DeliveryAnew | api/near_receipt_anchor.ts:49-118 | In every run a payment whose transaction has no live receipt yields one if and only if payer, transaction and an integer amount are given and its digest is known, or chain and seller are given and its nonce is unused; the new receipt comes last, is anchored and is copied |
| NearReceipts.DeliveryAgain | api/near_receipt_anchor.ts:49-71 | A payment whose transaction has a live receipt adds nothing, and returns that receipt if and only if payer, seller, receiver, asset and amount are the same |
| NearReceipts.RestoresFirstOnes | api/state.ts:139-149 | A new process restores the copies in the order of the listing, each unless an earlier restored one has its id or its nonce |
| NearReceipts.ReportAddsUp | api/near_receipt_anchor.ts:131-157 | In every run the report is the number of finalized credit-score receipts of the chain in either store, of their different payers, and the sum of their amounts |
| Cspr.CommaPlaces | cli/lib/render.ts:114-117 | On a digit string the separator pattern matches exactly before positions inside the number that are a multiple of three from its end |
| Cspr.GroupIsTheGrouping | cli/lib/render.ts:114-117 | The grouped text is the only one that is grouped in threes from the right and gives back the digits without its commas |
| Cspr.ParsesAmounts | cli/lib/context.ts:40-47 | The parser accepts exactly digits with an optional fraction, and returns the value in billionths rounded down |
| Cspr.RoundTrip | cli/lib/render.ts:92-118 | Printing without suffix, removing separators and parsing gives back every amount from zero up, and an error for every negative one |
| Cspr.TextRoundTrips | cli/lib/render.ts:97-112 | Whatever text the parser returns, printing it, removing separators and parsing gives it back |
| Cspr.PrintsWhatItParsed | cli/lib/context.ts:40-47 | Printing a parsed text gives it back, separators removed, if and only if it has no leading zeros, no trailing fraction zeros and at most nine fraction digits |
| Cspr.ReadsOwnOutput | cli/lib/render.ts:92-112 | The parser accepts a printed amount as it stands if and only if it has no suffix and lies from 0 up to 1000 CSPR |
| Cspr.FormatIsInjective | cli/lib/render.ts:92-112 | Two amounts are printed alike if and only if they are equal |
| CsprMeaning.PrintedIs | cli/lib/render.ts:92-118 | A text is the printed amount if and only if it is its sign, its whole units in digits grouped in threes without leading zeros, its billionths without trailing zeros, and its suffix |
| CsprMeaning.TextPrintedIs | cli/lib/render.ts:97-104 | A text is printed as the integer read from what stands before its first point, and given back as it is if that cannot be read |
| CsprMeaning.ParsesDecimalAmounts | cli/lib/context.ts:40-41 | The parser takes exactly the digit texts with or without a point and more digits |
| CsprMeaning.ParsedIs | cli/lib/context.ts:42-46 | It returns the whole digits and the fraction, filled up or cut to nine digits, as one number of billionths |
| Validator.ValidateNode | crosschain/standards/validate.ts:53-85 | The recursive method returns the specified errors in order, is ok exactly when there are none, and terminates because the schema shrinks |
| Validator.CheckHere | crosschain/standards/validate.ts:56-70 | Constant, type, string and number checks in the order of the source |
| Validator.CheckRequired | crosschain/standards/validate.ts:73-75 | The first loop reports each required name that lookup does not find |
| Validator.CheckProperties | crosschain/standards/validate.ts:76-78 | The second loop appends the errors below each declared property that is present |
| Validator.CheckAdditional | crosschain/standards/validate.ts:79-82 | The third loop reports each own name that is not declared |
| ValidatorMeaning.Accepts | crosschain/standards/validate.ts:53-85 | The error list is empty if and only if the value conforms to the schema, defined without error lists |
| ValidatorMeaning.Diagnosis | crosschain/standards/validate.ts:53-85 | A problem at a path is reported if and only if some keys of that path lead to a check that fails |
| ValidatorMeaning.KindDecides | crosschain/standards/validate.ts:59-92 | Under a kind alone exactly the values of that kind are accepted, integers being the whole numbers and numbers the others, and any other value has one error that names its own kind |
| ValidatorMeaning.LookupFinds | crosschain/standards/validate.ts:73-78 | A name finds its last own entry, and the inherited member only if there is none |
| ValidatorMeaning.LocalOrder | crosschain/standards/validate.ts:56-70 | At a value itself each failing check is reported once, in the order constant, kind, pattern, length, minimum, maximum |
| ValidatorMeaning.RequiredOrder | crosschain/standards/validate.ts:73-75 | Missing names are reported once each, in the order of the schema |
| ValidatorMeaning.AdditionalOrder | crosschain/standards/validate.ts:79-82 | Undeclared names are reported once each, in the order of the value |
| ValidatorMeaning.SectionsInOrder | crosschain/standards/validate.ts:71-84 | An object's own errors come first, then the missing names, then the errors below each property that is found, in order, then the undeclared names |
| ValidatorMeaning.AcceptedRightly | crosschain/standards/validate.ts:71-83 | An accepted value conforms by its own entries alone if and only if every required name is an own entry, wherever own entries lead |
| ValidatorMeaning.RejectedRightly | crosschain/standards/validate.ts:71-83 | A value that conforms by its own entries alone is accepted if and only if the inherited values standing in for missing declared properties conform |
| ValidatorMeaning.VerdictIsOwn | crosschain/standards/validate.ts:53-85 | The verdict is the one own entries deserve exactly when neither deviation occurs |
| ValidatorMeaning.OwnEntriesDecide | crosschain/standards/validate.ts:73-78 | A schema that asks for no inherited name gives every value the verdict its own entries deserve |
| ValidatorMeaning.InheritedNameCounts | crosschain/standards/validate.ts:73-75 | A required name that every object inherits counts as present in the empty object |

## Left out

- Cryptography: blake2b is any function to 66-character texts, signatures are an arbitrary pair of sign and check functions, and forgery is excluded by a premise on the proof's own signature.
- JSON outside the data model: numbers are told apart by their printed texts; undefined fields, lone surrogates, negative zero and not-a-number are not part of this model.
- Merkle proof indices that are not integers, and files or messages that do not parse.
- BigInt(String(x)) on a draw's amount is an arbitrary partial function; the relayer's Casper calls are recorded, and of their effects only a repayment's on the exposure is modelled.
- Overlapping syncs of one relayer.
- MultiRelayerCoordinator.Finalize: statuses are values, so a caller that mutates a returned status or relayer record is not captured.
- NEAR gateway checks of the payment header, the RPC finality check and the chain itself: authorization, settlement and verdicts are arbitrary answers, except that a verified payment has a transaction.
- Response headers, attempt ids, timestamps, the credit report and confirmations: an answer is its request hash, its transaction, and the finality and receipt status it shows; in the route a receipt is named by its transaction, which `NearReport.RouteKeepsTheBooks` justifies.
- The NEAR attempt store as files: corrupt files and several processes over one directory are not part of this model.
- A crash inside an uninterrupted stretch: a restart comes between stretches; a stretch whose copy fails followed by a restart leaves the same stores.
- The Algorand and QIE variants of the paid route: the same protocol without the transaction barrier.
- NearAnchor.ReceiptAnchor.ReportUsage: the list of the ten latest receipts, its sorting and the time of the latest payment are not modelled.
- NearRefinement.RunRefines: with ledger resets, asks that each payment is delivered once, as `NearGuarantees.AnchoredOnce` proves of the route, and that accounts and transaction hashes have no colon, which the gateway checks (lib/x402/near_gateway.ts:327-332); seller credits, which the books do not record, are those that `NearReconciliation.RevenueCountedOnce` proves.
- NearReport.RouteKeepsTheBooks: who pays for a transaction, when it is anchored and what a restart lists are arbitrary; the digests of the payments' envelopes do not collide, and the route hears from the anchor whether there is a receipt.
- NearAnchor.ReceiptAnchor.AnchorNearSettlement: payer and transaction are taken as already trimmed, and the fields that only enter the hash are one text.
- Cspr.TextRoundTrips: BigInt of a text is an arbitrary partial function that reads plain digits; the printer's number arguments are not modelled.
- Validator.ValidateNode: numbers are finite; a regular expression is an arbitrary predicate of pattern and text; the schema file cache is not modelled.
- ValidatorMeaning.OwnEntriesDecide: one direction only, over all values of a schema; the exact conditions per value are `AcceptedRightly` and `RejectedRightly`.
- RootRelayer.CasperAdapter.Invoke: any adapter, also one that accepts repeats; what the real one refuses is a premise of `OnlyRepaymentsRepeat`.
- RelayRuns.AtMostOnceExactly: counts calls of Casper; which of them take effect is `OnlyRepaymentsRepeat` and `RetryRepaysTwice`.
- HTTP, streaming, command rendering, deployment scripts, the frontend, risk scoring and the other ledger contracts.
