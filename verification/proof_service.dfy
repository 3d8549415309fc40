/**
 * Signed batches of satellite-chain events (crosschain/proof-service/proof_service.ts): one signature
 * on the Merkle root, one inclusion proof per event, and the check a verifier makes.
 */
module ProofService {
  import opened Hashing
  import opened Merkle
  import opened MerkleSoundness
  import opened CanonicalJson
  import opened Wrappers

  const ENVELOPE_KIND: string := "Cred402ProofEnvelope"

  /** Signing and checking, with a signer named by its public key. */
  datatype Signatures = Signatures(sign: (string, string) -> string, check: (string, string, string) -> bool)

  datatype ChainEventRecord = ChainEventRecord(
    originChain: string,
    eventType: string,
    observedAt: NumberText,
    payload: map<string, Json>)

  datatype ChainEventProof = ChainEventProof(
    kind: string,
    version: string,
    record: ChainEventRecord,
    payloadHash: string,
    batchRoot: string,
    merkle: MerkleProof,
    relayerKey: string,
    rootSignature: string)

  datatype CommitResult = Committed(root: string, signature: string, proofs: seq<ChainEventProof>) | MixedChains

  datatype Reason = WrongType | UntrustedKey | PayloadHashMismatch | LeafMismatch | MerkleFailed | SignatureInvalid

  datatype Verdict = Accepted | Rejected(reason: Reason)

  function LeafPayload(e: ChainEventRecord): string {
    Stringify(Obj(map["c" := Str(e.originChain), "t" := Str(e.eventType), "o" := Num(e.observedAt),
                      "p" := Obj(e.payload)]))
  }

  function LeafPayloads(events: seq<ChainEventRecord>): (payloads: seq<string>)
    ensures |payloads| == |events|
    ensures forall i | 0 <= i < |events| :: payloads[i] == LeafPayload(events[i])
  {
    seq(|events|, i requires 0 <= i < |events| => LeafPayload(events[i]))
  }

  function PayloadHash(h: HashFn, payload: map<string, Json>): string {
    h(Stringify(Obj(payload)))
  }

  predicate SingleChain(events: seq<ChainEventRecord>) {
    forall i, j | 0 <= i < j < |events| :: events[i].originChain == events[j].originChain
  }

  function BatchChain(events: seq<ChainEventRecord>): string {
    if events == [] then "unknown" else events[0].originChain
  }

  /** What the relayer signs. */
  function RootMessage(chain: string, root: string): string {
    chain + "|" + root
  }

  function EventsRoot(h: HashFn, events: seq<ChainEventRecord>): string {
    BatchRoot(h, LeafPayloads(events))
  }

  function EventProof(h: HashFn, sigs: Signatures, key: string, events: seq<ChainEventRecord>, i: nat): ChainEventProof
    requires i < |events|
  {
    ChainEventProof(ENVELOPE_KIND, "1", events[i], PayloadHash(h, events[i].payload), EventsRoot(h, events),
                    ProofFor(h, LeafPayloads(events), i), key,
                    sigs.sign(key, RootMessage(BatchChain(events), EventsRoot(h, events))))
  }

  function CommitBatch(h: HashFn, sigs: Signatures, key: string, events: seq<ChainEventRecord>): CommitResult {
    if !SingleChain(events) then MixedChains
    else
      var root := EventsRoot(h, events);
      Committed(root, sigs.sign(key, RootMessage(BatchChain(events), root)),
                seq(|events|, i requires 0 <= i < |events| => EventProof(h, sigs, key, events, i)))
  }

  function Verify(h: HashFn, sigs: Signatures, proof: ChainEventProof, trusted: Option<set<string>>): Verdict {
    if proof.kind != ENVELOPE_KIND then Rejected(WrongType)
    else if trusted.Some? && proof.relayerKey !in trusted.value then Rejected(UntrustedKey)
    else if PayloadHash(h, proof.record.payload) != proof.payloadHash then Rejected(PayloadHashMismatch)
    else if proof.merkle.leaf != LeafHash(h, LeafPayload(proof.record)) then Rejected(LeafMismatch)
    else if !Verifies(h, proof.merkle, proof.batchRoot) then Rejected(MerkleFailed)
    else if !sigs.check(proof.relayerKey, RootMessage(proof.record.originChain, proof.batchRoot), proof.rootSignature)
    then Rejected(SignatureInvalid)
    else Accepted
  }

  // ---- Leaves bind records -----------------------------------------------------------------------

  /** A leaf text names one record: chain, type, height and payload cannot be exchanged. */
  lemma LeafPayloadIsInjective(a: ChainEventRecord, b: ChainEventRecord)
    ensures LeafPayload(a) == LeafPayload(b) <==> a == b
    ensures LeafPayload(a) != ""
  {
    hide Stringify;
    var fieldsA := map["c" := Str(a.originChain), "t" := Str(a.eventType), "o" := Num(a.observedAt),
                       "p" := Obj(a.payload)];
    var fieldsB := map["c" := Str(b.originChain), "t" := Str(b.eventType), "o" := Num(b.observedAt),
                       "p" := Obj(b.payload)];
    StringifyIsInjective(Obj(fieldsA), Obj(fieldsB));
    if fieldsA == fieldsB {
      assert fieldsA["c"] == fieldsB["c"] && fieldsA["t"] == fieldsB["t"];
      assert fieldsA["o"] == fieldsB["o"] && fieldsA["p"] == fieldsB["p"];
    }
  }

  // ---- Completeness ------------------------------------------------------------------------------

  /** Signatures made with a key check under it. */
  ghost predicate SignsFor(sigs: Signatures, key: string) {
    forall message :: sigs.check(key, message, sigs.sign(key, message))
  }

  /** Every proof a relayer emits passes the verifier that trusts it. */
  lemma EmittedProofsVerify(h: HashFn, sigs: Signatures, key: string, events: seq<ChainEventRecord>,
                            i: nat, trusted: Option<set<string>>)
    requires SignsFor(sigs, key) && SingleChain(events) && i < |events|
    requires trusted.Some? ==> key in trusted.value
    ensures CommitBatch(h, sigs, key, events).Committed?
    ensures var proofs := CommitBatch(h, sigs, key, events).proofs;
      |proofs| == |events| && proofs[i].record == events[i] && Verify(h, sigs, proofs[i], trusted) == Accepted
  {
    hide LeafPayload, ProofFor, Verifies, BatchRoot, RootMessage;
    Completeness(h, LeafPayloads(events), i);
    ProofForParts(h, LeafPayloads(events), i);
    assert events[i].originChain == BatchChain(events);
  }

  lemma ProofForParts(h: HashFn, payloads: seq<string>, i: nat)
    requires i < |payloads|
    ensures ProofFor(h, payloads, i).leaf == LeafHash(h, payloads[i])
  {
  }

  // ---- Authenticity over a whole history ---------------------------------------------------------

  /** One call of commitBatch. */
  datatype Commitment = Commitment(key: string, events: seq<ChainEventRecord>)

  /** The call signed the message; a batch of several chains is refused before anything is signed. */
  ghost predicate Signed(h: HashFn, c: Commitment, message: string) {
    SingleChain(c.events) && message == RootMessage(BatchChain(c.events), EventsRoot(h, c.events))
  }

  /** If the proof's signature checks at all, one of the calls signed that chain and root with that key. */
  ghost predicate NotForged(h: HashFn, sigs: Signatures, history: seq<Commitment>, proof: ChainEventProof) {
    var message := RootMessage(proof.record.originChain, proof.batchRoot);
    sigs.check(proof.relayerKey, message, proof.rootSignature) ==>
      exists c :: c in history && c.key == proof.relayerKey && Signed(h, c, message)
  }

  /** The texts hashed for the trees of a history. */
  ghost function HistoryTexts(h: HashFn, history: seq<Commitment>): seq<string> {
    if history == [] then []
    else BatchTexts(h, LeafPayloads(history[0].events)) + HistoryTexts(h, history[1..])
  }

  /** The batch holds the proof's record at the proof's index, and the proof walks the built branch. */
  ghost predicate Vouches(h: HashFn, c: Commitment, proof: ChainEventProof) {
    && c.key == proof.relayerKey
    && SingleChain(c.events)
    && c.events != []
    && proof.batchRoot == EventsRoot(h, c.events)
    && var e := Addressed(|c.events|, proof.merkle.index);
      && c.events[e] == proof.record
      && proof.merkle.branch == Branch(h, Leaves(h, LeafPayloads(c.events)), e)
  }

  /** The checks that concern the envelope alone. */
  ghost predicate WellFormed(h: HashFn, sigs: Signatures, proof: ChainEventProof, trusted: Option<set<string>>) {
    && proof.kind == ENVELOPE_KIND
    && (trusted.Some? ==> proof.relayerKey in trusted.value)
    && PayloadHash(h, proof.record.payload) == proof.payloadHash
    && proof.merkle.leaf == LeafHash(h, LeafPayload(proof.record))
    && sigs.check(proof.relayerKey, RootMessage(proof.record.originChain, proof.batchRoot), proof.rootSignature)
  }

  ghost function TextsOf(h: HashFn, proof: ChainEventProof): seq<string> {
    ProofTexts(h, LeafPayload(proof.record), proof.merkle.index, proof.merkle.branch)
  }

  /**
   * After any history of commitBatch calls, a well-formed proof whose signature was not forged is accepted
   * if and only if some committed batch of that key holds exactly the claimed record (chain,
   * type, height and payload) at the claimed place.
   */
  lemma Authenticity(h: HashFn, sigs: Signatures, history: seq<Commitment>, proof: ChainEventProof,
                     trusted: Option<set<string>>)
    requires NotForged(h, sigs, history, proof)
    requires InjectiveOn(h, HistoryTexts(h, history) + TextsOf(h, proof))
    ensures Verify(h, sigs, proof, trusted) == Accepted <==>
      WellFormed(h, sigs, proof, trusted) && exists c :: c in history && Vouches(h, c, proof)
  {
    hide InjectiveOn, LeafPayload, PayloadHash, RootMessage, Verifies, HistoryTexts, TextsOf, Vouches;
    if WellFormed(h, sigs, proof, trusted) {
      if Verifies(h, proof.merkle, proof.batchRoot) {
        var c :| c in history && c.key == proof.relayerKey &&
          Signed(h, c, RootMessage(proof.record.originChain, proof.batchRoot));
        HistoryHolds(h, history, c);
        SignedBatchVouches(h, c, proof, HistoryTexts(h, history) + TextsOf(h, proof));
      }
      if exists c :: c in history && Vouches(h, c, proof) {
        var c :| c in history && Vouches(h, c, proof);
        VouchedProofVerifies(h, c, proof);
      }
    }
  }

  /** The proof emitted for event i, up to the version, the unused bits of the index and the signature bytes. */
  ghost predicate Emitted(h: HashFn, sigs: Signatures, c: Commitment, i: nat, proof: ChainEventProof) {
    && SingleChain(c.events) && i < |c.events|
    && i == Addressed(|c.events|, proof.merkle.index)
    && var out := EventProof(h, sigs, c.key, c.events, i);
      proof == out.(version := proof.version, rootSignature := proof.rootSignature,
                    merkle := out.merkle.(index := proof.merkle.index))
  }

  /**
   * A relayer whose own signatures check, and nobody else's: a proof with a checking signature is accepted
   * if and only if the relayer emitted it, and everything it emits is accepted.
   */
  lemma AcceptedIsEmitted(h: HashFn, sigs: Signatures, history: seq<Commitment>, proof: ChainEventProof,
                          trusted: Option<set<string>>)
    requires SignsFor(sigs, proof.relayerKey) && (trusted.Some? ==> proof.relayerKey in trusted.value)
    requires NotForged(h, sigs, history, proof)
    requires InjectiveOn(h, HistoryTexts(h, history) + TextsOf(h, proof))
    ensures Verify(h, sigs, proof, trusted) == Accepted <==>
      && sigs.check(proof.relayerKey, RootMessage(proof.record.originChain, proof.batchRoot), proof.rootSignature)
      && exists c, i :: c in history && Emitted(h, sigs, c, i, proof)
    ensures forall c, i | c in history && c.key == proof.relayerKey && SingleChain(c.events) && 0 <= i < |c.events| ::
      Verify(h, sigs, EventProof(h, sigs, c.key, c.events, i), trusted) == Accepted
  {
    hide InjectiveOn, NotForged, HistoryTexts, TextsOf, Verify, WellFormed, Vouches, Emitted, EventProof, RootMessage,
         SignsFor, SingleChain;
    Authenticity(h, sigs, history, proof, trusted);
    if Verify(h, sigs, proof, trusted) == Accepted {
      var c :| c in history && Vouches(h, c, proof);
      VouchedIsEmitted(h, sigs, c, proof, trusted);
      assert Emitted(h, sigs, c, Addressed(|c.events|, proof.merkle.index), proof);
    }
    if sigs.check(proof.relayerKey, RootMessage(proof.record.originChain, proof.batchRoot), proof.rootSignature) {
      if c, i :| c in history && Emitted(h, sigs, c, i, proof) {
        EmittedIsVouched(h, sigs, c, i, proof, trusted);
      }
    }
    forall c, i | c in history && c.key == proof.relayerKey && SingleChain(c.events) && 0 <= i < |c.events|
      ensures Verify(h, sigs, EventProof(h, sigs, c.key, c.events, i), trusted) == Accepted
    {
      EmittedAccepted(h, sigs, c.key, c.events, i, trusted);
    }
  }

  lemma EmittedAccepted(h: HashFn, sigs: Signatures, key: string, events: seq<ChainEventRecord>, i: nat,
                        trusted: Option<set<string>>)
    requires SignsFor(sigs, key) && SingleChain(events) && i < |events|
    requires trusted.Some? ==> key in trusted.value
    ensures Verify(h, sigs, EventProof(h, sigs, key, events, i), trusted) == Accepted
  {
    EmittedProofsVerify(h, sigs, key, events, i, trusted);
    hide EventProof, Verify;
  }

  lemma VouchedIsEmitted(h: HashFn, sigs: Signatures, c: Commitment, proof: ChainEventProof,
                         trusted: Option<set<string>>)
    requires Vouches(h, c, proof) && WellFormed(h, sigs, proof, trusted)
    ensures Emitted(h, sigs, c, Addressed(|c.events|, proof.merkle.index), proof)
    ensures sigs.check(proof.relayerKey, RootMessage(proof.record.originChain, proof.batchRoot), proof.rootSignature)
  {
    hide LeafPayload, PayloadHash, EventsRoot, Branch, Leaves, RootMessage;
  }

  lemma EmittedIsVouched(h: HashFn, sigs: Signatures, c: Commitment, i: nat, proof: ChainEventProof,
                         trusted: Option<set<string>>)
    requires Emitted(h, sigs, c, i, proof) && (trusted.Some? ==> proof.relayerKey in trusted.value)
    requires sigs.check(proof.relayerKey, RootMessage(proof.record.originChain, proof.batchRoot), proof.rootSignature)
    ensures Vouches(h, c, proof) && WellFormed(h, sigs, proof, trusted)
  {
    hide LeafPayload, PayloadHash, EventsRoot, Branch, Leaves, RootMessage;
  }

  lemma {:induction false} HistoryHolds(h: HashFn, history: seq<Commitment>, c: Commitment)
    requires c in history
    ensures Among(BatchTexts(h, LeafPayloads(c.events)), HistoryTexts(h, history))
    decreases |history|
  {
    hide BatchTexts;
    if history[0] != c {
      HistoryHolds(h, history[1..], c);
    }
  }

  lemma VouchedProofVerifies(h: HashFn, c: Commitment, proof: ChainEventProof)
    requires Vouches(h, c, proof) && proof.merkle.leaf == LeafHash(h, LeafPayload(proof.record))
    ensures Verifies(h, proof.merkle, proof.batchRoot)
  {
    hide LeafPayload, Root, Climb, Branch;
    ClimbsToRoot(h, Leaves(h, LeafPayloads(c.events)), proof.merkle.index);
  }

  /** The signed text splits in one way into a chain and a root, whatever characters the chain has. */
  lemma RootMessageSplits(chain: string, root: string, chain': string, root': string)
    requires |root| == |root'| && RootMessage(chain, root) == RootMessage(chain', root')
    ensures chain == chain' && root == root'
  {
    var n := |chain|;
    assert |chain'| == n;
    assert RootMessage(chain, root)[..n] == chain && RootMessage(chain', root')[..n] == chain';
    assert RootMessage(chain, root)[n + 1..] == root && RootMessage(chain', root')[n + 1..] == root';
  }

  lemma {:induction false} RootIsDigest(h: HashFn, level: seq<string>)
    requires |level| > 0 && Digests(level)
    ensures |Root(h, level)| == DIGEST_CHARS
    decreases |level|
  {
    hide Parents;
    if |level| > 1 {
      ParentsAreDigests(h, level);
      RootIsDigest(h, Parents(h, level));
    }
  }

  lemma RootsAreDigests(h: HashFn, payloads: seq<string>, proof: MerkleProof, root: string)
    requires |proof.leaf| == DIGEST_CHARS && Verifies(h, proof, root)
    ensures |BatchRoot(h, payloads)| == |root| == DIGEST_CHARS
  {
    hide Leaves, Root, Climb;
    ClimbIsDigest(h, proof.leaf, proof.index, proof.branch);
    if payloads != [] {
      LeavesAreDigests(h, payloads);
      RootIsDigest(h, Leaves(h, payloads));
    }
  }

  /** The step from a signature to a record: the batch whose root was signed vouches for the proof. */
  lemma SignedBatchVouches(h: HashFn, c: Commitment, proof: ChainEventProof, hashed: seq<string>)
    requires InjectiveOn(h, hashed)
    requires Among(BatchTexts(h, LeafPayloads(c.events)), hashed) && Among(TextsOf(h, proof), hashed)
    requires c.key == proof.relayerKey && Signed(h, c, RootMessage(proof.record.originChain, proof.batchRoot))
    requires proof.merkle.leaf == LeafHash(h, LeafPayload(proof.record)) && Verifies(h, proof.merkle, proof.batchRoot)
    ensures Vouches(h, c, proof)
  {
    hide InjectiveOn, LeafPayload, BatchTexts, ProofTexts, BatchRoot, RootMessage, Verifies, Branch;
    var payloads, payload := LeafPayloads(c.events), LeafPayload(proof.record);
    RootsAreDigests(h, payloads, proof.merkle, proof.batchRoot);
    RootMessageSplits(BatchChain(c.events), EventsRoot(h, c.events), proof.record.originChain, proof.batchRoot);
    FewerTexts(h, BatchTexts(h, payloads) + TextsOf(h, proof), hashed);
    var merkle := MerkleProof(LeafHash(h, payload), proof.merkle.index, proof.merkle.branch);
    assert proof.merkle == merkle;
    if c.events == [] {
      assert payloads == [];
      EmptyBatchAcceptance(h, payload, merkle.index, merkle.branch);
      LeafPayloadIsInjective(proof.record, proof.record);
    } else {
      Acceptance(h, payloads, payload, merkle.index, merkle.branch);
      LeafPayloadIsInjective(c.events[Addressed(|c.events|, merkle.index)], proof.record);
    }
  }
}
