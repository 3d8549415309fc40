/**
 * What a relayer hashes, signs and hands out, to the letter, and for which reason a verifier refuses.
 */
module ProofTexts {
  import opened Hashing
  import opened Merkle
  import opened MerkleAddress
  import opened CanonicalJson
  import opened ProofService
  import opened Wrappers
  import JsonReader

  /** The leaf text of a record. */
  ghost predicate IsLeafText(e: ChainEventRecord, text: string) {
    text == "{\"c\":" + Stringify(Str(e.originChain)) + ",\"o\":" + e.observedAt +
            ",\"p\":" + Stringify(Obj(e.payload)) + ",\"t\":" + Stringify(Str(e.eventType)) + "}"
  }

  lemma LeafKeys()
    ensures Sorts(["c", "o", "p", "t"], {"c", "o", "p", "t"})
    ensures forall k | k in {"c", "o", "p", "t"} :: Stringify(Str(k)) == "\"" + k + "\""
  {
    var keys := ["c", "o", "p", "t"];
    forall i, j | 0 <= i < j < |keys| ensures Before(keys[i], keys[j]) {
      assert UnitRank(keys[i][0]) < UnitRank(keys[j][0]);
    }
    forall k | k in {"c", "o", "p", "t"} ensures Stringify(Str(k)) == "\"" + k + "\"" {
      JsonReader.PlainText(k);
    }
  }

  lemma Append(a: string, quoted: string, v: string, mid: string)
    requires mid == "," + quoted + ":"
    ensures a + "," + quoted + ":" + v == a + mid + v
  {
    assert a + "," + quoted + ":" == a + mid;
  }

  /** One more member, behind an opening brace. */
  lemma OneMember(a: string, quoted: string, v: string, mid: string)
    requires mid == "," + quoted + ":"
    ensures "{" + (a + "," + quoted + ":" + v) == ("{" + a) + mid + v
  {
    Append(a, quoted, v, mid);
    Regroup("{", a, mid, v);
  }

  lemma LeafQuotes()
    ensures ",\"o\":" == "," + Stringify(Str("o")) + ":"
    ensures ",\"p\":" == "," + Stringify(Str("p")) + ":"
    ensures ",\"t\":" == "," + Stringify(Str("t")) + ":"
  {
    LeafKeys();
    assert "o" in {"c", "o", "p", "t"} && "p" in {"c", "o", "p", "t"} && "t" in {"c", "o", "p", "t"};
    hide Stringify;
    assert "\"" + "o" + "\"" == "\"o\"" && "\"" + "p" + "\"" == "\"p\"" && "\"" + "t" + "\"" == "\"t\"";
  }

  /** Four members in a row, behind an opening brace. */
  lemma FourJoined(m: map<string, Json>)
    requires m.Keys == {"c", "o", "p", "t"}
    ensures "{" + JsonReader.Joined(m, ["c"] + ["o"] + ["p"] + ["t"]) ==
      "{\"c\":" + Stringify(m["c"]) + ",\"o\":" + Stringify(m["o"]) +
      ",\"p\":" + Stringify(m["p"]) + ",\"t\":" + Stringify(m["t"])
  {
    LeafQuotes();
    JoinedOne(m, Stringify(m["c"]));
    hide Stringify, JsonReader.Joined;
    JsonReader.JoinedLast(m, ["c"], "o");
    OneMember(JsonReader.Joined(m, ["c"]), Stringify(Str("o")), Stringify(m["o"]), ",\"o\":");
    JsonReader.JoinedLast(m, ["c"] + ["o"], "p");
    OneMember(JsonReader.Joined(m, ["c"] + ["o"]), Stringify(Str("p")), Stringify(m["p"]), ",\"p\":");
    JsonReader.JoinedLast(m, ["c"] + ["o"] + ["p"], "t");
    OneMember(JsonReader.Joined(m, ["c"] + ["o"] + ["p"]), Stringify(Str("t")), Stringify(m["t"]), ",\"t\":");
  }

  lemma JoinedOne(m: map<string, Json>, c: string)
    requires "c" in m && c == Stringify(m["c"])
    ensures JsonReader.Joined(m, ["c"]) == "\"c\":" + c && "{" + JsonReader.Joined(m, ["c"]) == "{\"c\":" + c
  {
    LeafKeys();
    assert "c" in {"c", "o", "p", "t"};
    hide Stringify;
    assert "\"" + "c" + "\"" + ":" == "\"c\":";
    assert "{" + ("\"c\":" + c) == "{\"c\":" + c;
  }

  lemma Regroup(a: string, b: string, c: string, d: string)
    ensures a + (b + c + d) == (a + b) + c + d
  {
  }

  /** A leaf hashes the record's chain, height, payload and type, in this order. */
  lemma LeafText(e: ChainEventRecord)
    ensures IsLeafText(e, LeafPayload(e))
  {
    var m := map["c" := Str(e.originChain), "t" := Str(e.eventType), "o" := Num(e.observedAt), "p" := Obj(e.payload)];
    LeafKeys();
    assert m.Keys == {"c", "o", "p", "t"};
    assert ["c"] + ["o"] + ["p"] + ["t"] == ["c", "o", "p", "t"];
    JsonReader.ObjectText(m, ["c", "o", "p", "t"]);
    FourJoined(m);
    assert Stringify(m["o"]) == e.observedAt;
    hide Stringify, JsonReader.Joined, Sorts;
  }

  ghost predicate LeafTexts(events: seq<ChainEventRecord>, texts: seq<string>) {
    |texts| == |events| && forall i | 0 <= i < |events| :: IsLeafText(events[i], texts[i])
  }

  /** The root of these texts, node by node. */
  ghost predicate IsRootOf(h: HashFn, texts: seq<string>, root: string) {
    if texts == [] then root == h("00")
    else Width(|texts|, Depth(|texts|)) == 1 && root == NodeAt(h, texts, Depth(|texts|), 0)
  }

  /** What the relayer hands out for an event of a batch. */
  ghost predicate IsProofOf(h: HashFn, key: string, events: seq<ChainEventRecord>, texts: seq<string>, root: string,
                            signature: string, i: nat, proof: ChainEventProof)
    requires LeafTexts(events, texts) && i < |events|
  {
    && proof.kind == "Cred402ProofEnvelope" && proof.version == "1" && proof.record == events[i]
    && proof.payloadHash == h(Stringify(Obj(events[i].payload)))
    && proof.batchRoot == root && proof.relayerKey == key && proof.rootSignature == signature
    && proof.merkle == ProofFor(h, texts, i)
  }

  /**
   * A batch of one chain is committed to the root of its leaf texts, signed as chain, bar and root ("unknown" stands
   * for the chain of an empty batch), with one proof per event; a batch of several chains is refused.
   */
  lemma BatchIsWhatItSays(h: HashFn, sigs: Signatures, key: string, events: seq<ChainEventRecord>)
    returns (texts: seq<string>)
    ensures LeafTexts(events, texts)
    ensures var batch := CommitBatch(h, sigs, key, events);
      && (batch.MixedChains? <==>
            exists i, j :: 0 <= i < j < |events| && events[i].originChain != events[j].originChain)
      && (batch.Committed? ==>
            && IsRootOf(h, texts, batch.root)
            && batch.signature ==
                 sigs.sign(key, (if events == [] then "unknown" else events[0].originChain) + "|" + batch.root)
            && |batch.proofs| == |events|
            && forall i: nat | i < |events| ::
                 IsProofOf(h, key, events, texts, batch.root, batch.signature, i, batch.proofs[i]))
  {
    texts := LeafPayloads(events);
    forall i | 0 <= i < |events| ensures IsLeafText(events[i], texts[i]) {
      LeafText(events[i]);
    }
    RootIsTopNode(h, texts);
    hide IsLeafText, LeafPayload, ProofFor, NodeAt, BatchRoot, Stringify;
  }

  // ---- Why a proof is refused ----------------------------------------------------------------------

  /** The checks, in the order in which they are made. */
  function Order(r: Reason): nat {
    match r
    case WrongType => 0
    case UntrustedKey => 1
    case PayloadHashMismatch => 2
    case LeafMismatch => 3
    case MerkleFailed => 4
    case SignatureInvalid => 5
  }

  /** This check fails. */
  ghost predicate Fails(h: HashFn, sigs: Signatures, proof: ChainEventProof, trusted: Option<set<string>>, r: Reason) {
    match r
    case WrongType => proof.kind != "Cred402ProofEnvelope"
    case UntrustedKey => trusted.Some? && proof.relayerKey !in trusted.value
    case PayloadHashMismatch => h(Stringify(Obj(proof.record.payload))) != proof.payloadHash
    case LeafMismatch => forall text | IsLeafText(proof.record, text) :: proof.merkle.leaf != h("00" + text)
    case MerkleFailed => !Verifies(h, proof.merkle, proof.batchRoot)
    case SignatureInvalid =>
      !sigs.check(proof.relayerKey, proof.record.originChain + "|" + proof.batchRoot, proof.rootSignature)
  }

  /** A proof is refused for the first check that fails, and accepted if none does. */
  lemma RefusedForTheFirstFailure(h: HashFn, sigs: Signatures, proof: ChainEventProof, trusted: Option<set<string>>,
                                  r: Reason)
    ensures Verify(h, sigs, proof, trusted) == Rejected(r) <==>
      Fails(h, sigs, proof, trusted, r) && forall q: Reason | Order(q) < Order(r) :: !Fails(h, sigs, proof, trusted, q)
    ensures Verify(h, sigs, proof, trusted) == Accepted <==> forall q :: !Fails(h, sigs, proof, trusted, q)
  {
    LeafMismatchIs(h, sigs, proof, trusted);
    EveryReason(h, sigs, proof, trusted, r);
    hide LeafPayload, IsLeafText, Stringify, Verifies;
    if Verify(h, sigs, proof, trusted) == Accepted {
      forall q ensures !Fails(h, sigs, proof, trusted, q) {
        match q
        case WrongType =>
        case UntrustedKey =>
        case PayloadHashMismatch =>
        case LeafMismatch =>
        case MerkleFailed =>
        case SignatureInvalid =>
      }
    } else {
      assert Fails(h, sigs, proof, trusted, Verify(h, sigs, proof, trusted).reason);
    }
  }

  lemma LeafMismatchIs(h: HashFn, sigs: Signatures, proof: ChainEventProof, trusted: Option<set<string>>)
    ensures Fails(h, sigs, proof, trusted, LeafMismatch) <==>
      proof.merkle.leaf != LeafHash(h, LeafPayload(proof.record))
  {
    LeafText(proof.record);
    hide LeafPayload, Stringify;
  }

  /** No check before this one fails. */
  ghost predicate EarlierPass(h: HashFn, sigs: Signatures, proof: ChainEventProof, trusted: Option<set<string>>,
                              r: Reason) {
    && (0 < Order(r) ==> !Fails(h, sigs, proof, trusted, WrongType))
    && (1 < Order(r) ==> !Fails(h, sigs, proof, trusted, UntrustedKey))
    && (2 < Order(r) ==> !Fails(h, sigs, proof, trusted, PayloadHashMismatch))
    && (3 < Order(r) ==> !Fails(h, sigs, proof, trusted, LeafMismatch))
    && (4 < Order(r) ==> !Fails(h, sigs, proof, trusted, MerkleFailed))
  }

  lemma EveryReason(h: HashFn, sigs: Signatures, proof: ChainEventProof, trusted: Option<set<string>>, r: Reason)
    ensures (forall q: Reason | Order(q) < Order(r) :: !Fails(h, sigs, proof, trusted, q)) <==>
      EarlierPass(h, sigs, proof, trusted, r)
  {
    hide Fails;
    if EarlierPass(h, sigs, proof, trusted, r) {
      forall q: Reason | Order(q) < Order(r) ensures !Fails(h, sigs, proof, trusted, q) {
        match q
        case WrongType =>
        case UntrustedKey =>
        case PayloadHashMismatch =>
        case LeafMismatch =>
        case MerkleFailed =>
        case SignatureInvalid =>
      }
    } else {
      var q: Reason := if Order(r) > 0 && Fails(h, sigs, proof, trusted, WrongType) then WrongType
        else if Order(r) > 1 && Fails(h, sigs, proof, trusted, UntrustedKey) then UntrustedKey
        else if Order(r) > 2 && Fails(h, sigs, proof, trusted, PayloadHashMismatch) then PayloadHashMismatch
        else if Order(r) > 3 && Fails(h, sigs, proof, trusted, LeafMismatch) then LeafMismatch
        else MerkleFailed;
      assert Order(q) < Order(r) && Fails(h, sigs, proof, trusted, q);
    }
  }
}
