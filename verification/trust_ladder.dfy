/**
 * The proof-type registry of crosschain/trust-ladder/proof_types.ts, and how the relayer's signed batches
 * and the coordinator's finalized heights pass through it.
 */
module TrustLadder {
  import opened Hashing
  import opened Wrappers
  import opened ProofService
  import Coordinator
  import CoordinatorSafety

  datatype ProofType = Merkle | Threshold | LightClient | Zk

  datatype AnyProof =
    | MerkleCarrier(proof: ChainEventProof)
    | ThresholdProof(height: int, root: string, attesters: seq<string>, quorum: int)
    | LightClientProof
    | ZkProof

  datatype Verifier = MerkleVerifier(trusted: Option<set<string>>) | ThresholdVerifier | Unavailable(slot: ProofType)

  function TypeOf(p: AnyProof): ProofType {
    match p
    case MerkleCarrier(_) => Merkle
    case ThresholdProof(_, _, _, _) => Threshold
    case LightClientProof => LightClient
    case ZkProof => Zk
  }

  function Slot(v: Verifier): ProofType {
    match v
    case MerkleVerifier(_) => Merkle
    case ThresholdVerifier => Threshold
    case Unavailable(slot) => slot
  }

  /** One verifier's decision; a proof of another shape is refused. */
  predicate Passes(h: HashFn, sigs: Signatures, v: Verifier, p: AnyProof) {
    match v
    case MerkleVerifier(trusted) => p.MerkleCarrier? && Verify(h, sigs, p.proof, trusted) == Accepted
    case ThresholdVerifier => p.ThresholdProof? && |set k | k in p.attesters| >= p.quorum
    case Unavailable(_) => false
  }

  /** The slots filled by a list of verifiers; a later one replaces an earlier one of its type. */
  function Slots(list: seq<Verifier>): map<ProofType, Verifier> {
    if list == [] then map[] else Slots(list[..|list| - 1])[Slot(list[|list| - 1]) := list[|list| - 1]]
  }

  function Defaults(trusted: Option<set<string>>): seq<Verifier> {
    [MerkleVerifier(trusted), ThresholdVerifier, Unavailable(LightClient), Unavailable(Zk)]
  }

  /** Position i holds the last verifier of a type. */
  ghost predicate LastOfType(list: seq<Verifier>, t: ProofType, i: int) {
    0 <= i < |list| && Slot(list[i]) == t && forall j | i < j < |list| :: Slot(list[j]) != t
  }

  /** A registry made from a list goes by the last verifier of the proof's type. */
  ghost predicate RegistryAccepts(h: HashFn, sigs: Signatures, list: seq<Verifier>, p: AnyProof) {
    exists i :: LastOfType(list, TypeOf(p), i) && Passes(h, sigs, list[i], p)
  }

  /** A slot is filled exactly when the list has a verifier of its type, and then by the last one. */
  lemma {:induction false} SlotsHoldTheLast(list: seq<Verifier>, t: ProofType)
    ensures t in Slots(list) <==> exists i :: LastOfType(list, t, i)
    ensures forall i | LastOfType(list, t, i) :: Slots(list)[t] == list[i]
  {
    if list != [] {
      var n := |list| - 1;
      SlotsHoldTheLast(list[..n], t);
      if Slot(list[n]) == t {
        assert LastOfType(list, t, n);
      } else {
        forall i ensures LastOfType(list[..n], t, i) <==> LastOfType(list, t, i) {
          assert forall j | 0 <= j < n :: list[..n][j] == list[j];
        }
      }
    }
  }

  class ProofTypeRegistry {
    /** What the registry was made from. */
    ghost const list: seq<Verifier>
    var verifiers: map<ProofType, Verifier>

    ghost predicate Valid()
      reads this
    {
      verifiers == Slots(list)
    }

    constructor (list: seq<Verifier>)
      ensures Valid() && this.list == list
    {
      this.list := list;
      verifiers := map[];
      new;
      for i := 0 to |list|
        invariant verifiers == Slots(list[..i])
      {
        assert list[..i + 1][..i] == list[..i];
        verifiers := verifiers[Slot(list[i]) := list[i]];
      }
      assert list[..|list|] == list;
    }

    method Verify(h: HashFn, sigs: Signatures, p: AnyProof) returns (ok: bool)
      requires Valid()
      ensures ok <==> RegistryAccepts(h, sigs, list, p)
    {
      hide Passes, Slots, LastOfType;
      SlotsHoldTheLast(list, TypeOf(p));
      if TypeOf(p) !in verifiers {
        return false;
      }
      ok := Passes(h, sigs, verifiers[TypeOf(p)], p);
    }
  }

  lemma DefaultSlots(trusted: Option<set<string>>)
    ensures Slots(Defaults(trusted)) ==
      map[Merkle := MerkleVerifier(trusted), Threshold := ThresholdVerifier,
          LightClient := Unavailable(LightClient), Zk := Unavailable(Zk)]
  {
    var d := Defaults(trusted);
    assert d[..1] == [d[0]] && d[..2] == [d[0], d[1]] && d[..3] == [d[0], d[1], d[2]];
    assert d[..2][..1] == d[..1] && d[..3][..2] == d[..2] && d[..1][..0] == [];
    assert Slots(d[..1]) == map[Merkle := d[0]];
    assert Slots(d[..2]) == Slots(d[..1])[Threshold := d[1]];
    assert Slots(d[..3]) == Slots(d[..2])[LightClient := d[2]];
  }

  /**
   * After any history of committed batches, the default registry accepts an inclusion proof exactly when a
   * batch of its key vouches for it, a threshold proof exactly when its attesters are enough distinct names,
   * and nothing else.
   */
  lemma DefaultRegistryAccepts(h: HashFn, sigs: Signatures, history: seq<Commitment>, trusted: Option<set<string>>,
                               p: AnyProof)
    requires p.MerkleCarrier? ==> NotForged(h, sigs, history, p.proof)
    requires p.MerkleCarrier? ==> InjectiveOn(h, HistoryTexts(h, history) + TextsOf(h, p.proof))
    ensures RegistryAccepts(h, sigs, Defaults(trusted), p) <==>
      match p
      case MerkleCarrier(proof) =>
        WellFormed(h, sigs, proof, trusted) && exists c :: c in history && Vouches(h, c, proof)
      case ThresholdProof(_, _, attesters, quorum) => |set k | k in attesters| >= quorum
      case LightClientProof => false
      case ZkProof => false
  {
    hide Slots, LastOfType, NotForged, InjectiveOn, HistoryTexts, TextsOf, Verify, WellFormed, Vouches;
    DefaultSlots(trusted);
    SlotsHoldTheLast(Defaults(trusted), TypeOf(p));
    if p.MerkleCarrier? {
      Authenticity(h, sigs, history, p.proof, trusted);
    }
  }

  /** The coordinator's result for a height, packaged as a threshold proof. */
  function Packaged(cfg: Coordinator.Config, height: int, o: Coordinator.Outcome): AnyProof
    requires o.Finalized?
  {
    ThresholdProof(height, o.agreedRoot, o.attesters, cfg.quorum)
  }

  /** Every finalized height of every reachable coordinator passes the default registry. */
  lemma FinalizedPassesThreshold(h: HashFn, sigs: Signatures, trusted: Option<set<string>>,
                                 cfg: Coordinator.Config, ops: seq<CoordinatorSafety.Op>, height: int)
    requires height in CoordinatorSafety.Run(cfg, ops).finalized
    requires CoordinatorSafety.Run(cfg, ops).finalized[height].outcome.Finalized?
    ensures var o := CoordinatorSafety.Run(cfg, ops).finalized[height].outcome;
      RegistryAccepts(h, sigs, Defaults(trusted), Packaged(cfg, height, o))
  {
    CoordinatorSafety.StatusPartition(cfg, ops, height);
    DistinctCount(CoordinatorSafety.Run(cfg, ops).finalized[height].outcome.attesters);
    DefaultSlots(trusted);
    SlotsHoldTheLast(Defaults(trusted), Threshold);
    hide Slots, LastOfType;
  }
}
