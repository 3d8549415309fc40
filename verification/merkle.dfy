/**
 * The blake2b Merkle tree of crosschain/proof-service/merkle.ts: a batch builder that extends every
 * leaf's branch in place, and a verifier that climbs from a leaf to the root.
 */
module Merkle {
  import opened Hashing

  const LEAF_PREFIX: string := "00"
  const NODE_PREFIX: string := "01"

  datatype MerkleProof = MerkleProof(leaf: string, index: int, branch: seq<string>)

  function LeafHash(h: HashFn, payload: string): string {
    h(LEAF_PREFIX + payload)
  }

  function NodeText(left: string, right: string): string {
    NODE_PREFIX + left + right
  }

  function NodeHash(h: HashFn, left: string, right: string): string {
    h(NodeText(left, right))
  }

  // ---- The tree as a mathematical object -------------------------------------------------------

  /** The hashes at the bottom of the tree. */
  function Leaves(h: HashFn, payloads: seq<string>): (level: seq<string>)
    ensures |level| == |payloads|
    ensures forall i | 0 <= i < |payloads| :: level[i] == LeafHash(h, payloads[i])
  {
    seq(|payloads|, i requires 0 <= i < |payloads| => LeafHash(h, payloads[i]))
  }

  /** The right-hand partner of pair i; the last node of an odd level is its own partner. */
  function RightOf(level: seq<string>, i: nat): string
    requires 2 * i < |level|
  {
    if 2 * i + 1 < |level| then level[2 * i + 1] else level[2 * i]
  }

  /** The text hashed for parent i of a level. */
  function ParentText(level: seq<string>, i: nat): string
    requires 2 * i < |level|
  {
    NodeText(level[2 * i], RightOf(level, i))
  }

  function Parents(h: HashFn, level: seq<string>): (up: seq<string>)
    ensures |up| == (|level| + 1) / 2
    ensures forall i | 0 <= i < |up| :: up[i] == h(ParentText(level, i))
  {
    seq((|level| + 1) / 2, i requires 0 <= i < (|level| + 1) / 2 => h(ParentText(level, i)))
  }

  function Root(h: HashFn, level: seq<string>): string
    requires |level| > 0
    decreases |level|
  {
    if |level| == 1 then level[0] else Root(h, Parents(h, level))
  }

  /** How many levels lie above n leaves. */
  function Depth(n: nat): nat
    requires n > 0
  {
    if n == 1 then 0 else 1 + Depth((n + 1) / 2)
  }

  function Sibling(level: seq<string>, i: nat): string
    requires i < |level|
  {
    if i % 2 == 1 then level[i - 1] else if i + 1 < |level| then level[i + 1] else level[i]
  }

  /** The siblings met on the way from node i of a level up to the root. */
  function Branch(h: HashFn, level: seq<string>, i: nat): (b: seq<string>)
    requires i < |level|
    ensures |b| == Depth(|level|)
    decreases |level|
  {
    if |level| == 1 then [] else [Sibling(level, i)] + Branch(h, Parents(h, level), i / 2)
  }

  /** The text hashed when a node at the given index meets a sibling. */
  function StepText(node: string, index: int, sibling: string): string {
    if index % 2 == 0 then NodeText(node, sibling) else NodeText(sibling, node)
  }

  /** The hash reached from a node by walking a branch. */
  function Climb(h: HashFn, node: string, index: int, branch: seq<string>): string
    decreases |branch|
  {
    if branch == [] then node
    else Climb(h, h(StepText(node, index, branch[0])), index / 2, branch[1..])
  }

  /** The root a batch commits to; the empty batch has a fixed one. */
  function BatchRoot(h: HashFn, payloads: seq<string>): string {
    if payloads == [] then h(LEAF_PREFIX) else Root(h, Leaves(h, payloads))
  }

  function ProofFor(h: HashFn, payloads: seq<string>, i: nat): MerkleProof
    requires i < |payloads|
  {
    MerkleProof(LeafHash(h, payloads[i]), i, Branch(h, Leaves(h, payloads), i))
  }

  predicate Verifies(h: HashFn, proof: MerkleProof, root: string) {
    Climb(h, proof.leaf, proof.index, proof.branch) == root
  }

  // ---- The program -----------------------------------------------------------------------------

  /** Leaf p sits at node `at` of a level, and its branch so far is the built branch below that level. */
  ghost predicate OnTrack(h: HashFn, hashed: seq<string>, p: nat, level: seq<string>, proof: MerkleProof, at: nat) {
    && p < |hashed|
    && at < |level|
    && proof.leaf == hashed[p]
    && proof.index == p
    && proof.branch + Branch(h, level, at) == Branch(h, hashed, p)
  }

  lemma MoveUp(h: HashFn, hashed: seq<string>, p: nat, level: seq<string>, proof: MerkleProof, at: nat)
    requires |level| > 1 && OnTrack(h, hashed, p, level, proof, at)
    ensures at < |level|
    ensures OnTrack(h, hashed, p, Parents(h, level), Pushed(proof, Sibling(level, at)), at / 2)
  {
    AppendAssociates(proof.branch, [Sibling(level, at)], Branch(h, Parents(h, level), at / 2));
  }

  lemma AppendAssociates<T>(a: seq<T>, b: seq<T>, c: seq<T>)
    ensures a + (b + c) == (a + b) + c
  {
  }

  function Pushed(proof: MerkleProof, sibling: string): MerkleProof {
    proof.(branch := proof.branch + [sibling])
  }

  method BuildMerkleTree(h: HashFn, payloads: seq<string>) returns (root: string, proofs: array<MerkleProof>)
    ensures fresh(proofs)
    ensures root == BatchRoot(h, payloads)
    ensures proofs.Length == |payloads|
    ensures forall i | 0 <= i < |payloads| :: proofs[i] == ProofFor(h, payloads, i)
  {
    var hashed := Leaves(h, payloads);
    proofs := new MerkleProof[|hashed|](i requires 0 <= i < |hashed| => MerkleProof(hashed[i], i, []));
    if |payloads| == 0 {
      return h(LEAF_PREFIX), proofs;
    }
    var pos := new nat[|hashed|](i => i);
    var level := hashed;
    while |level| > 1
      invariant |level| > 0
      invariant Root(h, level) == Root(h, hashed)
      invariant forall p | 0 <= p < |hashed| :: OnTrack(h, hashed, p, level, proofs[p], pos[p])
      decreases |level|
    {
      label Before:
      ExtendBranches(level, proofs, pos);
      var next := NextLevel(h, level);
      forall p | 0 <= p < |hashed| ensures OnTrack(h, hashed, p, next, proofs[p], pos[p]) {
        MoveUp(h, hashed, p, level, old@Before(proofs[p]), old@Before(pos[p]));
      }
      level := next;
    }
    root := level[0];
    forall p | 0 <= p < |payloads| ensures proofs[p] == ProofFor(h, payloads, p) {
      assert OnTrack(h, hashed, p, level, proofs[p], pos[p]);
      assert proofs[p].branch + [] == proofs[p].branch;
    }
  }

  /** The builder's loop over the leaves: pushes one sibling onto every branch and halves every position. */
  method ExtendBranches(level: seq<string>, proofs: array<MerkleProof>, pos: array<nat>)
    requires proofs.Length == pos.Length
    requires forall p | 0 <= p < pos.Length :: pos[p] < |level|
    modifies proofs, pos
    ensures forall p | 0 <= p < pos.Length ::
      pos[p] == old(pos[p]) / 2 && proofs[p] == Pushed(old(proofs[p]), Sibling(level, old(pos[p])))
  {
    for p := 0 to proofs.Length
      invariant forall q | p <= q < pos.Length :: proofs[q] == old(proofs[q]) && pos[q] == old(pos[q])
      invariant forall q | 0 <= q < p ::
        pos[q] == old(pos[q]) / 2 && proofs[q] == Pushed(old(proofs[q]), Sibling(level, old(pos[q])))
    {
      var idx := pos[p];
      var sibIdx: int := if idx % 2 == 0 then idx + 1 else idx - 1;
      var sibling := if sibIdx < |level| then level[sibIdx] else level[idx];
      proofs[p] := Pushed(proofs[p], sibling);
      pos[p] := idx / 2;
    }
  }

  /** The inner loop of the builder: pairs the nodes of one level. */
  method NextLevel(h: HashFn, level: seq<string>) returns (next: seq<string>)
    ensures next == Parents(h, level)
  {
    next := [];
    var i := 0;
    while i < |level|
      invariant i == 2 * |next| && i <= |level| + 1
      invariant next == Parents(h, level)[..|next|]
    {
      var left := level[i];
      var right := if i + 1 < |level| then level[i + 1] else left;
      assert Parents(h, level)[|next|] == NodeHash(h, left, right);
      next := next + [NodeHash(h, left, right)];
      i := i + 2;
    }
  }

  method VerifyMerkleProof(h: HashFn, proof: MerkleProof, expectedRoot: string) returns (ok: bool)
    ensures ok == Verifies(h, proof, expectedRoot)
  {
    var hash, index := proof.leaf, proof.index;
    for k := 0 to |proof.branch|
      invariant Climb(h, hash, index, proof.branch[k..]) == Climb(h, proof.leaf, proof.index, proof.branch)
    {
      var sibling := proof.branch[k];
      assert proof.branch[k..][1..] == proof.branch[k + 1..];
      hash := if index % 2 == 0 then NodeHash(h, hash, sibling) else NodeHash(h, sibling, hash);
      index := index / 2;
    }
    ok := hash == expectedRoot;
  }

  // ---- Which leaf an index addresses -----------------------------------------------------------

  /**
   * The leaf that an arbitrary index reaches in a tree of n leaves. Only the low Depth(n) bits count,
   * and an odd last node answers for its missing neighbour.
   */
  function Addressed(n: nat, index: int): (e: nat)
    requires n > 0
    ensures e < n
    decreases n
  {
    if n == 1 then 0
    else
      var e := 2 * Addressed((n + 1) / 2, index / 2) + index % 2;
      if e < n then e else n - 1
  }

  lemma {:induction false} AddressedInRange(n: nat, index: int)
    requires 0 <= index < n
    ensures Addressed(n, index) == index
    decreases n
  {
    if n > 1 {
      AddressedInRange((n + 1) / 2, index / 2);
    }
  }

  // ---- Completeness ----------------------------------------------------------------------------

  /** Walking the built branch from any addressed node, under any index, reaches the root. */
  lemma {:induction false} ClimbsToRoot(h: HashFn, level: seq<string>, index: int)
    requires |level| > 0
    ensures var e := Addressed(|level|, index);
      Climb(h, level[e], index, Branch(h, level, e)) == Root(h, level)
    decreases |level|
  {
    if |level| > 1 {
      var e := Addressed(|level|, index);
      var up := Parents(h, level);
      ClimbsToRoot(h, up, index / 2);
      StepsToParent(level, index);
      assert Branch(h, level, e)[1..] == Branch(h, up, e / 2);
    }
  }

  /** One climbing step from the addressed node hashes exactly its parent's text. */
  lemma StepsToParent(level: seq<string>, index: int)
    requires |level| > 1
    ensures var e := Addressed(|level|, index);
      e / 2 == Addressed((|level| + 1) / 2, index / 2) &&
      StepText(level[e], index, Sibling(level, e)) == ParentText(level, e / 2)
  {
    hide NodeText;
    var e, f := Addressed(|level|, index), Addressed((|level| + 1) / 2, index / 2);
    if index % 2 == 0 {
      assert e == 2 * f;
      assert Sibling(level, 2 * f) == RightOf(level, f);
    } else if 2 * f + 1 < |level| {
      assert e == 2 * f + 1;
      assert Sibling(level, 2 * f + 1) == level[2 * f];
    } else {
      assert e == 2 * f;
      assert Sibling(level, 2 * f) == level[2 * f] == RightOf(level, f);
    }
  }

  /** Every proof the builder emits verifies against the root it emits. */
  lemma Completeness(h: HashFn, payloads: seq<string>, i: nat)
    requires i < |payloads|
    ensures Verifies(h, ProofFor(h, payloads, i), BatchRoot(h, payloads))
    ensures |ProofFor(h, payloads, i).branch| == Depth(|payloads|)
  {
    AddressedInRange(|payloads|, i);
    ClimbsToRoot(h, Leaves(h, payloads), i);
  }
}
