/**
 * The tree told by addresses: what is hashed for the node at each height and place, which node is the root, and which
 * nodes make up a branch.
 */
module MerkleAddress {
  import opened Hashing
  import opened Merkle

  /** How many nodes there are at a height over n leaves. */
  ghost function Width(n: nat, height: nat): (w: nat)
    requires n > 0
    ensures w > 0
  {
    if height == 0 then n else (Width(n, height - 1) + 1) / 2
  }

  /** A leaf hashes its payload after "00"; a node hashes its left and its right child, in this order, after "01". */
  ghost function NodeAt(h: HashFn, payloads: seq<string>, height: nat, i: nat): string
    requires payloads != [] && i < Width(|payloads|, height)
  {
    if height == 0 then h("00" + payloads[i])
    else
      h("01" + NodeAt(h, payloads, height - 1, 2 * i) +
        NodeAt(h, payloads, height - 1, Right(|payloads|, height - 1, i)))
  }

  /** The right child of node i stands next to the left one, unless that is the last: then it is its own partner. */
  ghost function Right(n: nat, height: nat, i: nat): (j: nat)
    requires n > 0 && 2 * i < Width(n, height)
    ensures j < Width(n, height)
  {
    if 2 * i + 1 < Width(n, height) then 2 * i + 1 else 2 * i
  }

  ghost function LevelAt(h: HashFn, payloads: seq<string>, height: nat): (level: seq<string>)
    requires payloads != []
    ensures |level| == Width(|payloads|, height)
  {
    if height == 0 then Leaves(h, payloads) else Parents(h, LevelAt(h, payloads, height - 1))
  }

  lemma {:induction false} LevelHoldsNodes(h: HashFn, payloads: seq<string>, height: nat, i: nat)
    requires payloads != [] && i < Width(|payloads|, height)
    ensures LevelAt(h, payloads, height)[i] == NodeAt(h, payloads, height, i)
  {
    if height > 0 {
      LevelHoldsNodes(h, payloads, height - 1, 2 * i);
      LevelHoldsNodes(h, payloads, height - 1, Right(|payloads|, height - 1, i));
    }
  }

  lemma LevelUp(h: HashFn, payloads: seq<string>, height: nat)
    requires payloads != []
    ensures LevelAt(h, payloads, height + 1) == Parents(h, LevelAt(h, payloads, height))
    ensures |LevelAt(h, payloads, height)| == Width(|payloads|, height)
    ensures Width(|payloads|, height + 1) == (Width(|payloads|, height) + 1) / 2
  {
    hide Parents;
  }

  lemma RootUp(h: HashFn, level: seq<string>)
    requires |level| > 0 && Depth(|level|) > 0
    ensures |level| > 1 && Root(h, level) == Root(h, Parents(h, level))
    ensures Depth((|level| + 1) / 2) == Depth(|level|) - 1
  {
  }

  lemma {:induction false} LevelsShareRoot(h: HashFn, payloads: seq<string>, height: nat)
    requires payloads != [] && height <= Depth(|payloads|)
    ensures Root(h, LevelAt(h, payloads, height)) == Root(h, Leaves(h, payloads))
    ensures Depth(Width(|payloads|, height)) == Depth(|payloads|) - height
  {
    hide Root, Depth, Parents;
    if height > 0 {
      hide LevelAt, Width;
      LevelsShareRoot(h, payloads, height - 1);
      LevelUp(h, payloads, height - 1);
      RootUp(h, LevelAt(h, payloads, height - 1));
    }
  }

  /** The root is the one node at the top; that of the empty batch is the hash of "00". */
  lemma RootIsTopNode(h: HashFn, payloads: seq<string>)
    ensures payloads == [] ==> BatchRoot(h, payloads) == h("00")
    ensures payloads != [] ==>
      Width(|payloads|, Depth(|payloads|)) == 1 &&
      BatchRoot(h, payloads) == NodeAt(h, payloads, Depth(|payloads|), 0)
  {
    if payloads != [] {
      var top := Depth(|payloads|);
      LevelsShareRoot(h, payloads, top);
      DepthZero(Width(|payloads|, top));
      LevelHoldsNodes(h, payloads, top, 0);
    }
  }

  lemma DepthZero(n: nat)
    requires n > 0 && Depth(n) == 0
    ensures n == 1
  {
  }

  /** The place of a leaf's ancestor at a height. */
  ghost function Ancestor(i: nat, height: nat): nat {
    if height == 0 then i else Ancestor(i, height - 1) / 2
  }

  ghost function PartnerOf(w: nat, i: nat): (j: nat)
    requires i < w
    ensures j < w
  {
    if i % 2 == 1 then i - 1 else if i + 1 < w then i + 1 else i
  }

  lemma {:induction false} AncestorFits(n: nat, i: nat, height: nat)
    requires i < n
    ensures Ancestor(i, height) < Width(n, height)
  {
    if height > 0 {
      AncestorFits(n, i, height - 1);
    }
  }

  lemma BranchUp(h: HashFn, level: seq<string>, i: nat)
    requires |level| > 1 && i < |level|
    ensures i / 2 < |Parents(h, level)|
    ensures Branch(h, level, i) == [Sibling(level, i)] + Branch(h, Parents(h, level), i / 2)
    ensures Branch(h, level, i)[1..] == Branch(h, Parents(h, level), i / 2)
  {
    hide Sibling;
  }

  lemma {:induction false} BranchFrom(h: HashFn, payloads: seq<string>, i: nat, height: nat)
    requires i < |payloads| && height <= Depth(|payloads|)
    ensures Ancestor(i, height) < Width(|payloads|, height)
    ensures Branch(h, Leaves(h, payloads), i)[height..] ==
      Branch(h, LevelAt(h, payloads, height), Ancestor(i, height))
  {
    AncestorFits(|payloads|, i, height);
    if height > 0 {
      hide Branch, Root, Depth, Parents, LevelAt, Width, Leaves;
      var level, at := LevelAt(h, payloads, height - 1), Ancestor(i, height - 1);
      AncestorFits(|payloads|, i, height - 1);
      BranchFrom(h, payloads, i, height - 1);
      LevelsShareRoot(h, payloads, height - 1);
      LevelUp(h, payloads, height - 1);
      RootUp(h, level);
      BranchUp(h, level, at);
      TailOfTail(Branch(h, Leaves(h, payloads), i), height);
    }
  }

  lemma TailOfTail(s: seq<string>, n: nat)
    requires 0 < n <= |s|
    ensures s[n - 1..][1..] == s[n..]
  {
  }

  /** A proof's leaf hashes its payload, and entry k of its branch is the partner of the leaf's ancestor at height k. */
  lemma ProofIsPartners(h: HashFn, payloads: seq<string>, i: nat, height: nat)
    requires i < |payloads| && height < Depth(|payloads|)
    ensures Ancestor(i, height) < Width(|payloads|, height)
    ensures var proof := ProofFor(h, payloads, i);
      && proof.leaf == h("00" + payloads[i]) && proof.index == i && |proof.branch| == Depth(|payloads|)
      && proof.branch[height] ==
           NodeAt(h, payloads, height, PartnerOf(Width(|payloads|, height), Ancestor(i, height)))
  {
    BranchFrom(h, payloads, i, height);
    LevelsShareRoot(h, payloads, height);
    var level, at := LevelAt(h, payloads, height), Ancestor(i, height);
    assert Branch(h, Leaves(h, payloads), i)[height..][0] == Sibling(level, at);
    LevelHoldsNodes(h, payloads, height, PartnerOf(|level|, at));
  }
}
