/**
 * What a Merkle root binds. Every result assumes only that the texts which the computations at hand
 * really hashed do not collide; the sets below list them.
 */
module MerkleSoundness {
  import opened Hashing
  import opened Merkle

  // ---- The texts that are hashed ---------------------------------------------------------------

  ghost function ParentTexts(level: seq<string>): (texts: seq<string>)
    ensures |texts| == (|level| + 1) / 2
    ensures forall i | 0 <= i < |texts| :: texts[i] == ParentText(level, i)
  {
    seq((|level| + 1) / 2, i requires 0 <= i < (|level| + 1) / 2 => ParentText(level, i))
  }

  ghost function LeafTexts(payloads: seq<string>): (texts: seq<string>)
    ensures |texts| == |payloads|
    ensures forall i | 0 <= i < |texts| :: texts[i] == LEAF_PREFIX + payloads[i]
  {
    seq(|payloads|, i requires 0 <= i < |payloads| => LEAF_PREFIX + payloads[i])
  }

  /** Hashed while building the tree above a level. */
  ghost function NodeTexts(h: HashFn, level: seq<string>): seq<string>
    requires |level| > 0
    decreases |level|
  {
    if |level| == 1 then [] else ParentTexts(level) + NodeTexts(h, Parents(h, level))
  }

  /** Hashed while committing a batch. */
  ghost function BatchTexts(h: HashFn, payloads: seq<string>): seq<string> {
    if payloads == [] then [LEAF_PREFIX] else LeafTexts(payloads) + NodeTexts(h, Leaves(h, payloads))
  }

  /** Hashed while walking a branch. */
  ghost function PathTexts(h: HashFn, node: string, index: int, branch: seq<string>): seq<string>
    decreases |branch|
  {
    if branch == [] then []
    else
      var text := StepText(node, index, branch[0]);
      [text] + PathTexts(h, h(text), index / 2, branch[1..])
  }

  /** Hashed while checking that a payload sits in a batch. */
  ghost function ProofTexts(h: HashFn, payload: string, index: int, branch: seq<string>): seq<string> {
    [LEAF_PREFIX + payload] + PathTexts(h, LeafHash(h, payload), index, branch)
  }

  /** A leaf text is never a node text, whatever the strings in them. */
  lemma DomainsAreSeparate(payload: string, left: string, right: string)
    ensures LEAF_PREFIX + payload != NodeText(left, right)
  {
    assert (LEAF_PREFIX + payload)[1] == '0';
    assert NodeText(left, right)[1] == '1';
  }

  lemma StepIsNotLeaf(payload: string, node: string, index: int, sibling: string)
    ensures LEAF_PREFIX + payload != StepText(node, index, sibling)
  {
    if index % 2 == 0 {
      DomainsAreSeparate(payload, node, sibling);
    } else {
      DomainsAreSeparate(payload, sibling, node);
    }
  }

  /**
   * A node text reads back in one way only when the two halves of one side are digests and one half
   * of the other side is: the sibling supplied by a prover may have any length.
   */
  lemma StepReadsBack(node: string, index: int, sibling: string, left: string, right: string)
    requires |node| == |left| == |right| == DIGEST_CHARS
    requires StepText(node, index, sibling) == NodeText(left, right)
    ensures node == (if index % 2 == 0 then left else right)
    ensures sibling == (if index % 2 == 0 then right else left)
  {
    var text := StepText(node, index, sibling);
    assert |sibling| == DIGEST_CHARS;
    assert text[2..2 + DIGEST_CHARS] == left && text[2 + DIGEST_CHARS..] == right;
    if index % 2 == 0 {
      assert text[2..2 + DIGEST_CHARS] == node && text[2 + DIGEST_CHARS..] == sibling;
    } else {
      assert text[2..2 + DIGEST_CHARS] == sibling && text[2 + DIGEST_CHARS..] == node;
    }
  }

  // ---- A climb that lands in the tree has the tree's height ------------------------------------

  /** The digest y is a node k levels above the given level. */
  ghost predicate AtHeight(h: HashFn, level: seq<string>, k: nat, y: string)
    decreases k
  {
    if k == 0 then y in level else |level| > 1 && AtHeight(h, Parents(h, level), k - 1, y)
  }

  lemma AtHeightZero(h: HashFn, level: seq<string>, y: string)
    ensures AtHeight(h, level, 0, y) <==> y in level
  {
  }

  lemma AtHeightAbove(h: HashFn, level: seq<string>, k: nat, y: string)
    requires k > 0
    ensures AtHeight(h, level, k, y) <==> |level| > 1 && AtHeight(h, Parents(h, level), k - 1, y)
  {
    hide Parents, ParentText;
  }

  lemma {:induction false} RootAtDepth(h: HashFn, level: seq<string>)
    requires |level| > 0
    ensures AtHeight(h, level, Depth(|level|), Root(h, level))
    decreases |level|
  {
    if |level| > 1 {
      RootAtDepth(h, Parents(h, level));
    }
  }

  ghost predicate Digests(level: seq<string>) {
    forall y | y in level :: |y| == DIGEST_CHARS
  }

  /** A parent is the hash of two nodes of the level. */
  lemma ChildrenOfParent(h: HashFn, level: seq<string>, y: string) returns (left: string, right: string)
    requires |level| > 1 && Digests(level) && y in Parents(h, level)
    ensures left in level && right in level && |left| == |right| == DIGEST_CHARS
    ensures y == h(NodeText(left, right)) && NodeText(left, right) in NodeTexts(h, level)
  {
    hide NodeText, Parents, ParentTexts;
    var i :| 0 <= i < |Parents(h, level)| && Parents(h, level)[i] == y;
    left, right := level[2 * i], RightOf(level, i);
    assert ParentTexts(level)[i] == NodeText(left, right);
  }

  lemma ParentsAreDigests(h: HashFn, level: seq<string>)
    ensures Digests(Parents(h, level))
  {
    hide Parents, ParentText;
  }

  lemma LeavesAreDigests(h: HashFn, payloads: seq<string>)
    ensures Digests(Leaves(h, payloads))
  {
    hide Leaves;
  }

  /** A node above a level of digests is the hash of two nodes one level lower. */
  lemma {:induction false} Children(h: HashFn, level: seq<string>, k: nat, y: string)
    returns (left: string, right: string)
    requires k > 0 && Digests(level) && AtHeight(h, level, k, y)
    ensures |left| == |right| == DIGEST_CHARS
    ensures y == h(NodeText(left, right)) && NodeText(left, right) in NodeTexts(h, level)
    ensures AtHeight(h, level, k - 1, left) && AtHeight(h, level, k - 1, right)
    decreases k
  {
    hide NodeText, Parents, ParentTexts, AtHeight, Digests, ParentText;
    var up := Parents(h, level);
    AtHeightAbove(h, level, k, y);
    if k == 1 {
      AtHeightZero(h, up, y);
      left, right := ChildrenOfParent(h, level, y);
      AtHeightZero(h, level, left);
      AtHeightZero(h, level, right);
    } else {
      ParentsAreDigests(h, level);
      left, right := Children(h, up, k - 1, y);
      AtHeightAbove(h, level, k - 1, left);
      AtHeightAbove(h, level, k - 1, right);
    }
  }

  /** The last step of a climb. */
  lemma {:induction false} LastStep(h: HashFn, node: string, index: int, branch: seq<string>) returns (at: int)
    requires branch != []
    ensures var low := Climb(h, node, index, branch[..|branch| - 1]);
      var text := StepText(low, at, branch[|branch| - 1]);
      Climb(h, node, index, branch) == h(text) && text in PathTexts(h, node, index, branch)
    ensures Among(PathTexts(h, node, index, branch[..|branch| - 1]), PathTexts(h, node, index, branch))
    decreases |branch|
  {
    if |branch| == 1 {
      at := index;
    } else {
      var next := h(StepText(node, index, branch[0]));
      at := LastStep(h, next, index / 2, branch[1..]);
      var init := branch[..|branch| - 1];
      assert init[1..] == branch[1..][..|branch| - 2];
    }
  }

  lemma {:induction false} ClimbIsDigest(h: HashFn, node: string, index: int, branch: seq<string>)
    requires |node| == DIGEST_CHARS
    ensures |Climb(h, node, index, branch)| == DIGEST_CHARS
    decreases |branch|
  {
    if branch != [] {
      ClimbIsDigest(h, h(StepText(node, index, branch[0])), index / 2, branch[1..]);
    }
  }

  /** A leaf's own hash is no node above the leaves. */
  lemma LeafIsLow(h: HashFn, hashed: seq<string>, level: seq<string>, k: nat, payload: string)
    requires |level| > 0 && InjectiveOn(h, hashed) && Among(NodeTexts(h, level), hashed) &&
      LEAF_PREFIX + payload in hashed
    requires Digests(level) && AtHeight(h, level, k, LeafHash(h, payload))
    ensures k == 0
  {
    hide InjectiveOn, NodeText, NodeTexts, Digests, Parents, Leaves, ParentTexts, LeafTexts, ParentText;
    if k > 0 {
      var left, right := Children(h, level, k, LeafHash(h, payload));
      OneText(h, hashed, LEAF_PREFIX + payload, NodeText(left, right));
      DomainsAreSeparate(payload, left, right);
    }
  }

  /** The hash of a step is no leaf. */
  lemma StepIsHigh(h: HashFn, hashed: seq<string>, payloads: seq<string>, node: string, index: int, sibling: string)
    requires InjectiveOn(h, hashed) && StepText(node, index, sibling) in hashed
    requires payloads != [] && Among(BatchTexts(h, payloads), hashed)
    ensures h(StepText(node, index, sibling)) !in Leaves(h, payloads)
  {
    hide InjectiveOn, StepText, NodeTexts, Parents, Leaves, ParentTexts, LeafTexts, ParentText;
    if h(StepText(node, index, sibling)) in Leaves(h, payloads) {
      var i :| 0 <= i < |payloads| && LeafHash(h, payloads[i]) == h(StepText(node, index, sibling));
      OneText(h, hashed, LEAF_PREFIX + payloads[i], StepText(node, index, sibling));
      StepIsNotLeaf(payloads[i], node, index, sibling);
    }
  }

  /** A step that meets a node started from one of that node's children. */
  lemma StepFromChild(h: HashFn, hashed: seq<string>, level: seq<string>, k: nat, node: string, index: int,
                      sibling: string)
    requires |level| > 0 && InjectiveOn(h, hashed) && Among(NodeTexts(h, level), hashed) &&
      StepText(node, index, sibling) in hashed
    requires k > 0 && Digests(level) && |node| == DIGEST_CHARS
    requires AtHeight(h, level, k, h(StepText(node, index, sibling)))
    ensures AtHeight(h, level, k - 1, node)
  {
    hide InjectiveOn, NodeText, StepText, NodeTexts, Digests, AtHeight, Parents, Leaves, ParentTexts, LeafTexts,
         ParentText;
    var left, right := Children(h, level, k, h(StepText(node, index, sibling)));
    OneText(h, hashed, StepText(node, index, sibling), NodeText(left, right));
    StepReadsBack(node, index, sibling, left, right);
  }

  /** A climb from a leaf that meets a node of the tree has taken exactly as many steps as that node is high. */
  lemma {:induction false} HeightsAgree(h: HashFn, hashed: seq<string>, payloads: seq<string>, k: nat,
                                        payload: string, index: int, branch: seq<string>)
    requires payloads != [] && InjectiveOn(h, hashed)
    requires Among(BatchTexts(h, payloads), hashed) && Among(ProofTexts(h, payload, index, branch), hashed)
    requires AtHeight(h, Leaves(h, payloads), k, Climb(h, LeafHash(h, payload), index, branch))
    ensures |branch| == k
    decreases |branch|
  {
    hide InjectiveOn, NodeText, StepText, NodeTexts, Parents, Leaves, ParentTexts, LeafTexts, AtHeight, ParentText;
    var leaf, level := LeafHash(h, payload), Leaves(h, payloads);
    if branch == [] {
      LeafIsLow(h, hashed, level, k, payload);
    } else {
      var at := LastStep(h, leaf, index, branch);
      var init, last := branch[..|branch| - 1], branch[|branch| - 1];
      var low := Climb(h, leaf, index, init);
      AtHeightZero(h, level, Climb(h, leaf, index, branch));
      StepIsHigh(h, hashed, payloads, low, at, last);
      ClimbIsDigest(h, leaf, index, init);
      StepFromChild(h, hashed, level, k, low, at, last);
      HeightsAgree(h, hashed, payloads, k - 1, payload, index, init);
    }
  }

  // ---- A climb of the right height that meets the root is the built one -------------------------

  lemma StepCancels(node: string, node': string, index: int, sibling: string, sibling': string)
    requires |node| == |node'| && StepText(node, index, sibling) == StepText(node', index, sibling')
    ensures node == node' && sibling == sibling'
  {
    var text, n, m := StepText(node, index, sibling), |node|, |sibling|;
    if index % 2 == 0 {
      assert text[2..2 + n] == node && text[2..2 + n] == node';
      assert text[2 + n..] == sibling && text[2 + n..] == sibling';
    } else {
      assert text[2..2 + m] == sibling && text[2..2 + m] == sibling';
      assert text[2 + m..] == node && text[2 + m..] == node';
    }
  }

  /** A step that meets the addressed parent started from the addressed node, with its sibling. */
  lemma StepDetermined(h: HashFn, hashed: seq<string>, level: seq<string>, node: string, index: int, sibling: string)
    requires |level| > 1 && Digests(level) && |node| == DIGEST_CHARS && InjectiveOn(h, hashed)
    requires Among(NodeTexts(h, level), hashed) && StepText(node, index, sibling) in hashed
    requires h(StepText(node, index, sibling)) == Parents(h, level)[Addressed((|level| + 1) / 2, index / 2)]
    ensures var e := Addressed(|level|, index);
      node == level[e] && sibling == Sibling(level, e) && e / 2 == Addressed((|level| + 1) / 2, index / 2)
  {
    hide NodeText, InjectiveOn, StepText, Parents, Leaves, ParentTexts, LeafTexts, ParentText;
    StepsToParent(level, index);
    var e := Addressed(|level|, index);
    assert ParentText(level, e / 2) in NodeTexts(h, level);
    OneText(h, hashed, StepText(node, index, sibling), ParentText(level, e / 2));
    StepCancels(node, level[e], index, sibling, Sibling(level, e));
  }

  lemma {:induction false} ClimbDetermined(h: HashFn, hashed: seq<string>, level: seq<string>,
                                           node: string, index: int, branch: seq<string>)
    requires |level| > 0 && Digests(level) && |node| == DIGEST_CHARS && InjectiveOn(h, hashed)
    requires Among(NodeTexts(h, level), hashed) && Among(PathTexts(h, node, index, branch), hashed)
    requires |branch| == Depth(|level|) && Climb(h, node, index, branch) == Root(h, level)
    ensures var e := Addressed(|level|, index); node == level[e] && branch == Branch(h, level, e)
    decreases |level|
  {
    hide NodeText, InjectiveOn, StepText, Sibling, Digests, Parents, ParentTexts, Addressed, ParentText;
    if |level| > 1 {
      var up, text := Parents(h, level), StepText(node, index, branch[0]);
      ParentsAreDigests(h, level);
      assert text in PathTexts(h, node, index, branch);
      assert Among(PathTexts(h, h(text), index / 2, branch[1..]), hashed);
      ClimbDetermined(h, hashed, up, h(text), index / 2, branch[1..]);
      StepDetermined(h, hashed, level, node, index, branch[0]);
      assert Branch(h, level, Addressed(|level|, index)) == [branch[0]] + branch[1..] == branch;
    } else {
      assert Addressed(|level|, index) == 0;
    }
  }

  /**
   * Exactly which proofs a root accepts: for any index and any branch, of any length and with any
   * strings in it, a payload is accepted if and only if it is the payload at the addressed position and
   * the branch is the built one.
   */
  lemma Acceptance(h: HashFn, payloads: seq<string>, payload: string, index: int, branch: seq<string>)
    requires payloads != []
    requires InjectiveOn(h, BatchTexts(h, payloads) + ProofTexts(h, payload, index, branch))
    ensures var e := Addressed(|payloads|, index);
      Verifies(h, MerkleProof(LeafHash(h, payload), index, branch), BatchRoot(h, payloads)) <==>
      payload == payloads[e] && branch == Branch(h, Leaves(h, payloads), e)
  {
    hide InjectiveOn, NodeTexts, PathTexts, LeafTexts, Digests, Leaves, Branch, Climb, Root, Depth, AtHeight, Addressed;
    LeavesAreDigests(h, payloads);
    var e := Addressed(|payloads|, index);
    var hashed := BatchTexts(h, payloads) + ProofTexts(h, payload, index, branch);
    var leaf, level := LeafHash(h, payload), Leaves(h, payloads);
    ClimbsToRoot(h, level, index);
    if Climb(h, leaf, index, branch) == Root(h, level) {
      RootAtDepth(h, level);
      HeightsAgree(h, hashed, payloads, Depth(|level|), payload, index, branch);
      ClimbDetermined(h, hashed, level, leaf, index, branch);
      assert LeafTexts(payloads)[e] in hashed;
      OneText(h, hashed, LEAF_PREFIX + payload, LEAF_PREFIX + payloads[e]);
      SamePrefix(payload, payloads[e]);
    }
  }

  lemma SamePrefix(a: string, b: string)
    requires LEAF_PREFIX + a == LEAF_PREFIX + b
    ensures a == b
  {
    assert (LEAF_PREFIX + a)[2..] == a && (LEAF_PREFIX + b)[2..] == b;
  }

  /** The fixed root of the empty batch accepts one thing only: the empty payload with no branch. */
  lemma EmptyBatchAcceptance(h: HashFn, payload: string, index: int, branch: seq<string>)
    requires InjectiveOn(h, BatchTexts(h, []) + ProofTexts(h, payload, index, branch))
    ensures Verifies(h, MerkleProof(LeafHash(h, payload), index, branch), BatchRoot(h, [])) <==>
      payload == "" && branch == []
  {
    var leaf, hashed := LeafHash(h, payload), BatchTexts(h, []) + ProofTexts(h, payload, index, branch);
    if branch == [] {
      assert LEAF_PREFIX + "" == LEAF_PREFIX;
      if leaf == h(LEAF_PREFIX) {
        OneText(h, hashed, LEAF_PREFIX + payload, LEAF_PREFIX);
        SamePrefix(payload, "");
      }
    } else {
      var at := LastStep(h, leaf, index, branch);
      var low, last := Climb(h, leaf, index, branch[..|branch| - 1]), branch[|branch| - 1];
      if h(StepText(low, at, last)) == h(LEAF_PREFIX) {
        OneText(h, hashed, LEAF_PREFIX, StepText(low, at, last));
      }
      StepIsNotLeaf("", low, at, last);
    }
  }

  // ---- Which batches share a root ----------------------------------------------------------------

  /** Two batches agree at every address once both are padded to full trees. */
  ghost predicate SamePadded(a: seq<string>, b: seq<string>)
    requires a != [] && b != []
  {
    && Depth(|a|) == Depth(|b|)
    && forall i: int :: a[Addressed(|a|, i)] == b[Addressed(|b|, i)]
  }

  lemma {:induction false} SamePaddedSameRoot(h: HashFn, a: seq<string>, b: seq<string>)
    requires a != [] && b != [] && SamePadded(a, b)
    ensures Root(h, a) == Root(h, b)
    decreases |a|
  {
    if |a| == 1 {
      assert a[Addressed(|a|, 0)] == b[Addressed(|b|, 0)];
    } else {
      var upA, upB := Parents(h, a), Parents(h, b);
      forall i: int ensures upA[Addressed(|upA|, i)] == upB[Addressed(|upB|, i)] {
        PaddedPair(a, i);
        PaddedPair(b, i);
        assert a[Addressed(|a|, 2 * i)] == b[Addressed(|b|, 2 * i)];
        assert a[Addressed(|a|, 2 * i + 1)] == b[Addressed(|b|, 2 * i + 1)];
      }
      SamePaddedSameRoot(h, upA, upB);
    }
  }

  /** Parent i of the padded tree is made from children 2i and 2i + 1 of the padded tree. */
  lemma PaddedPair(level: seq<string>, i: int)
    requires |level| > 1
    ensures var f := Addressed((|level| + 1) / 2, i);
      level[Addressed(|level|, 2 * i)] == level[2 * f] && level[Addressed(|level|, 2 * i + 1)] == RightOf(level, f)
  {
    assert (2 * i) / 2 == i && (2 * i) % 2 == 0;
    assert (2 * i + 1) / 2 == i && (2 * i + 1) % 2 == 1;
  }

  /**
   * Two non-empty batches have the same root if and only if they are the same after padding.
   */
  lemma RootBinding(h: HashFn, a: seq<string>, b: seq<string>)
    requires a != [] && b != [] && InjectiveOn(h, BatchTexts(h, a) + BatchTexts(h, b))
    ensures BatchRoot(h, a) == BatchRoot(h, b) <==> SamePadded(a, b)
  {
    if SamePadded(a, b) {
      SamePaddedSameBatchRoot(h, a, b);
    }
    if BatchRoot(h, a) == BatchRoot(h, b) {
      forall i: int ensures Depth(|a|) == Depth(|b|) && a[Addressed(|a|, i)] == b[Addressed(|b|, i)] {
        SameRootSameAddress(h, a, b, i);
      }
    }
  }

  lemma SamePaddedSameBatchRoot(h: HashFn, a: seq<string>, b: seq<string>)
    requires a != [] && b != [] && SamePadded(a, b)
    ensures BatchRoot(h, a) == BatchRoot(h, b)
  {
    var levelA, levelB := Leaves(h, a), Leaves(h, b);
    forall i: int ensures levelA[Addressed(|levelA|, i)] == levelB[Addressed(|levelB|, i)] {
      assert a[Addressed(|a|, i)] == b[Addressed(|b|, i)];
    }
    SamePaddedSameRoot(h, levelA, levelB);
  }

  /** Batch a's proof for an address is also a proof against batch b's equal root. */
  lemma SameRootSameAddress(h: HashFn, a: seq<string>, b: seq<string>, i: int)
    requires a != [] && b != [] && InjectiveOn(h, BatchTexts(h, a) + BatchTexts(h, b))
    requires BatchRoot(h, a) == BatchRoot(h, b)
    ensures Depth(|a|) == Depth(|b|) && a[Addressed(|a|, i)] == b[Addressed(|b|, i)]
  {
    var level, e := Leaves(h, a), Addressed(|a|, i);
    BuiltPathHashesTreeTexts(h, level, i);
    ClimbsToRoot(h, level, i);
    assert LEAF_PREFIX + a[e] in BatchTexts(h, a);
    FewerTexts(h, BatchTexts(h, b) + ProofTexts(h, a[e], i, Branch(h, level, e)), BatchTexts(h, a) + BatchTexts(h, b));
    Acceptance(h, b, a[e], i, Branch(h, level, e));
  }

  /** Walking a built branch hashes only texts that the builder hashed. */
  lemma {:induction false} BuiltPathHashesTreeTexts(h: HashFn, level: seq<string>, index: int)
    requires |level| > 0
    ensures var e := Addressed(|level|, index);
      Among(PathTexts(h, level[e], index, Branch(h, level, e)), NodeTexts(h, level))
    decreases |level|
  {
    if |level| > 1 {
      var e, up := Addressed(|level|, index), Parents(h, level);
      StepsToParent(level, index);
      BuiltPathHashesTreeTexts(h, up, index / 2);
      assert Branch(h, level, e)[1..] == Branch(h, up, e / 2);
    }
  }

  /** Batches of one length are bound outright. */
  lemma RootBindsBatch(h: HashFn, a: seq<string>, b: seq<string>)
    requires |a| == |b| && InjectiveOn(h, BatchTexts(h, a) + BatchTexts(h, b))
    ensures BatchRoot(h, a) == BatchRoot(h, b) <==> a == b
  {
    if a != [] && BatchRoot(h, a) == BatchRoot(h, b) {
      RootBinding(h, a, b);
      forall i | 0 <= i < |a| ensures a[i] == b[i] {
        AddressedInRange(|a|, i);
        assert a[Addressed(|a|, i)] == b[Addressed(|b|, i)];
      }
    }
  }

  /** Repeating the last leaf of an odd batch of three or more leaves the root as it was, under every hash. */
  lemma RepeatedLastLeaf(h: HashFn, a: seq<string>)
    requires |a| >= 3 && |a| % 2 == 1
    ensures BatchRoot(h, a + [a[|a| - 1]]) == BatchRoot(h, a)
  {
    var b := a + [a[|a| - 1]];
    assert (|a| + 1) / 2 == (|b| + 1) / 2;
    SamePaddedSameBatchRoot(h, a, b);
  }
}
