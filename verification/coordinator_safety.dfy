/**
 * Every reachable state of the multi-relayer coordinator: what the tally means, what a finalized height
 * keeps for ever, which relayers can lose a bond, and how much.
 */
module CoordinatorSafety {
  import opened Coordinator
  import opened Wrappers

  // ---- The tally is a plurality ------------------------------------------------------------------

  /** Where a root is first attested; the length of the list when it is not. */
  ghost function FirstAt(list: seq<Attestation>, root: string): (i: nat)
    ensures i <= |list|
    ensures i < |list| ==> list[i].root == root
    ensures forall j | 0 <= j < i :: list[j].root != root
  {
    if list == [] then 0
    else
      var i := FirstAt(list[..|list| - 1], root);
      if i < |list| - 1 || list[|list| - 1].root == root then i else |list|
  }

  ghost predicate Attested(list: seq<Attestation>, root: string) {
    exists i :: 0 <= i < |list| && list[i].root == root
  }

  /** More attestations than any other root, or as many and attested earlier. */
  ghost predicate IsPlurality(list: seq<Attestation>, root: string) {
    && Attested(list, root)
    && forall other | Attested(list, other) && other != root ::
      || |Supporters(list, other)| < |Supporters(list, root)|
      || (|Supporters(list, other)| == |Supporters(list, root)| && FirstAt(list, root) < FirstAt(list, other))
  }

  lemma {:induction false} RootsAreAttested(list: seq<Attestation>)
    ensures forall root :: root in Roots(list) <==> Attested(list, root)
    ensures forall root | root in Roots(list) :: |Supporters(list, root)| > 0
    ensures forall i, j | 0 <= i < j < |Roots(list)| :: FirstAt(list, Roots(list)[i]) < FirstAt(list, Roots(list)[j])
  {
    if list != [] {
      var n := |list| - 1;
      var init := list[..n];
      RootsAreAttested(init);
      forall root ensures root in Roots(list) <==> Attested(list, root) {
        if Attested(init, root) {
          var i :| 0 <= i < n && init[i].root == root;
          assert list[i].root == root;
        } else if root in Roots(list) {
          assert list[n].root == root;
        }
      }
      forall root | root in Roots(init) ensures FirstAt(list, root) == FirstAt(init, root) < n {
        assert Attested(init, root);
      }
      forall i, j | 0 <= i < j < |Roots(list)|
        ensures FirstAt(list, Roots(list)[i]) < FirstAt(list, Roots(list)[j])
      {
        assert Roots(init)[i] in Roots(init);
        if j < |Roots(init)| {
          assert Roots(init)[j] in Roots(init);
        }
      }
    }
  }

  /** The scan keeps the first of the roots with the most votes. */
  lemma {:induction false} LeaderIsFirstBest(list: seq<Attestation>, roots: seq<string>)
    requires forall i | 0 <= i < |roots| :: |Supporters(list, roots[i])| > 0
    ensures Leader(list, roots) == Nobody <==> roots == []
    ensures roots != [] ==> exists i ::
      0 <= i < |roots| && Leader(list, roots) == Lead(roots[i]) && FirstBest(list, roots, i)
  {
    if roots != [] {
      var n := |roots| - 1;
      LeaderIsFirstBest(list, roots[..n]);
      if n > 0 {
        var i :| 0 <= i < n && Leader(list, roots[..n]) == Lead(roots[..n][i]) && FirstBest(list, roots[..n], i);
        var j := if |Supporters(list, roots[n])| > |Supporters(list, roots[i])| then n else i;
        assert Leader(list, roots) == Lead(roots[j]);
        forall k | 0 <= k < |roots| ensures Beats(list, roots, j, k) {
          if k < n {
            assert Beats(list, roots[..n], i, k);
          }
        }
        assert FirstBest(list, roots, j);
      } else {
        assert roots[..0] == [] && FirstBest(list, roots, 0);
      }
    }
  }

  ghost predicate Beats(list: seq<Attestation>, roots: seq<string>, i: nat, k: nat)
    requires i < |roots| && k < |roots|
  {
    && |Supporters(list, roots[k])| <= |Supporters(list, roots[i])|
    && (k < i ==> |Supporters(list, roots[k])| < |Supporters(list, roots[i])|)
  }

  ghost predicate FirstBest(list: seq<Attestation>, roots: seq<string>, i: nat)
    requires i < |roots|
  {
    forall k | 0 <= k < |roots| :: Beats(list, roots, i, k)
  }

  lemma LeaderIsPlurality(list: seq<Attestation>) returns (root: string)
    requires list != []
    ensures Leader(list, Roots(list)) == Lead(root) && IsPlurality(list, root)
  {
    hide Supporters, Roots, Leader;
    var roots := Roots(list);
    RootsAreAttested(list);
    LeaderIsFirstBest(list, roots);
    assert Attested(list, list[0].root);
    var i :| 0 <= i < |roots| && Leader(list, roots) == Lead(roots[i]) && FirstBest(list, roots, i);
    root := roots[i];
    assert root in roots;
    forall other | Attested(list, other) && other != root
      ensures |Supporters(list, other)| < |Supporters(list, root)| ||
        (|Supporters(list, other)| == |Supporters(list, root)| && FirstAt(list, root) < FirstAt(list, other))
    {
      var k :| 0 <= k < |roots| && roots[k] == other;
      assert Beats(list, roots, i, k);
    }
  }

  /** The tallying loops pick exactly the plurality root, ties going to the root attested first. */
  lemma TallyIsPlurality(list: seq<Attestation>, root: string)
    ensures Leader(list, Roots(list)) == Lead(root) <==> IsPlurality(list, root)
    ensures Leader(list, Roots(list)) == Nobody <==> list == []
  {
    if list != [] {
      hide Supporters, Roots, Leader;
      var winner := LeaderIsPlurality(list);
    }
  }

  // ---- Slashing ----------------------------------------------------------------------------------

  /** Each dissenter loses its whole bond once, however often it appears; nobody else is touched. */
  lemma {:induction false} SlashEffect(relayers: map<string, RelayerInfo>, list: seq<Attestation>, root: string)
    ensures var after := SlashAll(relayers, list, root);
      && after.Keys == relayers.Keys
      && forall k | k in relayers ::
        after[k] == if k in Dissenters(relayers, list, root) then Slashed(relayers[k]) else relayers[k]
  {
    if list != [] {
      SlashEffect(relayers, list[..|list| - 1], root);
    }
  }

  lemma {:induction false} DissentersAre(relayers: map<string, RelayerInfo>, list: seq<Attestation>, root: string)
    ensures forall k :: k in Dissenters(relayers, list, root) <==>
      k in relayers && exists i :: 0 <= i < |list| && list[i].relayerKey == k && list[i].root != root
  {
    if list != [] {
      var n := |list| - 1;
      DissentersAre(relayers, list[..n], root);
      forall k ensures k in Dissenters(relayers, list, root) <==>
        k in relayers && exists i :: 0 <= i < |list| && list[i].relayerKey == k && list[i].root != root
      {
        if i :| 0 <= i < n && list[..n][i].relayerKey == k && list[..n][i].root != root {
          assert list[i].relayerKey == k && list[i].root != root;
        }
      }
    }
  }

  lemma {:induction false} SupportersAre(list: seq<Attestation>, root: string)
    ensures forall k :: k in Supporters(list, root) <==>
      exists i :: 0 <= i < |list| && list[i].relayerKey == k && list[i].root == root
  {
    if list != [] {
      var n := |list| - 1;
      SupportersAre(list[..n], root);
      forall k ensures k in Supporters(list, root) <==>
        exists i :: 0 <= i < |list| && list[i].relayerKey == k && list[i].root == root
      {
        if i :| 0 <= i < n && list[..n][i].relayerKey == k && list[..n][i].root == root {
          assert list[i].relayerKey == k && list[i].root == root;
        }
      }
    }
  }

  /** Only membership in the registry matters to who dissents. */
  lemma {:induction false} DissentersStable(r: map<string, RelayerInfo>, r': map<string, RelayerInfo>,
                                            list: seq<Attestation>, root: string)
    requires forall i | 0 <= i < |list| :: list[i].relayerKey in r && list[i].relayerKey in r'
    ensures Dissenters(r, list, root) == Dissenters(r', list, root)
  {
    if list != [] {
      DissentersStable(r, r', list[..|list| - 1], root);
    }
  }

  // ---- Runs --------------------------------------------------------------------------------------

  datatype Op =
    | RegisterOp(key: string, bond: int)
    | SubmitOp(att: Attestation)
    | FinalizeOp(height: int, openedAt: int, now: int)

  /** A call that throws changes nothing. */
  ghost function Apply(cfg: Config, s: State, op: Op): State {
    var r := match op
      case RegisterOp(key, bond) => Register(s, key, bond)
      case SubmitOp(att) => Submitted(cfg, s, att)
      case FinalizeOp(height, openedAt, now) => FinalizedAt(cfg, s, height, openedAt, now);
    if r.Ok? then r.value else s
  }

  ghost function Run(cfg: Config, ops: seq<Op>): State {
    if ops == [] then EMPTY else Apply(cfg, Run(cfg, ops[..|ops| - 1]), ops[|ops| - 1])
  }

  /** One signed attestation per registered relayer. */
  ghost predicate ProperList(cfg: Config, s: State, height: int, list: seq<Attestation>) {
    && (forall i, j | 0 <= i < j < |list| :: list[i].relayerKey != list[j].relayerKey)
    && forall i | 0 <= i < |list| ::
      && list[i].height == height
      && list[i].relayerKey in s.relayers
      && cfg.check(list[i].relayerKey, Message(cfg, height, list[i].root), list[i].signature)
  }

  ghost predicate Inv(cfg: Config, s: State) {
    && (forall h | h in s.attestations :: ProperList(cfg, s, h, s.attestations[h]))
    && forall h | h in s.finalized :: s.finalized[h] == HeightStatus(h, Decide(cfg, s.relayers, Listed(s, h)))
  }

  lemma DecideStable(cfg: Config, s: State, r: map<string, RelayerInfo>, h: int)
    requires Inv(cfg, s) && s.relayers.Keys <= r.Keys
    ensures Decide(cfg, r, Listed(s, h)) == Decide(cfg, s.relayers, Listed(s, h))
  {
    var list := Listed(s, h);
    assert ProperList(cfg, s, h, list);
    var lead := Leader(list, Roots(list));
    if lead != Nobody {
      DissentersStable(s.relayers, r, list, lead.root);
    }
  }

  lemma InvKept(cfg: Config, s: State, op: Op)
    requires Inv(cfg, s)
    ensures Inv(cfg, Apply(cfg, s, op))
    ensures s.relayers.Keys <= Apply(cfg, s, op).relayers.Keys
    ensures forall h | h in s.finalized :: (
      && h in Apply(cfg, s, op).finalized
      && Apply(cfg, s, op).finalized[h] == s.finalized[h]
      && Listed(Apply(cfg, s, op), h) == Listed(s, h))
  {
    hide Decide, Dissenters, SlashAll, Message;
    var t := Apply(cfg, s, op);
    if op.FinalizeOp? {
      var list := Listed(s, op.height);
      var outcome := Decide(cfg, s.relayers, list);
      if outcome.Finalized? {
        SlashEffect(s.relayers, list, outcome.agreedRoot);
      }
    }
    assert s.relayers.Keys <= t.relayers.Keys;
    forall h | h in t.attestations ensures ProperList(cfg, t, h, t.attestations[h]) {
      if h in s.attestations {
        assert ProperList(cfg, s, h, s.attestations[h]);
      }
    }
    forall h | h in t.finalized ensures t.finalized[h] == HeightStatus(h, Decide(cfg, t.relayers, Listed(t, h))) {
      DecideStable(cfg, s, t.relayers, h);
    }
  }

  lemma {:induction false} Reachable(cfg: Config, ops: seq<Op>)
    ensures Inv(cfg, Run(cfg, ops))
  {
    if ops != [] {
      Reachable(cfg, ops[..|ops| - 1]);
      InvKept(cfg, Run(cfg, ops[..|ops| - 1]), ops[|ops| - 1]);
    }
  }

  /** Once recorded, a height's status and its attestations never change again. */
  lemma {:induction false} FinalizedIsFrozen(cfg: Config, ops: seq<Op>, more: seq<Op>, h: int)
    requires h in Run(cfg, ops).finalized
    ensures var s, t := Run(cfg, ops), Run(cfg, ops + more);
      h in t.finalized && t.finalized[h] == s.finalized[h] && Listed(t, h) == Listed(s, h)
    decreases |more|
  {
    if more == [] {
      assert ops + more == ops;
    } else {
      var n := |more| - 1;
      FinalizedIsFrozen(cfg, ops, more[..n], h);
      assert (ops + more)[..|ops + more| - 1] == ops + more[..n];
      Reachable(cfg, ops + more[..n]);
      InvKept(cfg, Run(cfg, ops + more[..n]), more[n]);
    }
  }

  // ---- Voting safety -----------------------------------------------------------------------------

  /** How many of the attestations come from a set of relayers. */
  ghost function CountFrom(list: seq<Attestation>, who: set<string>): (n: nat)
    ensures n <= |list|
  {
    if list == [] then 0
    else CountFrom(list[..|list| - 1], who) + (if list[|list| - 1].relayerKey in who then 1 else 0)
  }

  ghost predicate AllAttest(list: seq<Attestation>, who: set<string>, root: string) {
    forall i | 0 <= i < |list| && list[i].relayerKey in who :: list[i].root == root
  }

  lemma {:induction false} VotesBound(list: seq<Attestation>, honest: set<string>, root: string, other: string)
    requires AllAttest(list, honest, root) && other != root
    ensures |Supporters(list, root)| >= CountFrom(list, honest)
    ensures |Supporters(list, other)| <= |list| - CountFrom(list, honest)
  {
    if list != [] {
      var n := |list| - 1;
      assert AllAttest(list[..n], honest, root) by {
        forall i | 0 <= i < n && list[..n][i].relayerKey in honest ensures list[..n][i].root == root {
          assert list[i].relayerKey in honest;
        }
      }
      VotesBound(list[..n], honest, root, other);
    }
  }

  /**
   * In every reachable state: if the honest attesters of a finalized height all attested one root and
   * are a majority, the height was decided exactly by whether that root met the quorum, and no honest
   * attester was slashed for it.
   */
  lemma VotingSafety(cfg: Config, ops: seq<Op>, h: int, honest: set<string>, root: string)
    requires h in Run(cfg, ops).finalized
    requires var list := Listed(Run(cfg, ops), h);
      AllAttest(list, honest, root) && 2 * CountFrom(list, honest) > |list|
    ensures var s := Run(cfg, ops);
      var list := Listed(s, h);
      s.finalized[h].outcome ==
        if root == "" || |Supporters(list, root)| < cfg.quorum then NoQuorum
        else Finalized(root, Supporters(list, root), Dissenters(s.relayers, list, root))
    ensures Run(cfg, ops).finalized[h].outcome.Finalized? ==>
      forall k | k in Run(cfg, ops).finalized[h].outcome.challengers :: k !in honest
  {
    var s := Run(cfg, ops);
    var list := Listed(s, h);
    Reachable(cfg, ops);
    assert ProperList(cfg, s, h, list);
    MajorityLeads(list, honest, root);
    DissentersAre(s.relayers, list, root);
  }

  lemma MajorityLeads(list: seq<Attestation>, honest: set<string>, root: string)
    requires AllAttest(list, honest, root) && 2 * CountFrom(list, honest) > |list|
    ensures Leader(list, Roots(list)) == Lead(root)
  {
    RootsAreAttested(list);
    forall other | other != root ensures |Supporters(list, other)| < |Supporters(list, root)| {
      VotesBound(list, honest, root, other);
    }
    assert |Supporters(list, root)| > 0 by {
      VotesBound(list, honest, root, root + "x");
    }
    if root !in Roots(list) {
      UnattestedRoot(list, root);
      assert false;
    }
    TallyIsPlurality(list, root);
  }

  /**
   * In every reachable state: when a height has fewer dishonest attesters than the quorum, an agreed root
   * was attested, with a valid signature, by an honest relayer.
   */
  lemma AgreedRootIsVouched(cfg: Config, ops: seq<Op>, h: int, honest: set<string>)
    requires h in Run(cfg, ops).finalized && Run(cfg, ops).finalized[h].outcome.Finalized?
    requires var list := Listed(Run(cfg, ops), h); |list| - CountFrom(list, honest) < cfg.quorum
    ensures var s := Run(cfg, ops);
      var o := s.finalized[h].outcome;
      exists a :: a in Listed(s, h) && a.relayerKey in honest && a.relayerKey in o.attesters && a.root == o.agreedRoot
        && cfg.check(a.relayerKey, Message(cfg, h, o.agreedRoot), a.signature)
  {
    var s := Run(cfg, ops);
    var list, o := Listed(s, h), s.finalized[h].outcome;
    Reachable(cfg, ops);
    assert ProperList(cfg, s, h, list);
    var i := HonestSupporter(list, honest, o.agreedRoot);
    SupportersAre(list, o.agreedRoot);
    assert list[i] in list;
  }

  lemma {:induction false} HonestSupporter(list: seq<Attestation>, honest: set<string>, root: string) returns (i: nat)
    requires |Supporters(list, root)| > |list| - CountFrom(list, honest)
    ensures i < |list| && list[i].relayerKey in honest && list[i].root == root
  {
    var n := |list| - 1;
    if list[n].relayerKey in honest && list[n].root == root {
      i := n;
    } else {
      i := HonestSupporter(list[..n], honest, root);
    }
  }

  // ---- Who is in a status ------------------------------------------------------------------------

  ghost function Keys(list: seq<Attestation>): seq<string> {
    seq(|list|, i requires 0 <= i < |list| => list[i].relayerKey)
  }

  /** One more attestation goes to the supporters of a root or to its dissenters. */
  lemma LastVote(relayers: map<string, RelayerInfo>, list: seq<Attestation>, root: string)
    requires list != [] && list[|list| - 1].relayerKey in relayers
    ensures var init, a := list[..|list| - 1], list[|list| - 1];
      && Keys(list) == Keys(init) + [a.relayerKey]
      && Supporters(list, root) == Supporters(init, root) + (if a.root == root then [a.relayerKey] else [])
      && Dissenters(relayers, list, root) ==
        Dissenters(relayers, init, root) + (if a.root == root then [] else [a.relayerKey])
  {
  }

  lemma {:induction false} SplitByRoot(relayers: map<string, RelayerInfo>, list: seq<Attestation>, root: string)
    requires forall i | 0 <= i < |list| :: list[i].relayerKey in relayers
    ensures multiset(Supporters(list, root)) + multiset(Dissenters(relayers, list, root)) == multiset(Keys(list))
  {
    if list != [] {
      hide Supporters, Dissenters, Keys;
      SplitByRoot(relayers, list[..|list| - 1], root);
      LastVote(relayers, list, root);
    }
  }

  lemma {:induction false} SupportersDistinct(list: seq<Attestation>, root: string)
    requires NoRepeats(Keys(list))
    ensures NoRepeats(Supporters(list, root))
  {
    if list != [] {
      var n := |list| - 1;
      assert NoRepeats(Keys(list[..n])) by {
        forall i, j | 0 <= i < j < n ensures Keys(list[..n])[i] != Keys(list[..n])[j] {
          assert Keys(list)[i] != Keys(list)[j];
        }
      }
      SupportersDistinct(list[..n], root);
      SupportersAre(list[..n], root);
      forall i | 0 <= i < n ensures list[..n][i].relayerKey != list[n].relayerKey {
        assert Keys(list)[i] != Keys(list)[n];
      }
      assert list[n].relayerKey !in Supporters(list[..n], root);
    }
  }

  /**
   * In every reachable state the attesters and challengers of a finalized height partition the relayers
   * that attested it, and the attesters are distinct.
   */
  lemma StatusPartition(cfg: Config, ops: seq<Op>, h: int)
    requires h in Run(cfg, ops).finalized && Run(cfg, ops).finalized[h].outcome.Finalized?
    ensures var s := Run(cfg, ops);
      var o := s.finalized[h].outcome;
      && multiset(o.attesters) + multiset(o.challengers) == multiset(Keys(Listed(s, h)))
      && NoRepeats(Keys(Listed(s, h))) && NoRepeats(o.attesters)
      && |o.attesters| >= cfg.quorum
  {
    hide Run, Supporters, Dissenters, Keys, Listed, Message, NoRepeats, Inv;
    var s := Run(cfg, ops);
    var list, o := Listed(s, h), s.finalized[h].outcome;
    Reachable(cfg, ops);
    FinalizedParts(cfg, s, h);
    SplitByRoot(s.relayers, list, o.agreedRoot);
    KeysDistinct(cfg, s, h, list);
    SupportersDistinct(list, o.agreedRoot);
  }

  lemma FinalizedParts(cfg: Config, s: State, h: int)
    requires Inv(cfg, s) && h in s.finalized && s.finalized[h].outcome.Finalized?
    ensures var list, o := Listed(s, h), s.finalized[h].outcome;
      && ProperList(cfg, s, h, list)
      && o.attesters == Supporters(list, o.agreedRoot) && |o.attesters| >= cfg.quorum
      && o.challengers == Dissenters(s.relayers, list, o.agreedRoot)
  {
    hide Supporters, Dissenters, Leader, Roots, Message;
  }

  lemma KeysDistinct(cfg: Config, s: State, h: int, list: seq<Attestation>)
    requires ProperList(cfg, s, h, list)
    ensures NoRepeats(Keys(list))
  {
    hide Message;
  }

  // ---- Bonds -------------------------------------------------------------------------------------

  /** The bond of a key's latest successful registration, and whether it has been slashed since. */
  datatype Standing = Unknown | Standing(bond: int, slashed: bool)

  /** The height is decided for the first time by this call, against the relayer. */
  ghost predicate CondemnedBy(cfg: Config, s: State, op: Op, key: string) {
    && op.FinalizeOp?
    && op.height !in s.finalized
    && op.now - op.openedAt >= cfg.window
    && var o := Decide(cfg, s.relayers, Listed(s, op.height));
      o.Finalized? && key in o.challengers
  }

  ghost function StandingOf(cfg: Config, ops: seq<Op>, key: string): Standing {
    if ops == [] then Unknown
    else
      var n := |ops| - 1;
      var before, op := StandingOf(cfg, ops[..n], key), ops[n];
      if op.RegisterOp? && op.key == key && op.bond > 0 then Standing(op.bond, false)
      else if before.Standing? && CondemnedBy(cfg, Run(cfg, ops[..n]), op, key) then Standing(before.bond, true)
      else before
  }

  /** What a registry entry must look like, given its history. */
  ghost predicate Accounted(relayers: map<string, RelayerInfo>, key: string, st: Standing) {
    match st
    case Unknown => key !in relayers
    case Standing(bond, slashed) =>
      && bond > 0
      && key in relayers
      && relayers[key] ==
        if slashed then RelayerInfo(key, 0, bond, false) else RelayerInfo(key, bond, 0, true)
  }

  /**
   * Over every run, a relayer's bond and its slashed stake always add up to the bond of its latest
   * registration: it is whole and active until a height is decided against it, and from then on gone
   * entirely, however many heights it loses.
   */
  lemma {:induction false} BondConservation(cfg: Config, ops: seq<Op>, key: string)
    ensures Accounted(Run(cfg, ops).relayers, key, StandingOf(cfg, ops, key))
    ensures key in Run(cfg, ops).relayers ==>
      var info := Run(cfg, ops).relayers[key];
      && info.bond + info.slashed == StandingOf(cfg, ops, key).bond
      && (info.active <==> info.bond > 0) && (info.active <==> info.slashed == 0)
  {
    if ops != [] {
      hide Decide, SlashAll, Dissenters, Listed;
      var n := |ops| - 1;
      var s, op := Run(cfg, ops[..n]), ops[n];
      BondConservation(cfg, ops[..n], key);
      if op.FinalizeOp? && op.height !in s.finalized && op.now - op.openedAt >= cfg.window {
        var list := Listed(s, op.height);
        var o := Decide(cfg, s.relayers, list);
        if o.Finalized? {
          SlashEffect(s.relayers, list, o.agreedRoot);
          DecideChallengers(cfg, s.relayers, list);
        }
      }
    }
  }

  lemma DecideChallengers(cfg: Config, relayers: map<string, RelayerInfo>, list: seq<Attestation>)
    ensures var o := Decide(cfg, relayers, list);
      o.Finalized? ==> o.challengers == Dissenters(relayers, list, o.agreedRoot)
  {
  }

  // ---- What dissent costs ------------------------------------------------------------------------

  /** The bond of the last registration of a key that took effect. */
  ghost function LastBond(ops: seq<Op>, key: string): Option<int> {
    if ops == [] then None
    else
      var op := ops[|ops| - 1];
      if op.RegisterOp? && op.key == key && op.bond > 0 then Some(op.bond) else LastBond(ops[..|ops| - 1], key)
  }

  lemma {:induction false} StandingAfter(cfg: Config, ops: seq<Op>, more: seq<Op>, key: string)
    requires StandingOf(cfg, ops, key).Standing?
    ensures var after := StandingOf(cfg, ops + more, key);
      after.Standing? &&
      after.bond == if LastBond(more, key).Some? then LastBond(more, key).value else StandingOf(cfg, ops, key).bond
    decreases |more|
  {
    hide CondemnedBy;
    if more == [] {
      assert ops + more == ops;
    } else {
      var n := |more| - 1;
      StandingAfter(cfg, ops, more[..n], key);
      assert (ops + more)[..|ops + more| - 1] == ops + more[..n];
    }
  }

  /**
   * A relayer attests a root and its height is later decided against it. It then has nothing left, but what it
   * lost is the bond it attested with if and only if its last registration since, if any, was with the same bond.
   */
  lemma CostOfDissent(cfg: Config, ops: seq<Op>, att: Attestation, more: seq<Op>, openedAt: int, now: int)
    requires Submitted(cfg, Run(cfg, ops), att).Ok?
    requires var all := ops + [SubmitOp(att)] + more;
      CondemnedBy(cfg, Run(cfg, all), FinalizeOp(att.height, openedAt, now), att.relayerKey)
    ensures var held := Run(cfg, ops).relayers[att.relayerKey].bond;
      var after := Run(cfg, ops + [SubmitOp(att)] + more + [FinalizeOp(att.height, openedAt, now)]).relayers;
      && att.relayerKey in after
      && after[att.relayerKey].bond == 0 && !after[att.relayerKey].active
      && (after[att.relayerKey].slashed == held <==> LastBond(more, att.relayerKey) in {None, Some(held)})
  {
    var key, op := att.relayerKey, FinalizeOp(att.height, openedAt, now);
    var all := ops + [SubmitOp(att)] + more;
    hide Run, CondemnedBy, Submitted;
    assert (all + [op])[..|all|] == all;
    HeldWhenSubmitting(cfg, ops, att);
    StandingAfter(cfg, ops, [SubmitOp(att)] + more, key);
    assert ops + ([SubmitOp(att)] + more) == all;
    LastBondSkips(att, more, key);
    BondConservation(cfg, all + [op], key);
    assert StandingOf(cfg, all + [op], key) == Standing(StandingOf(cfg, all, key).bond, true);
  }

  lemma HeldWhenSubmitting(cfg: Config, ops: seq<Op>, att: Attestation)
    requires Submitted(cfg, Run(cfg, ops), att).Ok?
    ensures att.relayerKey in Run(cfg, ops).relayers && StandingOf(cfg, ops, att.relayerKey).Standing?
    ensures Run(cfg, ops).relayers[att.relayerKey].bond == StandingOf(cfg, ops, att.relayerKey).bond
  {
    hide Run, StandingOf, Message, Listed;
    BondConservation(cfg, ops, att.relayerKey);
  }

  lemma {:induction false} LastBondSkips(att: Attestation, more: seq<Op>, key: string)
    ensures LastBond([SubmitOp(att)] + more, key) == LastBond(more, key)
    decreases |more|
  {
    if more == [] {
      assert [SubmitOp(att)] + more == [SubmitOp(att)];
      assert [SubmitOp(att)][..0] == [];
    } else {
      LastBondSkips(att, more[..|more| - 1], key);
      assert ([SubmitOp(att)] + more)[..|more|] == [SubmitOp(att)] + more[..|more| - 1];
    }
  }

  /** A relayer with a bond of 100 attests a false root, registers again with 1, is outvoted, and loses 1. */
  lemma CheapDissent(cfg: Config, annSignature: string, bobSignature: string, liarSignature: string)
    returns (ops: seq<Op>, after: seq<Op>)
    requires cfg.quorum <= 2
    requires cfg.check("ann", Message(cfg, 0, "r"), annSignature)
    requires cfg.check("bob", Message(cfg, 0, "r"), bobSignature)
    requires cfg.check("liar", Message(cfg, 0, "x"), liarSignature)
    ensures "liar" in Run(cfg, ops).relayers && Run(cfg, ops).relayers["liar"].bond == 100
    ensures ops < after && "liar" in Run(cfg, after).relayers
    ensures Run(cfg, after).relayers["liar"] == RelayerInfo("liar", 0, 1, false)
  {
    var ann, bob := Attestation("ann", 0, "r", annSignature), Attestation("bob", 0, "r", bobSignature);
    var lie := Attestation("liar", 0, "x", liarSignature);
    var registered := [RegisterOp("liar", 100)] + [RegisterOp("ann", 100)] + [RegisterOp("bob", 100)];
    ops := registered + [SubmitOp(ann)] + [SubmitOp(bob)];
    var last := ops + [SubmitOp(lie)] + [RegisterOp("liar", 1)];
    after := last + [FinalizeOp(0, 0, cfg.window)];
    NoRun(cfg);
    assert [] + [RegisterOp("liar", 100)] == [RegisterOp("liar", 100)];
    hide Run, Apply, Decide, SlashAll, Message;
    Registers(cfg, [], "liar", 100);
    Registers(cfg, [RegisterOp("liar", 100)], "ann", 100);
    Registers(cfg, [RegisterOp("liar", 100)] + [RegisterOp("ann", 100)], "bob", 100);
    assert Listed(Run(cfg, registered), 0) == [];
    Submits(cfg, registered, ann);
    assert [] + [ann] == [ann];
    assert Listed(Run(cfg, registered + [SubmitOp(ann)]), 0) == [ann];
    Submits(cfg, registered + [SubmitOp(ann)], bob);
    assert Listed(Run(cfg, ops), 0) == [ann] + [bob];
    Submits(cfg, ops, lie);
    Registers(cfg, ops + [SubmitOp(lie)], "liar", 1);
    assert Listed(Run(cfg, last), 0) == [ann] + [bob] + [lie];
    TwoOutvoteOne(cfg, Run(cfg, last).relayers, ann, bob, lie);
    Finalizes(cfg, last, 0);
  }

  lemma NoRun(cfg: Config)
    ensures Run(cfg, []) == EMPTY
  {
  }

  lemma Registers(cfg: Config, ops: seq<Op>, key: string, bond: int)
    requires bond > 0
    ensures var s := Run(cfg, ops);
      Run(cfg, ops + [RegisterOp(key, bond)]) == s.(relayers := s.relayers[key := RelayerInfo(key, bond, 0, true)])
  {
    RunLast(cfg, ops, RegisterOp(key, bond));
  }

  lemma Submits(cfg: Config, ops: seq<Op>, att: Attestation)
    requires var s := Run(cfg, ops);
      && att.relayerKey in s.relayers && s.relayers[att.relayerKey].active
      && cfg.check(att.relayerKey, Message(cfg, att.height, att.root), att.signature)
      && att.height !in s.finalized
      && forall i | 0 <= i < |Listed(s, att.height)| :: Listed(s, att.height)[i].relayerKey != att.relayerKey
    ensures var s := Run(cfg, ops);
      Run(cfg, ops + [SubmitOp(att)]) ==
        s.(attestations := s.attestations[att.height := Listed(s, att.height) + [att]])
  {
    RunLast(cfg, ops, SubmitOp(att));
    hide Run, Message, Listed;
  }

  lemma Finalizes(cfg: Config, ops: seq<Op>, height: int)
    requires height !in Run(cfg, ops).finalized
    ensures Run(cfg, ops + [FinalizeOp(height, 0, cfg.window)]) == Decided(cfg, Run(cfg, ops), height)
  {
    RunLast(cfg, ops, FinalizeOp(height, 0, cfg.window));
    hide Run, Decided;
  }

  lemma RunLast(cfg: Config, ops: seq<Op>, op: Op)
    ensures Run(cfg, ops + [op]) == Apply(cfg, Run(cfg, ops), op)
  {
    assert (ops + [op])[..|ops|] == ops;
  }

  lemma TallyLast(relayers: map<string, RelayerInfo>, list: seq<Attestation>, a: Attestation, root: string)
    ensures Supporters(list + [a], root) == Supporters(list, root) + (if a.root == root then [a.relayerKey] else [])
    ensures Roots(list + [a]) == if a.root in Roots(list) then Roots(list) else Roots(list) + [a.root]
    ensures Dissenters(relayers, list + [a], root) == Dissenters(relayers, list, root) +
      (if a.root != root && a.relayerKey in relayers then [a.relayerKey] else [])
    ensures SlashAll(relayers, list + [a], root) ==
      var earlier := SlashAll(relayers, list, root);
      if a.root != root && a.relayerKey in earlier then earlier[a.relayerKey := Slashed(earlier[a.relayerKey])]
      else earlier
  {
    assert (list + [a])[..|list|] == list;
  }

  lemma LeaderLast(list: seq<Attestation>, roots: seq<string>, root: string)
    ensures Leader(list, roots + [root]) ==
      if Votes(list, Lead(root)) > Votes(list, Leader(list, roots)) then Lead(root) else Leader(list, roots)
  {
    assert (roots + [root])[..|roots|] == roots;
  }

  /** A root attested twice is agreed before one attested once, and the other's relayer slashed. */
  lemma TwoOutvoteOne(cfg: Config, relayers: map<string, RelayerInfo>, a: Attestation, b: Attestation, c: Attestation)
    requires cfg.quorum <= 2 && a.root == b.root != c.root && a.root != "" && c.relayerKey in relayers
    ensures var list := [a] + [b] + [c];
      && Decide(cfg, relayers, list) == Finalized(a.root, [a.relayerKey] + [b.relayerKey], [c.relayerKey])
      && c.relayerKey in SlashAll(relayers, list, a.root)
      && SlashAll(relayers, list, a.root)[c.relayerKey] == Slashed(relayers[c.relayerKey])
  {
    hide Supporters, Roots, Dissenters, SlashAll, Leader, Slashed;
    var list := [a] + [b] + [c];
    NoTally(relayers, list, a.root);
    NoTally(relayers, list, c.root);
    assert [] + [a] == [a] && [] + [a.root] == [a.root];
    assert [] + [a.relayerKey] == [a.relayerKey] && [] + [c.relayerKey] == [c.relayerKey];
    TallyLast(relayers, [], a, a.root);
    TallyLast(relayers, [], a, c.root);
    TallyLast(relayers, [a], b, a.root);
    TallyLast(relayers, [a], b, c.root);
    TallyLast(relayers, [a] + [b], c, a.root);
    TallyLast(relayers, [a] + [b], c, c.root);
    assert Supporters(list, a.root) == [a.relayerKey] + [b.relayerKey] && Supporters(list, c.root) == [c.relayerKey];
    LeaderLast(list, [], a.root);
    LeaderLast(list, [a.root], c.root);
  }

  lemma NoTally(relayers: map<string, RelayerInfo>, list: seq<Attestation>, root: string)
    ensures Supporters([], root) == [] && Roots([]) == [] && Dissenters(relayers, [], root) == []
    ensures SlashAll(relayers, [], root) == relayers && Leader(list, []) == Nobody
  {
  }
}
