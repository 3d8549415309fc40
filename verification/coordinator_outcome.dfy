/**
 * What the coordinator's calls do in every reachable state, told by the attestations and their places alone: which
 * submissions are taken, what a signature is good for, and what deciding a height decides.
 */
module CoordinatorOutcome {
  import opened Coordinator
  import opened CoordinatorSafety
  import opened Wrappers
  import Decimal

  // ---- What is signed ------------------------------------------------------------------------------

  /** The decimal text of an integer: digits without leading zeros, after a sign if it is negative. */
  ghost predicate IsDecimal(text: string, n: int) {
    if n >= 0 then text != "" && IsNatural(text, n)
    else text != "" && text[0] == '-' && IsNatural(text[1..], -n)
  }

  ghost predicate IsNatural(text: string, n: nat) {
    Decimal.AllDigits(text) && Decimal.NoLeadingZero(text) && Decimal.Value(text) == n
  }

  lemma HeightText(n: int)
    ensures IsDecimal(IntText(n), n)
    ensures '|' !in IntText(n)
  {
    var m := if n < 0 then -n else n;
    Decimal.TextRoundTrip(m);
    Decimal.ToTextHasNoLeadingZero(m);
    var text := Decimal.ToText(m);
    assert forall i | 0 <= i < |text| :: Decimal.IsDigit(text[i]);
    if n < 0 {
      assert ("-" + text)[1..] == text;
    }
    hide Decimal.ToText, Decimal.Value;
  }

  lemma DecimalIsUnique(text: string, n: int)
    requires IsDecimal(text, n)
    ensures text == IntText(n)
  {
    if n >= 0 {
      Decimal.ValueRoundTrip(text);
    } else {
      Decimal.ValueRoundTrip(text[1..]);
      assert text == "-" + text[1..];
    }
  }

  /** The text that a relayer signs for a root at a height of a chain. */
  ghost predicate IsSignedText(chain: string, height: int, root: string, text: string) {
    exists h :: IsDecimal(h, height) && text == chain + "|" + h + "|" + root
  }

  lemma SignedTextIs(cfg: Config, height: int, root: string, text: string)
    ensures IsSignedText(cfg.chain, height, root, text) <==> text == Message(cfg, height, root)
  {
    HeightText(height);
    hide IntText, IsDecimal;
    if IsSignedText(cfg.chain, height, root, text) {
      var h :| IsDecimal(h, height) && text == cfg.chain + "|" + h + "|" + root;
      DecimalIsUnique(h, height);
    }
  }

  /** A text splits at its first bar in one way. */
  lemma FirstBar(a: string, s: string, b: string, t: string)
    requires '|' !in a && '|' !in b && a + "|" + s == b + "|" + t
    ensures a == b && s == t
  {
    var x, y := a + "|" + s, b + "|" + t;
    assert x[|a|] == '|' && y[|b|] == '|';
    assert forall i | 0 <= i < |a| :: x[i] == a[i];
    assert forall i | 0 <= i < |b| :: y[i] == b[i];
    assert a == x[..|a|] && b == y[..|b|] && s == x[|a| + 1..] && t == y[|b| + 1..];
  }

  /** The signed text of a chain determines height and root, so no signature is good for another height. */
  lemma SignedTextSplits(chain: string, height: int, root: string, height': int, root': string, text: string)
    requires IsSignedText(chain, height, root, text) && IsSignedText(chain, height', root', text)
    ensures height == height' && root == root'
  {
    hide IntText, IsDecimal;
    var h :| IsDecimal(h, height) && text == chain + "|" + h + "|" + root;
    var h' :| IsDecimal(h', height') && text == chain + "|" + h' + "|" + root';
    DecimalIsUnique(h, height);
    DecimalIsUnique(h', height');
    HeightText(height);
    HeightText(height');
    assert text == (chain + "|") + (h + "|" + root) == (chain + "|") + (h' + "|" + root');
    assert h + "|" + root == text[|chain| + 1..] == h' + "|" + root';
    FirstBar(h, root, h', root');
    OneInteger(h, height, height');
  }

  lemma OneInteger(h: string, n: int, m: int)
    requires IsDecimal(h, n) && IsDecimal(h, m)
    ensures n == m
  {
    hide Decimal.Value;
    assert h[0] == '-' ==> !Decimal.IsDigit(h[0]);
  }

  /** Whatever signature of a relayer checks was made for a text among the ones it signed. */
  ghost predicate SignedOnly(cfg: Config, key: string, signed: set<(int, string)>) {
    forall text, signature | cfg.check(key, text, signature) ::
      exists height, root :: (height, root) in signed && IsSignedText(cfg.chain, height, root, text)
  }

  /**
   * In every run: an attestation recorded for a height stands for a root that its relayer signed for that very height.
   */
  lemma RecordedWasSigned(cfg: Config, ops: seq<Op>, height: int, a: Attestation, signed: set<(int, string)>)
    requires SignedOnly(cfg, a.relayerKey, signed) && a in Listed(Run(cfg, ops), height)
    ensures a.height == height && (height, a.root) in signed
  {
    Reachable(cfg, ops);
    var s := Run(cfg, ops);
    var list := Listed(s, height);
    assert ProperList(cfg, s, height, list);
    var i :| 0 <= i < |list| && list[i] == a;
    hide Run, Message, IsSignedText;
    var text := Message(cfg, height, a.root);
    SignedTextIs(cfg, height, a.root, text);
    var h, root :| (h, root) in signed && IsSignedText(cfg.chain, h, root, text);
    SignedTextSplits(cfg.chain, height, a.root, h, root, text);
  }

  // ---- Which submissions are taken -----------------------------------------------------------------

  ghost predicate HasAttested(list: seq<Attestation>, key: string) {
    exists i :: 0 <= i < |list| && list[i].relayerKey == key
  }

  /** The signature checks for the text of the attestation. */
  ghost predicate ProperlySigned(cfg: Config, att: Attestation) {
    forall text | IsSignedText(cfg.chain, att.height, att.root, text) :: cfg.check(att.relayerKey, text, att.signature)
  }

  /**
   * In every reachable state: a submission is recorded, last of its height, if and only if its relayer has a bond, its
   * signature checks, its height is open and its relayer has not attested it; otherwise it is refused for the first of
   * these reasons and changes nothing.
   */
  lemma SubmissionIsTaken(cfg: Config, ops: seq<Op>, att: Attestation)
    ensures var s, s' := Run(cfg, ops), Run(cfg, ops + [SubmitOp(att)]);
      var bonded := att.relayerKey in s.relayers && s.relayers[att.relayerKey].bond > 0;
      var open := att.height !in s.finalized;
      var first := !HasAttested(Listed(s, att.height), att.relayerKey);
      && s' == (if bonded && ProperlySigned(cfg, att) && open && first
                then s.(attestations := s.attestations[att.height := Listed(s, att.height) + [att]]) else s)
      && Submitted(cfg, s, att) ==
           if !bonded then Err(UnknownRelayer)
           else if !ProperlySigned(cfg, att) then Err(InvalidSignature)
           else if !open then Err(AlreadyFinalized)
           else if !first then Err(AlreadyAttested)
           else Ok(s')
  {
    BondConservation(cfg, ops, att.relayerKey);
    RunLast(cfg, ops, SubmitOp(att));
    SignedIffChecks(cfg, att);
    var s := Run(cfg, ops);
    hide Run, StandingOf, Message, IsSignedText, Accounted, ProperlySigned;
    assert att.relayerKey in s.relayers ==>
      (s.relayers[att.relayerKey].active <==> s.relayers[att.relayerKey].bond > 0);
  }

  lemma SignedIffChecks(cfg: Config, att: Attestation)
    ensures ProperlySigned(cfg, att) <==> cfg.check(att.relayerKey, Message(cfg, att.height, att.root), att.signature)
  {
    hide IsSignedText, Message;
    var text := Message(cfg, att.height, att.root);
    SignedTextIs(cfg, att.height, att.root, text);
    forall t | IsSignedText(cfg.chain, att.height, att.root, t) ensures t == text {
      SignedTextIs(cfg, att.height, att.root, t);
    }
  }

  /** A registration with a positive bond makes the relayer's entry whole, whatever was there; any other is refused. */
  lemma RegistrationIsWhole(cfg: Config, ops: seq<Op>, key: string, bond: int)
    ensures var s, s' := Run(cfg, ops), Run(cfg, ops + [RegisterOp(key, bond)]);
      if bond > 0 then s' == s.(relayers := s.relayers[key := RelayerInfo(key, bond, 0, true)]) else s' == s
  {
    RunLast(cfg, ops, RegisterOp(key, bond));
    hide Run;
  }

  // ---- What deciding a height decides --------------------------------------------------------------

  /** The places at which a root is attested. */
  ghost function Places(list: seq<Attestation>, root: string): set<nat> {
    set i: nat | i < |list| && list[i].root == root
  }

  /** More places than every other root, or as many and the first of them earlier. */
  ghost predicate Leads(list: seq<Attestation>, root: string) {
    && Places(list, root) != {}
    && forall other | other != root && Places(list, other) != {} ::
      || |Places(list, other)| < |Places(list, root)|
      || (|Places(list, other)| == |Places(list, root)| && FirstPlace(list, root, other))
  }

  /** Some place of the root comes before all places of the other. */
  ghost predicate FirstPlace(list: seq<Attestation>, root: string, other: string) {
    exists i :: i in Places(list, root) && forall j | j in Places(list, other) :: i < j
  }

  lemma {:induction false} VotesArePlaces(list: seq<Attestation>, root: string)
    ensures |Supporters(list, root)| == |Places(list, root)|
  {
    if list != [] {
      var n := |list| - 1;
      var init := list[..n];
      VotesArePlaces(init, root);
      assert Places(list, root) == Places(init, root) + if list[n].root == root then {n} else {} by {
        forall i: nat ensures i in Places(list, root) <==>
          i in Places(init, root) || (i == n && list[n].root == root)
        {
          assert i < n ==> init[i] == list[i];
        }
      }
    }
  }

  lemma AttestedIsPlaced(list: seq<Attestation>, root: string)
    ensures Attested(list, root) <==> Places(list, root) != {}
  {
    if Attested(list, root) {
      var i :| 0 <= i < |list| && list[i].root == root;
      assert i in Places(list, root);
    }
    if i :| i in Places(list, root) {
      assert list[i].root == root;
    }
  }

  lemma FirstAtIsFirstPlace(list: seq<Attestation>, root: string, other: string)
    requires Attested(list, root) && Attested(list, other)
    ensures FirstAt(list, root) < FirstAt(list, other) <==> FirstPlace(list, root, other)
  {
    var i, j := FirstAt(list, root), FirstAt(list, other);
    AttestedPlaces(list, root);
    AttestedPlaces(list, other);
    if i < j {
      assert i in Places(list, root) && forall k | k in Places(list, other) :: i < k;
    }
    if FirstPlace(list, root, other) {
      var k :| k in Places(list, root) && forall l | l in Places(list, other) :: k < l;
    }
  }

  lemma AttestedPlaces(list: seq<Attestation>, root: string)
    requires Attested(list, root)
    ensures FirstAt(list, root) in Places(list, root)
    ensures forall k | k in Places(list, root) :: FirstAt(list, root) <= k
  {
  }

  lemma LeadsIsPlurality(list: seq<Attestation>, root: string)
    ensures Leads(list, root) <==> IsPlurality(list, root)
  {
    hide Supporters, FirstPlace, Places, Attested, FirstAt;
    forall other ensures |Supporters(list, other)| == |Places(list, other)| {
      VotesArePlaces(list, other);
    }
    forall other ensures Attested(list, other) <==> Places(list, other) != {} {
      AttestedIsPlaced(list, other);
    }
    forall other | Attested(list, root) && Attested(list, other)
      ensures FirstAt(list, root) < FirstAt(list, other) <==> FirstPlace(list, root, other)
    {
      FirstAtIsFirstPlace(list, root, other);
    }
  }

  /** The keys at the places where a condition holds, in the order of the list. */
  ghost predicate KeysAt(keys: seq<string>, list: seq<Attestation>, root: string, agreeing: bool) {
    && (forall k :: k in keys <==> exists i ::
         0 <= i < |list| && list[i].relayerKey == k && (list[i].root == root) == agreeing)
    && (forall a, b | 0 <= a < b < |keys| :: keys[a] != keys[b])
    && forall a, b, i, j | 0 <= a < b < |keys| && 0 <= i < |list| && 0 <= j < |list| &&
         keys[a] == list[i].relayerKey && keys[b] == list[j].relayerKey :: i < j
  }

  /** One attestation per relayer. */
  ghost predicate OnePerRelayer(list: seq<Attestation>) {
    forall i, j | 0 <= i < j < |list| :: list[i].relayerKey != list[j].relayerKey
  }

  lemma {:induction false} SupportersAt(list: seq<Attestation>, root: string)
    requires OnePerRelayer(list)
    ensures KeysAt(Supporters(list, root), list, root, true)
  {
    hide KeysAt;
    if list == [] {
      NoKeysAt(root, true);
    } else {
      var n := |list| - 1;
      SupportersAt(list[..n], root);
      KeysAtOneMore(Supporters(list[..n], root), list[..n], Supporters(list, root), list, root, true);
    }
  }

  lemma {:induction false} DissentersAt(relayers: map<string, RelayerInfo>, list: seq<Attestation>, root: string)
    requires OnePerRelayer(list) && forall i | 0 <= i < |list| :: list[i].relayerKey in relayers
    ensures KeysAt(Dissenters(relayers, list, root), list, root, false)
  {
    hide KeysAt;
    if list == [] {
      NoKeysAt(root, false);
    } else {
      var n := |list| - 1;
      DissentersAt(relayers, list[..n], root);
      KeysAtOneMore(Dissenters(relayers, list[..n], root), list[..n], Dissenters(relayers, list, root), list, root,
                    false);
    }
  }

  lemma NoKeysAt(root: string, agreeing: bool)
    ensures KeysAt([], [], root, agreeing)
  {
  }

  lemma KeysAtOneMore(before: seq<string>, init: seq<Attestation>, keys: seq<string>, list: seq<Attestation>,
                      root: string, agreeing: bool)
    requires OnePerRelayer(list) && list != [] && init == list[..|list| - 1] && KeysAt(before, init, root, agreeing)
    requires var a := list[|list| - 1];
      keys == before + if (a.root == root) == agreeing then [a.relayerKey] else []
    ensures KeysAt(keys, list, root, agreeing)
  {
    var n := |list| - 1;
    var taken := (list[n].root == root) == agreeing;
    InOrder(before, init, keys, list, taken);
    forall k ensures k in keys <==>
      exists i :: 0 <= i < |list| && list[i].relayerKey == k && (list[i].root == root) == agreeing
    {
      if i :| 0 <= i < n && init[i].relayerKey == k && (init[i].root == root) == agreeing {
        assert list[i] == init[i];
      }
      if i :| 0 <= i < n && list[i].relayerKey == k && (list[i].root == root) == agreeing {
        assert list[i] == init[i];
      }
    }
  }

  /** The last attestation's key comes last, if it is taken. */
  lemma InOrder(before: seq<string>, init: seq<Attestation>, keys: seq<string>, list: seq<Attestation>, taken: bool)
    requires OnePerRelayer(list) && list != [] && init == list[..|list| - 1]
    requires keys == before + if taken then [list[|list| - 1].relayerKey] else []
    requires forall k | k in before :: HasAttested(init, k)
    requires forall a, b | 0 <= a < b < |before| :: before[a] != before[b]
    requires forall a, b, i, j | 0 <= a < b < |before| && 0 <= i < |init| && 0 <= j < |init| &&
      before[a] == init[i].relayerKey && before[b] == init[j].relayerKey :: i < j
    ensures forall a, b | 0 <= a < b < |keys| :: keys[a] != keys[b]
    ensures forall a, b, i, j | 0 <= a < b < |keys| && 0 <= i < |list| && 0 <= j < |list| &&
      keys[a] == list[i].relayerKey && keys[b] == list[j].relayerKey :: i < j
  {
    var n := |list| - 1;
    forall a | 0 <= a < |before| ensures before[a] != list[n].relayerKey {
      assert before[a] in before;
      var i :| 0 <= i < n && init[i].relayerKey == before[a];
      assert list[i].relayerKey == before[a];
    }
    forall a, b, i, j | 0 <= a < b < |keys| && 0 <= i < |list| && 0 <= j < |list| &&
      keys[a] == list[i].relayerKey && keys[b] == list[j].relayerKey ensures i < j
    {
      assert keys[a] == before[a] && i != n;
      assert init[i] == list[i];
      if b < |before| {
        assert keys[b] == before[b] && j != n && init[j] == list[j];
      } else {
        assert j == n by {
          assert list[n].relayerKey == list[j].relayerKey;
        }
      }
    }
  }

  ghost predicate AttestedOther(list: seq<Attestation>, key: string, root: string) {
    exists i :: 0 <= i < |list| && list[i].relayerKey == key && list[i].root != root
  }

  /** The outcome for a list: the leading root, if it is not empty and has a quorum of places, or no agreement. */
  ghost predicate Decides(cfg: Config, list: seq<Attestation>, o: Outcome) {
    && (forall root :: o.Finalized? && o.agreedRoot == root <==>
          root != "" && Leads(list, root) && |Places(list, root)| >= cfg.quorum)
    && (o.Finalized? ==>
          KeysAt(o.attesters, list, o.agreedRoot, true) && KeysAt(o.challengers, list, o.agreedRoot, false))
  }

  /** Whoever attested another root than the agreed one loses its whole bond and its place, and nobody else does. */
  ghost predicate Punishes(list: seq<Attestation>, o: Outcome, before: map<string, RelayerInfo>,
                           after: map<string, RelayerInfo>) {
    && after.Keys == before.Keys
    && forall k | k in before ::
         after[k] == if o.Finalized? && AttestedOther(list, k, o.agreedRoot)
                     then RelayerInfo(before[k].key, 0, before[k].slashed + before[k].bond, false) else before[k]
  }

  /**
   * In every reachable state: while its window is open a height is not decided. After that the call decides it, for
   * good, by the attestations alone: the root with the most places wins, ties going to the one attested first, if it
   * is not empty and has a quorum, and everybody at another place is listed and slashed; otherwise there is no
   * agreement and nobody is slashed.
   */
  lemma DecisionIsThePlurality(cfg: Config, ops: seq<Op>, height: int, openedAt: int, now: int)
    ensures var s, s' := Run(cfg, ops), Run(cfg, ops + [FinalizeOp(height, openedAt, now)]);
      var list := Listed(s, height);
      if height in s.finalized || now - openedAt < cfg.window then s' == s
      else
        && height in s'.finalized && s'.attestations == s.attestations
        && s'.finalized == s.finalized[height := HeightStatus(height, s'.finalized[height].outcome)]
        && Decides(cfg, list, s'.finalized[height].outcome)
        && Punishes(list, s'.finalized[height].outcome, s.relayers, s'.relayers)
  {
    Reachable(cfg, ops);
    RunLast(cfg, ops, FinalizeOp(height, openedAt, now));
    var s := Run(cfg, ops);
    var list := Listed(s, height);
    hide Run, Decide, SlashAll, Decides, Punishes;
    if height !in s.finalized && now - openedAt >= cfg.window {
      ListIsProper(cfg, s, height);
      DecideDecides(cfg, s.relayers, list);
      SlashPunishes(cfg, s.relayers, list);
    }
  }

  lemma ListIsProper(cfg: Config, s: State, height: int)
    requires Inv(cfg, s)
    ensures OnePerRelayer(Listed(s, height))
    ensures forall i | 0 <= i < |Listed(s, height)| :: Listed(s, height)[i].relayerKey in s.relayers
  {
    hide Message;
    assert height in s.attestations ==> ProperList(cfg, s, height, s.attestations[height]);
  }

  lemma DecideDecides(cfg: Config, relayers: map<string, RelayerInfo>, list: seq<Attestation>)
    requires OnePerRelayer(list) && forall i | 0 <= i < |list| :: list[i].relayerKey in relayers
    ensures Decides(cfg, list, Decide(cfg, relayers, list))
  {
    hide Supporters, Roots, Leader, Dissenters, Leads, IsPlurality, Places, KeysAt;
    var o := Decide(cfg, relayers, list);
    forall root ensures o.Finalized? && o.agreedRoot == root <==>
      root != "" && Leads(list, root) && |Places(list, root)| >= cfg.quorum
    {
      TallyIsPlurality(list, root);
      LeadsIsPlurality(list, root);
      VotesArePlaces(list, root);
    }
    if o.Finalized? {
      SupportersAt(list, o.agreedRoot);
      DissentersAt(relayers, list, o.agreedRoot);
    }
  }

  lemma SlashPunishes(cfg: Config, relayers: map<string, RelayerInfo>, list: seq<Attestation>)
    ensures var o := Decide(cfg, relayers, list);
      Punishes(list, o, relayers, if o.Finalized? then SlashAll(relayers, list, o.agreedRoot) else relayers)
  {
    var o := Decide(cfg, relayers, list);
    hide Decide;
    if o.Finalized? {
      SlashEffect(relayers, list, o.agreedRoot);
      DissentersAre(relayers, list, o.agreedRoot);
      hide SlashAll, Dissenters;
    }
  }
}
