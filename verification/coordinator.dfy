/**
 * The multi-relayer optimistic coordinator of crosschain/trust-ladder/multi_relayer.ts: bonded relayers
 * attest a root per height; finalizing a height adopts the leading root and slashes everyone else.
 */
module Coordinator {
  import Decimal

  datatype RelayerInfo = RelayerInfo(key: string, bond: int, slashed: int, active: bool)

  datatype Attestation = Attestation(relayerKey: string, height: int, root: string, signature: string)

  datatype Outcome =
    | NoQuorum
    | Finalized(agreedRoot: string, attesters: seq<string>, challengers: seq<string>)

  datatype HeightStatus = HeightStatus(height: int, outcome: Outcome)

  datatype Error = BondNotPositive | UnknownRelayer | InvalidSignature | AlreadyFinalized | AlreadyAttested | WindowOpen

  datatype Config = Config(chain: string, quorum: int, window: int, check: (string, string, string) -> bool)

  datatype State = State(
    relayers: map<string, RelayerInfo>,
    attestations: map<int, seq<Attestation>>,
    finalized: map<int, HeightStatus>)

  const EMPTY: State := State(map[], map[], map[])

  datatype Result<+T> = Ok(value: T) | Err(error: Error)

  // ---- Tallying a height -------------------------------------------------------------------------

  /** The relayers that attested a root, in submission order. */
  function Supporters(list: seq<Attestation>, root: string): seq<string> {
    if list == [] then []
    else
      var a := list[|list| - 1];
      Supporters(list[..|list| - 1], root) + (if a.root == root then [a.relayerKey] else [])
  }

  /** The attested roots, each at its first appearance. */
  function Roots(list: seq<Attestation>): seq<string> {
    if list == [] then []
    else
      var earlier := Roots(list[..|list| - 1]);
      if list[|list| - 1].root in earlier then earlier else earlier + [list[|list| - 1].root]
  }

  datatype Lead = Nobody | Lead(root: string)

  function Votes(list: seq<Attestation>, lead: Lead): nat {
    match lead
    case Nobody => 0
    case Lead(root) => |Supporters(list, root)|
  }

  /** The root a left-to-right scan keeps: one displaces the leader only with strictly more votes. */
  function Leader(list: seq<Attestation>, roots: seq<string>): Lead {
    if roots == [] then Nobody
    else
      var lead := Leader(list, roots[..|roots| - 1]);
      var next := Lead(roots[|roots| - 1]);
      if Votes(list, next) > Votes(list, lead) then next else lead
  }

  /** The relayers that attested some other root and are registered, in submission order. */
  function Dissenters(relayers: map<string, RelayerInfo>, list: seq<Attestation>, root: string): seq<string> {
    if list == [] then []
    else
      var a := list[|list| - 1];
      Dissenters(relayers, list[..|list| - 1], root) +
      (if a.root != root && a.relayerKey in relayers then [a.relayerKey] else [])
  }

  function Slashed(info: RelayerInfo): RelayerInfo {
    info.(slashed := info.slashed + info.bond, bond := 0, active := false)
  }

  /** The registry after every dissenter has lost its bond. */
  function SlashAll(relayers: map<string, RelayerInfo>, list: seq<Attestation>,
                    root: string): map<string, RelayerInfo> {
    if list == [] then relayers
    else
      var a := list[|list| - 1];
      var earlier := SlashAll(relayers, list[..|list| - 1], root);
      if a.root != root && a.relayerKey in earlier then earlier[a.relayerKey := Slashed(earlier[a.relayerKey])]
      else earlier
  }

  /** What finalizing a height decides. The empty root counts as no agreement. */
  function Decide(cfg: Config, relayers: map<string, RelayerInfo>, list: seq<Attestation>): Outcome {
    var lead := Leader(list, Roots(list));
    if lead == Nobody || lead == Lead("") || Votes(list, lead) < cfg.quorum then NoQuorum
    else Finalized(lead.root, Supporters(list, lead.root), Dissenters(relayers, list, lead.root))
  }

  // ---- The three operations ----------------------------------------------------------------------

  function IntText(n: int): string {
    if n < 0 then "-" + Decimal.ToText(-n) else Decimal.ToText(n)
  }

  function Message(cfg: Config, height: int, root: string): string {
    cfg.chain + "|" + IntText(height) + "|" + root
  }

  function Listed(s: State, height: int): seq<Attestation> {
    if height in s.attestations then s.attestations[height] else []
  }

  function Register(s: State, key: string, bond: int): Result<State> {
    if bond <= 0 then Err(BondNotPositive)
    else Ok(s.(relayers := s.relayers[key := RelayerInfo(key, bond, 0, true)]))
  }

  function Submitted(cfg: Config, s: State, att: Attestation): Result<State> {
    if att.relayerKey !in s.relayers || !s.relayers[att.relayerKey].active then Err(UnknownRelayer)
    else if !cfg.check(att.relayerKey, Message(cfg, att.height, att.root), att.signature) then Err(InvalidSignature)
    else if att.height in s.finalized then Err(AlreadyFinalized)
    else if exists i | 0 <= i < |Listed(s, att.height)| :: Listed(s, att.height)[i].relayerKey == att.relayerKey
    then Err(AlreadyAttested)
    else Ok(s.(attestations := s.attestations[att.height := Listed(s, att.height) + [att]]))
  }

  /** The state after a height has been decided for the first time. */
  function Decided(cfg: Config, s: State, height: int): State {
    var list := Listed(s, height);
    var outcome := Decide(cfg, s.relayers, list);
    State(if outcome.Finalized? then SlashAll(s.relayers, list, outcome.agreedRoot) else s.relayers,
          s.attestations,
          s.finalized[height := HeightStatus(height, outcome)])
  }

  function FinalizedAt(cfg: Config, s: State, height: int, openedAt: int, now: int): Result<State> {
    if height in s.finalized then Ok(s)
    else if now - openedAt < cfg.window then Err(WindowOpen)
    else Ok(Decided(cfg, s, height))
  }

  /** A map from roots to keys that groups a list of attestations. */
  ghost predicate Groups(byRoot: map<string, seq<string>>, list: seq<Attestation>) {
    && (forall root :: root in byRoot <==> root in Roots(list))
    && forall root | root in byRoot :: byRoot[root] == Supporters(list, root)
  }

  lemma {:induction false} UnattestedRoot(list: seq<Attestation>, root: string)
    requires root !in Roots(list)
    ensures Supporters(list, root) == []
  {
    if list != [] {
      UnattestedRoot(list[..|list| - 1], root);
    }
  }

  lemma NothingGrouped()
    ensures Groups(map[], []) && Roots([]) == []
  {
  }

  lemma GroupsExtend(byRoot: map<string, seq<string>>, list: seq<Attestation>, a: Attestation)
    requires Groups(byRoot, list)
    ensures var arr := if a.root in byRoot then byRoot[a.root] else [];
      Groups(byRoot[a.root := arr + [a.relayerKey]], list + [a])
    ensures Roots(list + [a]) == if a.root in byRoot then Roots(list) else Roots(list) + [a.root]
  {
    assert (list + [a])[..|list|] == list;
    if a.root !in byRoot {
      UnattestedRoot(list, a.root);
    }
  }

  // ---- The program -------------------------------------------------------------------------------

  class MultiRelayerCoordinator {
    const cfg: Config
    var relayers: map<string, RelayerInfo>
    var attestations: map<int, seq<Attestation>>
    var finalized: map<int, HeightStatus>

    constructor (cfg: Config)
      ensures this.cfg == cfg && Current() == EMPTY
    {
      this.cfg := cfg;
      relayers, attestations, finalized := map[], map[], map[];
    }

    function Current(): State
      reads this
    {
      State(relayers, attestations, finalized)
    }

    method RegisterRelayer(key: string, bond: int) returns (r: Result<string>)
      modifies this
      ensures match Register(old(Current()), key, bond)
        case Ok(s) => Current() == s && r == Ok(key)
        case Err(e) => Current() == old(Current()) && r == Err(e)
    {
      if bond <= 0 {
        return Err(BondNotPositive);
      }
      relayers := relayers[key := RelayerInfo(key, bond, 0, true)];
      r := Ok(key);
    }

    method Submit(att: Attestation) returns (r: Result<()>)
      modifies this
      ensures match Submitted(cfg, old(Current()), att)
        case Ok(s) => Current() == s && r == Ok(())
        case Err(e) => Current() == old(Current()) && r == Err(e)
    {
      if att.relayerKey !in relayers || !relayers[att.relayerKey].active {
        return Err(UnknownRelayer);
      }
      if !cfg.check(att.relayerKey, Message(cfg, att.height, att.root), att.signature) {
        return Err(InvalidSignature);
      }
      if att.height in finalized {
        return Err(AlreadyFinalized);
      }
      var list := if att.height in attestations then attestations[att.height] else [];
      for i := 0 to |list|
        invariant forall j | 0 <= j < i :: list[j].relayerKey != att.relayerKey
      {
        if list[i].relayerKey == att.relayerKey {
          return Err(AlreadyAttested);
        }
      }
      attestations := attestations[att.height := list + [att]];
      r := Ok(());
    }

    method Finalize(height: int, openedAt: int, now: int) returns (r: Result<HeightStatus>)
      modifies this
      ensures match FinalizedAt(cfg, old(Current()), height, openedAt, now)
        case Ok(s) => Current() == s && height in s.finalized && r == Ok(s.finalized[height])
        case Err(e) => Current() == old(Current()) && r == Err(e)
    {
      if height in finalized {
        return Ok(finalized[height]);
      }
      if now - openedAt < cfg.window {
        return Err(WindowOpen);
      }
      var list := if height in attestations then attestations[height] else [];
      var lead, best := PickLeader(list);
      if lead == Nobody || lead == Lead("") || |best| < cfg.quorum {
        var none := HeightStatus(height, NoQuorum);
        finalized := finalized[height := none];
        return Ok(none);
      }
      var agreed := lead.root;
      var challengers := SlashDissenters(list, agreed);
      var status := HeightStatus(height, Finalized(agreed, best, challengers));
      finalized := finalized[height := status];
      r := Ok(status);
    }

    /** The tallying loops of finalize: group the keys by root, then keep the longest group. */
    method PickLeader(list: seq<Attestation>) returns (lead: Lead, best: seq<string>)
      ensures lead == Leader(list, Roots(list))
      ensures best == (if lead == Nobody then [] else Supporters(list, lead.root))
    {
      var byRoot, order := GroupByRoot(list);
      lead, best := Nobody, [];
      for i := 0 to |order|
        invariant lead == Leader(list, order[..i])
        invariant best == (if lead == Nobody then [] else Supporters(list, lead.root))
      {
        assert order[..i + 1][..i] == order[..i];
        var keys := byRoot[order[i]];
        if |keys| > |best| {
          best := keys;
          lead := Lead(order[i]);
        }
      }
      assert order[..|order|] == order;
    }

    method GroupByRoot(list: seq<Attestation>) returns (byRoot: map<string, seq<string>>, order: seq<string>)
      ensures order == Roots(list)
      ensures forall i | 0 <= i < |order| :: order[i] in byRoot && byRoot[order[i]] == Supporters(list, order[i])
    {
      hide Roots, Supporters;
      byRoot, order := map[], [];
      assert list[..0] == [];
      NothingGrouped();
      for i := 0 to |list|
        invariant order == Roots(list[..i])
        invariant Groups(byRoot, list[..i])
      {
        var a := list[i];
        var arr := if a.root in byRoot then byRoot[a.root] else [];
        if a.root !in byRoot {
          order := order + [a.root];
        }
        GroupsExtend(byRoot, list[..i], a);
        assert list[..i] + [a] == list[..i + 1];
        byRoot := byRoot[a.root := arr + [a.relayerKey]];
      }
      assert list[..|list|] == list;
    }

    method SlashDissenters(list: seq<Attestation>, agreed: string) returns (challengers: seq<string>)
      modifies `relayers
      ensures relayers == SlashAll(old(relayers), list, agreed)
      ensures challengers == Dissenters(old(relayers), list, agreed)
    {
      challengers := [];
      for i := 0 to |list|
        invariant relayers == SlashAll(old(relayers), list[..i], agreed)
        invariant relayers.Keys == old(relayers).Keys
        invariant challengers == Dissenters(old(relayers), list[..i], agreed)
      {
        assert list[..i + 1][..i] == list[..i];
        var a := list[i];
        if a.root != agreed {
          if a.relayerKey in relayers {
            relayers := relayers[a.relayerKey := Slashed(relayers[a.relayerKey])];
            challengers := challengers + [a.relayerKey];
          }
        }
      }
      assert list[..|list|] == list;
    }
  }
}
