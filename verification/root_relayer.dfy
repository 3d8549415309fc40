/**
 * The checkpointed relay loop of crosschain/relayers/casper_root_relayer.ts: every event of a satellite
 * chain's log is committed, re-verified and routed to the Casper root.
 */
module RootRelayer {
  import opened Hashing
  import opened CanonicalJson
  import opened ProofService
  import opened Wrappers
  import Decimal

  datatype ChainEvent = ChainEvent(chain: string, kind: string, data: map<string, Json>)

  /** The calls that anchor a fact on Casper. */
  datatype CasperCall =
    | SubmitReceipt(envelope: Json)
    | ConfirmDraw(noteId: Option<Json>, amount: int)
    | RepayCredit(agentId: Option<Json>, repaid: Option<Json>)

  /** An adapter reports success, reports failure, or throws. */
  datatype Reply = Ok | Refused | Throws

  datatype Tally = Tally(anchored: nat, draws: nat, repayments: nat, rejected: nat, skipped: nat) {
    function Total(): nat {
      anchored + draws + repayments + rejected + skipped
    }
  }

  const ZERO: Tally := Tally(0, 0, 0, 0, 0)

  /** What route does with an event: one call, no call with the counter it bumps, or a throw before any call. */
  datatype Routing = Call(call: CasperCall) | Reject | Skip | Malformed

  // ---- Routing one event -------------------------------------------------------------------------

  /** A field that is present and not null (the ?? operator). */
  function Field(data: map<string, Json>, name: string): Option<Json> {
    if name in data && data[name] != Null then Some(data[name]) else None
  }

  /** The JavaScript truth of a value. */
  predicate Truthy(v: Json) {
    match v
    case Null => false
    case Bool(b) => b
    case Num(t) => t != "0"
    case Str(s) => s != ""
    case Arr(_) => true
    case Obj(_) => true
  }

  /** BigInt(String(amount ?? "0")): an integer, or None when it throws. */
  type AmountReader = Option<Json> -> Option<int>

  function RouteOf(amounts: AmountReader, kind: string, data: map<string, Json>): Routing {
    if kind == "ReceiptCreated" then
      if "envelope" in data && Truthy(data["envelope"]) then Call(SubmitReceipt(data["envelope"])) else Reject
    else if kind == "CreditDrawn" then
      match amounts(Field(data, "amount"))
      case None => Malformed
      case Some(n) => Call(ConfirmDraw(Field(data, "note_id"), n))
    else if kind == "CreditRepaid" then
      Call(RepayCredit(Field(data, "agent_id"), Field(data, "amount")))
    else Skip
  }

  function Bump(t: Tally, call: CasperCall, reply: Reply): Tally {
    match reply
    case Ok => (match call
      case SubmitReceipt(_) => t.(anchored := t.anchored + 1)
      case ConfirmDraw(_, _) => t.(draws := t.draws + 1)
      case RepayCredit(_, _) => t.(repayments := t.repayments + 1))
    case Refused => t.(rejected := t.rejected + 1)
    case Throws => t
  }

  // ---- Records -----------------------------------------------------------------------------------

  /** The height text of a record: its place in the satellite log. */
  function Height(n: nat): NumberText {
    var t := Decimal.ToText(n);
    assert forall i | 0 <= i < |t| :: IsNumberChar(t[i]) by {
      assert Decimal.AllDigits(t);
    }
    t
  }

  function RecordAt(log: seq<ChainEvent>, i: nat): ChainEventRecord
    requires i < |log|
  {
    ChainEventRecord(log[i].chain, log[i].kind, Height(i), log[i].data)
  }

  /** The records a sync builds from the events after the checkpoint. */
  function Records(log: seq<ChainEvent>, lo: nat): (records: seq<ChainEventRecord>)
    requires lo <= |log|
    ensures |records| == |log| - lo
    ensures forall i | 0 <= i < |records| :: records[i] == RecordAt(log, lo + i)
  {
    seq(|log| - lo, i requires 0 <= i < |log| - lo => RecordAt(log, lo + i))
  }

  predicate OneChain(log: seq<ChainEvent>) {
    forall i, j | 0 <= i < j < |log| :: log[i].chain == log[j].chain
  }

  // ---- One sync, as a function of what the adapter would reply -----------------------------------

  /** How an adapter answers its next call, given every call it has received, that one included. */
  type Adapter = seq<CasperCall> -> Reply

  /**
   * The state of a relay run: the checkpoint, every call Casper has received, and for each call the log
   * position it came from.
   */
  datatype State = State(checkpoint: nat, calls: seq<CasperCall>, sources: seq<nat>)

  const INITIAL: State := State(0, [], [])

  /** Progress through one sync's loop. */
  datatype Progress = Progress(state: State, tally: Tally, threw: bool)

  function RouteEvent(amounts: AmountReader, adapter: Adapter, kind: string, data: map<string, Json>,
                      at: nat, p: Progress): Progress {
    match RouteOf(amounts, kind, data)
    case Malformed => p.(threw := true)
    case Reject => p.(tally := p.tally.(rejected := p.tally.rejected + 1))
    case Skip => p.(tally := p.tally.(skipped := p.tally.skipped + 1))
    case Call(c) =>
      var calls := p.state.calls + [c];
      var reply := adapter(calls);
      Progress(p.state.(calls := calls, sources := p.state.sources + [at]), Bump(p.tally, c, reply), reply == Throws)
  }

  /** Routes the events at positions lo..hi of the log, stopping at the first throw. */
  function RouteRange(amounts: AmountReader, adapter: Adapter, log: seq<ChainEvent>, lo: nat, hi: nat,
                      p: Progress): Progress
    requires lo <= hi <= |log|
    decreases hi
  {
    if lo == hi then p
    else
      var q := RouteRange(amounts, adapter, log, lo, hi - 1, p);
      if q.threw then q else RouteEvent(amounts, adapter, log[hi - 1].kind, log[hi - 1].data, hi - 1, q)
  }

  /** A sync that sees the given log. A throw leaves the checkpoint where it was. */
  function SyncStep(amounts: AmountReader, adapter: Adapter, s: State, log: seq<ChainEvent>): Progress {
    if |log| <= s.checkpoint then Progress(s, ZERO, false)
    else if !SingleChain(Records(log, s.checkpoint)) then Progress(s, ZERO, true)
    else
      var p := RouteRange(amounts, adapter, log, s.checkpoint, |log|, Progress(s, ZERO, false));
      if p.threw then p else p.(state := p.state.(checkpoint := |log|))
  }

  // ---- The program -------------------------------------------------------------------------------

  class CasperAdapter {
    const reply: Adapter
    var calls: seq<CasperCall>

    constructor (reply: Adapter)
      ensures this.reply == reply && calls == []
    {
      this.reply := reply;
      calls := [];
    }

    method Invoke(call: CasperCall) returns (r: Reply)
      modifies this
      ensures calls == old(calls) + [call] && r == reply(calls)
    {
      calls := calls + [call];
      r := reply(calls);
    }
  }

  class CasperRootRelayer {
    const h: HashFn
    const sigs: Signatures
    const relayerKey: string
    const amounts: AmountReader
    const casper: CasperAdapter
    var checkpoint: nat
    /** For each call Casper has received, the log position it came from. */
    ghost var sources: seq<nat>

    constructor (h: HashFn, sigs: Signatures, relayerKey: string, amounts: AmountReader, casper: CasperAdapter)
      requires casper.calls == []
      ensures this.h == h && this.sigs == sigs && this.relayerKey == relayerKey
      ensures this.amounts == amounts && this.casper == casper
      ensures Current() == INITIAL
    {
      this.h, this.sigs, this.relayerKey, this.amounts, this.casper := h, sigs, relayerKey, amounts, casper;
      checkpoint, sources := 0, [];
    }

    ghost function Current(): State
      reads this, casper
    {
      State(checkpoint, casper.calls, sources)
    }

    /** Returns the counters, or threw when committing, reading an amount or the adapter throws. */
    method Sync(log: seq<ChainEvent>) returns (tally: Tally, threw: bool)
      requires SignsFor(sigs, relayerKey)
      modifies this, casper
      ensures Progress(Current(), tally, threw) == SyncStep(amounts, casper.reply, old(Current()), log)
    {
      tally, threw := ZERO, false;
      if |log| <= checkpoint {
        return;
      }
      var records := Records(log, checkpoint);
      var batch := CommitBatch(h, sigs, relayerKey, records);
      if batch.MixedChains? {
        threw := true;
        return;
      }
      ghost var start := Progress(Current(), ZERO, false);
      var i := 0;
      while i < |batch.proofs|
        invariant i <= |batch.proofs| == |log| - checkpoint
        invariant checkpoint == old(checkpoint)
        invariant Progress(Current(), tally, false) ==
          RouteRange(amounts, casper.reply, log, checkpoint, checkpoint + i, start)
      {
        var proof := batch.proofs[i];
        EmittedProofsVerify(h, sigs, relayerKey, records, i, Some({relayerKey}));
        assert proof.record == RecordAt(log, checkpoint + i);
        var verdict := Verify(h, sigs, proof, Some({relayerKey}));
        if verdict != Accepted {
          // A rejection would be counted here; the relayer's own proofs never take this branch.
          assert false;
        } else {
          tally, threw := Route(proof.record.eventType, proof.record.payload, checkpoint + i, tally);
          if threw {
            RouteStopped(amounts, casper.reply, log, checkpoint, checkpoint + i + 1, |log|, start);
            return;
          }
        }
        i := i + 1;
      }
      checkpoint := |log|;
    }

    method Route(kind: string, data: map<string, Json>, ghost at: nat, before: Tally)
      returns (tally: Tally, threw: bool)
      modifies casper, `sources
      ensures Progress(Current(), tally, threw) ==
              RouteEvent(amounts, casper.reply, kind, data, at, Progress(old(Current()), before, false))
    {
      tally, threw := before, false;
      var call: CasperCall;
      if kind == "ReceiptCreated" {
        if "envelope" !in data || !Truthy(data["envelope"]) {
          tally := tally.(rejected := tally.rejected + 1);
          return;
        }
        call := SubmitReceipt(data["envelope"]);
      } else if kind == "CreditDrawn" {
        var amount := amounts(Field(data, "amount"));
        if amount == None {
          threw := true;
          return;
        }
        call := ConfirmDraw(Field(data, "note_id"), amount.value);
      } else if kind == "CreditRepaid" {
        call := RepayCredit(Field(data, "agent_id"), Field(data, "amount"));
      } else {
        tally := tally.(skipped := tally.skipped + 1);
        return;
      }
      var reply := casper.Invoke(call);
      sources := sources + [at];
      tally, threw := Bump(tally, call, reply), reply == Throws;
    }
  }

  /** Once an event has thrown, the rest of the range is not looked at. */
  lemma {:induction false} RouteStopped(amounts: AmountReader, adapter: Adapter, log: seq<ChainEvent>,
                                        lo: nat, mid: nat, hi: nat, p: Progress)
    requires lo <= mid <= hi <= |log|
    requires RouteRange(amounts, adapter, log, lo, mid, p).threw
    ensures RouteRange(amounts, adapter, log, lo, hi, p) == RouteRange(amounts, adapter, log, lo, mid, p)
    decreases hi
  {
    if mid < hi {
      RouteStopped(amounts, adapter, log, lo, mid, hi - 1, p);
    }
  }
}
