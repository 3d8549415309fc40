/**
 * Which calls the events of a satellite log lead to, and what each counter of a sync counts, told by the events' kinds
 * and fields and by Casper's replies alone.
 */
module RelayMeaning {
  import opened CanonicalJson
  import opened ProofService
  import opened Wrappers
  import opened RootRelayer
  import opened RelayRuns

  // ---- What an event leads to ----------------------------------------------------------------------

  /** The field's value; nothing when it is missing or null. */
  ghost predicate IsField(data: map<string, Json>, name: string, value: Option<Json>) {
    match value
    case Some(v) => name in data && data[name] == v && v != Null
    case None => name in data ==> data[name] == Null
  }

  /** The values that count as missing. */
  ghost predicate Falsy(v: Json) {
    v in {Null, Bool(false), Num("0"), Str("")}
  }

  ghost predicate HasEnvelope(e: ChainEvent, v: Json) {
    "envelope" in e.data && e.data["envelope"] == v && !Falsy(v)
  }

  /** A receipt's envelope is submitted, a draw's note is confirmed with its amount, a repayment is passed on. */
  ghost predicate LeadsTo(amounts: AmountReader, e: ChainEvent, call: CasperCall) {
    match call
    case SubmitReceipt(v) => e.kind == "ReceiptCreated" && HasEnvelope(e, v)
    case ConfirmDraw(note, n) =>
      e.kind == "CreditDrawn" && IsField(e.data, "note_id", note) && Reads(amounts, e, Some(n))
    case RepayCredit(agent, amount) =>
      e.kind == "CreditRepaid" && IsField(e.data, "agent_id", agent) && IsField(e.data, "amount", amount)
  }

  /** What reading the event's amount gives; nothing when it throws. */
  ghost predicate Reads(amounts: AmountReader, e: ChainEvent, n: Option<int>) {
    exists f :: IsField(e.data, "amount", f) && amounts(f) == n
  }

  ghost predicate LacksEnvelope(e: ChainEvent) {
    e.kind == "ReceiptCreated" && forall v :: !HasEnvelope(e, v)
  }

  ghost predicate Unreadable(amounts: AmountReader, e: ChainEvent) {
    e.kind == "CreditDrawn" && Reads(amounts, e, None)
  }

  ghost predicate OfNoConcern(e: ChainEvent) {
    e.kind !in {"ReceiptCreated", "CreditDrawn", "CreditRepaid"}
  }

  lemma FieldIs(data: map<string, Json>, name: string, value: Option<Json>)
    ensures IsField(data, name, value) <==> Field(data, name) == value
  {
  }

  lemma TruthyIs(v: Json)
    ensures Truthy(v) <==> !Falsy(v)
  {
  }

  lemma ReadsIs(amounts: AmountReader, e: ChainEvent, n: Option<int>)
    ensures Reads(amounts, e, n) <==> amounts(Field(e.data, "amount")) == n
  {
    forall f ensures IsField(e.data, "amount", f) <==> Field(e.data, "amount") == f {
      FieldIs(e.data, "amount", f);
    }
    hide IsField, Field;
  }

  /** Every event leads to one call, or is rejected, or is skipped, or makes the relayer throw: exactly one of these. */
  lemma EventsMean(amounts: AmountReader, e: ChainEvent)
    ensures forall call :: RouteOf(amounts, e.kind, e.data) == Call(call) <==> LeadsTo(amounts, e, call)
    ensures RouteOf(amounts, e.kind, e.data) == Reject <==> LacksEnvelope(e)
    ensures RouteOf(amounts, e.kind, e.data) == Skip <==> OfNoConcern(e)
    ensures RouteOf(amounts, e.kind, e.data) == Malformed <==> Unreadable(amounts, e)
  {
    forall n ensures Reads(amounts, e, n) <==> amounts(Field(e.data, "amount")) == n {
      ReadsIs(amounts, e, n);
    }
    forall name, value ensures IsField(e.data, name, value) <==> Field(e.data, name) == value {
      FieldIs(e.data, name, value);
    }
    forall v ensures Truthy(v) <==> !Falsy(v) {
      TruthyIs(v);
    }
    hide Reads, IsField, Field, Truthy, Falsy;
    assert "envelope" in e.data && Truthy(e.data["envelope"]) ==> HasEnvelope(e, e.data["envelope"]);
  }

  // ---- Calls of a run ------------------------------------------------------------------------------

  ghost predicate CallsOfLog(amounts: AmountReader, log: seq<ChainEvent>, s: State) {
    && |s.calls| == |s.sources|
    && forall i | 0 <= i < |s.calls| :: s.sources[i] < |log| && LeadsTo(amounts, log[s.sources[i]], s.calls[i])
  }

  lemma MatchingCalls(amounts: AmountReader, log: seq<ChainEvent>, s: State)
    requires CallsMatch(amounts, log, s)
    ensures CallsOfLog(amounts, log, s)
  {
    hide RouteOf, LeadsTo;
    forall i | 0 <= i < |s.calls| ensures s.sources[i] < |log| && LeadsTo(amounts, log[s.sources[i]], s.calls[i]) {
      EventsMean(amounts, log[s.sources[i]]);
    }
  }

  /** In every run, syncs that throw included, every call is the one that the event at its place leads to. */
  lemma CallsAreMeant(amounts: AmountReader, adapter: Adapter, logs: seq<seq<ChainEvent>>)
    requires Satellite(logs) && logs != []
    ensures CallsOfLog(amounts, logs[|logs| - 1], RunSyncs(amounts, adapter, logs))
  {
    RunCallsMatch(amounts, adapter, logs);
    MatchingCalls(amounts, logs[|logs| - 1], RunSyncs(amounts, adapter, logs));
  }

  /**
   * After a run without throws, the calls are, in log order, exactly those that the events of the log lead to: every
   * event that leads to a call has had its one call, and no event was unreadable.
   */
  lemma SmoothRunMeans(amounts: AmountReader, adapter: Adapter, logs: seq<seq<ChainEvent>>)
    requires Satellite(logs) && Smooth(amounts, adapter, logs) && logs != []
    ensures var s, log := RunSyncs(amounts, adapter, logs), logs[|logs| - 1];
      && CallsOfLog(amounts, log, s) && Increasing(s.sources)
      && (forall x: nat | x < |log| :: x in s.sources <==> exists call :: LeadsTo(amounts, log[x], call))
      && (forall x: nat | x < |log| :: !Unreadable(amounts, log[x]))
  {
    var s, log := RunSyncs(amounts, adapter, logs), logs[|logs| - 1];
    SmoothRunIsExact(amounts, adapter, logs);
    CallsAreMeant(amounts, adapter, logs);
    ActingIsExact(amounts, log, 0, |log|);
    NothingThrew(amounts, adapter, logs);
    hide RunSyncs, Satellite, Smooth, Acting, LeadsTo, CallsMatch, CallsOfLog, RouteOf, Unreadable;
    forall x: nat | x < |log|
      ensures x in s.sources <==> exists call :: LeadsTo(amounts, log[x], call)
      ensures !Unreadable(amounts, log[x])
    {
      EventsMean(amounts, log[x]);
      if x in s.sources {
        assert LeadsTo(amounts, log[x], RouteOf(amounts, log[x].kind, log[x].data).call);
      }
    }
  }

  lemma {:induction false} NothingThrew(amounts: AmountReader, adapter: Adapter, logs: seq<seq<ChainEvent>>)
    requires Satellite(logs) && Smooth(amounts, adapter, logs) && logs != []
    ensures var log := logs[|logs| - 1];
      forall x: nat | x < |log| :: !Throwing(amounts, log[x])
    decreases |logs|
  {
    hide RouteRange, AllAct, CallsAt, Acting, Satellite, OneChain, Throwing, Acts;
    var n := |logs| - 1;
    SatellitePrefix(logs, n);
    var before, log := RunSyncs(amounts, adapter, logs[..n]), logs[n];
    forall k | 0 <= k < n ensures !SyncOf(amounts, adapter, logs[..n], k).threw {
      Prefixes(amounts, adapter, logs, n, k);
    }
    if n > 0 {
      NothingThrew(amounts, adapter, logs[..n]);
      SmoothRunIsExact(amounts, adapter, logs[..n]);
    }
    StartsEmpty(amounts, adapter);
    assert !SyncOf(amounts, adapter, logs, n).threw;
    OneChainSyncs(log, before.checkpoint);
    var stop := LoopActs(amounts, adapter, log, before.checkpoint, |log|, Progress(before, ZERO, false));
    forall x: nat | x < |log| ensures !Throwing(amounts, log[x]) {
      if x < before.checkpoint {
        assert log[x] == logs[n - 1][x];
      }
    }
  }

  // ---- What the counters count ---------------------------------------------------------------------

  datatype CallKind = Receipts | Draws | Repayments

  ghost function KindOf(call: CasperCall): CallKind {
    match call
    case SubmitReceipt(_) => Receipts
    case ConfirmDraw(_, _) => Draws
    case RepayCredit(_, _) => Repayments
  }

  /** What Casper answered to call i. */
  ghost function ReplyTo(adapter: Adapter, calls: seq<CasperCall>, i: nat): Reply
    requires i < |calls|
  {
    adapter(calls[..i + 1])
  }

  /** The calls of a kind that Casper answered Ok, from some call on. */
  ghost function Succeeded(adapter: Adapter, calls: seq<CasperCall>, lo: nat, kind: CallKind): set<nat> {
    set i: nat | lo <= i < |calls| && KindOf(calls[i]) == kind && ReplyTo(adapter, calls, i) == Ok
  }

  ghost function Turned(adapter: Adapter, calls: seq<CasperCall>, lo: nat): set<nat> {
    set i: nat | lo <= i < |calls| && ReplyTo(adapter, calls, i) == Refused
  }

  ghost function Lacking(log: seq<ChainEvent>, lo: nat, hi: nat): set<nat>
    requires hi <= |log|
  {
    set x: nat | lo <= x < hi && LacksEnvelope(log[x])
  }

  ghost function Ignored(log: seq<ChainEvent>, lo: nat, hi: nat): set<nat>
    requires hi <= |log|
  {
    set x: nat | lo <= x < hi && OfNoConcern(log[x])
  }

  /** Successful calls by kind; refused calls and receipts without an envelope; events of other kinds. */
  ghost predicate Counts(adapter: Adapter, log: seq<ChainEvent>, lo: nat, hi: nat, calls: seq<CasperCall>, first: nat,
                         t: Tally)
    requires hi <= |log|
  {
    && t.anchored == |Succeeded(adapter, calls, first, Receipts)|
    && t.draws == |Succeeded(adapter, calls, first, Draws)|
    && t.repayments == |Succeeded(adapter, calls, first, Repayments)|
    && t.rejected == |Turned(adapter, calls, first)| + |Lacking(log, lo, hi)|
    && t.skipped == |Ignored(log, lo, hi)|
  }

  lemma OneMore(s: set<nat>, s': set<nat>, x: nat, more: bool)
    requires x !in s && forall y :: y in s' <==> y in s || (y == x && more)
    ensures |s'| == |s| + if more then 1 else 0
  {
    if more {
      assert s' == s + {x};
    } else {
      assert s' == s;
    }
  }

  lemma OneMoreCall(adapter: Adapter, calls: seq<CasperCall>, call: CasperCall, first: nat, kind: CallKind)
    requires first <= |calls|
    ensures |Succeeded(adapter, calls + [call], first, kind)| ==
      |Succeeded(adapter, calls, first, kind)| +
      if KindOf(call) == kind && adapter(calls + [call]) == Ok then 1 else 0
    ensures |Turned(adapter, calls + [call], first)| ==
      |Turned(adapter, calls, first)| + if adapter(calls + [call]) == Refused then 1 else 0
  {
    var all, n := calls + [call], |calls|;
    forall i | 0 <= i <= n
      ensures ReplyTo(adapter, all, i) == if i < n then ReplyTo(adapter, calls, i) else adapter(all)
    {
      assert all[..n + 1] == all;
      assert i < n ==> all[..i + 1] == calls[..i + 1];
    }
    hide ReplyTo, KindOf;
    OneMore(Succeeded(adapter, calls, first, kind), Succeeded(adapter, all, first, kind), n,
            KindOf(call) == kind && adapter(all) == Ok);
    OneMore(Turned(adapter, calls, first), Turned(adapter, all, first), n, adapter(all) == Refused);
  }

  lemma OneMoreEvent(log: seq<ChainEvent>, lo: nat, hi: nat)
    requires lo <= hi < |log|
    ensures |Lacking(log, lo, hi + 1)| == |Lacking(log, lo, hi)| + if LacksEnvelope(log[hi]) then 1 else 0
    ensures |Ignored(log, lo, hi + 1)| == |Ignored(log, lo, hi)| + if OfNoConcern(log[hi]) then 1 else 0
  {
    hide LacksEnvelope, OfNoConcern;
    OneMore(Lacking(log, lo, hi), Lacking(log, lo, hi + 1), hi, LacksEnvelope(log[hi]));
    OneMore(Ignored(log, lo, hi), Ignored(log, lo, hi + 1), hi, OfNoConcern(log[hi]));
  }

  lemma NothingCounted(adapter: Adapter, log: seq<ChainEvent>, lo: nat, calls: seq<CasperCall>)
    requires lo <= |log|
    ensures Counts(adapter, log, lo, lo, calls, |calls|, ZERO)
  {
    assert forall kind :: Succeeded(adapter, calls, |calls|, kind) == {};
    assert Turned(adapter, calls, |calls|) == {} && Lacking(log, lo, lo) == {} && Ignored(log, lo, lo) == {};
  }

  lemma {:induction false} LoopCounts(amounts: AmountReader, adapter: Adapter, log: seq<ChainEvent>, lo: nat, hi: nat,
                                      s: State)
    requires lo <= hi <= |log| && !RouteRange(amounts, adapter, log, lo, hi, Progress(s, ZERO, false)).threw
    ensures var q := RouteRange(amounts, adapter, log, lo, hi, Progress(s, ZERO, false));
      && s.calls <= q.state.calls && Counts(adapter, log, lo, hi, q.state.calls, |s.calls|, q.tally)
    decreases hi
  {
    var start := Progress(s, ZERO, false);
    if lo == hi {
      NothingCounted(adapter, log, lo, s.calls);
    } else {
      LoopCounts(amounts, adapter, log, lo, hi - 1, s);
      var p := RouteRange(amounts, adapter, log, lo, hi - 1, start);
      EventCounts(amounts, adapter, log, lo, hi - 1, p, |s.calls|);
    }
  }

  lemma EventCounts(amounts: AmountReader, adapter: Adapter, log: seq<ChainEvent>, lo: nat, hi: nat, p: Progress,
                    first: nat)
    requires lo <= hi < |log| && first <= |p.state.calls| && !p.threw
    requires Counts(adapter, log, lo, hi, p.state.calls, first, p.tally)
    requires !RouteEvent(amounts, adapter, log[hi].kind, log[hi].data, hi, p).threw
    ensures var q := RouteEvent(amounts, adapter, log[hi].kind, log[hi].data, hi, p);
      p.state.calls <= q.state.calls && Counts(adapter, log, lo, hi + 1, q.state.calls, first, q.tally)
  {
    var e := log[hi];
    EventsMean(amounts, e);
    OneMoreEvent(log, lo, hi);
    var routing := RouteOf(amounts, e.kind, e.data);
    if routing.Call? {
      OneMoreCall(adapter, p.state.calls, routing.call, first, Receipts);
      OneMoreCall(adapter, p.state.calls, routing.call, first, Draws);
      OneMoreCall(adapter, p.state.calls, routing.call, first, Repayments);
    }
    hide RouteOf, LacksEnvelope, OfNoConcern, Succeeded, Turned, Lacking, Ignored, LeadsTo, Unreadable;
  }

  /**
   * What a sync that does not throw reports: of the calls it made, those of each kind that succeeded; as rejected, the
   * calls that were refused and the receipts without an envelope; as skipped, the events of no other kind.
   */
  lemma CountersCount(amounts: AmountReader, adapter: Adapter, s: State, log: seq<ChainEvent>)
    requires s.checkpoint <= |log| && !SyncStep(amounts, adapter, s, log).threw
    ensures var p := SyncStep(amounts, adapter, s, log);
      && s.calls <= p.state.calls
      && Counts(adapter, log, s.checkpoint, |log|, p.state.calls, |s.calls|, p.tally)
  {
    hide RouteRange, Counts;
    if s.checkpoint < |log| {
      LoopCounts(amounts, adapter, log, s.checkpoint, |log|, s);
    } else {
      NothingCounted(adapter, log, s.checkpoint, s.calls);
    }
  }
}
