/**
 * The route and the anchor as one system: the anchor's books under the events that the route produces, and what
 * the public report then says about the route's payments.
 */
module NearReport {
  import opened Wrappers
  import opened Receipts
  import opened NearAnchor
  import opened NearAnchorLaws
  import opened NearUsage
  import opened NearRefinement
  import NearStore
  import NearPayments
  import NearSafety
  import NearGuarantees
  import NearReconciliation

  // ---- One system ----------------------------------------------------------------------------------

  /**
   * What the route's model leaves open: who pays for a transaction and when it is anchored (the route anchors it at
   * most once), the digest of envelopes, and the listing that the restart at a position of the run finds.
   */
  datatype Deployment = Deployment(
    chain: string,
    seller: string,
    makeId: Envelope -> string,
    details: string -> Settled,
    at: string -> int,
    listing: nat -> seq<Receipt>)

  function EnvelopeFor(d: Deployment, t: string): Envelope {
    EnvelopeOf(d.seller, d.details(t), d.at(t))
  }

  ghost predicate Proper(d: Deployment) {
    forall t :: d.details(t).chain == d.chain && d.details(t).transaction == t
  }

  /** What a stretch of the route asks of the anchor. The route keeps the id that the anchor gave it. */
  function Produced(d: Deployment, w: NearPayments.World, e: NearPayments.Event, n: nat): Option<Event> {
    match e
    case SettleReturns(id, Success(anchored), volume) =>
      if id in w.handlers && w.handlers[id].phase.AwaitSettle?
      then Some(Anchoring(d.details(w.handlers[id].phase.tx), d.at(w.handlers[id].phase.tx), volume)) else None
    case CheckReturns(id, verdict, volume) =>
      if id in w.handlers && w.handlers[id].phase.AwaitCheck? && verdict.Terminal() &&
         w.handlers[id].phase.check.settlement.receipt.Some?
      then
        var receipt := d.makeId(EnvelopeFor(d, w.handlers[id].phase.check.settlement.receipt.value));
        Some(if verdict == NearStore.Confirmed then Finalizing(receipt, volume) else Challenging(receipt, volume))
      else None
    case Restart => Some(Restarting(d.listing(n)))
    case ResetLedger => Some(Resetting)
    case _ => None
  }

  function Listed(e: Option<Event>): seq<Event> {
    if e.Some? then [e.value] else []
  }

  function AnchorEvents(d: Deployment, durable: bool, events: seq<NearPayments.Event>): seq<Event> {
    if events == [] then []
    else
      var n := |events| - 1;
      AnchorEvents(d, durable, events[..n]) +
      Listed(Produced(d, NearPayments.Run(durable, events[..n]), events[n], n))
  }

  function NoBooks(durable: bool): Books {
    Books([], {}, if durable then Some([]) else None)
  }

  function BooksOf(d: Deployment, durable: bool, events: seq<NearPayments.Event>): Books {
    Run(d.makeId, d.seller, NoBooks(durable), AnchorEvents(d, durable, events))
  }

  /** The route hears from the anchor whether there is a receipt; a restart lists the copies there are. */
  ghost predicate MatchesAt(d: Deployment, w: NearPayments.World, b: Books, e: NearPayments.Event, n: nat) {
    && (e.Restart? ==> multiset(d.listing(n)) == multiset(Copies(b)))
    && (e.SettleReturns? && e.outcome.Success? && e.id in w.handlers && w.handlers[e.id].phase.AwaitSettle? ==>
          var t := w.handlers[e.id].phase.tx;
          e.outcome.anchored == AnchorSettlement(d.makeId, d.seller, b, d.details(t), d.at(t), e.volume).1.Some?)
  }

  ghost predicate Matches(d: Deployment, durable: bool, events: seq<NearPayments.Event>) {
    forall n | 0 <= n < |events| ::
      MatchesAt(d, NearPayments.Run(durable, events[..n]), BooksOf(d, durable, events[..n]), events[n], n)
  }

  /** The envelopes of the payments sent to settle have different digests, and accounts and hashes have no colon. */
  ghost predicate WellNamed(d: Deployment, calls: seq<NearPayments.SettleCall>) {
    && (forall c, c' | c in calls && c' in calls && d.makeId(EnvelopeFor(d, c.tx)) == d.makeId(EnvelopeFor(d, c'.tx)) ::
          EnvelopeFor(d, c.tx) == EnvelopeFor(d, c'.tx))
    && (forall c | c in calls :: ':' !in d.details(c.tx).payer && ':' !in c.tx)
  }

  ghost predicate Regular(d: Deployment, durable: bool, events: seq<NearPayments.Event>) {
    && Proper(d) && NearGuarantees.Continuous(durable, events) && Matches(d, durable, events)
    && WellNamed(d, NearPayments.Run(durable, events).settles)
  }

  lemma RegularBefore(d: Deployment, durable: bool, events: seq<NearPayments.Event>)
    requires events != [] && Regular(d, durable, events)
    ensures Regular(d, durable, events[..|events| - 1])
    ensures NearSafety.Sound(NearPayments.Run(durable, events[..|events| - 1]))
    ensures NearPayments.Run(durable, events[..|events| - 1]).settles <= NearPayments.Run(durable, events).settles
  {
    hide NearPayments.Run, Matches, WellNamed, NearSafety.Sound, NearGuarantees.Continuous, Proper;
    var init := events[..|events| - 1];
    assert events == init + [events[|events| - 1]];
    ContinuousBefore(durable, init, events[|events| - 1]);
    MatchesBefore(d, durable, events);
    WellNamedBefore(d, NearPayments.Run(durable, init).settles, NearPayments.Run(durable, events).settles);
  }

  lemma ContinuousBefore(durable: bool, init: seq<NearPayments.Event>, e: NearPayments.Event)
    requires NearGuarantees.Continuous(durable, init + [e])
    ensures NearGuarantees.Continuous(durable, init) && NearSafety.Sound(NearPayments.Run(durable, init))
    ensures NearPayments.Run(durable, init).settles <= NearPayments.Run(durable, init + [e]).settles
  {
    hide NearPayments.Run, NearSafety.Sound, NearSafety.AttemptGrows;
    assert forall x | x in init :: x in init + [e];
    assert init + [] == init;
    NearGuarantees.RunGrows(durable, init, []);
    NearGuarantees.RunGrows(durable, init, [e]);
  }

  lemma MatchesBefore(d: Deployment, durable: bool, events: seq<NearPayments.Event>)
    requires events != [] && Matches(d, durable, events)
    ensures Matches(d, durable, events[..|events| - 1])
  {
    hide NearPayments.Run, BooksOf, MatchesAt;
    var init := events[..|events| - 1];
    forall n | 0 <= n < |init|
      ensures MatchesAt(d, NearPayments.Run(durable, init[..n]), BooksOf(d, durable, init[..n]), init[n], n)
    {
      assert init[..n] == events[..n] && init[n] == events[n];
    }
  }

  lemma WellNamedBefore(d: Deployment, calls: seq<NearPayments.SettleCall>, calls': seq<NearPayments.SettleCall>)
    requires WellNamed(d, calls') && calls <= calls'
    ensures WellNamed(d, calls)
  {
    assert forall c | c in calls :: c in calls';
  }

  // ---- What reaches the anchor ---------------------------------------------------------------------

  lemma AnchoringsAppend(events: seq<Event>, e: Option<Event>)
    ensures Anchorings(events + Listed(e)) == Anchorings(events) + Anchorings(Listed(e))
  {
    if e.Some? {
      assert (events + [e.value])[..|events|] == events;
      assert [e.value][..0] == [];
    } else {
      assert events + [] == events;
    }
  }

  lemma StepAnchorings(d: Deployment, durable: bool, w: NearPayments.World, e: NearPayments.Event, n: nat)
    requires NearSafety.Sound(w) && Proper(d)
    ensures NearPayments.Step(durable, w, e).anchors == w.anchors + Anchorings(Listed(Produced(d, w, e, n)))
  {
    hide NearSafety.Sound, NearPayments.SettleDone, NearPayments.CheckDone, NearPayments.Polled,
         NearPayments.Authorized, NearPayments.Arrived;
    assert forall a: Event :: Anchorings([a]) == if a.Anchoring? then [a.settled.transaction] else [];
    match e
    case Arrive(id, proof, requestHash) => NearGuarantees.ArrivedAnchors(w, id, proof, requestHash);
    case Poll(id, attempt, volume) => NearGuarantees.PolledAnchors(w, id, attempt, durable && volume);
    case AuthorizeReturns(id, a) =>
      if id in w.handlers {
        NearGuarantees.AuthorizedAnchors(w, id, w.handlers[id], a);
      }
    case SettleReturns(id, outcome, volume) =>
      if id in w.handlers && w.handlers[id].phase.AwaitSettle? {
        SettleAnchorings(w, id, outcome, durable && volume);
      }
    case CheckReturns(id, verdict, volume) =>
      if id in w.handlers && w.handlers[id].phase.AwaitCheck? {
        var phase := w.handlers[id].phase;
        NearGuarantees.CheckDoneAnchors(w, id, w.handlers[id], phase.check, phase.own, verdict, durable && volume);
      }
    case Restart =>
    case ResetLedger =>
  }

  lemma SettleAnchorings(w: NearPayments.World, id: nat, outcome: NearPayments.SettleOutcome, copying: bool)
    requires NearSafety.Sound(w) && id in w.handlers && w.handlers[id].phase.AwaitSettle?
    ensures var t := w.handlers[id].phase.tx;
      NearPayments.SettleDone(w, id, w.handlers[id], t, outcome, copying).anchors ==
      w.anchors + if outcome.Success? then [t] else []
  {
    NearSafety.Local(w, id);
    var h := w.handlers[id];
    if outcome.Success? {
      NearReconciliation.SettleDoneIs(w, id, h, h.phase.tx, outcome.anchored, copying);
    }
    hide NearSafety.Sound, NearPayments.Reconcile;
  }

  lemma {:induction false} AnchoringsAre(d: Deployment, durable: bool, events: seq<NearPayments.Event>)
    requires Regular(d, durable, events)
    ensures Anchorings(AnchorEvents(d, durable, events)) == NearPayments.Run(durable, events).anchors
  {
    hide Regular, NearSafety.Sound, NearPayments.Step, Produced, Anchorings;
    if events == [] {
      NoAnchorings();
    } else {
      var n := |events| - 1;
      RegularBefore(d, durable, events);
      AnchoringsAre(d, durable, events[..n]);
      var w := NearPayments.Run(durable, events[..n]);
      ProperOf(d, durable, events);
      StepAnchorings(d, durable, w, events[n], n);
      AnchoringsAppend(AnchorEvents(d, durable, events[..n]), Produced(d, w, events[n], n));
    }
  }

  lemma NoAnchorings()
    ensures Anchorings([]) == []
  {
  }

  lemma ProperOf(d: Deployment, durable: bool, events: seq<NearPayments.Event>)
    requires Regular(d, durable, events)
    ensures Proper(d)
  {
  }

  /** A delivery is that of a payment sent to settle. */
  ghost predicate Stems(d: Deployment, calls: seq<NearPayments.SettleCall>, e: Event) {
    e.Anchoring? ==> exists c :: c in calls && e.settled == d.details(c.tx) && e.now == d.at(c.tx)
  }

  lemma ProducedStems(d: Deployment, w: NearPayments.World, e: NearPayments.Event, n: nat)
    requires NearSafety.Sound(w) && Produced(d, w, e, n).Some?
    ensures Stems(d, w.settles, Produced(d, w, e, n).value)
  {
    if Produced(d, w, e, n).value.Anchoring? {
      NearSafety.Local(w, e.id);
      var h := w.handlers[e.id];
      assert NearPayments.SettleCall(h.proof.value, h.phase.tx) in w.settles;
    }
  }

  lemma {:induction false} EventsStem(d: Deployment, durable: bool, events: seq<NearPayments.Event>)
    requires Regular(d, durable, events)
    ensures forall e | e in AnchorEvents(d, durable, events) :: Stems(d, NearPayments.Run(durable, events).settles, e)
  {
    hide Regular, NearSafety.Sound, NearPayments.Run, Produced, Stems;
    if events != [] {
      var n := |events| - 1;
      var w := NearPayments.Run(durable, events[..n]);
      RegularBefore(d, durable, events);
      EventsStem(d, durable, events[..n]);
      forall e | e in AnchorEvents(d, durable, events) ensures Stems(d, NearPayments.Run(durable, events).settles, e) {
        if e !in AnchorEvents(d, durable, events[..n]) {
          ProducedStems(d, w, events[n], n);
        }
        StemsOn(d, w.settles, NearPayments.Run(durable, events).settles, e);
      }
    }
  }

  lemma StemsOn(d: Deployment, calls: seq<NearPayments.SettleCall>, calls': seq<NearPayments.SettleCall>, e: Event)
    requires Stems(d, calls, e) && calls <= calls'
    ensures Stems(d, calls', e)
  {
  }

  /** The events that the route produces are such that the books refine the ledger. */
  lemma EventsOrderly(d: Deployment, durable: bool, events: seq<NearPayments.Event>)
    requires Regular(d, durable, events)
    ensures NoCollisions(d.makeId, d.seller, AnchorEvents(d, durable, events))
    ensures Orderly(AnchorEvents(d, durable, events)) && DeliveredOnce(AnchorEvents(d, durable, events))
  {
    AnchoringsAre(d, durable, events);
    NearGuarantees.AnchoredOnce(durable, events);
    DistinctAnchorings(AnchorEvents(d, durable, events));
    EventsStem(d, durable, events);
    hide AnchorEvents, NearPayments.Run, NearSafety.Sound, DeliveredOnce, Matches;
  }

  /** A receipt in the books is that of a payment sent to settle, under its id. */
  lemma HeldIsPayment(d: Deployment, durable: bool, events: seq<NearPayments.Event>, x: Receipt)
    returns (c: NearPayments.SettleCall)
    requires Regular(d, durable, events) && Holds(BooksOf(d, durable, events), x)
    ensures c in NearPayments.Run(durable, events).settles
    ensures x.envelope == EnvelopeFor(d, c.tx) && x.id == d.makeId(x.envelope)
    ensures x.envelope.chain == d.chain && x.envelope.transaction == c.tx
  {
    var all := AnchorEvents(d, durable, events);
    var i := HeldIsDelivered(d.makeId, d.seller, NoBooks(durable), all, x);
    EventsStem(d, durable, events);
    hide AnchorEvents, NearPayments.Run, Matches, Run, Holds;
    assert Stems(d, NearPayments.Run(durable, events).settles, all[i]);
    c :| c in NearPayments.Run(durable, events).settles && all[i].settled == d.details(c.tx) &&
      all[i].now == d.at(c.tx);
  }

  // ---- Steps of the whole --------------------------------------------------------------------------

  /** The id of a payment's receipt names it in the books exactly when the ledger has it. */
  lemma NamedById(d: Deployment, durable: bool, events: seq<NearPayments.Event>, c: NearPayments.SettleCall)
    requires Regular(d, durable, events) && c in NearPayments.Run(durable, events).settles
    requires Tidy(BooksOf(d, durable, events))
    ensures var b := BooksOf(d, durable, events);
      TransactionOf(d.chain, b, d.makeId(EnvelopeFor(d, c.tx))) ==
      if c.tx in View(d.chain, b.live) then Some(c.tx) else None
  {
    var b := BooksOf(d, durable, events);
    var id := d.makeId(EnvelopeFor(d, c.tx));
    TidyOneEach(b);
    TidyNumbered(b);
    ViewLists(d.chain, b.live);
    hide BooksOf, NearPayments.Run, Matches, Tidy, View;
    if Has(b.live, id) {
      var r := Get(b.live, id).value;
      assert r in b.live && Holds(b, r);
      var c' := HeldIsPayment(d, durable, events, r);
      assert EnvelopeFor(d, c'.tx) == EnvelopeFor(d, c.tx);
      assert EnvelopeFor(d, c.tx).transaction == c.tx;
    }
    if c.tx in View(d.chain, b.live) {
      assert Names(d.chain, b.live, c.tx);
      var x :| x in b.live && x.envelope.chain == d.chain && x.envelope.transaction == c.tx;
      assert Holds(b, x);
      var c' := HeldIsPayment(d, durable, events, x);
      LiveIs(b.live, x);
    }
  }

  /** An event that asks nothing of the anchor leaves the ledger as it is. */
  lemma SilentStep(d: Deployment, durable: bool, w: NearPayments.World, e: NearPayments.Event, n: nat)
    requires NearSafety.Sound(w) && Produced(d, w, e, n) == None
    ensures NearPayments.Step(durable, w, e).ledger == w.ledger
  {
    if !NearReconciliation.Stirs(e) {
      NearReconciliation.QuietStep(durable, w, e);
      hide NearPayments.Step, NearReconciliation.Alike;
    } else if e.CheckReturns? && e.id in w.handlers && w.handlers[e.id].phase.AwaitCheck? {
      CheckLedger(durable, w, e.id, e.verdict, e.volume);
    }
  }

  lemma CheckLedger(durable: bool, w: NearPayments.World, id: nat, verdict: NearStore.Finality, volume: bool)
    requires NearSafety.Sound(w) && id in w.handlers && w.handlers[id].phase.AwaitCheck?
    ensures var receipt := w.handlers[id].phase.check.settlement.receipt;
      NearPayments.Step(durable, w, NearPayments.CheckReturns(id, verdict, volume)).ledger ==
      if receipt == None || !verdict.Terminal() then w.ledger
      else if verdict == NearStore.Confirmed
      then NearPayments.FinalizeReceipt(w.ledger, receipt.value, durable && volume)
      else NearPayments.ChallengeReceipt(w.ledger, receipt.value, durable && volume)
  {
    NearSafety.Local(w, id);
    NearReconciliation.StepIsCheckDone(durable, w, id, verdict, volume);
    var h := w.handlers[id];
    hide NearSafety.Sound, NearPayments.CheckDone, NearPayments.FinalizeReceipt, NearPayments.ChallengeReceipt,
         NearPayments.Step, NearReconciliation.Alike;
    var end, r := NearReconciliation.CheckDoneIs(w, id, h, h.phase.check, h.phase.own, verdict, durable && volume);
  }

  lemma SettleLedger(durable: bool, w: NearPayments.World, id: nat, anchored: bool, volume: bool)
    requires NearSafety.Sound(w) && id in w.handlers && w.handlers[id].phase.AwaitSettle?
    ensures var t := w.handlers[id].phase.tx;
      NearPayments.Step(durable, w, NearPayments.SettleReturns(id, NearPayments.Success(anchored), volume)).ledger ==
      NearPayments.Anchor(w.ledger, if anchored then Some(t) else None, durable && volume)
  {
    NearSafety.Local(w, id);
    var h := w.handlers[id];
    NearReconciliation.SettleDoneIs(w, id, h, h.phase.tx, anchored, durable && volume);
    hide NearSafety.Sound, NearPayments.SettleDone;
  }

  lemma CheckedIsPaid(w: NearPayments.World, id: nat) returns (c: NearPayments.SettleCall)
    requires NearSafety.Sound(w) && id in w.handlers && w.handlers[id].phase.AwaitCheck?
    requires w.handlers[id].phase.check.settlement.receipt.Some?
    ensures c in w.settles && Some(c.tx) == w.handlers[id].phase.check.settlement.receipt
  {
    NearSafety.Local(w, id);
    var check := w.handlers[id].phase.check;
    NearReconciliation.AttemptOf(w, check.proof);
    c := NearPayments.SettleCall(check.proof, check.settlement.receipt.value);
  }

  /** Any other is answered by the ledger as by the books. */
  lemma LoudStep(d: Deployment, durable: bool, events: seq<NearPayments.Event>, e: NearPayments.Event, n: nat)
    requires Regular(d, durable, events) && NearSafety.Sound(NearPayments.Run(durable, events))
    requires Tidy(BooksOf(d, durable, events)) && BooksOf(d, durable, events).durable.Some? == durable
    requires NearSafety.Remembers(durable, e)
    requires var w, b := NearPayments.Run(durable, events), BooksOf(d, durable, events);
      && AsLedger(d.chain, b) == w.ledger && MatchesAt(d, w, b, e, n) && Produced(d, w, e, n).Some?
    ensures var w, b := NearPayments.Run(durable, events), BooksOf(d, durable, events);
      LedgerStep(d.chain, d.makeId, d.seller, b, Produced(d, w, e, n).value, w.ledger) ==
      NearPayments.Step(durable, w, e).ledger
  {
    var w, b := NearPayments.Run(durable, events), BooksOf(d, durable, events);
    ProperOf(d, durable, events);
    hide NearPayments.Run, BooksOf, Regular, Tidy, NearSafety.Sound, AnchorSettlement, AsLedger, LedgerStep,
         NearPayments.Step;
    match e
    case SettleReturns(id, Success(anchored), volume) =>
      LoudSettle(d, durable, w, b, id, anchored, volume);
    case CheckReturns(id, verdict, volume) =>
      LoudCheck(d, durable, events, id, verdict, volume);
    case Restart =>
      LoudRestart(d, durable, w, b, n);
    case ResetLedger =>
      LoudReset(d, durable, w, b);
  }

  lemma LoudSettle(d: Deployment, durable: bool, w: NearPayments.World, b: Books, id: nat, anchored: bool, volume: bool)
    requires Proper(d) && NearSafety.Sound(w) && id in w.handlers && w.handlers[id].phase.AwaitSettle?
    requires b.durable.Some? == durable
    requires var t := w.handlers[id].phase.tx;
      anchored == AnchorSettlement(d.makeId, d.seller, b, d.details(t), d.at(t), volume).1.Some?
    ensures var t := w.handlers[id].phase.tx;
      LedgerStep(d.chain, d.makeId, d.seller, b, Anchoring(d.details(t), d.at(t), volume), w.ledger) ==
      NearPayments.Step(durable, w, NearPayments.SettleReturns(id, NearPayments.Success(anchored), volume)).ledger
  {
    hide NearSafety.Sound, AnchorSettlement, NearPayments.Step, NearPayments.Anchor;
    SettleLedger(durable, w, id, anchored, volume);
  }

  lemma LoudReset(d: Deployment, durable: bool, w: NearPayments.World, b: Books)
    ensures LedgerStep(d.chain, d.makeId, d.seller, b, Resetting, w.ledger) ==
      NearPayments.Step(durable, w, NearPayments.ResetLedger).ledger
  {
  }

  lemma LoudCheck(d: Deployment, durable: bool, events: seq<NearPayments.Event>, id: nat, verdict: NearStore.Finality,
                  volume: bool)
    requires Regular(d, durable, events) && NearSafety.Sound(NearPayments.Run(durable, events))
    requires Tidy(BooksOf(d, durable, events)) && BooksOf(d, durable, events).durable.Some? == durable
    requires AsLedger(d.chain, BooksOf(d, durable, events)) == NearPayments.Run(durable, events).ledger
    requires var w := NearPayments.Run(durable, events);
      && id in w.handlers && w.handlers[id].phase.AwaitCheck? && verdict.Terminal()
      && w.handlers[id].phase.check.settlement.receipt.Some?
    ensures var w, b := NearPayments.Run(durable, events), BooksOf(d, durable, events);
      var receipt := d.makeId(EnvelopeFor(d, w.handlers[id].phase.check.settlement.receipt.value));
      var asked := if verdict == NearStore.Confirmed then Finalizing(receipt, volume) else Challenging(receipt, volume);
      LedgerStep(d.chain, d.makeId, d.seller, b, asked, w.ledger) ==
      NearPayments.Step(durable, w, NearPayments.CheckReturns(id, verdict, volume)).ledger
  {
    var w, b := NearPayments.Run(durable, events), BooksOf(d, durable, events);
    hide NearPayments.Run, BooksOf, Regular, Tidy, NearSafety.Sound, TransactionOf, NearPayments.Step,
         NearPayments.FinalizeReceipt, NearPayments.ChallengeReceipt, View;
    var c := CheckedIsPaid(w, id);
    NamedById(d, durable, events, c);
    LedgerReceipts(d.chain, b);
    CheckLedger(durable, w, id, verdict, volume);
    Unheard(w.ledger, c.tx, durable && volume);
  }

  lemma LoudRestart(d: Deployment, durable: bool, w: NearPayments.World, b: Books, n: nat)
    requires multiset(d.listing(n)) == multiset(Copies(b)) && b.durable.Some? == durable
    ensures LedgerStep(d.chain, d.makeId, d.seller, b, Restarting(d.listing(n)), w.ledger) ==
      NearPayments.Step(durable, w, NearPayments.Restart).ledger
  {
  }

  lemma LedgerReceipts(chain: string, b: Books)
    ensures AsLedger(chain, b).receipts == View(chain, b.live)
  {
  }

  lemma Unheard(l: NearPayments.Ledger, id: string, copying: bool)
    ensures id !in l.receipts ==>
      NearPayments.FinalizeReceipt(l, id, copying) == l && NearPayments.ChallengeReceipt(l, id, copying) == l
  {
  }

  // ---- Runs of the whole ---------------------------------------------------------------------------

  lemma {:induction false} DirectoryStays(d: Deployment, durable: bool, events: seq<Event>)
    ensures Run(d.makeId, d.seller, NoBooks(durable), events).durable.Some? == durable
  {
    if events != [] {
      DirectoryStays(d, durable, events[..|events| - 1]);
      hide Run, Restored, Put, FirstFor, Position, Has;
    }
  }

  /**
   * In every run of the route, the books that the anchor keeps under the route's events are, by transaction, the
   * ledger of the route: over all interleavings, failed copies, restarts and ledger resets.
   */
  lemma {:induction false} RouteKeepsTheBooks(d: Deployment, durable: bool, events: seq<NearPayments.Event>)
    requires Regular(d, durable, events)
    ensures AsLedger(d.chain, BooksOf(d, durable, events)) == NearPayments.Run(durable, events).ledger
    ensures Tidy(BooksOf(d, durable, events))
  {
    var start, all := NoBooks(durable), AnchorEvents(d, durable, events);
    EventsOrderly(d, durable, events);
    RunTidy(d.makeId, d.seller, start, all);
    if events == [] {
      assert View(d.chain, []) == map[];
    } else {
      var n := |events| - 1;
      var init, e := events[..n], events[n];
      var w, b := NearPayments.Run(durable, init), BooksOf(d, durable, init);
      RegularBefore(d, durable, events);
      RouteKeepsTheBooks(d, durable, init);
      DirectoryStays(d, durable, AnchorEvents(d, durable, init));
      assert MatchesAt(d, w, b, e, n) && NearSafety.Remembers(durable, e);
      var asked := Produced(d, w, e, n);
      assert all == AnchorEvents(d, durable, init) + Listed(asked);
      hide Regular, Tidy, AsLedger, MatchesAt, NearSafety.Sound, Produced, LedgerStep, Orderly, NoCollisions,
           NearPayments.Step, Apply, AnchorEvents;
      if asked == None {
        SilentStep(d, durable, w, e, n);
        assert all == AnchorEvents(d, durable, init);
      } else {
        LoudStep(d, durable, init, e, n);
        OneMore(d, durable, init, all, asked.value);
      }
    }
  }

  lemma OneMore(d: Deployment, durable: bool, init: seq<NearPayments.Event>, all: seq<Event>, a: Event)
    requires Regular(d, durable, init) && all == AnchorEvents(d, durable, init) + [a]
    requires NoCollisions(d.makeId, d.seller, all) && Orderly(all) && DeliveredOnce(all)
    ensures var b := BooksOf(d, durable, init);
      && Run(d.makeId, d.seller, NoBooks(durable), all) == Apply(d.makeId, d.seller, b, a)
      && AsLedger(d.chain, Apply(d.makeId, d.seller, b, a)) ==
           LedgerStep(d.chain, d.makeId, d.seller, b, a, AsLedger(d.chain, b))
  {
    var start, before := NoBooks(durable), AnchorEvents(d, durable, init);
    EventsOrderly(d, durable, init);
    RunTidy(d.makeId, d.seller, start, before);
    RunTidy(d.makeId, d.seller, start, all);
    RunLast(d.makeId, d.seller, start, before, a);
    NonceOfOne(d.makeId, d.seller, start, before);
    assert all[..|all| - 1] == before;
    if a.Anchoring? {
      Delivering(d.makeId, d.seller, start, all);
    }
    hide Regular, Run, Tidy, AsLedger, LedgerStep, Orderly, NoCollisions, Apply, AnchorEvents, NoClash, SharedNonce;
    StepRefines(d.chain, d.makeId, d.seller, Run(d.makeId, d.seller, start, before), a);
  }

  // ---- The public report ---------------------------------------------------------------------------

  /** The transactions that the ledger shows as finalized, live or else by their copy. */
  ghost function ShownFinalized(l: NearPayments.Ledger): set<string> {
    (set t | t in l.receipts && l.receipts[t] == Finalized) +
    (set t | t in l.copies && t !in l.receipts && l.copies[t] == Finalized)
  }

  lemma EveryPaymentCounts(d: Deployment, durable: bool, events: seq<NearPayments.Event>, x: Receipt)
    requires Regular(d, durable, events) && Holds(BooksOf(d, durable, events), x)
    ensures Counted(d.chain, x) <==> x.status == Finalized
    ensures x.envelope.chain == d.chain
  {
    hide BooksOf, NearPayments.Run, Matches, Holds;
    var c := HeldIsPayment(d, durable, events, x);
  }

  /** What the merged list holds of a payment is what its ledger shows of it. */
  lemma ReportedIsShown(d: Deployment, durable: bool, events: seq<NearPayments.Event>, t: string)
    requires Regular(d, durable, events) && Tidy(BooksOf(d, durable, events))
    ensures var b := BooksOf(d, durable, events);
      Reports(d.chain, Merged(b), t) <==> t in ShownFinalized(AsLedger(d.chain, b))
  {
    var b := BooksOf(d, durable, events);
    TidyOneEach(b);
    TidyNumbered(b);
    MergedMembers(Copies(b), b.live);
    ViewLists(d.chain, b.live);
    ViewLists(d.chain, Copies(b));
    hide BooksOf, NearPayments.Run, Regular, View, Counted, DistinctIds, OneEach, Tidy;
    assert Merged(b) == PutAll(Copies(b), b.live);
    hide Merged;
    if Reports(d.chain, Merged(b), t) {
      var x :| x in Merged(b) && Counted(d.chain, x) && x.envelope.transaction == t;
      ShownIfHeld(d, durable, events, x);
    }
    if t in ShownFinalized(AsLedger(d.chain, b)) {
      var list := if t in View(d.chain, b.live) then b.live else Copies(b);
      assert Names(d.chain, list, t);
      var x :| x in list && x.envelope.chain == d.chain && x.envelope.transaction == t;
      ShownIfHeld(d, durable, events, x);
    }
  }

  lemma ShownIfHeld(d: Deployment, durable: bool, events: seq<NearPayments.Event>, x: Receipt)
    requires Regular(d, durable, events) && Tidy(BooksOf(d, durable, events))
    requires var b := BooksOf(d, durable, events);
      x in b.live || (x in Copies(b) && (!Has(b.live, x.id) || x.envelope.transaction !in View(d.chain, b.live)))
    ensures var b := BooksOf(d, durable, events);
      && (Counted(d.chain, x) <==> x.envelope.transaction in ShownFinalized(AsLedger(d.chain, b)))
      && (x in b.live || !Has(b.live, x.id))
  {
    var b := BooksOf(d, durable, events);
    assert Holds(b, x);
    EveryPaymentCounts(d, durable, events, x);
    TidyOneEach(b);
    ViewLists(d.chain, b.live);
    ViewLists(d.chain, Copies(b));
    hide BooksOf, NearPayments.Run, Regular, View, Counted, OneEach, Tidy;
    if x !in b.live {
      NotLive(d.chain, b, x);
    }
  }

  /** A copy is of no live receipt exactly when its transaction has no live receipt. */
  lemma NotLive(chain: string, b: Books, x: Receipt)
    requires Tidy(b) && x in Copies(b) && x.envelope.chain == chain && Lists(chain, b.live, View(chain, b.live))
    ensures Has(b.live, x.id) <==> x.envelope.transaction in View(chain, b.live)
  {
    hide View;
    assert Holds(b, x);
    if Has(b.live, x.id) {
      var y := Get(b.live, x.id).value;
      assert y in b.live && Holds(b, y);
    }
    if x.envelope.transaction in View(chain, b.live) {
      assert Names(chain, b.live, x.envelope.transaction);
      var y :| y in b.live && y.envelope.chain == chain && y.envelope.transaction == x.envelope.transaction;
      assert Holds(b, y) && SameTransaction(x, y);
    }
  }

  /**
   * In every run, ledger resets and lost copies included, the public report counts exactly the transactions that the
   * route's ledger shows as finalized, each once.
   */
  lemma ReportIsTheLedgers(d: Deployment, durable: bool, events: seq<NearPayments.Event>)
    requires Regular(d, durable, events)
    ensures var b, shown := BooksOf(d, durable, events), ShownFinalized(NearPayments.Run(durable, events).ledger);
      && (set t | t in Transactions(CountedOf(d.chain, Merged(b)))) == shown
      && UsageOf(d.chain, Merged(b)).paid == |shown|
  {
    var b := BooksOf(d, durable, events);
    RouteKeepsTheBooks(d, durable, events);
    EventsOrderly(d, durable, events);
    DeliveredOnceCountedOnce(d.makeId, d.seller, NoBooks(durable), AnchorEvents(d, durable, events), d.chain);
    hide NearPayments.Run, Regular, AnchorEvents, Run, Tidy, AsLedger, UsageOf, ShownFinalized, Merged, CountedOf;
    var shown := ShownFinalized(NearPayments.Run(durable, events).ledger);
    forall t ensures t in Transactions(CountedOf(d.chain, Merged(b))) <==> t in shown {
      CountedTransactions(d.chain, Merged(b), t);
      ReportedIsShown(d, durable, events, t);
    }
  }

  // ---- The report and the attempts -----------------------------------------------------------------

  /** The payments that the store has as confirmed, with a receipt. */
  ghost function ConfirmedPayments(s: NearStore.Store): set<string> {
    set p | p in s.attempts && NearReconciliation.HasReceipt(s, p) &&
      s.attempts[p].finality == Some(NearStore.Confirmed)
  }

  ghost function ReceiptName(s: NearStore.Store, p: string): string {
    if NearReconciliation.HasReceipt(s, p) then s.attempts[p].settlement.value.receipt.value else ""
  }

  lemma {:induction false} NamesCount(s: NearStore.Store, ps: set<string>)
    requires forall p, q | p in ps && q in ps && ReceiptName(s, p) == ReceiptName(s, q) :: p == q
    ensures |set p | p in ps :: ReceiptName(s, p)| == |ps|
    decreases |ps|
  {
    hide ReceiptName;
    if ps != {} {
      var p :| p in ps;
      NamesCount(s, ps - {p});
      assert (set q | q in ps :: ReceiptName(s, q)) ==
             (set q | q in ps - {p} :: ReceiptName(s, q)) + {ReceiptName(s, p)};
    }
  }

  lemma ShownAreConfirmed(w: NearPayments.World)
    requires NearReconciliation.ReceiptsKnown(w) && forall p :: NearReconciliation.Agrees(w, p)
    ensures ShownFinalized(w.ledger) == set p | p in ConfirmedPayments(w.store) :: ReceiptName(w.store, p)
  {
    var shown, confirmed := ShownFinalized(w.ledger), ConfirmedPayments(w.store);
    forall t | t in shown ensures exists p :: p in confirmed && ReceiptName(w.store, p) == t {
      assert NearReconciliation.SettledOwner(w.store, t);
      var p := w.store.owners[t];
      assert NearReconciliation.Agrees(w, p);
      assert ReceiptName(w.store, p) == t;
    }
    forall p | p in confirmed ensures ReceiptName(w.store, p) in shown {
      assert NearReconciliation.Agrees(w, p);
    }
  }

  lemma DistinctNames(w: NearPayments.World, p: string, q: string)
    requires NearSafety.Sound(w) && p in ConfirmedPayments(w.store) && q in ConfirmedPayments(w.store)
    requires ReceiptName(w.store, p) == ReceiptName(w.store, q)
    ensures p == q
  {
    if p != q {
      NearReconciliation.OtherReceipts(w, p, q);
    }
  }

  /**
   * As long as ledger and store agree about a payment with a receipt, the report counts it if and only if the store
   * has it as confirmed.
   */
  lemma PaymentIsReported(d: Deployment, durable: bool, events: seq<NearPayments.Event>, p: string)
    requires Regular(d, durable, events)
    requires var w := NearPayments.Run(durable, events);
      NearReconciliation.HasReceipt(w.store, p) && NearReconciliation.Agrees(w, p)
    ensures var w := NearPayments.Run(durable, events);
      ReceiptName(w.store, p) in Transactions(CountedOf(d.chain, Merged(BooksOf(d, durable, events)))) <==>
      p in ConfirmedPayments(w.store)
  {
    hide NearPayments.Run, BooksOf, Regular, Merged, CountedOf, UsageOf, NearReconciliation.HasReceipt, ReceiptName,
         NearReconciliation.Agrees, ConfirmedPayments, ShownFinalized;
    ReportIsTheLedgers(d, durable, events);
    AgreedIsShown(NearPayments.Run(durable, events), p);
  }

  lemma AgreedIsShown(w: NearPayments.World, p: string)
    requires NearReconciliation.HasReceipt(w.store, p) && NearReconciliation.Agrees(w, p)
    ensures ReceiptName(w.store, p) in ShownFinalized(w.ledger) <==> p in ConfirmedPayments(w.store)
  {
  }

  /**
   * If moreover no two checks of a payment overlap, every restart finds current copies and the ledger is not reset,
   * the public report counts exactly the payments whose attempts the store has as confirmed with a receipt.
   */
  lemma ReportCountsConfirmed(d: Deployment, durable: bool, events: seq<NearPayments.Event>)
    requires Regular(d, durable, events) && NearReconciliation.NoReset(events)
    requires forall p :: NearReconciliation.OneAtATime(durable, events, p)
    requires forall p :: NearReconciliation.CopiedBeforeRestarts(durable, events, p)
    ensures UsageOf(d.chain, Merged(BooksOf(d, durable, events))).paid ==
      |ConfirmedPayments(NearPayments.Run(durable, events).store)|
  {
    var w := NearPayments.Run(durable, events);
    ReportIsTheLedgers(d, durable, events);
    hide NearPayments.Run, BooksOf, Matches, NearSafety.Sound, NearReconciliation.Agrees, UsageOf, Merged,
         ConfirmedPayments, ShownFinalized, NearReconciliation.ReceiptsKnown, NearReconciliation.OneAtATime,
         NearReconciliation.CopiedBeforeRestarts, NearReconciliation.ToldOnce, NearReconciliation.Settled;
    forall p ensures NearReconciliation.Agrees(w, p) {
      NearReconciliation.LedgerAgrees(durable, events, p);
    }
    NearReconciliation.RunKeeps(durable, events, "");
    ShownAreConfirmed(w);
    var confirmed := ConfirmedPayments(w.store);
    forall p, q | p in confirmed && q in confirmed && ReceiptName(w.store, p) == ReceiptName(w.store, q)
      ensures p == q
    {
      DistinctNames(w, p, q);
    }
    NamesCount(w.store, confirmed);
  }
}
