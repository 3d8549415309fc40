/**
 * The request that pays: in which states it gets its answer when its check returns, and when nothing that other
 * requests do can take the answer from it.
 */
module NearPayer {
  import opened NearStore
  import opened Wrappers
  import opened Receipts
  import opened NearPayments
  import opened NearSafety
  import opened NearGuarantees
  import opened NearReconciliation

  // ---- The answer in any reachable state -----------------------------------------------------------

  /** The ledger can be told of this verdict: it knows the receipt, and is not to finalize a challenged one. */
  predicate CanTell(l: Ledger, receipt: Option<string>, verdict: Finality) {
    receipt == None || !verdict.Terminal() ||
    (receipt.value in l.receipts && (verdict == Confirmed ==> l.receipts[receipt.value] != Challenged))
  }

  /**
   * The status that the answer shows: a terminal verdict moves an anchored receipt and no other; a receipt that the
   * ledger lacks is shown as its copy says, or as anchored.
   */
  function StatusNext(l: Ledger, receipt: Option<string>, verdict: Finality): Option<ReceiptStatus> {
    if receipt == None then None
    else if receipt.value in l.receipts then
      Some(if l.receipts[receipt.value] != Anchored then l.receipts[receipt.value]
           else if verdict == Confirmed then Finalized else if verdict == Mismatch then Challenged else Anchored)
    else if receipt.value in l.copies then Some(l.copies[receipt.value])
    else Some(Anchored)
  }

  lemma TellsNext(w: World, check: Check, verdict: Finality, copying: bool)
    ensures TellThrows(w, check, verdict) <==> !CanTell(w.ledger, check.settlement.receipt, verdict)
    ensures CanTell(w.ledger, check.settlement.receipt, verdict) ==>
      StatusShown(TellLedger(w, check, verdict, copying).ledger, check.settlement.receipt) ==
      StatusNext(w.ledger, check.settlement.receipt, verdict)
  {
  }

  lemma ThrownIsCrashed(w: World, id: nat, h: Handler, check: Check, own: Option<Check>, verdict: Finality,
                        copying: bool)
    requires check.proof in w.store.attempts
    requires TellThrows(w.(store := Checked(w.store, check.proof, verdict)), check, verdict)
    ensures CheckDone(w, id, h, check, own, verdict, copying) ==
      Respond(Told(w, check, verdict, copying), id, h, Crashed)
  {
    hide TellLedger, TellThrows;
  }

  lemma ToldServed(w: World, check: Check, verdict: Finality, copying: bool)
    ensures Told(w, check, verdict, copying).served == w.served
  {
  }

  /**
   * In every reachable state, overlapping checks, restarts and ledger resets before it included: when the check of a
   * handler that paid returns, the handler is answered 200, with the verdict and the receipt's status, if and only
   * if the ledger can be told of the verdict; otherwise the request crashes.
   */
  lemma PayerIsAnswered(durable: bool, events: seq<Event>, id: nat, verdict: Finality, volume: bool, p: string)
    requires Continuous(durable, events) && Paying(Run(durable, events), id, p)
    ensures var w := Run(durable, events);
      var h := w.handlers[id];
      var settlement := h.phase.own.value.settlement;
      var w' := Run(durable, events + [CheckReturns(id, verdict, volume)]);
      var answer := Resource(h.requestHash, settlement.transaction,
                             Reconciled(verdict, StatusNext(w.ledger, settlement.receipt, verdict)));
      var served := CanTell(w.ledger, settlement.receipt, verdict);
      && id in w'.handlers && w'.handlers[id].phase == Done(if served then Served(answer) else Crashed)
      && w'.served == w.served + if served then [Serving(h.requestHash, answer)] else []
  {
    hide Run, Sound, Step, CanTell, StatusNext;
    assert events + [] == events;
    RunGrows(durable, events, []);
    RunLast(durable, events, CheckReturns(id, verdict, volume));
    StepAnswers(durable, Run(durable, events), id, verdict, volume, p);
  }

  lemma StepAnswers(durable: bool, w: World, id: nat, verdict: Finality, volume: bool, p: string)
    requires Sound(w) && Paying(w, id, p)
    ensures var h := w.handlers[id];
      var settlement := h.phase.own.value.settlement;
      var w' := Step(durable, w, CheckReturns(id, verdict, volume));
      var answer := Resource(h.requestHash, settlement.transaction,
                             Reconciled(verdict, StatusNext(w.ledger, settlement.receipt, verdict)));
      var served := CanTell(w.ledger, settlement.receipt, verdict);
      && id in w'.handlers && w'.handlers[id].phase == Done(if served then Served(answer) else Crashed)
      && w'.served == w.served + if served then [Serving(h.requestHash, answer)] else []
  {
    Local(w, id);
    var h := w.handlers[id];
    var check, own := h.phase.check, h.phase.own;
    var recorded := w.(store := Checked(w.store, check.proof, verdict));
    TellsNext(recorded, check, verdict, durable && volume);
    ToldServed(w, check, verdict, durable && volume);
    StepIsCheckDone(durable, w, id, verdict, volume);
    hide Step, TellLedger, TellThrows, StatusNext, CanTell, StatusShown;
    var end, r := CheckDoneIs(w, id, h, check, own, verdict, durable && volume);
    if TellThrows(recorded, check, verdict) {
      ThrownIsCrashed(w, id, h, check, own, verdict, durable && volume);
    }
    hide Sound, CheckDone;
  }

  // ---- What others can do to it --------------------------------------------------------------------

  ghost function ReceiptOf(w: World, p: string): Option<string> {
    if HasReceipt(w.store, p) then w.store.attempts[p].settlement.value.receipt else None
  }

  ghost predicate LedgerHas(w: World, p: string, status: ReceiptStatus) {
    ReceiptOf(w, p).Some? && ReceiptIs(w.ledger, ReceiptOf(w, p).value, status)
  }

  /** A terminal verdict has moved the receipt, if the ledger has it. */
  ghost predicate Moved(w: World, p: string) {
    Decided(w.store, p) ==> !LedgerHas(w, p, Anchored)
  }

  /** The payment of a suspended payer is settled as the payer remembers it. */
  lemma PayerRemembers(w: World, id: nat, p: string)
    requires Sound(w) && Paying(w, id, p)
    ensures p in w.store.attempts && w.store.attempts[p].settlement.Some?
    ensures w.handlers[id].phase.own.value.settlement.receipt == ReceiptOf(w, p)
  {
    Local(w, id);
  }

  lemma AlikeMoved(w: World, w': World, p: string)
    requires Alike(w.store, w'.store) && w'.ledger == w.ledger
    ensures Moved(w, p) ==> Moved(w', p)
    ensures LedgerHas(w, p, Finalized) ==> LedgerHas(w', p, Finalized)
  {
    assert p in w.store.attempts ==> Untouched(w.store, w'.store, p);
  }

  lemma QuietIsAlike(w: World, w': World)
    requires Quiet(w, w')
    ensures Alike(w.store, w'.store) && w'.ledger == w.ledger
  {
  }

  lemma SettledMoved(w: World, id: nat, h: Handler, tx: string, receipt: Option<string>, copying: bool, p: string)
    requires Sound(w) && PhaseSound(w, h, AwaitSettle(tx)) && (receipt.Some? ==> receipt.value == tx)
    ensures var w' := SettledWorld(w, id, h, h.proof.value, tx, receipt, copying);
      && (Moved(w, p) ==> Moved(w', p))
      && (LedgerHas(w, p, Finalized) ==> LedgerHas(w', p, Finalized))
  {
    if p in w.store.attempts {
      AttemptOf(w, p);
    }
    hide Sound;
    AnchorEffect(w.ledger, receipt, copying);
    AnchorOnly(w.ledger, receipt, copying);
    hide Anchor;
  }

  lemma AnchorOnly(l: Ledger, receipt: Option<string>, copying: bool)
    ensures forall id | id in Anchor(l, receipt, copying).receipts :: id in l.receipts || receipt == Some(id)
  {
  }

  lemma TellMoves(w: World, check: Check, verdict: Finality, copying: bool, id: string)
    requires check.settlement.receipt == Some(id)
    ensures verdict.Terminal() ==> !ReceiptIs(TellLedger(w, check, verdict, copying).ledger, id, Anchored)
    ensures ReceiptIs(w.ledger, id, Finalized) ==>
      ReceiptIs(TellLedger(w, check, verdict, copying).ledger, id, Finalized)
  {
  }

  lemma CheckMoved(w: World, id: nat, check: Check, verdict: Finality, copying: bool, end: World, r: Response,
                   p: string)
    requires Sound(w) && id in w.handlers && check.proof in w.store.attempts
    requires SameSettlement(w.store.attempts[check.proof].settlement, Some(check.settlement))
    requires end == Told(w, check, verdict, copying).(store := end.store)
    requires Alike(Told(w, check, verdict, copying).store, end.store)
    ensures var w' := Respond(end, id, w.handlers[id], r);
      && (Moved(w, p) ==> Moved(w', p))
      && (LedgerHas(w, p, Finalized) ==> LedgerHas(w', p, Finalized))
  {
    var told := Told(w, check, verdict, copying);
    if p == check.proof {
      ToldMovesOwn(w, check, verdict, copying);
    } else {
      ToldKeepsOthers(w, check, verdict, copying, p);
    }
    hide Sound, Told, Alike, Moved, LedgerHas, SameSettlement;
    AlikeMoved(told, Respond(end, id, w.handlers[id], r), p);
  }

  lemma ToldMovesOwn(w: World, check: Check, verdict: Finality, copying: bool)
    requires check.proof in w.store.attempts
    requires SameSettlement(w.store.attempts[check.proof].settlement, Some(check.settlement))
    ensures var told := Told(w, check, verdict, copying);
      && (Moved(w, check.proof) ==> Moved(told, check.proof))
      && (LedgerHas(w, check.proof, Finalized) ==> LedgerHas(told, check.proof, Finalized))
  {
    var recorded := w.(store := Checked(w.store, check.proof, verdict));
    TellEffect(recorded, check, verdict, copying);
    if HasReceipt(w.store, check.proof) {
      TellMoves(recorded, check, verdict, copying, ReceiptOf(w, check.proof).value);
    }
    hide TellLedger;
  }

  lemma ToldKeepsOthers(w: World, check: Check, verdict: Finality, copying: bool, p: string)
    requires Sound(w) && check.proof in w.store.attempts && p != check.proof
    requires SameSettlement(w.store.attempts[check.proof].settlement, Some(check.settlement))
    ensures var told := Told(w, check, verdict, copying);
      && (Moved(w, p) ==> Moved(told, p))
      && (LedgerHas(w, p, Finalized) ==> LedgerHas(told, p, Finalized))
  {
    hide Sound;
    TellEffect(w.(store := Checked(w.store, check.proof, verdict)), check, verdict, copying);
    if HasReceipt(w.store, p) {
      OtherReceipts(w, check.proof, p);
    }
    hide TellLedger;
  }

  /** Every event but a restart or a reset leaves a moved receipt moved and a finalized one finalized. */
  lemma StepMoved(durable: bool, w: World, e: Event, p: string)
    requires Sound(w) && !e.Restart?
    ensures Moved(w, p) ==> Moved(Step(durable, w, e), p)
    ensures !e.ResetLedger? && LedgerHas(w, p, Finalized) ==> LedgerHas(Step(durable, w, e), p, Finalized)
  {
    hide Sound, Quiet, Authorized, Polled, SettleDone, CheckDone, Respond, Alike, SettledWorld, Told, Moved, LedgerHas;
    match e
    case SettleReturns(id, Success(anchored), volume) =>
      if id in w.handlers && w.handlers[id].phase.AwaitSettle? {
        Local(w, id);
        var h := w.handlers[id];
        SettleDoneIs(w, id, h, h.phase.tx, anchored, durable && volume);
        SettledMoved(w, id, h, h.phase.tx, if anchored then Some(h.phase.tx) else None, durable && volume, p);
      }
    case CheckReturns(id, verdict, volume) =>
      if id in w.handlers && w.handlers[id].phase.AwaitCheck? {
        Local(w, id);
        var phase := w.handlers[id].phase;
        var end, r := CheckDoneIs(w, id, w.handlers[id], phase.check, phase.own, verdict, durable && volume);
        CheckMoved(w, id, phase.check, verdict, durable && volume, end, r, p);
      }
    case ResetLedger =>
      ResetMoves(w, p);
    case _ =>
      QuietStep(durable, w, e);
      QuietIsAlike(w, Step(durable, w, e));
      AlikeMoved(w, Step(durable, w, e), p);
  }

  lemma ResetMoves(w: World, p: string)
    ensures Moved(w.(ledger := NO_RECEIPTS.(copies := w.ledger.copies)), p)
  {
  }

  lemma {:induction false} PayerMoved(durable: bool, events: seq<Event>, id: nat, p: string)
    requires Continuous(durable, events) && Paying(Run(durable, events), id, p)
    ensures Moved(Run(durable, events), p)
  {
    hide Sound, Step, Moved, HasReceipt;
    assert events != [];
    var init, e := events[..|events| - 1], events[|events| - 1];
    assert init + [] == init;
    RunGrows(durable, init, []);
    var w := Run(durable, init);
    if Paying(w, id, p) {
      PayerMoved(durable, init, id, p);
      RestartEnds(durable, w, id, p);
    } else {
      PayingStarts(durable, w, e, id, p);
      NothingToMove(w, p);
    }
    StepMoved(durable, w, e, p);
  }

  lemma NothingToMove(w: World, p: string)
    requires !HasReceipt(w.store, p)
    ensures Moved(w, p)
  {
  }

  /** As long as the payer waits: its payment has no receipt, or the ledger has it finalized. */
  ghost predicate OutOfReach(w: World, p: string) {
    ReceiptOf(w, p) == None || LedgerHas(w, p, Finalized)
  }

  lemma {:induction false} StaysOutOfReach(durable: bool, events: seq<Event>, more: seq<Event>, id: nat, p: string)
    requires Continuous(durable, events + more) && NoReset(more)
    requires Paying(Run(durable, events), id, p) && OutOfReach(Run(durable, events), p)
    requires Paying(Run(durable, events + more), id, p)
    ensures OutOfReach(Run(durable, events + more), p)
    decreases |more|
  {
    hide Sound, Step, LedgerHas, Moved;
    if more == [] {
      assert events + more == events;
    } else {
      var init, e := more[..|more| - 1], more[|more| - 1];
      assert events + more == (events + init) + [e];
      assert forall x | x in events + init :: x in events + more;
      RunGrows(durable, events, init);
      RunGrows(durable, events, more);
      RunLast(durable, events + init, e);
      var before, w := Run(durable, events), Run(durable, events + init);
      PayerRemembers(before, id, p);
      ReceiptKept(before, w, p);
      ReceiptKept(before, Run(durable, events + more), p);
      if Paying(w, id, p) {
        StaysOutOfReach(durable, events, init, id, p);
        RestartEnds(durable, w, id, p);
      } else {
        PayingStarts(durable, w, e, id, p);
      }
      StepMoved(durable, w, e, p);
    }
  }

  lemma ReceiptKept(w: World, w': World, p: string)
    requires Sound(w) && Grows(w, w') && p in w.store.attempts && w.store.attempts[p].settlement.Some?
    ensures ReceiptOf(w', p) == ReceiptOf(w, p)
  {
    assert AttemptSound(w, p) && AttemptGrows(w.store, w'.store, p);
  }

  /** A status request whose check comes back first with a mismatch. */
  lemma Overtaken(durable: bool, events: seq<Event>, id: nat, p: string) returns (more: seq<Event>)
    requires Continuous(durable, events) && Paying(Run(durable, events), id, p)
    requires LedgerHas(Run(durable, events), p, Anchored)
    ensures NoReset(more) && Continuous(durable, events + more)
    ensures Paying(Run(durable, events + more), id, p) && LedgerHas(Run(durable, events + more), p, Challenged)
  {
    assert events + [] == events;
    RunGrows(durable, events, []);
    PayerMoved(durable, events, id, p);
    var w := Run(durable, events);
    hide Run, Sound, Step, AttemptSound, OverwrittenWith, Enter;
    var i := FreshId(w.handlers.Keys);
    var e1, e2 := Poll(i, p, true), CheckReturns(i, Mismatch, true);
    more := [e1, e2];
    assert events + more == events + [e1] + [e2];
    RunLast(durable, events, e1);
    RunLast(durable, events + [e1], e2);
    PollChecks(durable, w, i, p);
    StepSound(durable, w, e1);
    var w1 := Step(durable, w, e1);
    PolledChecks(w, i, p, Handler("", Some(p), AwaitAuthorize), Check(p, w.store.attempts[p].settlement.value));
    CheckOverwrites(durable, w1, i, p, Mismatch, true);
    MismatchChallenges(w1, Step(durable, w1, e2), p, durable && true);
  }

  lemma PolledChecks(w: World, i: nat, p: string, h: Handler, check: Check)
    requires check.proof == p
    ensures var w' := Enter(w, i, h, AwaitCheck(check, None));
      Checks(w', i, p) && w'.store == w.store && w'.ledger == w.ledger &&
      forall j | j in w.handlers && j != i :: j in w'.handlers && w'.handlers[j] == w.handlers[j]
  {
  }

  lemma MismatchChallenges(w: World, w': World, p: string, copying: bool)
    requires LedgerHas(w, p, Anchored) && OverwrittenWith(w, w', p, Mismatch, copying)
    ensures LedgerHas(w', p, Challenged)
  {
  }

  ghost predicate IsServed(w: World, id: nat) {
    id in w.handlers && w.handlers[id].phase.Done? && w.handlers[id].phase.response.Served?
  }

  /**
   * In every continuation without a ledger reset, whatever its check returns and whenever it does, a waiting payer
   * is answered 200 if and only if its payment has no receipt or the ledger already has it finalized. Otherwise a
   * status request at the wrong time is enough to crash it.
   */
  lemma PayerIsSafe(durable: bool, events: seq<Event>, id: nat, p: string)
    requires Continuous(durable, events) && Paying(Run(durable, events), id, p)
    ensures OutOfReach(Run(durable, events), p) <==>
      forall more, verdict, volume | Continuous(durable, events + more) && NoReset(more) &&
        Paying(Run(durable, events + more), id, p) ::
        IsServed(Run(durable, events + more + [CheckReturns(id, verdict, volume)]), id)
  {
    hide Run, Paying, OutOfReach, IsServed;
    if OutOfReach(Run(durable, events), p) {
      forall more, verdict, volume | Continuous(durable, events + more) && NoReset(more) &&
        Paying(Run(durable, events + more), id, p)
        ensures IsServed(Run(durable, events + more + [CheckReturns(id, verdict, volume)]), id)
      {
        StaysOutOfReach(durable, events, more, id, p);
        Answered(durable, events + more, id, verdict, volume, p);
        Reach(Run(durable, events + more), p, verdict);
      }
    } else {
      var more := Unserved(durable, events, id, p);
    }
  }

  lemma Unserved(durable: bool, events: seq<Event>, id: nat, p: string) returns (more: seq<Event>)
    requires Continuous(durable, events) && Paying(Run(durable, events), id, p) && !OutOfReach(Run(durable, events), p)
    ensures Continuous(durable, events + more) && NoReset(more) && Paying(Run(durable, events + more), id, p)
    ensures !IsServed(Run(durable, events + more + [CheckReturns(id, Confirmed, true)]), id)
  {
    hide Run, Paying, OutOfReach, IsServed, LedgerHas, CanTell;
    more := [];
    assert events + [] == events;
    if LedgerHas(Run(durable, events), p, Anchored) {
      more := Overtaken(durable, events, id, p);
    }
    Answered(durable, events + more, id, Confirmed, true, p);
    Reach(Run(durable, events + more), p, Confirmed);
  }

  lemma Reach(w: World, p: string, verdict: Finality)
    ensures OutOfReach(w, p) ==> CanTell(w.ledger, ReceiptOf(w, p), verdict)
    ensures CanTell(w.ledger, ReceiptOf(w, p), Confirmed) ==> OutOfReach(w, p) || LedgerHas(w, p, Anchored)
    ensures LedgerHas(w, p, Challenged) ==> !OutOfReach(w, p) && !LedgerHas(w, p, Anchored)
  {
  }

  lemma Answered(durable: bool, events: seq<Event>, id: nat, verdict: Finality, volume: bool, p: string)
    requires Continuous(durable, events) && Paying(Run(durable, events), id, p)
    ensures IsServed(Run(durable, events + [CheckReturns(id, verdict, volume)]), id) <==>
      CanTell(Run(durable, events).ledger, ReceiptOf(Run(durable, events), p), verdict)
  {
    assert events + [] == events;
    RunGrows(durable, events, []);
    hide Run, Sound;
    PayerRemembers(Run(durable, events), id, p);
    PayerIsAnswered(durable, events, id, verdict, volume, p);
  }
}
