/**
 * What the paid route guarantees over whole runs, and exactly where the guarantees stop: a store without a
 * directory forgets payments at a restart, and overlapping checks of one payment can contradict the ledger.
 */
module NearGuarantees {
  import opened NearStore
  import opened Wrappers
  import opened NearPayments
  import opened NearSafety

  ghost predicate Continuous(durable: bool, events: seq<Event>) {
    forall e | e in events :: Remembers(durable, e)
  }

  lemma RunLast(durable: bool, events: seq<Event>, e: Event)
    ensures Run(durable, events + [e]) == Step(durable, Run(durable, events), e)
  {
    assert (events + [e])[..|events|] == events;
  }

  lemma {:induction false} RunGrows(durable: bool, events: seq<Event>, more: seq<Event>)
    requires Continuous(durable, events + more)
    ensures Sound(Run(durable, events)) && Sound(Run(durable, events + more))
    ensures Grows(Run(durable, events), Run(durable, events + more))
    decreases |events|, |more|
  {
    hide Sound, Grows, Step;
    if more != [] {
      var init := more[..|more| - 1];
      var e := more[|more| - 1];
      assert events + more == (events + init) + [e];
      assert forall x | x in events + init :: x in events + more;
      RunGrows(durable, events, init);
      RunLast(durable, events + init, e);
      StepSound(durable, Run(durable, events + init), e);
      GrowsOn(Run(durable, events), Run(durable, events + init), Run(durable, events + more));
    } else {
      assert events + more == events;
      if events == [] {
        StartSound();
      } else {
        var init := events[..|events| - 1];
        var e := events[|events| - 1];
        assert events == init + [e];
        assert init + [e] == init + [e] + [];
        assert forall x | x in init + [] :: x in events + more;
        RunGrows(durable, init, []);
        StepSound(durable, Run(durable, init), e);
      }
      GrowsSelf(Run(durable, events));
    }
  }

  lemma StartSound()
    ensures Sound(START)
  {
  }

  // ---- Exactly once --------------------------------------------------------------------------------

  /** However the handlers interleave, settle is called at most once per payment proof and per transaction. */
  lemma SettlesOnce(durable: bool, events: seq<Event>)
    requires Continuous(durable, events)
    ensures EachOnce(Run(durable, events).settles)
  {
    assert events + [] == events;
    RunGrows(durable, events, []);
  }

  /** In every reachable state an authorized payment is settled exactly when its proof and its transaction are new. */
  lemma NewPaymentsSettle(durable: bool, events: seq<Event>, id: nat, a: Authorization)
    requires Continuous(durable, events)
    requires id in Run(durable, events).handlers && Run(durable, events).handlers[id].phase.AwaitAuthorize?
    ensures var w := Run(durable, events);
      var proof := w.handlers[id].proof;
      var settled := !Refused(a) && proof.Some? &&
        proof.value !in w.store.attempts && a.transaction !in w.store.owners;
      Run(durable, events + [AuthorizeReturns(id, a)]).settles ==
        w.settles + if settled then [SettleCall(proof.value, a.transaction)] else []
  {
    assert events + [] == events;
    RunGrows(durable, events, []);
    RunLast(durable, events, AuthorizeReturns(id, a));
    hide Run, Grows;
  }

  /** Without a directory, a restart forgets the payment and the same proof is settled again. */
  lemma ForgottenPayment() returns (events: seq<Event>)
    ensures !EachOnce(Run(false, events).settles)
  {
    var pay := [Arrive(0, Some("p"), "r"), AuthorizeReturns(0, Verified("t"))];
    RunLast(false, [], pay[0]);
    RunLast(false, [pay[0]], pay[1]);
    assert [] + [pay[0]] == [pay[0]] && [pay[0]] + [pay[1]] == pay;
    assert Run(false, pay).settles == [SettleCall("p", "t")];
    var forgot := pay + [Restart];
    RunLast(false, pay, Restart);
    RunLast(false, forgot, pay[0]);
    events := forgot + [pay[0]] + [pay[1]];
    RunLast(false, forgot + [pay[0]], pay[1]);
    var calls := Run(false, events).settles;
    assert calls == [SettleCall("p", "t"), SettleCall("p", "t")];
    assert calls[0].proof == calls[1].proof;
  }

  /** Exactly-once settlement over every run, restarts included, is what the data directory is for. */
  lemma ExactlyOnceIffDurable(durable: bool)
    ensures durable <==> forall events :: EachOnce(Run(durable, events).settles)
  {
    if durable {
      forall events ensures EachOnce(Run(durable, events).settles) {
        SettlesOnce(durable, events);
      }
    } else {
      var events := ForgottenPayment();
    }
  }

  // ---- Who gets the answer -------------------------------------------------------------------------

  /**
   * Every 200 answers the very request it is sent to, was paid for by a settle call, and two answers paid
   * by one transaction answer one request: they differ at most in what they say about the payment's state.
   */
  lemma DeliveryBinding(durable: bool, events: seq<Event>, v: Serving, u: Serving)
    requires Continuous(durable, events)
    requires v in Run(durable, events).served && u in Run(durable, events).served
    ensures v.resource.requestHash == v.requestHash
    ensures exists proof :: SettleCall(proof, v.resource.transaction) in Run(durable, events).settles
    ensures v.resource.transaction == u.resource.transaction ==>
      v.requestHash == u.requestHash && v.resource == u.resource.(payment := v.resource.payment)
  {
    assert events + [] == events;
    RunGrows(durable, events, []);
    var w := Run(durable, events);
    assert ServingSound(w, v) && ServingSound(w, u);
    var p :| PaysFor(w, p, v.resource);
    var q :| PaysFor(w, q, u.resource);
    assert AttemptSound(w, p) && AttemptSound(w, q);
  }

  /**
   * An attempt that has left settling is decided for good: status, transaction and receipt. A failed one never
   * carries a settlement, and no 200 is ever paid for by a transaction of its own.
   */
  lemma OutcomeIsFinal(durable: bool, events: seq<Event>, more: seq<Event>, p: string)
    requires Continuous(durable, events + more)
    requires p in Run(durable, events).store.attempts
    requires Run(durable, events).store.attempts[p].status != Settling
    ensures var before, after := Run(durable, events), Run(durable, events + more);
      && p in after.store.attempts
      && after.store.attempts[p].status == before.store.attempts[p].status
      && SameSettlement(before.store.attempts[p].settlement, after.store.attempts[p].settlement)
      && (before.store.attempts[p].status == Failed ==>
            after.store.attempts[p].settlement == None &&
            forall v | v in after.served ::
              v.resource.transaction in after.store.owners && after.store.owners[v.resource.transaction] != p)
  {
    RunGrows(durable, events, more);
    var before, after := Run(durable, events), Run(durable, events + more);
    assert AttemptGrows(before.store, after.store, p) && AttemptSound(before, p);
    forall v | v in after.served
      ensures v.resource.transaction in after.store.owners
      ensures before.store.attempts[p].status == Failed ==> after.store.owners[v.resource.transaction] != p
    {
      assert ServingSound(after, v);
      var q :| PaysFor(after, q, v.resource);
      assert AttemptSound(after, q);
    }
  }

  /**
   * A paid answer can be asked for again for ever: in every continuation the same proof is answered 200 with
   * the answer then stored, to its own request and for its own transaction, without any settle call, and 409
   * for any other request.
   */
  lemma PaidAnswerRepeats(durable: bool, events: seq<Event>, more: seq<Event>, p: string, id: nat, requestHash: string)
    requires Continuous(durable, events + more)
    requires p in Run(durable, events).store.attempts && Run(durable, events).store.attempts[p].status == Settled
    requires id !in Run(durable, events + more).handlers
    ensures var a := Run(durable, events).store.attempts[p];
      var after := Run(durable, events + more);
      var again := Step(durable, after, Arrive(id, Some(p), requestHash));
      && a.settlement.Some? && p in after.store.attempts && after.store.attempts[p].settlement.Some?
      && again.store == after.store && again.settles == after.settles && id in again.handlers
      && var answer := after.store.attempts[p].settlement.value.response;
        && answer.requestHash == a.requestHash && answer.transaction == a.settlement.value.transaction
        && again.handlers[id].phase == Done(if requestHash == a.requestHash then Served(answer) else Denied(409))
  {
    RunGrows(durable, events, more);
    var before, after := Run(durable, events), Run(durable, events + more);
    assert AttemptSound(before, p) && AttemptGrows(before.store, after.store, p) && AttemptSound(after, p);
    hide Run, Sound, Grows;
  }

  // ---- Payments left behind ------------------------------------------------------------------------

  /** The attempt waits for a settlement that no handler is waiting for. */
  ghost predicate Stranded(w: World, p: string) {
    && p in w.store.attempts && w.store.attempts[p].status == Settling
    && forall id :: !Settles(w, id, p)
  }

  lemma AuthorizedStranded(w: World, id: nat, a: Authorization, p: string)
    requires Sound(w) && Stranded(w, p) && id in w.handlers && w.handlers[id].phase.AwaitAuthorize?
    ensures Stranded(Authorized(w, id, w.handlers[id], a), p)
  {
    hide Sound;
    var w' := Authorized(w, id, w.handlers[id], a);
    forall j | Settles(w', j, p) ensures Settles(w, j, p) {
    }
  }

  lemma SettleDoneStranded(w: World, id: nat, outcome: SettleOutcome, copying: bool, p: string)
    requires Sound(w) && Stranded(w, p) && id in w.handlers && w.handlers[id].phase.AwaitSettle?
    ensures Stranded(SettleDone(w, id, w.handlers[id], w.handlers[id].phase.tx, outcome, copying), p)
  {
    Local(w, id);
    assert !Settles(w, id, p);
    hide Sound, FinalSettlement, TellLedger;
    var w' := SettleDone(w, id, w.handlers[id], w.handlers[id].phase.tx, outcome, copying);
    assert w'.store.attempts[p] == w.store.attempts[p];
    forall j | Settles(w', j, p) ensures Settles(w, j, p) {
    }
  }

  lemma CheckDoneStranded(w: World, id: nat, verdict: Finality, copying: bool, p: string)
    requires Sound(w) && Stranded(w, p) && id in w.handlers && w.handlers[id].phase.AwaitCheck?
    ensures var phase := w.handlers[id].phase;
      Stranded(CheckDone(w, id, w.handlers[id], phase.check, phase.own, verdict, copying), p)
  {
    Local(w, id);
    var phase := w.handlers[id].phase;
    SoundIsSoundBut(w, id);
    SoundAt(w, id, p);
    SoundAt(w, id, phase.check.proof);
    assert phase.check.proof != p;
    hide Sound, AttemptSound, HandlerSound;
    CheckDoneElsewhere(w, id, w.handlers[id], phase.check, phase.own, verdict, copying, p);
    hide CheckDone;
    var w' := CheckDone(w, id, w.handlers[id], phase.check, phase.own, verdict, copying);
    forall j | Settles(w', j, p) ensures Settles(w, j, p) {
    }
  }

  /** The attempt is as it was, and one handler is done. */
  ghost predicate Elsewhere(w: World, w': World, id: nat, p: string)
    requires p in w.store.attempts
  {
    && p in w'.store.attempts && w'.store.attempts[p] == w.store.attempts[p]
    && id in w'.handlers && w'.handlers[id].phase.Done?
    && forall j | j in w'.handlers && j != id :: j in w.handlers && w'.handlers[j] == w.handlers[j]
  }

  lemma RespondElsewhere(w: World, w': World, id: nat, h: Handler, r: Response, p: string)
    requires p in w.store.attempts && p in w'.store.attempts && w'.store.attempts[p] == w.store.attempts[p]
    requires w'.handlers == w.handlers
    ensures Elsewhere(w, Respond(w', id, h, r), id, p)
  {
  }

  lemma FinishElsewhere(w: World, w': World, id: nat, h: Handler, own: Option<Check>, finality: Option<Finality>,
                        p: string)
    requires p in w.store.attempts && p in w'.store.attempts && w'.store.attempts[p] == w.store.attempts[p]
    requires w'.handlers == w.handlers && (own.Some? ==> own.value.proof != p)
    ensures Elsewhere(w, Finish(w', id, h, own, finality), id, p)
  {
    hide Elsewhere, Respond, FinalSettlement;
    RespondElsewhere(w, w', id, h, Reported, p);
    RespondElsewhere(w, w', id, h, Crashed, p);
    if own.Some? {
      var final := FinalSettlement(w'.ledger, own.value.settlement, finality);
      RespondElsewhere(w, w'.(store := SettledWith(w'.store, own.value.proof, final)), id, h, Served(final.response),
                       p);
    }
  }

  lemma CheckDoneElsewhere(w: World, id: nat, h: Handler, check: Check, own: Option<Check>, verdict: Finality,
                           copying: bool, p: string)
    requires p in w.store.attempts && check.proof != p && (own.Some? ==> own.value.proof == check.proof)
    ensures Elsewhere(w, CheckDone(w, id, h, check, own, verdict, copying), id, p)
  {
    hide Elsewhere, Respond, Finish, FinalizeReceipt, ChallengeReceipt;
    RespondElsewhere(w, w, id, h, Crashed, p);
    var told := TellLedger(w.(store := Checked(w.store, check.proof, verdict)), check, verdict, copying);
    RespondElsewhere(w, told, id, h, Crashed, p);
    FinishElsewhere(w, told, id, h, own, Some(verdict), p);
  }

  lemma PolledStranded(w: World, id: nat, attempt: string, copying: bool, p: string)
    requires Sound(w) && Stranded(w, p) && id !in w.handlers
    ensures Stranded(Polled(w, id, attempt, copying), p)
  {
    if attempt in w.store.attempts {
      SoundIsSoundBut(w, id);
      SoundAt(w, id, attempt);
    }
    hide Sound, TellLedger;
    var w' := Polled(w, id, attempt, copying);
    assert w'.store == w.store;
    forall j | Settles(w', j, p) ensures Settles(w, j, p) {
    }
  }

  lemma StepStranded(durable: bool, w: World, e: Event, p: string)
    requires Sound(w) && Stranded(w, p) && Remembers(durable, e)
    ensures Stranded(Step(durable, w, e), p)
  {
    hide Sound, Authorized, SettleDone, CheckDone, Polled;
    match e
    case Arrive(id, proof, requestHash) =>
      var w' := Step(durable, w, e);
      assert w'.store == w.store;
      forall j | Settles(w', j, p) ensures Settles(w, j, p) {
      }
    case Poll(id, attempt, volume) =>
      if id !in w.handlers {
        PolledStranded(w, id, attempt, durable && volume, p);
      }
    case Restart =>
    case ResetLedger =>
      var w' := Step(durable, w, e);
      assert forall j | Settles(w', j, p) :: Settles(w, j, p);
    case AuthorizeReturns(id, a) =>
      if id in w.handlers && w.handlers[id].phase.AwaitAuthorize? {
        AuthorizedStranded(w, id, a, p);
      }
    case SettleReturns(id, outcome, volume) =>
      if id in w.handlers && w.handlers[id].phase.AwaitSettle? {
        SettleDoneStranded(w, id, outcome, durable && volume, p);
      }
    case CheckReturns(id, verdict, volume) =>
      if id in w.handlers && w.handlers[id].phase.AwaitCheck? {
        CheckDoneStranded(w, id, verdict, durable && volume, p);
      }
  }

  lemma {:induction false} RunStranded(durable: bool, events: seq<Event>, more: seq<Event>, p: string)
    requires Continuous(durable, events + more) && Stranded(Run(durable, events), p)
    ensures Stranded(Run(durable, events + more), p)
    decreases |more|
  {
    hide Sound, Stranded, Step;
    if more == [] {
      assert events + more == events;
    } else {
      var init := more[..|more| - 1];
      var e := more[|more| - 1];
      assert events + more == (events + init) + [e];
      assert forall x | x in events + init :: x in events + more;
      RunStranded(durable, events, init, p);
      assert (events + init) + [] == events + init;
      RunGrows(durable, events + init, []);
      RunLast(durable, events + init, e);
      StepStranded(durable, Run(durable, events + init), e, p);
    }
  }

  ghost predicate StillSettling(w: World, p: string) {
    p in w.store.attempts && w.store.attempts[p].status == Settling
  }

  /**
   * A payment that is settling stays so in every continuation exactly when no handler is waiting for its settle
   * call, as after a restart that interrupted one.
   */
  lemma LostForGood(durable: bool, events: seq<Event>, p: string)
    requires Continuous(durable, events) && StillSettling(Run(durable, events), p)
    ensures (forall id :: !Settles(Run(durable, events), id, p)) <==>
      forall more | Continuous(durable, events + more) :: StillSettling(Run(durable, events + more), p)
  {
    var w := Run(durable, events);
    if id :| Settles(w, id, p) {
      var e := SettleReturns(id, Rejected, false);
      RunLast(durable, events, e);
      assert Continuous(durable, events + [e]);
      assert !StillSettling(Run(durable, events + [e]), p);
    } else {
      forall more | Continuous(durable, events + more) ensures StillSettling(Run(durable, events + more), p) {
        RunStranded(durable, events, more, p);
      }
    }
  }

  /** No 200 is ever paid for by a transaction whose attempt is still settling. */
  lemma SettlingServesNothing(durable: bool, events: seq<Event>, p: string, v: Serving)
    requires Continuous(durable, events) && StillSettling(Run(durable, events), p)
    requires v in Run(durable, events).served
    ensures var w := Run(durable, events);
      v.resource.transaction in w.store.owners && w.store.owners[v.resource.transaction] != p
  {
    assert events + [] == events;
    RunGrows(durable, events, []);
    var w := Run(durable, events);
    assert AttemptSound(w, p) && ServingSound(w, v);
    var q :| PaysFor(w, q, v.resource);
    assert AttemptSound(w, q);
  }

  // ---- What reaches the anchor ---------------------------------------------------------------------

  /** Every anchored transaction belongs to a settled attempt, and none was handed over twice. */
  ghost predicate AnchorsSound(w: World) {
    && NoRepeats(w.anchors)
    && forall tx | tx in w.anchors :: SettledWithTransaction(w, tx)
  }

  ghost predicate SettledWithTransaction(w: World, tx: string) {
    && tx in w.store.owners && w.store.owners[tx] in w.store.attempts
    && var a := w.store.attempts[w.store.owners[tx]];
      a.status == Settled && a.settlement.Some? && a.settlement.value.transaction == tx
  }

  lemma AnchorsKept(w: World, w': World)
    requires Sound(w) && AnchorsSound(w) && Grows(w, w') && w'.anchors == w.anchors
    ensures AnchorsSound(w')
  {
    forall tx | tx in w'.anchors ensures SettledWithTransaction(w', tx) {
      assert SettledWithTransaction(w, tx);
      assert AttemptGrows(w.store, w'.store, w.store.owners[tx]);
    }
  }

  lemma SettleDoneAnchors(w: World, id: nat, outcome: SettleOutcome, copying: bool)
    requires Sound(w) && AnchorsSound(w) && id in w.handlers && w.handlers[id].phase.AwaitSettle?
    ensures AnchorsSound(SettleDone(w, id, w.handlers[id], w.handlers[id].phase.tx, outcome, copying))
  {
    Local(w, id);
    var h := w.handlers[id];
    var w' := SettleDone(w, id, h, h.phase.tx, outcome, copying);
    SettleDoneSound(w, id, h, h.phase.tx, outcome, copying);
    if outcome.Success? {
      assert h.phase.tx !in w.anchors by {
        assert h.phase.tx in w.anchors ==> SettledWithTransaction(w, h.phase.tx);
      }
      hide Sound, FinalSettlement;
      assert w'.anchors == w.anchors + [h.phase.tx];
      forall tx | tx in w'.anchors ensures SettledWithTransaction(w', tx) {
        if tx != h.phase.tx {
          assert SettledWithTransaction(w, tx);
          assert AttemptGrows(w.store, w'.store, w.store.owners[tx]);
        }
      }
    } else {
      hide Sound;
      AnchorsKept(w, w');
    }
  }

  lemma StepAnchors(durable: bool, w: World, e: Event)
    requires Sound(w) && AnchorsSound(w) && Remembers(durable, e)
    ensures AnchorsSound(Step(durable, w, e))
  {
    StepSound(durable, w, e);
    hide Sound, AnchorsSound, Grows, SettleDone, CheckDone, Polled, Authorized, Arrived;
    if e.SettleReturns? && e.id in w.handlers && w.handlers[e.id].phase.AwaitSettle? {
      SettleDoneAnchors(w, e.id, e.outcome, durable && e.volume);
    } else {
      match e {
        case Arrive(id, proof, requestHash) => ArrivedAnchors(w, id, proof, requestHash);
        case Poll(id, attempt, volume) => PolledAnchors(w, id, attempt, durable && volume);
        case AuthorizeReturns(id, a) =>
          if id in w.handlers {
            AuthorizedAnchors(w, id, w.handlers[id], a);
          }
        case CheckReturns(id, verdict, volume) =>
          if id in w.handlers && w.handlers[id].phase.AwaitCheck? {
            var phase := w.handlers[id].phase;
            CheckDoneAnchors(w, id, w.handlers[id], phase.check, phase.own, verdict, durable && volume);
          }
        case _ =>
      }
      AnchorsKept(w, Step(durable, w, e));
    }
  }

  lemma ArrivedAnchors(w: World, id: nat, proof: Option<string>, requestHash: string)
    ensures Arrived(w, id, proof, requestHash).anchors == w.anchors
  {
  }

  lemma PolledAnchors(w: World, id: nat, attempt: string, copying: bool)
    ensures Polled(w, id, attempt, copying).anchors == w.anchors
  {
    hide FinalizeReceipt, ChallengeReceipt;
  }

  lemma AuthorizedAnchors(w: World, id: nat, h: Handler, a: Authorization)
    ensures Authorized(w, id, h, a).anchors == w.anchors
  {
  }

  lemma CheckDoneAnchors(w: World, id: nat, h: Handler, check: Check, own: Option<Check>, verdict: Finality,
                         copying: bool)
    ensures CheckDone(w, id, h, check, own, verdict, copying).anchors == w.anchors
  {
    hide FinalizeReceipt, ChallengeReceipt, FinalSettlement;
  }

  /** Whatever happens, ledger resets included, the route hands each transaction to the anchor at most once. */
  lemma {:induction false} AnchoredOnce(durable: bool, events: seq<Event>)
    requires Continuous(durable, events)
    ensures Sound(Run(durable, events)) && AnchorsSound(Run(durable, events))
    ensures NoRepeats(Run(durable, events).anchors)
  {
    hide Sound, Step;
    assert events + [] == events;
    RunGrows(durable, events, []);
    if events != [] {
      var init := events[..|events| - 1];
      AnchoredOnce(durable, init);
      StepAnchors(durable, Run(durable, init), events[|events| - 1]);
    }
  }
}
