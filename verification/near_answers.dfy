/**
 * What a client is told: the answer to each outcome of authorization and settlement, and what its payment proof is
 * answered from then on, in every continuation.
 */
module NearAnswers {
  import opened NearStore
  import opened Wrappers
  import opened Receipts
  import opened NearPayments
  import opened NearSafety
  import opened NearGuarantees
  import opened NearReconciliation

  /** The handler has been answered. */
  ghost predicate Answered(w: World, id: nat, r: Response) {
    id in w.handlers && w.handlers[id].phase == Done(r)
  }

  /** A new request with this proof is answered at once: nothing is claimed, settled or anchored for it. */
  ghost predicate ArrivalGets(durable: bool, w: World, proof: string, requestHash: string, r: Response) {
    forall id: nat | id !in w.handlers ::
      var w' := Step(durable, w, Arrive(id, Some(proof), requestHash));
      Answered(w', id, r) && w' == w.(handlers := w'.handlers, served := w'.served)
  }

  /** The status and the request of an attempt decide what an arrival with its proof is answered. */
  lemma ArrivalOf(durable: bool, w: World, proof: string, requestHash: string)
    requires proof in w.store.attempts
    ensures var a := w.store.attempts[proof];
      ArrivalGets(durable, w, proof, requestHash,
        if a.requestHash != requestHash then Denied(409)
        else match a.status
          case Settled => if a.settlement.Some? then Served(a.settlement.value.response) else Denied(202)
          case Failed => Denied(409)
          case Settling => Denied(202)
          case Indeterminate => Denied(202))
  {
  }

  /** A request without a payment, or with a proof that nobody has claimed, awaits its authorization. */
  lemma NewRequestWaits(durable: bool, events: seq<Event>, id: nat, proof: Option<string>, requestHash: string)
    requires id !in Run(durable, events).handlers
    requires proof.Some? ==> proof.value !in Run(durable, events).store.attempts
    ensures var w := Run(durable, events);
      Run(durable, events + [Arrive(id, proof, requestHash)]) ==
      w.(handlers := w.handlers[id := Handler(requestHash, proof, AwaitAuthorize)])
  {
    RunLast(durable, events, Arrive(id, proof, requestHash));
    hide Run;
  }

  // ---- After settlement ----------------------------------------------------------------------------

  ghost predicate AwaitsSettle(w: World, id: nat) {
    id in w.handlers && w.handlers[id].phase.AwaitSettle? && w.handlers[id].proof.Some?
  }

  ghost predicate HasStatus(w: World, p: string, requestHash: string, status: AttemptStatus) {
    p in w.store.attempts && w.store.attempts[p].requestHash == requestHash && w.store.attempts[p].status == status
  }

  lemma WaitsForSettle(durable: bool, events: seq<Event>, id: nat)
    requires Continuous(durable, events) && id in Run(durable, events).handlers
    requires Run(durable, events).handlers[id].phase.AwaitSettle?
    ensures Sound(Run(durable, events)) && AwaitsSettle(Run(durable, events), id)
    ensures var w := Run(durable, events);
      HasStatus(w, w.handlers[id].proof.value, w.handlers[id].requestHash, Settling)
  {
    assert events + [] == events;
    RunGrows(durable, events, []);
    Local(Run(durable, events), id);
  }

  /** What a settlement that did not succeed does to its attempt and its handler. */
  lemma Unsettled(durable: bool, w: World, id: nat, outcome: SettleOutcome, volume: bool)
    requires Sound(w) && AwaitsSettle(w, id) && !outcome.Success?
    ensures var h := w.handlers[id];
      var w' := Step(durable, w, SettleReturns(id, outcome, volume));
      && Answered(w', id, Denied(if outcome == SettleOutcome.Unknown then 502 else 402))
      && HasStatus(w', h.proof.value, h.requestHash, if outcome == SettleOutcome.Unknown then Indeterminate else Failed)
      && w'.ledger == w.ledger && w'.anchors == w.anchors && w'.served == w.served
  {
    Local(w, id);
    hide Sound, Reconcile;
  }

  /** An attempt that has left settling has its status and its request for good. */
  lemma StatusStays(durable: bool, events: seq<Event>, more: seq<Event>, p: string, requestHash: string,
                    status: AttemptStatus)
    requires Continuous(durable, events + more) && status != Settling
    requires HasStatus(Run(durable, events), p, requestHash, status)
    ensures HasStatus(Run(durable, events + more), p, requestHash, status)
  {
    RunGrows(durable, events, more);
    var w, w' := Run(durable, events), Run(durable, events + more);
    hide Run;
    assert AttemptGrows(w.store, w'.store, p);
  }

  /**
   * While a settlement is awaited, new requests with its proof are told to wait (202). If its outcome is unknown, the
   * request is answered 502 and each later one with the proof 202, in every continuation: the client never learns that
   * it should pay again. Requests for something else are refused (409).
   */
  lemma UnknownIsNeverRejected(durable: bool, events: seq<Event>, id: nat, volume: bool, more: seq<Event>,
                               requestHash: string)
    requires Continuous(durable, events + [SettleReturns(id, SettleOutcome.Unknown, volume)] + more)
    requires id in Run(durable, events).handlers && Run(durable, events).handlers[id].phase.AwaitSettle?
    ensures var w, e := Run(durable, events), SettleReturns(id, SettleOutcome.Unknown, volume);
      var h, after := w.handlers[id], Run(durable, events + [e]);
      var r := Denied(if requestHash == h.requestHash then 202 else 409);
      && h.proof.Some?
      && ArrivalGets(durable, w, h.proof.value, requestHash, r)
      && Answered(after, id, Denied(502)) && after.served == w.served && after.anchors == w.anchors
      && ArrivalGets(durable, Run(durable, events + [e] + more), h.proof.value, requestHash, r)
  {
    var e := SettleReturns(id, SettleOutcome.Unknown, volume);
    ContinuousParts(durable, events, e, more);
    WaitsForSettle(durable, events, id);
    RunLast(durable, events, e);
    var w := Run(durable, events);
    var h, later := w.handlers[id], Run(durable, events + [e] + more);
    hide Run, Sound, Step, ArrivalGets;
    Unsettled(durable, w, id, SettleOutcome.Unknown, volume);
    StatusStays(durable, events + [e], more, h.proof.value, h.requestHash, Indeterminate);
    ArrivalOf(durable, w, h.proof.value, requestHash);
    ArrivalOf(durable, later, h.proof.value, requestHash);
  }

  /**
   * If a settlement is rejected, the request is answered 402 and every later one with its proof 409, in every
   * continuation: a rejected proof is never tried again.
   */
  lemma RejectedStaysRejected(durable: bool, events: seq<Event>, id: nat, volume: bool, more: seq<Event>,
                              requestHash: string)
    requires Continuous(durable, events + [SettleReturns(id, Rejected, volume)] + more)
    requires id in Run(durable, events).handlers && Run(durable, events).handlers[id].phase.AwaitSettle?
    ensures var w, e := Run(durable, events), SettleReturns(id, Rejected, volume);
      var h, after := w.handlers[id], Run(durable, events + [e]);
      && h.proof.Some?
      && Answered(after, id, Denied(402)) && after.served == w.served && after.anchors == w.anchors
      && ArrivalGets(durable, Run(durable, events + [e] + more), h.proof.value, requestHash, Denied(409))
  {
    var e := SettleReturns(id, Rejected, volume);
    ContinuousParts(durable, events, e, more);
    WaitsForSettle(durable, events, id);
    RunLast(durable, events, e);
    var w := Run(durable, events);
    var h, later := w.handlers[id], Run(durable, events + [e] + more);
    hide Run, Sound, Step, ArrivalGets;
    Unsettled(durable, w, id, Rejected, volume);
    StatusStays(durable, events + [e], more, h.proof.value, h.requestHash, Failed);
    ArrivalOf(durable, later, h.proof.value, requestHash);
  }

  lemma ContinuousParts(durable: bool, events: seq<Event>, e: Event, more: seq<Event>)
    requires Continuous(durable, events + [e] + more)
    ensures Continuous(durable, events) && Continuous(durable, events + [e])
  {
    var all := events + [e] + more;
    assert forall x | x in events + [e] :: x in all;
    assert forall x | x in events :: x in events + [e];
  }

  /**
   * A settlement that succeeds is handed to the anchor once more than before, and its handler goes on to check it on
   * the chain, remembering its transaction and, if it was anchored, its receipt. From then on every new request with
   * its proof is answered 200 with the stored answer, for its own request and transaction only, in every continuation.
   */
  lemma SuccessIsServedForGood(durable: bool, events: seq<Event>, id: nat, anchored: bool, volume: bool,
                               more: seq<Event>, requestHash: string)
    requires Continuous(durable, events + [SettleReturns(id, Success(anchored), volume)] + more)
    requires id in Run(durable, events).handlers && Run(durable, events).handlers[id].phase.AwaitSettle?
    ensures var w, e := Run(durable, events), SettleReturns(id, Success(anchored), volume);
      var h, t, after := w.handlers[id], w.handlers[id].phase.tx, Run(durable, events + [e]);
      && h.proof.Some?
      && after.anchors == w.anchors + [t]
      && Paying(after, id, h.proof.value)
      && after.handlers[id].phase.own ==
           Some(Check(h.proof.value, Settlement(t, if anchored then Some(t) else None,
                                                Resource(h.requestHash, t, Provisional))))
      && (anchored ==> t in after.ledger.receipts && (durable && volume ==> t in after.ledger.copies))
      && exists answer: Resource ::
           && answer.requestHash == h.requestHash && answer.transaction == t
           && ArrivalGets(durable, Run(durable, events + [e] + more), h.proof.value, requestHash,
                          if requestHash == h.requestHash then Served(answer) else Denied(409))
  {
    var e := SettleReturns(id, Success(anchored), volume);
    ContinuousParts(durable, events, e, more);
    WaitsForSettle(durable, events, id);
    RunLast(durable, events, e);
    RunGrows(durable, events + [e], more);
    var w := Run(durable, events);
    var h, t, later := w.handlers[id], w.handlers[id].phase.tx, Run(durable, events + [e] + more);
    hide Run, Step, ArrivalGets, Sound;
    SettlesNow(durable, w, id, anchored, volume);
    SettledStays(Step(durable, w, e), later, h.proof.value);
    ArrivalOf(durable, later, h.proof.value, requestHash);
  }

  lemma SettlesNow(durable: bool, w: World, id: nat, anchored: bool, volume: bool)
    requires Sound(w) && AwaitsSettle(w, id)
    ensures var h, t := w.handlers[id], w.handlers[id].phase.tx;
      var settlement := Settlement(t, if anchored then Some(t) else None, Resource(h.requestHash, t, Provisional));
      var w' := Step(durable, w, SettleReturns(id, Success(anchored), volume));
      && w'.anchors == w.anchors + [t]
      && Paying(w', id, h.proof.value) && w'.handlers[id].phase.own == Some(Check(h.proof.value, settlement))
      && (anchored ==> t in w'.ledger.receipts && (durable && volume ==> t in w'.ledger.copies))
      && HasStatus(w', h.proof.value, h.requestHash, Settled)
      && w'.store.attempts[h.proof.value].settlement == Some(settlement)
  {
    Local(w, id);
    var h := w.handlers[id];
    SettleDoneIs(w, id, h, h.phase.tx, anchored, durable && volume);
    hide Sound, SettleDone;
  }

  lemma SettledStays(w: World, w': World, p: string)
    requires Sound(w) && Sound(w') && Grows(w, w') && p in w.store.attempts
    requires w.store.attempts[p].status == Settled && w.store.attempts[p].settlement.Some?
    ensures p in w'.store.attempts && w'.store.attempts[p].settlement.Some?
    ensures HasStatus(w', p, w.store.attempts[p].requestHash, Settled)
    ensures var answer := w'.store.attempts[p].settlement.value.response;
      answer.requestHash == w.store.attempts[p].requestHash &&
      answer.transaction == w.store.attempts[p].settlement.value.transaction
  {
    assert AttemptGrows(w.store, w'.store, p) && AttemptSound(w', p) && AttemptSound(w, p);
  }

  // ---- After authorization -------------------------------------------------------------------------

  ghost predicate AwaitsAuthorize(w: World, id: nat) {
    id in w.handlers && w.handlers[id].phase.AwaitAuthorize?
  }

  /** Nothing but answers to requests has changed. */
  ghost predicate OnlyAnswers(w: World, w': World) {
    w' == w.(handlers := w'.handlers, served := w'.served)
  }

  /** A payment that is not authorized, or names no transaction, is answered 402, whatever it carries. */
  lemma UnauthorizedIsRefused(durable: bool, events: seq<Event>, id: nat, a: Authorization)
    requires AwaitsAuthorize(Run(durable, events), id) && (a.PaymentError? || a.transaction == "")
    ensures var w, w' := Run(durable, events), Run(durable, events + [AuthorizeReturns(id, a)]);
      Answered(w', id, Denied(402)) && OnlyAnswers(w, w') && w'.served == w.served
  {
    RunLast(durable, events, AuthorizeReturns(id, a));
    hide Run;
  }

  /** An authorized request without a payment signature is answered 400. */
  lemma NoSignatureIsRefused(durable: bool, events: seq<Event>, id: nat, t: string)
    requires AwaitsAuthorize(Run(durable, events), id) && t != "" && Run(durable, events).handlers[id].proof == None
    ensures var w, w' := Run(durable, events), Run(durable, events + [AuthorizeReturns(id, Verified(t))]);
      Answered(w', id, Denied(400)) && OnlyAnswers(w, w') && w'.served == w.served
  {
    RunLast(durable, events, AuthorizeReturns(id, Verified(t)));
    hide Run;
  }

  /** An authorized request whose proof was claimed meanwhile is answered as if it arrived now. */
  lemma KnownProofIsReplayed(durable: bool, events: seq<Event>, id: nat, t: string, r: Response)
    requires AwaitsAuthorize(Run(durable, events), id) && t != "" && Run(durable, events).handlers[id].proof.Some?
    requires var w := Run(durable, events); w.handlers[id].proof.value in w.store.attempts
    requires var w := Run(durable, events);
      ArrivalGets(durable, w, w.handlers[id].proof.value, w.handlers[id].requestHash, r)
    ensures var w, w' := Run(durable, events), Run(durable, events + [AuthorizeReturns(id, Verified(t))]);
      Answered(w', id, r) && OnlyAnswers(w, w')
  {
    RunLast(durable, events, AuthorizeReturns(id, Verified(t)));
    var w := Run(durable, events);
    hide Run;
    var other := FreshId(w.handlers.Keys);
    assert other !in w.handlers;
    assert Answered(Step(durable, w, Arrive(other, w.handlers[id].proof, w.handlers[id].requestHash)), other, r);
  }

  /**
   * An authorized payment with a new proof and a transaction that another proof owns is never settled: it is answered
   * 200 with the owner's answer if that was paid for the same request, and 409 otherwise, and its own proof is refused
   * (409) in every continuation.
   */
  lemma TakenTransaction(durable: bool, events: seq<Event>, id: nat, t: string, more: seq<Event>, requestHash: string)
    requires Continuous(durable, events + [AuthorizeReturns(id, Verified(t))] + more)
    requires AwaitsAuthorize(Run(durable, events), id) && t != "" && Run(durable, events).handlers[id].proof.Some?
    requires var w := Run(durable, events); w.handlers[id].proof.value !in w.store.attempts && t in w.store.owners
    ensures var w, e := Run(durable, events), AuthorizeReturns(id, Verified(t));
      var h, after, owner := w.handlers[id], Run(durable, events + [e]), w.store.owners[t];
      && owner in w.store.attempts
      && after.settles == w.settles && after.anchors == w.anchors && after.ledger == w.ledger
      && Answered(after, id,
           if HasStatus(w, owner, h.requestHash, Settled) && w.store.attempts[owner].settlement.Some?
           then Served(w.store.attempts[owner].settlement.value.response) else Denied(409))
      && ArrivalGets(durable, Run(durable, events + [e] + more), h.proof.value, requestHash, Denied(409))
  {
    var e := AuthorizeReturns(id, Verified(t));
    ContinuousParts(durable, events, e, more);
    assert events + [] == events;
    RunGrows(durable, events, []);
    RunLast(durable, events, e);
    var w := Run(durable, events);
    var h, later := w.handlers[id], Run(durable, events + [e] + more);
    hide Run, Sound, ArrivalGets;
    OwnerKnown(w, t);
    Loses(durable, w, id, t);
    hide Step;
    StatusStays(durable, events + [e], more, h.proof.value, h.requestHash, Failed);
    ArrivalOf(durable, later, h.proof.value, requestHash);
  }

  lemma OwnerKnown(w: World, t: string)
    requires Sound(w) && t in w.store.owners
    ensures w.store.owners[t] in w.store.attempts
  {
  }

  lemma Loses(durable: bool, w: World, id: nat, t: string)
    requires AwaitsAuthorize(w, id) && t != "" && w.handlers[id].proof.Some?
    requires w.handlers[id].proof.value !in w.store.attempts && t in w.store.owners
    requires w.store.owners[t] in w.store.attempts
    ensures var h, owner := w.handlers[id], w.store.owners[t];
      var w' := Step(durable, w, AuthorizeReturns(id, Verified(t)));
      && HasStatus(w', h.proof.value, h.requestHash, Failed)
      && w'.settles == w.settles && w'.anchors == w.anchors && w'.ledger == w.ledger
      && Answered(w', id,
           if HasStatus(w, owner, h.requestHash, Settled) && w.store.attempts[owner].settlement.Some?
           then Served(w.store.attempts[owner].settlement.value.response) else Denied(409))
  {
  }

  /**
   * An authorized payment with a new proof and a new transaction is sent to settle, and until that returns new
   * requests with its proof are told to wait.
   */
  lemma NewPaymentWaits(durable: bool, events: seq<Event>, id: nat, t: string, requestHash: string)
    requires AwaitsAuthorize(Run(durable, events), id) && t != "" && Run(durable, events).handlers[id].proof.Some?
    requires var w := Run(durable, events); w.handlers[id].proof.value !in w.store.attempts && t !in w.store.owners
    ensures var w, after := Run(durable, events), Run(durable, events + [AuthorizeReturns(id, Verified(t))]);
      var h := w.handlers[id];
      && after.settles == w.settles + [SettleCall(h.proof.value, t)] && after.served == w.served
      && id in after.handlers && after.handlers[id] == h.(phase := AwaitSettle(t))
      && ArrivalGets(durable, after, h.proof.value, requestHash,
           Denied(if requestHash == h.requestHash then 202 else 409))
  {
    RunLast(durable, events, AuthorizeReturns(id, Verified(t)));
    var w, e := Run(durable, events), AuthorizeReturns(id, Verified(t));
    hide Run, ArrivalGets;
    var h, after := w.handlers[id], Step(durable, w, e);
    assert HasStatus(after, h.proof.value, h.requestHash, Settling);
    ArrivalOf(durable, after, h.proof.value, requestHash);
  }

  // ---- Status requests -----------------------------------------------------------------------------

  /**
   * A status request is answered 404 for an unknown payment; it starts a check of a settled payment whose verdict is
   * not terminal; any other payment is reported at once, and nothing changes.
   */
  lemma StatusRequest(durable: bool, events: seq<Event>, id: nat, p: string, volume: bool)
    requires Continuous(durable, events) && id !in Run(durable, events).handlers
    ensures var w, w' := Run(durable, events), Run(durable, events + [Poll(id, p, volume)]);
      && OnlyAnswers(w, w') && w'.served == w.served
      && if p !in w.store.attempts then Answered(w', id, Denied(404))
         else if w.store.attempts[p].status == Settled && !Decided(w.store, p)
         then Checks(w', id, p) && !Paying(w', id, p)
         else Answered(w', id, Reported)
  {
    assert events + [] == events;
    RunGrows(durable, events, []);
    RunLast(durable, events, Poll(id, p, volume));
    hide Run, Sound, Step, Checks;
    StepsStatus(durable, Run(durable, events), id, p, volume);
  }

  lemma StepsStatus(durable: bool, w: World, id: nat, p: string, volume: bool)
    requires Sound(w) && id !in w.handlers
    ensures var w' := Step(durable, w, Poll(id, p, volume));
      && OnlyAnswers(w, w') && w'.served == w.served
      && if p !in w.store.attempts then Answered(w', id, Denied(404))
         else if w.store.attempts[p].status == Settled && !Decided(w.store, p)
         then Checks(w', id, p) && !Paying(w', id, p)
         else Answered(w', id, Reported)
  {
    if p in w.store.attempts {
      AttemptOf(w, p);
    }
    hide Sound, TellLedger, TellThrows, FinalSettlement;
  }
}
