/**
 * The program of api/near_x402_routes.ts: one object over the attempt store and the receipt ledger, with
 * one method for each stretch of a handler between two awaits, proved to be the step of that name.
 */
module NearRoutes {
  import opened NearStore
  import opened Wrappers
  import opened Receipts
  import opened NearPayments

  class PaidRoutes {
    const store: NearPaymentAttemptStore
    var ledger: Ledger
    var handlers: map<nat, Handler>
    /** What has been observed: calls of the gateway's settle, 200 responses, ledger verdicts, anchored payments. */
    ghost var settles: seq<SettleCall>
    ghost var served: seq<Serving>
    ghost var ledgerCalls: seq<string>
    ghost var anchors: seq<string>

    ghost predicate Valid()
      reads this, store
    {
      store.Valid()
    }

    ghost function State(): World
      reads this, store
    {
      World(store.Contents(), ledger, handlers, settles, served, ledgerCalls, anchors)
    }

    constructor (durable: bool)
      ensures Valid() && fresh(store) && store.durable == durable && State() == START
    {
      store := new NearPaymentAttemptStore(durable);
      ledger, handlers := NO_RECEIPTS, map[];
      settles, served, ledgerCalls, anchors := [], [], [], [];
    }

    method Suspend(id: nat, h: Handler, phase: Phase)
      requires Valid()
      modifies `handlers
      ensures Valid() && State() == Enter(old(State()), id, h, phase)
    {
      handlers := handlers[id := h.(phase := phase)];
    }

    method RespondWith(id: nat, h: Handler, r: Response)
      requires Valid()
      modifies `handlers, `served
      ensures Valid() && State() == Respond(old(State()), id, h, r)
    {
      if r.Served? {
        served := served + [Serving(h.requestHash, r.resource)];
      }
      Suspend(id, h, Done(r));
    }

    /** Answers a known proof without paying again; nothing happens for an unknown one. */
    method ReplayKnown(id: nat, h: Handler, proof: string) returns (answered: bool)
      requires Valid()
      modifies this, store
      ensures Valid()
      ensures answered <==> proof in old(State()).store.attempts
      ensures State() ==
        if answered then Respond(old(State()), id, h, Replay(old(State()).store, proof, h.requestHash).value)
        else old(State())
    {
      var existing := store.GetByProofHash(proof);
      if existing == None {
        return false;
      }
      var attempt := existing.value;
      if attempt.requestHash != h.requestHash {
        RespondWith(id, h, Denied(409));
      } else if attempt.status == Settled && attempt.settlement.Some? {
        RespondWith(id, h, Served(attempt.settlement.value.response));
      } else if attempt.status == Failed {
        RespondWith(id, h, Denied(409));
      } else {
        RespondWith(id, h, Denied(202));
      }
      answered := true;
    }

    /** A request arrives: replay check, then authorize is awaited. */
    method Arrive(id: nat, proof: Option<string>, requestHash: string)
      requires Valid()
      modifies this, store
      ensures Valid() && State() == Arrived(old(State()), id, proof, requestHash)
    {
      var h := Handler(requestHash, proof, AwaitAuthorize);
      if proof.Some? {
        var answered := ReplayKnown(id, h, proof.value);
        if answered {
          return;
        }
      }
      Suspend(id, h, AwaitAuthorize);
    }

    /** After authorize: claim the proof, claim the transaction, call settle and await it. */
    method AfterAuthorize(id: nat, h: Handler, a: Authorization)
      requires Valid()
      modifies this, store
      ensures Valid() && State() == Authorized(old(State()), id, h, a)
    {
      if Refused(a) {
        RespondWith(id, h, Denied(402));
        return;
      }
      if h.proof == None {
        RespondWith(id, h, Denied(400));
        return;
      }
      var proof := h.proof.value;
      var created := store.Claim(proof, h.requestHash);
      if !created {
        var _ := ReplayKnown(id, h, proof);
        return;
      }
      var owner := store.ClaimTransaction(a.transaction, proof);
      if owner != proof {
        RefuseTransaction(id, h, proof, owner);
        return;
      }
      settles := settles + [SettleCall(proof, a.transaction)];
      Suspend(id, h, AwaitSettle(a.transaction));
    }

    method RefuseTransaction(id: nat, h: Handler, proof: string, owner: string)
      requires Valid()
      modifies this, store
      ensures Valid() && State() == TxTaken(old(State()), id, h, proof, owner)
    {
      var owning := store.GetByProofHash(owner);
      var _ := store.Mark(proof, Failed);
      if owning.Some? && owning.value.requestHash == h.requestHash &&
         owning.value.status == Settled && owning.value.settlement.Some? {
        RespondWith(id, h, Served(owning.value.settlement.value.response));
      } else {
        RespondWith(id, h, Denied(409));
      }
    }

    /** After settle: record the outcome; a success is stored, anchored, stored with its receipt, reconciled. */
    method AfterSettle(id: nat, h: Handler, tx: string, outcome: SettleOutcome, copying: bool)
      requires Valid()
      modifies this, store
      ensures Valid() && State() == SettleDone(old(State()), id, h, tx, outcome, copying)
    {
      if h.proof == None {
        RespondWith(id, h, Crashed);
        return;
      }
      var proof := h.proof.value;
      var known: bool;
      match outcome {
        case Unknown =>
          known := store.Mark(proof, Indeterminate);
          RespondWith(id, h, if known then Denied(502) else Crashed);
        case Rejected =>
          known := store.Mark(proof, Failed);
          RespondWith(id, h, if known then Denied(402) else Crashed);
        case Success(anchored) =>
          var receipt := if anchored then Some(tx) else None;
          var resource := Resource(h.requestHash, tx, Provisional);
          known := store.Settle(proof, Settlement(tx, None, resource));
          if !known {
            RespondWith(id, h, Crashed);
            return;
          }
          ledger, anchors := Anchor(ledger, receipt, copying), anchors + [tx];
          var settlement := Settlement(tx, receipt, resource);
          known := store.Settle(proof, settlement);
          ReconcileNearPayment(id, h, proof, Some(Check(proof, settlement)), copying);
      }
    }

    /** Up to the await of the chain check. */
    method ReconcileNearPayment(id: nat, h: Handler, proof: string, own: Option<Check>, copying: bool)
      requires Valid()
      modifies this, store
      ensures Valid() && State() == Reconcile(old(State()), id, h, proof, own, copying)
    {
      var attempt := store.GetByProofHash(proof);
      if attempt == None {
        FinishReconciled(id, h, own, None);
        return;
      }
      if attempt.value.settlement == None {
        FinishReconciled(id, h, own, attempt.value.finality);
        return;
      }
      var check := Check(proof, attempt.value.settlement.value);
      if attempt.value.finality.Some? && attempt.value.finality.value.Terminal() {
        FinishReconciled(id, h, own, attempt.value.finality);
      } else if check.settlement.transaction == "" {
        var thrown := Tell(check, Mismatch, copying);
        if thrown {
          RespondWith(id, h, Crashed);
          return;
        }
        var _ := store.RecordFinality(proof, Mismatch);
        FinishReconciled(id, h, own, Some(Mismatch));
      } else {
        Suspend(id, h, AwaitCheck(check, own));
      }
    }

    /** Finalizes or challenges the receipt of a payment whose verdict is terminal. */
    method Tell(check: Check, verdict: Finality, copying: bool) returns (thrown: bool)
      requires Valid()
      modifies `ledger, `ledgerCalls
      ensures Valid() && State() == TellLedger(old(State()), check, verdict, copying)
      ensures thrown <==> TellThrows(old(State()), check, verdict)
    {
      thrown := false;
      if check.settlement.receipt.Some? {
        var id := check.settlement.receipt.value;
        if verdict == Confirmed {
          thrown := FinalizeThrows(ledger, id);
          ledger, ledgerCalls := FinalizeReceipt(ledger, id, copying), ledgerCalls + [check.proof];
        } else if verdict == Mismatch {
          thrown := ChallengeThrows(ledger, id);
          ledger, ledgerCalls := ChallengeReceipt(ledger, id, copying), ledgerCalls + [check.proof];
        }
      }
    }

    /** A paying handler stores its final answer and sends it; a status request reports. */
    method FinishReconciled(id: nat, h: Handler, own: Option<Check>, finality: Option<Finality>)
      requires Valid()
      modifies this, store
      ensures Valid() && State() == Finish(old(State()), id, h, own, finality)
    {
      if own == None {
        RespondWith(id, h, Reported);
        return;
      }
      var final := FinalSettlement(ledger, own.value.settlement, finality);
      var stored := store.Settle(own.value.proof, final);
      RespondWith(id, h, if stored then Served(final.response) else Crashed);
    }

    /** After the chain check: record the verdict, tell the ledger, finish. */
    method AfterCheck(id: nat, h: Handler, check: Check, own: Option<Check>, verdict: Finality, copying: bool)
      requires Valid()
      modifies this, store
      ensures Valid() && State() == CheckDone(old(State()), id, h, check, own, verdict, copying)
    {
      var known := store.RecordFinality(check.proof, verdict);
      if !known {
        RespondWith(id, h, Crashed);
        return;
      }
      var thrown := Tell(check, verdict, copying);
      if thrown {
        RespondWith(id, h, Crashed);
      } else {
        FinishReconciled(id, h, own, Some(verdict));
      }
    }

    /** A status request for an attempt. */
    method RespondPaymentAttempt(id: nat, attempt: string, copying: bool)
      requires Valid()
      modifies this, store
      ensures Valid() && State() == Polled(old(State()), id, attempt, copying)
    {
      var h := Handler("", Some(attempt), AwaitAuthorize);
      var known := store.GetByProofHash(attempt);
      if known == None {
        RespondWith(id, h, Denied(404));
      } else if known.value.status == Settled {
        ReconcileNearPayment(id, h, attempt, None, copying);
      } else {
        RespondWith(id, h, Reported);
      }
    }

    /** A new process over the same data directory: the handlers in flight are gone. */
    method Restart()
      requires Valid()
      modifies this, store
      ensures Valid() && State() == Restarted(store.durable, old(State()))
    {
      store.Reopen();
      ledger := if store.durable then Rebuilt(ledger.copies) else NO_RECEIPTS;
      handlers := map[];
    }

    /** The event loop: one event at a time, each run to its next await. */
    method Dispatch(e: Event)
      requires Valid()
      modifies this, store
      ensures Valid() && State() == Step(store.durable, old(State()), e)
    {
      match e
      case Arrive(id, proof, requestHash) =>
        if id !in handlers {
          Arrive(id, proof, requestHash);
        }
      case Poll(id, attempt, volume) =>
        if id !in handlers {
          RespondPaymentAttempt(id, attempt, store.durable && volume);
        }
      case Restart =>
        Restart();
      case ResetLedger =>
        ledger := NO_RECEIPTS.(copies := ledger.copies);
      case AuthorizeReturns(id, a) =>
        if id in handlers && handlers[id].phase.AwaitAuthorize? {
          AfterAuthorize(id, handlers[id], a);
        }
      case SettleReturns(id, outcome, volume) =>
        if id in handlers && handlers[id].phase.AwaitSettle? {
          AfterSettle(id, handlers[id], handlers[id].phase.tx, outcome, store.durable && volume);
        }
      case CheckReturns(id, verdict, volume) =>
        if id in handlers && handlers[id].phase.AwaitCheck? {
          var phase := handlers[id].phase;
          AfterCheck(id, handlers[id], phase.check, phase.own, verdict, store.durable && volume);
        }
    }
  }
}
