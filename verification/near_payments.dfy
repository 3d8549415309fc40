/**
 * The paid credit-score route of api/near_x402_routes.ts with many handlers in flight: each handler runs
 * without interruption between two awaits, and anything may happen while it is suspended.
 */
module NearPayments {
  import opened NearStore
  import opened Wrappers
  import opened Receipts

  // ---- The receipt ledger, as far as the route uses it ---------------------------------------------

  /**
   * The live receipts, named by their transactions, how often each was credited to its seller, and the durable
   * copies that a new process starts from.
   */
  datatype Ledger = Ledger(
    receipts: map<string, ReceiptStatus>,
    credited: multiset<string>,
    copies: map<string, ReceiptStatus>)

  const NO_RECEIPTS: Ledger := Ledger(map[], multiset{}, map[])

  /** Copies a live receipt, unless there is no durable store or its volume is down. */
  function Copied(l: Ledger, id: string, copying: bool): Ledger {
    if copying && id in l.receipts then l.(copies := l.copies[id := l.receipts[id]]) else l
  }

  /** Anchoring a settlement adds its receipt unless the ledger has it already. */
  function Anchor(l: Ledger, receipt: Option<string>, copying: bool): Ledger {
    if receipt == None then l
    else
      var id := receipt.value;
      Copied(if id in l.receipts then l else l.(receipts := l.receipts[id := Anchored]), id, copying)
  }

  /** Finalizing credits the seller once; an unknown or challenged receipt makes it throw. */
  predicate FinalizeThrows(l: Ledger, id: string) {
    id !in l.receipts || l.receipts[id] == Challenged
  }

  function FinalizeReceipt(l: Ledger, id: string, copying: bool): Ledger {
    if FinalizeThrows(l, id) then l
    else if l.receipts[id] == Finalized then Copied(l, id, copying)
    else Copied(l.(receipts := l.receipts[id := Finalized], credited := l.credited + multiset{id}), id, copying)
  }

  predicate ChallengeThrows(l: Ledger, id: string) {
    id !in l.receipts
  }

  function ChallengeReceipt(l: Ledger, id: string, copying: bool): Ledger {
    if ChallengeThrows(l, id) then l
    else if l.receipts[id] == Finalized then Copied(l, id, copying)
    else Copied(l.(receipts := l.receipts[id := Challenged]), id, copying)
  }

  /** The ledger of a new process: its copies, with the finalized ones credited. */
  function Rebuilt(copies: map<string, ReceiptStatus>): Ledger {
    Ledger(copies, multiset(set id | id in copies && copies[id] == Finalized), copies)
  }

  /** The status that an answer shows: the live one, else the copied one. */
  function StatusShown(l: Ledger, receipt: Option<string>): Option<ReceiptStatus> {
    if receipt == None then None
    else if receipt.value in l.receipts then Some(l.receipts[receipt.value])
    else if receipt.value in l.copies then Some(l.copies[receipt.value])
    else Some(Anchored)
  }

  // ---- Handlers ------------------------------------------------------------------------------------

  datatype Response =
    | Served(resource: Resource)
    | Denied(status: nat)
    | Reported
    | Crashed

  /** A payment being checked against the chain: the settlement read before the await. */
  datatype Check = Check(proof: string, settlement: Settlement)

  /** A paying handler keeps its own settlement to answer with after the check; a status request has none. */
  datatype Phase =
    | AwaitAuthorize
    | AwaitSettle(tx: string)
    | AwaitCheck(check: Check, own: Option<Check>)
    | Done(response: Response)

  /** A suspended or finished request: what it asks for and the payment proof it carries. */
  datatype Handler = Handler(requestHash: string, proof: Option<string>, phase: Phase)

  datatype SettleCall = SettleCall(proof: string, tx: string)

  datatype Serving = Serving(requestHash: string, resource: Resource)

  /**
   * Everything the handlers share, and what has been observed: the calls of the gateway's settle, the
   * 200 responses, the proofs for which the ledger was told to finalize or challenge, and the transactions
   * handed to the anchor.
   */
  datatype World = World(
    store: Store,
    ledger: Ledger,
    handlers: map<nat, Handler>,
    settles: seq<SettleCall>,
    served: seq<Serving>,
    ledgerCalls: seq<string>,
    anchors: seq<string>)

  const START: World := World(NOTHING, NO_RECEIPTS, map[], [], [], [], [])

  datatype Authorization = PaymentError | Verified(transaction: string)

  /** Whether a successful settlement could also be anchored; its receipt is named by its transaction. */
  datatype SettleOutcome = Success(anchored: bool) | Unknown | Rejected

  /** What the environment does next; where a receipt may be copied, whether the volume is up. */
  datatype Event =
    | Arrive(id: nat, proof: Option<string>, requestHash: string)
    | AuthorizeReturns(id: nat, authorization: Authorization)
    | SettleReturns(id: nat, outcome: SettleOutcome, volume: bool)
    | CheckReturns(id: nat, verdict: Finality, volume: bool)
    | Poll(id: nat, attempt: string, volume: bool)
    | Restart
    | ResetLedger

  // ---- What one uninterrupted stretch of a handler does --------------------------------------------

  function Enter(w: World, id: nat, h: Handler, phase: Phase): World {
    w.(handlers := w.handlers[id := h.(phase := phase)])
  }

  function Respond(w: World, id: nat, h: Handler, r: Response): World {
    var logged := if r.Served? then w.(served := w.served + [Serving(h.requestHash, r.resource)]) else w;
    Enter(logged, id, h, Done(r))
  }

  /** The answer a known proof gets without paying again. */
  function Replay(s: Store, proof: string, requestHash: string): Option<Response> {
    if proof !in s.attempts then None
    else
      var existing := s.attempts[proof];
      if existing.requestHash != requestHash then Some(Denied(409))
      else if existing.status == Settled && existing.settlement.Some?
      then Some(Served(existing.settlement.value.response))
      else if existing.status == Failed then Some(Denied(409))
      else Some(Denied(202))
  }

  /** The request arrives: a known proof is answered at once. */
  function Arrived(w: World, id: nat, proof: Option<string>, requestHash: string): World {
    var h := Handler(requestHash, proof, AwaitAuthorize);
    var known := if proof.Some? then Replay(w.store, proof.value, requestHash) else None;
    if known.Some? then Respond(w, id, h, known.value) else Enter(w, id, h, AwaitAuthorize)
  }

  /** The transaction already belongs to another proof: this attempt fails, the owner's answer may be shared. */
  function TxTaken(w: World, id: nat, h: Handler, proof: string, owner: string): World {
    var failed := w.(store := Marked(w.store, proof, Failed));
    if owner in w.store.attempts && w.store.attempts[owner].requestHash == h.requestHash &&
       w.store.attempts[owner].status == Settled && w.store.attempts[owner].settlement.Some?
    then Respond(failed, id, h, Served(w.store.attempts[owner].settlement.value.response))
    else Respond(failed, id, h, Denied(409))
  }

  /** Authorization refuses a payment without a valid transaction hash. */
  predicate Refused(a: Authorization) {
    a == PaymentError || a.transaction == ""
  }

  /** Authorization returned: claim the proof, claim the transaction, call settle. */
  function Authorized(w: World, id: nat, h: Handler, a: Authorization): World {
    if Refused(a) then Respond(w, id, h, Denied(402))
    else if h.proof == None then Respond(w, id, h, Denied(400))
    else
      var proof := h.proof.value;
      if proof in w.store.attempts then Respond(w, id, h, Replay(w.store, proof, h.requestHash).value)
      else
        var claimed := TxClaimed(Claimed(w.store, proof, h.requestHash), a.transaction, proof);
        var w' := w.(store := claimed);
        var owner := claimed.owners[a.transaction];
        if owner != proof then TxTaken(w', id, h, proof, owner)
        else Enter(w'.(settles := w'.settles + [SettleCall(proof, a.transaction)]), id, h, AwaitSettle(a.transaction))
  }

  /** The start of a reconciliation: nothing to do, a settlement without a transaction, or a check to await. */
  function Reconcile(w: World, id: nat, h: Handler, proof: string, own: Option<Check>, copying: bool): World {
    if proof !in w.store.attempts then Finish(w, id, h, own, None)
    else
      var attempt := w.store.attempts[proof];
      if attempt.settlement == None then Finish(w, id, h, own, attempt.finality)
      else
        var check := Check(proof, attempt.settlement.value);
        if attempt.finality.Some? && attempt.finality.value.Terminal() then Finish(w, id, h, own, attempt.finality)
        else if check.settlement.transaction == "" then
          var told := TellLedger(w, check, Mismatch, copying);
          if TellThrows(w, check, Mismatch) then Respond(told, id, h, Crashed)
          else Finish(told.(store := Checked(told.store, proof, Mismatch)), id, h, own, Some(Mismatch))
        else Enter(w, id, h, AwaitCheck(check, own))
  }

  /** The ledger call that a verdict leads to. */
  function TellLedger(w: World, check: Check, verdict: Finality, copying: bool): World {
    if check.settlement.receipt == None || !verdict.Terminal() then w
    else
      var id := check.settlement.receipt.value;
      w.(ledger := if verdict == Confirmed then FinalizeReceipt(w.ledger, id, copying)
                   else ChallengeReceipt(w.ledger, id, copying),
         ledgerCalls := w.ledgerCalls + [check.proof])
  }

  predicate TellThrows(w: World, check: Check, verdict: Finality) {
    check.settlement.receipt.Some? && verdict.Terminal() &&
    var id := check.settlement.receipt.value;
    if verdict == Confirmed then FinalizeThrows(w.ledger, id) else ChallengeThrows(w.ledger, id)
  }

  /** The settlement with the answer that a paying handler finally gives. */
  function FinalSettlement(l: Ledger, s: Settlement, finality: Option<Finality>): Settlement {
    var shown := if finality.Some? then finality.value else Unavailable;
    s.(response := s.response.(payment := Reconciled(shown, StatusShown(l, s.receipt))))
  }

  /** After a reconciliation: a paying handler stores its final answer and sends it, a status request reports. */
  function Finish(w: World, id: nat, h: Handler, own: Option<Check>, finality: Option<Finality>): World {
    if own == None then Respond(w, id, h, Reported)
    else if own.value.proof !in w.store.attempts then Respond(w, id, h, Crashed)
    else
      var final := FinalSettlement(w.ledger, own.value.settlement, finality);
      Respond(w.(store := SettledWith(w.store, own.value.proof, final)), id, h, Served(final.response))
  }

  /** Settlement returned. */
  function SettleDone(w: World, id: nat, h: Handler, tx: string, outcome: SettleOutcome, copying: bool): World {
    if h.proof == None || h.proof.value !in w.store.attempts then Respond(w, id, h, Crashed)
    else
      var proof := h.proof.value;
      match outcome
      case Unknown => Respond(w.(store := Marked(w.store, proof, Indeterminate)), id, h, Denied(502))
      case Rejected => Respond(w.(store := Marked(w.store, proof, Failed)), id, h, Denied(402))
      case Success(anchored) =>
        var receipt := if anchored then Some(tx) else None;
        var resource := Resource(h.requestHash, tx, Provisional);
        var settlement := Settlement(tx, receipt, resource);
        var settled := SettledWith(SettledWith(w.store, proof, Settlement(tx, None, resource)), proof, settlement);
        Reconcile(w.(store := settled, ledger := Anchor(w.ledger, receipt, copying), anchors := w.anchors + [tx]),
                  id, h, proof, Some(Check(proof, settlement)), copying)
  }

  /** The chain check returned: record the verdict, tell the ledger, finish. */
  function CheckDone(w: World, id: nat, h: Handler, check: Check, own: Option<Check>, verdict: Finality,
                     copying: bool): World {
    if check.proof !in w.store.attempts then Respond(w, id, h, Crashed)
    else
      var recorded := w.(store := Checked(w.store, check.proof, verdict));
      var told := TellLedger(recorded, check, verdict, copying);
      if TellThrows(recorded, check, verdict) then Respond(told, id, h, Crashed)
      else Finish(told, id, h, own, Some(verdict))
  }

  /** A status request for an attempt. */
  function Polled(w: World, id: nat, attempt: string, copying: bool): World {
    var h := Handler("", Some(attempt), AwaitAuthorize);
    if attempt !in w.store.attempts then Respond(w, id, h, Denied(404))
    else if w.store.attempts[attempt].status != Settled then Respond(w, id, h, Reported)
    else Reconcile(w, id, h, attempt, None, copying)
  }

  /** A new process: every suspended handler is gone, store and ledger are what their directory kept. */
  function Restarted(durable: bool, w: World): World {
    w.(store := if durable then w.store else NOTHING,
       ledger := if durable then Rebuilt(w.ledger.copies) else NO_RECEIPTS,
       handlers := map[])
  }

  /** One event. An event that does not fit the handler it names changes nothing. */
  function Step(durable: bool, w: World, e: Event): World {
    match e
    case Arrive(id, proof, requestHash) => if id in w.handlers then w else Arrived(w, id, proof, requestHash)
    case Poll(id, attempt, volume) => if id in w.handlers then w else Polled(w, id, attempt, durable && volume)
    case Restart => Restarted(durable, w)
    case ResetLedger => w.(ledger := NO_RECEIPTS.(copies := w.ledger.copies))
    case AuthorizeReturns(id, a) =>
      if id in w.handlers && w.handlers[id].phase.AwaitAuthorize? then Authorized(w, id, w.handlers[id], a) else w
    case SettleReturns(id, outcome, volume) =>
      if id in w.handlers && w.handlers[id].phase.AwaitSettle?
      then SettleDone(w, id, w.handlers[id], w.handlers[id].phase.tx, outcome, durable && volume) else w
    case CheckReturns(id, verdict, volume) =>
      if id in w.handlers && w.handlers[id].phase.AwaitCheck?
      then CheckDone(w, id, w.handlers[id], w.handlers[id].phase.check, w.handlers[id].phase.own, verdict,
                     durable && volume)
      else w
  }

  function Run(durable: bool, events: seq<Event>): World {
    if events == [] then START
    else Step(durable, Run(durable, events[..|events| - 1]), events[|events| - 1])
  }
}
