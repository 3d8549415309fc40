/**
 * Safety of the paid route over every interleaving: settle is called once per payment and transaction,
 * answers go to the request that was paid for, and a failed attempt never pays.
 */
module NearSafety {
  import opened NearStore
  import opened Wrappers
  import opened NearPayments

  // ---- What holds in every state of a run ----------------------------------------------------------

  /** The transaction belongs to this proof, which has had its settle call. */
  ghost predicate Paid(w: World, proof: string, tx: string) {
    tx in w.store.owners && w.store.owners[tx] == proof && SettleCall(proof, tx) in w.settles
  }

  /** The stored answer is to this request and names the transaction; its payment state may still change. */
  ghost predicate Answers(s: Settlement, requestHash: string) {
    s.response.requestHash == requestHash && s.response.transaction == s.transaction
  }

  /** The same payment, perhaps with another body. */
  ghost predicate SamePayment(s: Settlement, s': Settlement) {
    s.transaction == s'.transaction && s.receipt == s'.receipt
  }

  ghost predicate SameSettlement(s: Option<Settlement>, s': Option<Settlement>) {
    s.Some? == s'.Some? && (s.Some? ==> SamePayment(s.value, s'.value))
  }

  ghost predicate AttemptSound(w: World, proof: string)
    requires proof in w.store.attempts
  {
    var a := w.store.attempts[proof];
    && (a.status == Settled <==> a.settlement.Some?)
    && (a.finality.Some? ==> a.settlement.Some?)
    && (a.settlement.Some? ==>
          var s := a.settlement.value;
          && s.transaction != ""
          && Paid(w, proof, s.transaction)
          && Answers(s, a.requestHash)
          && (s.receipt.Some? ==> s.receipt.value == s.transaction))
  }

  /** A paying handler's own settlement is the stored one, for its own request. */
  ghost predicate OwnSound(w: World, h: Handler, own: Option<Check>) {
    own.Some? ==>
      && own.value.proof in w.store.attempts
      && w.store.attempts[own.value.proof].requestHash == h.requestHash
      && w.store.attempts[own.value.proof].status == Settled
      && SameSettlement(w.store.attempts[own.value.proof].settlement, Some(own.value.settlement))
      && Answers(own.value.settlement, h.requestHash)
  }

  /** What the locals of a suspended handler say about the store. */
  ghost predicate PhaseSound(w: World, h: Handler, phase: Phase) {
    match phase
    case AwaitAuthorize => true
    case Done(_) => true
    case AwaitSettle(tx) =>
      && h.proof.Some?
      && h.proof.value in w.store.attempts
      && w.store.attempts[h.proof.value] == Attempt(h.requestHash, Settling, None, None)
      && Paid(w, h.proof.value, tx)
      && tx != ""
    case AwaitCheck(c, own) =>
      && c.proof in w.store.attempts
      && SameSettlement(w.store.attempts[c.proof].settlement, Some(c.settlement))
      && OwnSound(w, h, own)
      && (own.Some? ==> own.value.proof == c.proof)
  }

  ghost predicate HandlerSound(w: World, id: nat)
    requires id in w.handlers
  {
    PhaseSound(w, w.handlers[id], w.handlers[id].phase)
  }

  ghost predicate Settles(w: World, id: nat, proof: string) {
    id in w.handlers && w.handlers[id].phase.AwaitSettle? && w.handlers[id].proof == Some(proof)
  }

  ghost predicate OwnersSound(s: Store) {
    forall tx | tx in s.owners :: s.owners[tx] in s.attempts
  }

  ghost predicate CallsSound(w: World) {
    forall c | c in w.settles ::
      c.proof in w.store.attempts && c.tx in w.store.owners && w.store.owners[c.tx] == c.proof
  }

  /** No payment proof and no transaction appears twice among the calls of settle. */
  ghost predicate EachOnce(calls: seq<SettleCall>) {
    forall i, j | 0 <= i < j < |calls| :: calls[i].proof != calls[j].proof && calls[i].tx != calls[j].tx
  }

  ghost predicate ServingSound(w: World, v: Serving) {
    && v.resource.requestHash == v.requestHash
    && exists proof :: PaysFor(w, proof, v.resource)
  }

  /** The attempt of this proof is settled, for this answer's request and with its transaction. */
  ghost predicate PaysFor(w: World, proof: string, r: Resource) {
    && proof in w.store.attempts
    && w.store.attempts[proof].settlement.Some?
    && w.store.attempts[proof].requestHash == r.requestHash
    && w.store.attempts[proof].settlement.value.transaction == r.transaction
  }

  ghost predicate ServedSound(w: World) {
    forall v | v in w.served :: ServingSound(w, v)
  }

  ghost predicate AttemptsSound(w: World) {
    forall p | p in w.store.attempts :: AttemptSound(w, p)
  }

  /** Everything but the handlers. */
  ghost predicate CoreSound(w: World) {
    OwnersSound(w.store) && AttemptsSound(w) && CallsSound(w) && EachOnce(w.settles) && ServedSound(w)
  }

  /** Every handler, except perhaps the one that is running, is in order. */
  ghost predicate SoundBut(w: World, running: nat) {
    && CoreSound(w)
    && (forall id | id in w.handlers && id != running :: HandlerSound(w, id))
    && (forall i, j, p | Settles(w, i, p) && Settles(w, j, p) && i != running && j != running :: i == j)
  }

  ghost predicate Sound(w: World) {
    && CoreSound(w)
    && (forall id | id in w.handlers :: HandlerSound(w, id))
    && (forall i, j, p | Settles(w, i, p) && Settles(w, j, p) :: i == j)
  }

  /** What never changes once written: owners, requests of attempts, and attempts that left settling. */
  ghost predicate Grows(w: World, w': World) {
    && (forall tx | tx in w.store.owners :: tx in w'.store.owners && w'.store.owners[tx] == w.store.owners[tx])
    && (forall p | p in w.store.attempts :: AttemptGrows(w.store, w'.store, p))
    && w.settles <= w'.settles && w.served <= w'.served
  }

  ghost predicate AttemptGrows(s: Store, s': Store, p: string)
    requires p in s.attempts
  {
    && p in s'.attempts
    && s'.attempts[p].requestHash == s.attempts[p].requestHash
    && (s.attempts[p].status != Settling ==>
          && s'.attempts[p].status == s.attempts[p].status
          && SameSettlement(s.attempts[p].settlement, s'.attempts[p].settlement))
  }

  lemma ServedKept(w: World, w': World)
    requires ServedSound(w) && w'.served == w.served
    requires forall p | p in w.store.attempts && w.store.attempts[p].settlement.Some? ::
      && p in w'.store.attempts && w'.store.attempts[p].requestHash == w.store.attempts[p].requestHash
      && SameSettlement(w.store.attempts[p].settlement, w'.store.attempts[p].settlement)
    ensures ServedSound(w')
  {
    forall v | v in w'.served ensures ServingSound(w', v) {
      assert ServingSound(w, v);
      var p :| PaysFor(w, p, v.resource);
      assert PaysFor(w', p, v.resource);
    }
  }

  // ---- One stretch of a handler --------------------------------------------------------------------

  lemma EnterSound(w: World, id: nat, h: Handler, phase: Phase)
    requires SoundBut(w, id) && PhaseSound(w, h, phase)
    requires phase.AwaitSettle? ==>
      h.proof.Some? && forall j | j != id :: !Settles(w, j, h.proof.value)
    ensures Sound(Enter(w, id, h, phase)) && Grows(w, Enter(w, id, h, phase))
  {
    var w' := Enter(w, id, h, phase);
    assert forall p | p in w.store.attempts :: AttemptSound(w, p) ==> AttemptSound(w', p);
    ServedKept(w, w');
    forall i | i in w'.handlers ensures HandlerSound(w', i) {
      assert i != id ==> HandlerSound(w, i);
    }
    forall i, j, p | Settles(w', i, p) && Settles(w', j, p) ensures i == j {
      assert i != id ==> Settles(w, i, p);
      assert j != id ==> Settles(w, j, p);
    }
  }

  lemma RespondSound(w: World, id: nat, h: Handler, r: Response)
    requires SoundBut(w, id)
    requires r.Served? ==> r.resource.requestHash == h.requestHash && exists p :: PaysFor(w, p, r.resource)
    ensures Sound(Respond(w, id, h, r)) && Grows(w, Respond(w, id, h, r))
  {
    if r.Served? {
      var logged := w.(served := w.served + [Serving(h.requestHash, r.resource)]);
      assert forall p | p in w.store.attempts :: AttemptSound(w, p) ==> AttemptSound(logged, p);
      forall v | v in logged.served ensures ServingSound(logged, v) {
        assert v in w.served ==> ServingSound(w, v);
        var proof :| PaysFor(w, proof, v.resource);
        assert PaysFor(logged, proof, v.resource);
      }
      forall i | i in logged.handlers && i != id ensures HandlerSound(logged, i) {
        assert HandlerSound(w, i);
      }
      forall i, j, p | Settles(logged, i, p) && Settles(logged, j, p) && i != id && j != id ensures i == j {
        assert Settles(w, i, p) && Settles(w, j, p);
      }
      EnterSound(logged, id, h, Done(r));
    } else {
      EnterSound(w, id, h, Done(r));
    }
  }

  /** The running handler, or a check of a settled attempt, rewrites one attempt and touches no other log. */
  lemma RewriteSound(w: World, w': World, id: nat, proof: string)
    requires SoundBut(w, id) && proof in w.store.attempts && proof in w'.store.attempts
    requires w'.store == Updated(w.store, proof, w'.store.attempts[proof])
    requires w'.handlers == w.handlers && w'.settles == w.settles && w'.served == w.served
    requires AttemptGrows(w.store, w'.store, proof) && AttemptSound(w', proof)
    requires forall j | j != id :: !Settles(w, j, proof)
    ensures SoundBut(w', id) && Grows(w, w')
  {
    forall p | p in w'.store.attempts ensures AttemptSound(w', p) {
      assert p != proof ==> AttemptSound(w, p);
    }
    assert forall p | p in w.store.attempts :: AttemptSound(w, p);
    ServedKept(w, w');
    forall j | j in w'.handlers && j != id ensures HandlerSound(w', j) {
      HandlerRewritten(w, w', j, proof);
    }
    hide HandlerSound, AttemptSound, ServedSound;
    forall i, j, p | Settles(w', i, p) && Settles(w', j, p) && i != id && j != id ensures i == j {
      assert Settles(w, i, p) && Settles(w, j, p);
    }
  }

  lemma HandlerRewritten(w: World, w': World, j: nat, proof: string)
    requires proof in w.store.attempts && proof in w'.store.attempts
    requires w'.store == Updated(w.store, proof, w'.store.attempts[proof])
    requires w'.handlers == w.handlers && w'.settles == w.settles
    requires AttemptGrows(w.store, w'.store, proof) && AttemptSound(w, proof)
    requires j in w.handlers && HandlerSound(w, j) && !Settles(w, j, proof)
    ensures HandlerSound(w', j)
  {
  }

  /** A larger store serves every handler as before. */
  lemma LargerStore(w: World, w': World)
    requires Sound(w) && w' == w.(store := w'.store)
    requires forall p | p in w.store.attempts :: p in w'.store.attempts && w'.store.attempts[p] == w.store.attempts[p]
    requires forall tx | tx in w.store.owners :: tx in w'.store.owners && w'.store.owners[tx] == w.store.owners[tx]
    ensures forall id | id in w'.handlers :: HandlerSound(w', id)
    ensures forall i, j, p | Settles(w', i, p) && Settles(w', j, p) :: i == j
    ensures ServedSound(w') && CallsSound(w')
    ensures forall p | p in w.store.attempts :: AttemptSound(w', p)
    ensures Grows(w, w')
  {
    forall id | id in w'.handlers ensures HandlerSound(w', id) {
      assert HandlerSound(w, id);
    }
    forall i, j, p | Settles(w', i, p) && Settles(w', j, p) ensures i == j {
      assert Settles(w, i, p) && Settles(w, j, p);
    }
    ServedKept(w, w');
    assert forall p | p in w.store.attempts :: AttemptSound(w, p);
  }

  /** A new proof claims itself and, if nobody had it, its transaction. */
  lemma ClaimSound(w: World, id: nat, proof: string, requestHash: string, tx: string)
    requires Sound(w) && proof !in w.store.attempts
    ensures var w' := w.(store := TxClaimed(Claimed(w.store, proof, requestHash), tx, proof));
      && SoundBut(w', id) && Grows(w, w')
      && (w'.store.owners[tx] == proof ==> tx !in w.store.owners)
      && (forall j | j != id :: !Settles(w', j, proof))
  {
    var w' := w.(store := TxClaimed(Claimed(w.store, proof, requestHash), tx, proof));
    LargerStore(w, w');
    forall j ensures !Settles(w', j, proof) {
      assert j in w.handlers ==> HandlerSound(w, j);
    }
    hide HandlerSound, ServedSound, CallsSound, Grows, Settles;
    assert AttemptSound(w', proof);
  }

  lemma {:induction false} AuthorizedSound(w: World, id: nat, h: Handler, a: Authorization)
    requires Sound(w)
    ensures Sound(Authorized(w, id, h, a)) && Grows(w, Authorized(w, id, h, a))
  {
    hide Sound, SoundBut, Grows, CoreSound;
    SoundIsSoundBut(w, id);
    if Refused(a) || h.proof == None {
      RespondSound(w, id, h, Denied(if Refused(a) then 402 else 400));
    } else if h.proof.value in w.store.attempts {
      ReplaySound(w, id, h, h.proof.value);
    } else {
      var proof := h.proof.value;
      ClaimSound(w, id, proof, h.requestHash, a.transaction);
      var w' := w.(store := TxClaimed(Claimed(w.store, proof, h.requestHash), a.transaction, proof));
      if w'.store.owners[a.transaction] != proof {
        TxTakenSound(w', id, h, proof, w'.store.owners[a.transaction]);
      } else {
        SettleCalled(w, w', id, proof, a.transaction);
        var w'' := w'.(settles := w'.settles + [SettleCall(proof, a.transaction)]);
        EnterSound(w'', id, h, AwaitSettle(a.transaction));
        GrowsOn(w', w'', Authorized(w, id, h, a));
      }
      GrowsOn(w, w', Authorized(w, id, h, a));
    }
  }

  lemma SoundIsSoundBut(w: World, id: nat)
    requires Sound(w)
    ensures SoundBut(w, id)
  {
  }

  lemma GrowsOn(w: World, w': World, w'': World)
    requires Grows(w, w') && Grows(w', w'')
    ensures Grows(w, w'')
  {
    forall p | p in w.store.attempts ensures AttemptGrows(w.store, w''.store, p) {
      assert AttemptGrows(w.store, w'.store, p) && AttemptGrows(w'.store, w''.store, p);
    }
  }

  /** The call of settle is the first for this proof and for this transaction. */
  lemma SettleCalled(w: World, w': World, id: nat, proof: string, tx: string)
    requires Sound(w) && w'.settles == w.settles && w'.handlers == w.handlers
    requires proof !in w.store.attempts && tx !in w.store.owners
    requires SoundBut(w', id) && forall j | j != id :: !Settles(w', j, proof)
    requires proof in w'.store.attempts && tx in w'.store.owners && w'.store.owners[tx] == proof
    ensures var w'' := w'.(settles := w'.settles + [SettleCall(proof, tx)]);
      SoundBut(w'', id) && Grows(w', w'') && Paid(w'', proof, tx) && forall j | j != id :: !Settles(w'', j, proof)
  {
    var w'' := w'.(settles := w'.settles + [SettleCall(proof, tx)]);
    forall i | 0 <= i < |w.settles| ensures w.settles[i].proof != proof && w.settles[i].tx != tx {
      assert w.settles[i] in w.settles;
    }
    assert forall p | p in w'.store.attempts :: AttemptSound(w', p) ==> AttemptSound(w'', p);
    ServedKept(w', w'');
    forall j | j in w''.handlers && j != id ensures HandlerSound(w'', j) {
      assert HandlerSound(w', j);
    }
    forall i, j, p | Settles(w'', i, p) && Settles(w'', j, p) && i != id && j != id ensures i == j {
      assert Settles(w', i, p) && Settles(w', j, p);
    }
    forall j | j != id ensures !Settles(w'', j, proof) {
      assert !Settles(w', j, proof);
    }
  }

  lemma ReplaySound(w: World, id: nat, h: Handler, proof: string)
    requires SoundBut(w, id) && proof in w.store.attempts
    ensures var w' := Respond(w, id, h, Replay(w.store, proof, h.requestHash).value);
      Sound(w') && Grows(w, w')
  {
    assert AttemptSound(w, proof);
    var r := Replay(w.store, proof, h.requestHash).value;
    if r.Served? {
      assert PaysFor(w, proof, r.resource);
    }
    RespondSound(w, id, h, r);
  }

  lemma TxTakenSound(w: World, id: nat, h: Handler, proof: string, owner: string)
    requires SoundBut(w, id) && proof in w.store.attempts && owner != proof
    requires w.store.attempts[proof] == Attempt(h.requestHash, Settling, None, None)
    requires forall j | j != id :: !Settles(w, j, proof)
    ensures Sound(TxTaken(w, id, h, proof, owner)) && Grows(w, TxTaken(w, id, h, proof, owner))
  {
    var failed := w.(store := Marked(w.store, proof, Failed));
    RewriteSound(w, failed, id, proof);
    var served := owner in w.store.attempts && w.store.attempts[owner].requestHash == h.requestHash &&
      w.store.attempts[owner].status == Settled && w.store.attempts[owner].settlement.Some?;
    if served {
      assert AttemptSound(w, owner);
      assert PaysFor(failed, owner, w.store.attempts[owner].settlement.value.response);
      RespondSound(failed, id, h, Served(w.store.attempts[owner].settlement.value.response));
    } else {
      RespondSound(failed, id, h, Denied(409));
    }
    GrowsOn(w, failed, TxTaken(w, id, h, proof, owner));
  }

  /** Storing the final answer changes nothing but the body of the settlement. */
  lemma FinishSound(w: World, id: nat, h: Handler, own: Option<Check>, finality: Option<Finality>)
    requires SoundBut(w, id) && OwnSound(w, h, own)
    requires own.Some? ==> forall j | j != id :: !Settles(w, j, own.value.proof)
    ensures Sound(Finish(w, id, h, own, finality)) && Grows(w, Finish(w, id, h, own, finality))
  {
    hide Sound, SoundBut, Grows;
    if own == None {
      RespondSound(w, id, h, Reported);
    } else {
      var c := own.value;
      var final := FinalSettlement(w.ledger, c.settlement, finality);
      var stored := w.(store := SettledWith(w.store, c.proof, final));
      SoundAt(w, id, c.proof);
      RewriteSound(w, stored, id, c.proof);
      assert PaysFor(stored, c.proof, final.response);
      RespondSound(stored, id, h, Served(final.response));
      GrowsOn(w, stored, Finish(w, id, h, own, finality));
    }
  }

  lemma SoundAt(w: World, id: nat, proof: string)
    requires SoundBut(w, id) && proof in w.store.attempts
    ensures AttemptSound(w, proof)
  {
  }

  /** Nobody is settling a payment that is settled. */
  lemma NobodySettles(w: World, id: nat, proof: string)
    requires SoundBut(w, id) && proof in w.store.attempts && w.store.attempts[proof].status == Settled
    ensures forall j | j != id :: !Settles(w, j, proof)
  {
    forall j | j != id ensures !Settles(w, j, proof) {
      assert j in w.handlers ==> HandlerSound(w, j);
    }
  }

  lemma ReconcileSound(w: World, id: nat, h: Handler, proof: string, own: Option<Check>, copying: bool)
    requires SoundBut(w, id) && OwnSound(w, h, own)
    requires own.Some? ==> own.value.proof == proof
    ensures Sound(Reconcile(w, id, h, proof, own, copying)) && Grows(w, Reconcile(w, id, h, proof, own, copying))
  {
    hide Sound, SoundBut, Grows;
    if own.Some? {
      NobodySettles(w, id, proof);
    }
    if proof !in w.store.attempts {
      FinishSound(w, id, h, own, None);
    } else {
      SoundAt(w, id, proof);
      var attempt := w.store.attempts[proof];
      FinishSound(w, id, h, own, attempt.finality);
      if attempt.settlement.Some? {
        EnterSound(w, id, h, AwaitCheck(Check(proof, attempt.settlement.value), own));
      }
    }
  }

  lemma SettleDoneSound(w: World, id: nat, h: Handler, tx: string, outcome: SettleOutcome, copying: bool)
    requires Sound(w) && Settles(w, id, if h.proof.Some? then h.proof.value else "")
    requires w.handlers[id] == h && h.phase == AwaitSettle(tx)
    ensures Sound(SettleDone(w, id, h, tx, outcome, copying)) && Grows(w, SettleDone(w, id, h, tx, outcome, copying))
  {
    assert HandlerSound(w, id);
    var proof := h.proof.value;
    forall j | j != id ensures !Settles(w, j, proof) {
      assert Settles(w, id, proof);
    }
    SoundIsSoundBut(w, id);
    hide Sound, SoundBut, Grows, Settles;
    match outcome
    case Unknown =>
      var marked := w.(store := Marked(w.store, proof, Indeterminate));
      RewriteSound(w, marked, id, proof);
      RespondSound(marked, id, h, Denied(502));
      GrowsOn(w, marked, SettleDone(w, id, h, tx, outcome, copying));
    case Rejected =>
      var marked := w.(store := Marked(w.store, proof, Failed));
      RewriteSound(w, marked, id, proof);
      RespondSound(marked, id, h, Denied(402));
      GrowsOn(w, marked, SettleDone(w, id, h, tx, outcome, copying));
    case Success(anchored) =>
      var receipt := if anchored then Some(tx) else None;
      var resource := Resource(h.requestHash, tx, Provisional);
      var settlement := Settlement(tx, receipt, resource);
      var s := SettledWith(SettledWith(w.store, proof, Settlement(tx, None, resource)), proof, settlement);
      assert s == Updated(w.store, proof, s.attempts[proof]);
      var settled := w.(store := s, ledger := Anchor(w.ledger, receipt, copying), anchors := w.anchors + [tx]);
      RewriteSound(w, settled, id, proof);
      ReconcileSound(settled, id, h, proof, Some(Check(proof, settlement)), copying);
      GrowsOn(w, settled, SettleDone(w, id, h, tx, outcome, copying));
  }

  lemma CheckDoneSound(w: World, id: nat, h: Handler, check: Check, own: Option<Check>, verdict: Finality,
                       copying: bool)
    requires Sound(w) && PhaseSound(w, h, AwaitCheck(check, own))
    ensures Sound(CheckDone(w, id, h, check, own, verdict, copying))
    ensures Grows(w, CheckDone(w, id, h, check, own, verdict, copying))
  {
    hide Sound, SoundBut, Grows;
    SoundIsSoundBut(w, id);
    SoundAt(w, id, check.proof);
    NobodySettles(w, id, check.proof);
    var recorded := w.(store := Checked(w.store, check.proof, verdict));
    var told := TellLedger(recorded, check, verdict, copying);
    RewriteSound(w, told, id, check.proof);
    if TellThrows(recorded, check, verdict) {
      RespondSound(told, id, h, Crashed);
    } else {
      NobodySettles(told, id, check.proof);
      FinishSound(told, id, h, own, Some(verdict));
    }
    GrowsOn(w, told, CheckDone(w, id, h, check, own, verdict, copying));
  }

  // ---- Whole runs ----------------------------------------------------------------------------------

  /** A restart keeps the store only when it has a directory. */
  ghost predicate Remembers(durable: bool, e: Event) {
    e.Restart? ==> durable
  }

  lemma StepSound(durable: bool, w: World, e: Event)
    requires Sound(w) && Remembers(durable, e)
    ensures Sound(Step(durable, w, e)) && Grows(w, Step(durable, w, e))
  {
    hide Sound, SoundBut, Grows, Authorized, SettleDone, CheckDone, Polled, Arrived;
    match e
    case Arrive(id, proof, requestHash) =>
      ArrivedSound(w, id, proof, requestHash);
      GrowsSelf(w);
    case Poll(id, attempt, volume) =>
      PolledSound(w, id, attempt, durable && volume);
      GrowsSelf(w);
    case Restart =>
      RestartedSound(w);
    case ResetLedger =>
      LedgerIgnored(w, NO_RECEIPTS.(copies := w.ledger.copies));
    case AuthorizeReturns(id, a) =>
      if id in w.handlers && w.handlers[id].phase.AwaitAuthorize? {
        AuthorizedSound(w, id, w.handlers[id], a);
      }
      GrowsSelf(w);
    case SettleReturns(id, outcome, volume) =>
      if id in w.handlers && w.handlers[id].phase.AwaitSettle? {
        Local(w, id);
        SettleDoneSound(w, id, w.handlers[id], w.handlers[id].phase.tx, outcome, durable && volume);
      }
      GrowsSelf(w);
    case CheckReturns(id, verdict, volume) =>
      if id in w.handlers && w.handlers[id].phase.AwaitCheck? {
        Local(w, id);
        var phase := w.handlers[id].phase;
        CheckDoneSound(w, id, w.handlers[id], phase.check, phase.own, verdict, durable && volume);
      }
      GrowsSelf(w);
  }

  lemma Local(w: World, id: nat)
    requires Sound(w) && id in w.handlers
    ensures HandlerSound(w, id)
  {
  }

  lemma GrowsSelf(w: World)
    ensures Grows(w, w)
  {
  }

  lemma ArrivedSound(w: World, id: nat, proof: Option<string>, requestHash: string)
    requires Sound(w)
    ensures Sound(Arrived(w, id, proof, requestHash)) && Grows(w, Arrived(w, id, proof, requestHash))
  {
    hide Sound, SoundBut, Grows;
    SoundIsSoundBut(w, id);
    var h := Handler(requestHash, proof, AwaitAuthorize);
    if proof.Some? && proof.value in w.store.attempts {
      ReplaySound(w, id, h, proof.value);
    } else {
      EnterSound(w, id, h, AwaitAuthorize);
    }
  }

  lemma PolledSound(w: World, id: nat, attempt: string, copying: bool)
    requires Sound(w)
    ensures Sound(Polled(w, id, attempt, copying)) && Grows(w, Polled(w, id, attempt, copying))
  {
    hide Sound, SoundBut, Grows;
    SoundIsSoundBut(w, id);
    var h := Handler("", Some(attempt), AwaitAuthorize);
    if attempt !in w.store.attempts {
      RespondSound(w, id, h, Denied(404));
    } else if w.store.attempts[attempt].status != Settled {
      RespondSound(w, id, h, Reported);
    } else {
      ReconcileSound(w, id, h, attempt, None, copying);
    }
  }

  lemma LedgerIgnored(w: World, l: Ledger)
    requires Sound(w)
    ensures Sound(w.(ledger := l)) && Grows(w, w.(ledger := l))
  {
    var w' := w.(ledger := l);
    assert forall p | p in w.store.attempts :: AttemptSound(w, p) ==> AttemptSound(w', p);
    ServedKept(w, w');
    forall id | id in w'.handlers ensures HandlerSound(w', id) {
      assert HandlerSound(w, id);
    }
    forall i, j, p | Settles(w', i, p) && Settles(w', j, p) ensures i == j {
      assert Settles(w, i, p) && Settles(w, j, p);
    }
  }

  lemma RestartedSound(w: World)
    requires Sound(w)
    ensures Sound(Restarted(true, w)) && Grows(w, Restarted(true, w))
  {
    var w' := Restarted(true, w);
    assert forall p | p in w.store.attempts :: AttemptSound(w, p) ==> AttemptSound(w', p);
    ServedKept(w, w');
  }
}
