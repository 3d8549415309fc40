/**
 * Reconciliation against the chain: one ledger call per payment and a ledger that agrees with the store as
 * long as the checks of a payment do not overlap and restarts find current copies, and what happens otherwise.
 */
module NearReconciliation {
  import opened NearStore
  import opened Wrappers
  import opened Receipts
  import opened NearPayments
  import opened NearSafety
  import opened NearGuarantees

  ghost predicate NoReset(events: seq<Event>) {
    ResetLedger !in events
  }

  ghost predicate Checks(w: World, id: nat, p: string) {
    id in w.handlers && w.handlers[id].phase.AwaitCheck? && w.handlers[id].phase.check.proof == p
  }

  /** The handler that pays for p awaits its check. */
  ghost predicate Paying(w: World, id: nat, p: string) {
    Checks(w, id, p) && w.handlers[id].phase.own.Some?
  }

  ghost predicate AtMostOneCheck(w: World, p: string) {
    forall i, j | Checks(w, i, p) && Checks(w, j, p) :: i == j
  }

  /** Nowhere in the run are two checks of this payment in flight. */
  ghost predicate OneAtATime(durable: bool, events: seq<Event>, p: string) {
    forall n | 0 <= n <= |events| :: AtMostOneCheck(Run(durable, events[..n]), p)
  }

  ghost predicate Decided(s: Store, p: string) {
    p in s.attempts && s.attempts[p].finality.Some? && s.attempts[p].finality.value.Terminal()
  }

  /** The ledger entry that a finality record calls for. */
  function StatusFor(f: Option<Finality>): ReceiptStatus {
    if f == Some(Confirmed) then Finalized else if f == Some(Mismatch) then Challenged else Anchored
  }

  ghost predicate HasReceipt(s: Store, p: string) {
    p in s.attempts && s.attempts[p].settlement.Some? && s.attempts[p].settlement.value.receipt.Some?
  }

  /** These receipts tell the same story about a payment as the store. */
  ghost predicate Tells(receipts: map<string, ReceiptStatus>, s: Store, p: string) {
    HasReceipt(s, p) ==>
      var id := s.attempts[p].settlement.value.receipt.value;
      id in receipts && receipts[id] == StatusFor(s.attempts[p].finality)
  }

  ghost predicate Agrees(w: World, p: string) {
    Tells(w.ledger.receipts, w.store, p)
  }

  /** The durable copy is current: no copy of this receipt failed, or a later one made up for it. */
  ghost predicate CopyCurrent(w: World, p: string) {
    Tells(w.ledger.copies, w.store, p)
  }

  /** Every restart of the run finds a current copy of this payment's receipt. */
  ghost predicate CopiedBeforeRestarts(durable: bool, events: seq<Event>, p: string) {
    forall n | 0 <= n < |events| && events[n].Restart? :: CopyCurrent(Run(durable, events[..n]), p)
  }

  /** Only settled transactions have receipts, and their settlements name them. */
  ghost predicate ReceiptsKnown(w: World) {
    forall id | id in w.ledger.receipts || id in w.ledger.copies :: SettledOwner(w.store, id)
  }

  ghost predicate SettledOwner(s: Store, tx: string) {
    && tx in s.owners && s.owners[tx] in s.attempts
    && s.attempts[s.owners[tx]].settlement.Some? && s.attempts[s.owners[tx]].settlement.value.receipt == Some(tx)
  }

  /** The ledger was told once if there was something to tell, and never otherwise. */
  ghost predicate ToldOnce(w: World, p: string) {
    multiset(w.ledgerCalls)[p] == if Decided(w.store, p) && HasReceipt(w.store, p) then 1 else 0
  }

  /** Nobody checks a payment whose verdict is terminal. */
  ghost predicate Settled(w: World, p: string) {
    Decided(w.store, p) ==> forall id :: !Checks(w, id, p)
  }

  // ---- Steps that leave the payment alone ----------------------------------------------------------

  ghost predicate Untouched(s: Store, s': Store, q: string)
    requires q in s.attempts
  {
    && q in s'.attempts
    && SameSettlement(s.attempts[q].settlement, s'.attempts[q].settlement)
    && s'.attempts[q].finality == s.attempts[q].finality
  }

  /** Settlements and verdicts stay as they are; new attempts have neither. */
  ghost predicate Alike(s: Store, s': Store) {
    && (forall tx | tx in s.owners :: tx in s'.owners && s'.owners[tx] == s.owners[tx])
    && (forall q | q in s.attempts :: Untouched(s, s', q))
    && (forall q | q in s'.attempts && q !in s.attempts ::
         s'.attempts[q].settlement == None && s'.attempts[q].finality == None)
  }

  /** Nor does the ledger change; no check of a decided payment starts, and none by a paying handler. */
  ghost predicate Quiet(w: World, w': World) {
    && w'.ledger == w.ledger && w'.ledgerCalls == w.ledgerCalls && Alike(w.store, w'.store)
    && (forall id, p | Checks(w', id, p) && Decided(w.store, p) :: Checks(w, id, p))
    && (forall id, p | Paying(w', id, p) :: Paying(w, id, p))
  }

  lemma AlikeKeeps(w: World, w': World, p: string)
    requires Alike(w.store, w'.store) && w'.ledger == w.ledger && w'.ledgerCalls == w.ledgerCalls
    ensures Agrees(w, p) ==> Agrees(w', p)
    ensures CopyCurrent(w, p) ==> CopyCurrent(w', p)
    ensures ToldOnce(w, p) ==> ToldOnce(w', p)
    ensures ReceiptsKnown(w) ==> ReceiptsKnown(w')
    ensures Decided(w'.store, p) <==> Decided(w.store, p)
    ensures HasReceipt(w.store, p) ==> HasReceipt(w'.store, p)
  {
    assert p in w.store.attempts ==> Untouched(w.store, w'.store, p);
    if ReceiptsKnown(w) {
      forall id | id in w'.ledger.receipts || id in w'.ledger.copies ensures SettledOwner(w'.store, id) {
        assert SettledOwner(w.store, id) && Untouched(w.store, w'.store, w.store.owners[id]);
      }
    }
  }

  lemma AlikeSelf(s: Store)
    ensures Alike(s, s)
  {
  }

  lemma EnterQuiet(w: World, w': World, id: nat, h: Handler, phase: Phase)
    requires Quiet(w, w')
    requires phase.AwaitCheck? ==> !Decided(w.store, phase.check.proof) && phase.own == None
    ensures Quiet(w, Enter(w', id, h, phase))
  {
    var w'' := Enter(w', id, h, phase);
    hide Alike;
    forall i, p | Paying(w'', i, p) ensures Paying(w, i, p) {
      assert Paying(w', i, p);
    }
    forall i, p | Checks(w'', i, p) && Decided(w.store, p) ensures Checks(w, i, p) {
      assert Checks(w', i, p);
    }
  }

  lemma RespondQuiet(w: World, w': World, id: nat, h: Handler, r: Response)
    requires Quiet(w, w')
    ensures Quiet(w, Respond(w', id, h, r))
  {
    var logged := if r.Served? then w'.(served := w'.served + [Serving(h.requestHash, r.resource)]) else w';
    hide Alike;
    assert forall i, p | Checks(logged, i, p) :: Checks(w', i, p);
    assert forall i, p | Paying(logged, i, p) :: Paying(w', i, p);
    EnterQuiet(w, logged, id, h, Done(r));
  }

  lemma StoreQuiet(w: World, w': World)
    requires w' == w.(store := w'.store) && Alike(w.store, w'.store)
    ensures Quiet(w, w')
  {
    hide Alike;
    assert forall i, p | Checks(w', i, p) :: Checks(w, i, p);
    assert forall i, p | Paying(w', i, p) :: Paying(w, i, p);
  }

  lemma SelfQuiet(w: World)
    ensures Quiet(w, w)
  {
    AlikeSelf(w.store);
    StoreQuiet(w, w);
  }

  lemma AuthorizedQuiet(w: World, id: nat, h: Handler, a: Authorization)
    requires Sound(w)
    ensures Quiet(w, Authorized(w, id, h, a))
  {
    hide Sound, Quiet, Respond, Enter;
    if Refused(a) || h.proof == None || h.proof.value in w.store.attempts {
      SelfQuiet(w);
      if Refused(a) || h.proof == None {
        RespondQuiet(w, w, id, h, Denied(if Refused(a) then 402 else 400));
      } else {
        RespondQuiet(w, w, id, h, Replay(w.store, h.proof.value, h.requestHash).value);
      }
    } else {
      var proof := h.proof.value;
      var w' := w.(store := TxClaimed(Claimed(w.store, proof, h.requestHash), a.transaction, proof));
      var owner := w'.store.owners[a.transaction];
      if owner != proof {
        var failed := w'.(store := Marked(w'.store, proof, Failed));
        StoreQuiet(w, failed);
        RespondQuiet(w, failed, id, h, Denied(409));
        if owner in w'.store.attempts && w'.store.attempts[owner].settlement.Some? {
          RespondQuiet(w, failed, id, h, Served(w'.store.attempts[owner].settlement.value.response));
        }
      } else {
        StoreQuiet(w, w');
        var called := w'.(settles := w'.settles + [SettleCall(proof, a.transaction)]);
        SettlesQuiet(w, w', called);
        EnterQuiet(w, called, id, h, AwaitSettle(a.transaction));
      }
    }
  }

  lemma SettlesQuiet(w: World, w': World, w'': World)
    requires Quiet(w, w') && w'' == w'.(settles := w''.settles)
    ensures Quiet(w, w'')
  {
    hide Alike;
    assert forall i, p | Checks(w'', i, p) :: Checks(w', i, p);
    assert forall i, p | Paying(w'', i, p) :: Paying(w', i, p);
  }

  lemma PolledQuiet(w: World, id: nat, attempt: string, copying: bool)
    requires Sound(w)
    ensures Quiet(w, Polled(w, id, attempt, copying))
  {
    hide Quiet, Respond, Enter;
    var h := Handler("", Some(attempt), AwaitAuthorize);
    SelfQuiet(w);
    RespondQuiet(w, w, id, h, Reported);
    RespondQuiet(w, w, id, h, Denied(404));
    if attempt in w.store.attempts && w.store.attempts[attempt].settlement.Some? {
      assert AttemptSound(w, attempt);
      if !Decided(w.store, attempt) {
        EnterQuiet(w, w, id, h, AwaitCheck(Check(attempt, w.store.attempts[attempt].settlement.value), None));
      }
    }
  }

  lemma RefusedQuiet(w: World, id: nat, h: Handler, tx: string, outcome: SettleOutcome, copying: bool)
    requires !outcome.Success?
    ensures Quiet(w, SettleDone(w, id, h, tx, outcome, copying))
  {
    hide Quiet, Respond;
    SelfQuiet(w);
    RespondQuiet(w, w, id, h, Crashed);
    if h.proof.Some? && h.proof.value in w.store.attempts {
      var status := if outcome == Unknown then Indeterminate else Failed;
      var marked := w.(store := Marked(w.store, h.proof.value, status));
      StoreQuiet(w, marked);
      RespondQuiet(w, marked, id, h, Denied(if outcome == Unknown then 502 else 402));
    }
  }

  /** A settlement that succeeds, a check that returns, and a new process or ledger are not quiet. */
  ghost predicate Stirs(e: Event) {
    e.CheckReturns? || e.Restart? || e.ResetLedger? || (e.SettleReturns? && e.outcome.Success?)
  }

  lemma QuietStep(durable: bool, w: World, e: Event)
    requires Sound(w) && !Stirs(e)
    ensures Quiet(w, Step(durable, w, e))
  {
    hide Quiet, Sound, Authorized, Polled, SettleDone, Respond, Enter;
    SelfQuiet(w);
    match e
    case Arrive(id, proof, requestHash) =>
      var h := Handler(requestHash, proof, AwaitAuthorize);
      EnterQuiet(w, w, id, h, AwaitAuthorize);
      if proof.Some? && proof.value in w.store.attempts {
        RespondQuiet(w, w, id, h, Replay(w.store, proof.value, requestHash).value);
      }
    case Poll(id, attempt, volume) =>
      PolledQuiet(w, id, attempt, durable && volume);
    case AuthorizeReturns(id, a) =>
      if id in w.handlers {
        AuthorizedQuiet(w, id, w.handlers[id], a);
      }
    case SettleReturns(id, outcome, volume) =>
      if id in w.handlers && w.handlers[id].phase.AwaitSettle? {
        RefusedQuiet(w, id, w.handlers[id], w.handlers[id].phase.tx, outcome, durable && volume);
      }
  }

  // ---- A settlement that succeeds ------------------------------------------------------------------

  /** It is stored, anchored, and its check is awaited. */
  function SettledWorld(w: World, id: nat, h: Handler, proof: string, tx: string, receipt: Option<string>,
                        copying: bool): World {
    var settlement := Settlement(tx, receipt, Resource(h.requestHash, tx, Provisional));
    Enter(w.(store := Updated(w.store, proof, Attempt(h.requestHash, AttemptStatus.Settled, Some(settlement), None)),
             ledger := Anchor(w.ledger, receipt, copying),
             anchors := w.anchors + [tx]),
          id, h, AwaitCheck(Check(proof, settlement), Some(Check(proof, settlement))))
  }

  lemma SettleDoneIs(w: World, id: nat, h: Handler, tx: string, anchored: bool, copying: bool)
    requires PhaseSound(w, h, AwaitSettle(tx))
    ensures SettleDone(w, id, h, tx, Success(anchored), copying) ==
            SettledWorld(w, id, h, h.proof.value, tx, if anchored then Some(tx) else None, copying)
  {
    var proof := h.proof.value;
    var receipt := if anchored then Some(tx) else None;
    var resource := Resource(h.requestHash, tx, Provisional);
    var settlement := Settlement(tx, receipt, resource);
    var s := SettledWith(SettledWith(w.store, proof, Settlement(tx, None, resource)), proof, settlement);
    assert s == Updated(w.store, proof, Attempt(h.requestHash, AttemptStatus.Settled, Some(settlement), None));
  }

  lemma AttemptOf(w: World, p: string)
    requires Sound(w) && p in w.store.attempts
    ensures AttemptSound(w, p)
  {
  }

  /** Another payment's settlement leaves this one alone; its own starts it off, with an anchored receipt. */
  lemma SettledKeeps(w: World, id: nat, h: Handler, tx: string, receipt: Option<string>, copying: bool, p: string)
    requires Sound(w) && id in w.handlers && w.handlers[id] == h && h.phase == AwaitSettle(tx)
    requires PhaseSound(w, h, AwaitSettle(tx)) && (receipt.Some? ==> receipt.value == tx)
    ensures var w' := SettledWorld(w, id, h, h.proof.value, tx, receipt, copying);
      && (ReceiptsKnown(w) ==> ReceiptsKnown(w'))
      && (ReceiptsKnown(w) && Agrees(w, p) ==> Agrees(w', p))
      && (ToldOnce(w, p) ==> ToldOnce(w', p))
      && (Settled(w, p) ==> Settled(w', p))
      && (Decided(w.store, p) ==>
            && p in w'.store.attempts && w'.store.attempts[p] == w.store.attempts[p]
            && forall i | Checks(w', i, p) :: Checks(w, i, p))
  {
    var proof := h.proof.value;
    var w' := SettledWorld(w, id, h, proof, tx, receipt, copying);
    if p != proof && p in w.store.attempts {
      AttemptOf(w, p);
    }
    hide Sound;
    AnchorEffect(w.ledger, receipt, copying);
    if ReceiptsKnown(w) {
      SettledReceipts(w, id, h, tx, receipt, copying);
    }
    hide ReceiptsKnown, Anchor;
    forall i | Checks(w', i, p) && p != proof ensures Checks(w, i, p) {
      assert i != id;
    }
  }

  lemma AnchorEffect(l: Ledger, receipt: Option<string>, copying: bool)
    ensures var l' := Anchor(l, receipt, copying);
      && (forall id | id in l.receipts :: id in l'.receipts && l'.receipts[id] == l.receipts[id])
      && (receipt.Some? ==> receipt.value in l'.receipts)
      && (receipt.Some? && receipt.value !in l.receipts ==> l'.receipts[receipt.value] == Anchored)
  {
  }

  lemma SettledReceipts(w: World, id: nat, h: Handler, tx: string, receipt: Option<string>, copying: bool)
    requires ReceiptsKnown(w) && PhaseSound(w, h, AwaitSettle(tx)) && (receipt.Some? ==> receipt.value == tx)
    ensures ReceiptsKnown(SettledWorld(w, id, h, h.proof.value, tx, receipt, copying))
    ensures tx !in w.ledger.receipts
  {
    var w' := SettledWorld(w, id, h, h.proof.value, tx, receipt, copying);
    assert !SettledOwner(w.store, tx);
    forall i | i in w'.ledger.receipts || i in w'.ledger.copies ensures SettledOwner(w'.store, i) {
      assert i != tx ==> SettledOwner(w.store, i);
    }
  }

  // ---- A check that returns ------------------------------------------------------------------------

  /** The world in which a check has returned and the ledger has been told. */
  function Told(w: World, check: Check, verdict: Finality, copying: bool): World {
    TellLedger(w.(store := Checked(w.store, check.proof, verdict)), check, verdict, copying)
  }

  /** Whatever a check returns, its handler is done afterwards; the store holds the verdict and perhaps a new body. */
  lemma CheckDoneIs(w: World, id: nat, h: Handler, check: Check, own: Option<Check>, verdict: Finality, copying: bool)
    returns (end: World, r: Response)
    requires Sound(w) && PhaseSound(w, h, AwaitCheck(check, own))
    ensures CheckDone(w, id, h, check, own, verdict, copying) == Respond(end, id, h, r)
    ensures end == Told(w, check, verdict, copying).(store := end.store)
    ensures Alike(Told(w, check, verdict, copying).store, end.store)
    ensures own.Some? && !TellThrows(w.(store := Checked(w.store, check.proof, verdict)), check, verdict) ==>
      r == Served(FinalSettlement(end.ledger, own.value.settlement, Some(verdict)).response)
  {
    var recorded := w.(store := Checked(w.store, check.proof, verdict));
    var told := TellLedger(recorded, check, verdict, copying);
    AttemptOf(w, check.proof);
    TellEffect(recorded, check, verdict, copying);
    end := told;
    AlikeSelf(told.store);
    hide Sound, FinalSettlement, TellLedger, TellThrows, Alike, Paid;
    if TellThrows(recorded, check, verdict) {
      r := Crashed;
    } else if own == None {
      r := Reported;
    } else {
      var final := FinalSettlement(told.ledger, own.value.settlement, Some(verdict));
      end := told.(store := SettledWith(told.store, check.proof, final));
      r := Served(final.response);
      FinalIsSame(told.ledger, own.value.settlement, verdict);
      BodyAlike(told.store, check.proof, final);
    }
  }

  lemma BodyAlike(s: Store, p: string, final: Settlement)
    requires p in s.attempts && SameSettlement(s.attempts[p].settlement, Some(final))
    ensures Alike(s, SettledWith(s, p, final))
  {
  }

  lemma FinalIsSame(l: Ledger, s: Settlement, verdict: Finality)
    ensures SamePayment(s, FinalSettlement(l, s, Some(verdict)))
  {
  }

  /** The ledger call that a verdict leads to touches only the receipt of the payment that was checked. */
  lemma TellEffect(w: World, check: Check, verdict: Finality, copying: bool)
    ensures var told := TellLedger(w, check, verdict, copying);
      && told == w.(ledger := told.ledger, ledgerCalls := told.ledgerCalls)
      && told.ledger.receipts.Keys == w.ledger.receipts.Keys
      && told.ledger.copies.Keys <= w.ledger.copies.Keys + w.ledger.receipts.Keys
      && (forall id | id in w.ledger.receipts && check.settlement.receipt != Some(id) ::
            told.ledger.receipts[id] == w.ledger.receipts[id])
      && told.ledgerCalls ==
           w.ledgerCalls + (if check.settlement.receipt.Some? && verdict.Terminal() then [check.proof] else [])
  {
  }

  lemma TellOwn(w: World, check: Check, verdict: Finality, copying: bool)
    requires check.settlement.receipt.Some? && check.settlement.receipt.value in w.ledger.receipts
    requires w.ledger.receipts[check.settlement.receipt.value] == Anchored
    ensures TellLedger(w, check, verdict, copying).ledger.receipts[check.settlement.receipt.value] ==
      StatusFor(Some(verdict))
    ensures !TellThrows(w, check, verdict)
  {
  }

  lemma CountAppend(calls: seq<string>, x: string, p: string)
    ensures multiset(calls + [x])[p] == multiset(calls)[p] + if x == p then 1 else 0
    ensures calls + [] == calls
  {
  }

  lemma ToldKnown(w: World, check: Check, verdict: Finality, copying: bool)
    requires ReceiptsKnown(w) && check.proof in w.store.attempts
    ensures ReceiptsKnown(Told(w, check, verdict, copying))
  {
    TellEffect(w.(store := Checked(w.store, check.proof, verdict)), check, verdict, copying);
    hide TellLedger;
    forall id | id in w.ledger.receipts || id in w.ledger.copies
      ensures SettledOwner(Checked(w.store, check.proof, verdict), id)
    {
      assert SettledOwner(w.store, id);
    }
  }

  lemma OtherReceipts(w: World, p: string, q: string)
    requires Sound(w) && p in w.store.attempts && HasReceipt(w.store, q) && p != q
    requires w.store.attempts[p].settlement.Some?
    ensures w.store.attempts[p].settlement.value.receipt != w.store.attempts[q].settlement.value.receipt
  {
    AttemptOf(w, p);
    AttemptOf(w, q);
  }

  lemma ToldAgrees(w: World, check: Check, verdict: Finality, copying: bool, p: string)
    requires Sound(w) && Agrees(w, p)
    requires check.proof in w.store.attempts
    requires SameSettlement(w.store.attempts[check.proof].settlement, Some(check.settlement))
    requires check.proof == p ==> !Decided(w.store, p)
    ensures Agrees(Told(w, check, verdict, copying), p)
    ensures check.proof == p ==> !TellThrows(w.(store := Checked(w.store, p, verdict)), check, verdict)
  {
    hide Sound;
    var recorded := w.(store := Checked(w.store, check.proof, verdict));
    TellEffect(recorded, check, verdict, copying);
    hide TellLedger;
    if HasReceipt(w.store, p) {
      if check.proof == p {
        TellOwn(recorded, check, verdict, copying);
      } else {
        OtherReceipts(w, check.proof, p);
      }
    }
  }

  lemma ToldCounts(w: World, check: Check, verdict: Finality, copying: bool, p: string)
    requires check.proof in w.store.attempts
    requires SameSettlement(w.store.attempts[check.proof].settlement, Some(check.settlement))
    requires check.proof == p ==> !Decided(w.store, p)
    requires ToldOnce(w, p)
    ensures ToldOnce(Told(w, check, verdict, copying), p)
  {
    TellEffect(w.(store := Checked(w.store, check.proof, verdict)), check, verdict, copying);
    hide TellLedger;
    CountAppend(w.ledgerCalls, check.proof, p);
  }

  /** The answering handler is gone from the checks; nobody else came. */
  lemma RespondedChecks(end: World, id: nat, h: Handler, r: Response, i: nat, p: string)
    requires Checks(Respond(end, id, h, r), i, p)
    ensures i != id && Checks(end, i, p)
  {
  }

  /** A check that returns: nothing else may know more about another payment, and its own is told of once. */
  lemma CheckKeeps(w: World, id: nat, check: Check, verdict: Finality, copying: bool, end: World, r: Response,
                   p: string)
    requires Sound(w) && Checks(w, id, check.proof) && check.proof in w.store.attempts
    requires SameSettlement(w.store.attempts[check.proof].settlement, Some(check.settlement))
    requires end == Told(w, check, verdict, copying).(store := end.store)
    requires Alike(Told(w, check, verdict, copying).store, end.store)
    ensures var w' := Respond(end, id, w.handlers[id], r);
      && (ReceiptsKnown(w) ==> ReceiptsKnown(w'))
      && (Agrees(w, p) && Settled(w, p) ==> Agrees(w', p))
      && (ToldOnce(w, p) && Settled(w, p) ==> ToldOnce(w', p))
      && (Settled(w, p) && AtMostOneCheck(w, p) ==> Settled(w', p))
  {
    hide Sound, Alike, ReceiptsKnown, Agrees, ToldOnce;
    var told := Told(w, check, verdict, copying);
    var w' := Respond(end, id, w.handlers[id], r);
    TellEffect(w.(store := Checked(w.store, check.proof, verdict)), check, verdict, copying);
    hide TellLedger;
    if ReceiptsKnown(w) {
      ToldKnown(w, check, verdict, copying);
    }
    if Settled(w, p) {
      if Agrees(w, p) {
        ToldAgrees(w, check, verdict, copying, p);
      }
      if ToldOnce(w, p) {
        ToldCounts(w, check, verdict, copying, p);
      }
    }
    AlikeKeeps(told, end, p);
    SameStory(end, w', p);
    forall i | Checks(w', i, p) ensures i != id && Checks(w, i, p) {
      RespondedChecks(end, id, w.handlers[id], r, i, p);
    }
  }

  lemma SameStory(w: World, w': World, p: string)
    requires w'.store == w.store && w'.ledger == w.ledger && w'.ledgerCalls == w.ledgerCalls
    ensures Agrees(w, p) <==> Agrees(w', p)
    ensures ToldOnce(w, p) <==> ToldOnce(w', p)
    ensures ReceiptsKnown(w) <==> ReceiptsKnown(w')
  {
  }

  // ---- Any step ------------------------------------------------------------------------------------

  /** What every event keeps about a payment, new processes and ledgers included. */
  lemma StepKeeps(durable: bool, w: World, e: Event, p: string)
    requires Sound(w) && Remembers(durable, e)
    ensures var w' := Step(durable, w, e);
      && (ReceiptsKnown(w) ==> ReceiptsKnown(w'))
      && (Settled(w, p) && AtMostOneCheck(w, p) ==> Settled(w', p))
      && (Settled(w, p) && ToldOnce(w, p) ==> ToldOnce(w', p))
      && (ReceiptsKnown(w) && Settled(w, p) && Agrees(w, p) && !e.Restart? && !e.ResetLedger? ==> Agrees(w', p))
  {
    hide Sound, Quiet, Authorized, Polled, SettleDone, CheckDone, Respond, Enter, Reconcile, Agrees, ToldOnce, Settled,
         ReceiptsKnown, Alike, SettledWorld, Told;
    match e
    case SettleReturns(id, Success(anchored), volume) =>
      if id in w.handlers && w.handlers[id].phase.AwaitSettle? {
        Local(w, id);
        var h := w.handlers[id];
        SettleDoneIs(w, id, h, h.phase.tx, anchored, durable && volume);
        SettledKeeps(w, id, h, h.phase.tx, if anchored then Some(h.phase.tx) else None, durable && volume, p);
      }
    case CheckReturns(id, verdict, volume) =>
      if id in w.handlers && w.handlers[id].phase.AwaitCheck? {
        Local(w, id);
        var phase := w.handlers[id].phase;
        var end, r := CheckDoneIs(w, id, w.handlers[id], phase.check, phase.own, verdict, durable && volume);
        CheckKeeps(w, id, phase.check, verdict, durable && volume, end, r, p);
      }
    case Restart =>
      RestartKeeps(durable, w, p);
    case ResetLedger =>
      ResetKeeps(w, p);
    case _ =>
      QuietStep(durable, w, e);
      QuietKeeps(w, Step(durable, w, e), p);
  }

  lemma QuietKeeps(w: World, w': World, p: string)
    requires Quiet(w, w')
    ensures ReceiptsKnown(w) ==> ReceiptsKnown(w')
    ensures Settled(w, p) ==> Settled(w', p)
    ensures ToldOnce(w, p) ==> ToldOnce(w', p)
    ensures Agrees(w, p) ==> Agrees(w', p)
  {
    hide Alike, ReceiptsKnown, Agrees, ToldOnce;
    AlikeKeeps(w, w', p);
  }

  lemma RestartKeeps(durable: bool, w: World, p: string)
    requires durable
    ensures var w' := Restarted(durable, w);
      && (ReceiptsKnown(w) ==> ReceiptsKnown(w')) && Settled(w', p) && (ToldOnce(w, p) ==> ToldOnce(w', p))
      && (CopyCurrent(w, p) <==> Agrees(w', p))
  {
  }

  lemma ResetKeeps(w: World, p: string)
    ensures var w' := w.(ledger := NO_RECEIPTS.(copies := w.ledger.copies));
      && (ReceiptsKnown(w) ==> ReceiptsKnown(w')) && (Settled(w, p) ==> Settled(w', p))
      && (ToldOnce(w, p) ==> ToldOnce(w', p))
  {
    var w' := w.(ledger := NO_RECEIPTS.(copies := w.ledger.copies));
    assert forall i :: Checks(w', i, p) <==> Checks(w, i, p);
  }

  // ---- Whole runs ----------------------------------------------------------------------------------

  lemma StartConsistent(p: string)
    ensures Sound(START) && ReceiptsKnown(START) && Agrees(START, p) && ToldOnce(START, p) && Settled(START, p)
  {
  }

  lemma OneAtATimeBefore(durable: bool, events: seq<Event>, p: string, n: nat)
    requires OneAtATime(durable, events, p) && n <= |events|
    ensures OneAtATime(durable, events[..n], p) && AtMostOneCheck(Run(durable, events[..n]), p)
  {
    assert forall k | 0 <= k <= n :: events[..n][..k] == events[..k];
  }

  lemma {:induction false} RunKeeps(durable: bool, events: seq<Event>, p: string)
    requires Continuous(durable, events) && OneAtATime(durable, events, p)
    ensures var w := Run(durable, events);
      Sound(w) && ReceiptsKnown(w) && ToldOnce(w, p) && Settled(w, p)
  {
    hide Sound, ReceiptsKnown, ToldOnce, Settled, Agrees, Step, OneAtATime;
    if events == [] {
      StartConsistent(p);
    } else {
      var n := |events| - 1;
      OneAtATimeBefore(durable, events, p, n);
      RunKeeps(durable, events[..n], p);
      var w := Run(durable, events[..n]);
      StepSound(durable, w, events[n]);
      StepKeeps(durable, w, events[n], p);
    }
  }

  /**
   * As long as the checks of a payment do not overlap, the ledger has been told of it exactly once if its
   * verdict is terminal and it has a receipt, and never otherwise: over restarts and ledger resets too.
   */
  lemma OneLedgerCall(durable: bool, events: seq<Event>, p: string)
    requires Continuous(durable, events) && OneAtATime(durable, events, p)
    ensures var w := Run(durable, events);
      multiset(w.ledgerCalls)[p] == if Decided(w.store, p) && HasReceipt(w.store, p) then 1 else 0
  {
    RunKeeps(durable, events, p);
  }

  /**
   * If moreover every restart finds a current copy of its receipt and the ledger is not reset, store and ledger
   * agree about the payment.
   */
  lemma {:induction false} LedgerAgrees(durable: bool, events: seq<Event>, p: string)
    requires Continuous(durable, events) && NoReset(events) && OneAtATime(durable, events, p)
    requires CopiedBeforeRestarts(durable, events, p)
    ensures Agrees(Run(durable, events), p)
  {
    hide Sound, ReceiptsKnown, ToldOnce, Settled, Agrees, Step, OneAtATime;
    if events == [] {
      StartConsistent(p);
    } else {
      var n := |events| - 1;
      var init := events[..n];
      OneAtATimeBefore(durable, events, p, n);
      assert forall k | 0 <= k < n :: init[..k] == events[..k] && init[k] == events[k];
      LedgerAgrees(durable, init, p);
      RunKeeps(durable, init, p);
      var w := Run(durable, init);
      StepKeeps(durable, w, events[n], p);
      if events[n].Restart? {
        assert CopyCurrent(Run(durable, events[..n]), p);
        RestartKeeps(durable, w, p);
        RestartIs(durable, w);
      }
    }
  }

  lemma RestartIs(durable: bool, w: World)
    ensures Step(durable, w, Restart) == Restarted(durable, w)
  {
  }

  /** Whoever starts to check a payment it is paying for has just settled it. */
  lemma PayingStarts(durable: bool, w: World, e: Event, id: nat, p: string)
    requires Sound(w) && Paying(Step(durable, w, e), id, p) && !Paying(w, id, p)
    ensures !HasReceipt(w.store, p) && !e.Restart? && !e.ResetLedger?
  {
    hide Sound, Quiet, Alike, Authorized, Polled, SettleDone, CheckDone, Told;
    match e
    case SettleReturns(i, Success(anchored), volume) =>
      if i in w.handlers && w.handlers[i].phase.AwaitSettle? {
        Local(w, i);
        SettleDoneIs(w, i, w.handlers[i], w.handlers[i].phase.tx, anchored, durable && volume);
      }
    case CheckReturns(i, verdict, volume) =>
      if i in w.handlers && w.handlers[i].phase.AwaitCheck? {
        Local(w, i);
        var phase := w.handlers[i].phase;
        var end, r := CheckDoneIs(w, i, w.handlers[i], phase.check, phase.own, verdict, durable && volume);
        ToldHandlers(w, phase.check, verdict, durable && volume);
        RespondedChecks(end, i, w.handlers[i], r, id, p);
      }
    case Restart =>
    case ResetLedger =>
    case _ =>
      QuietStep(durable, w, e);
      QuietPaying(w, Step(durable, w, e), id, p);
  }

  lemma ToldHandlers(w: World, check: Check, verdict: Finality, copying: bool)
    ensures Told(w, check, verdict, copying).handlers == w.handlers
  {
  }

  lemma QuietPaying(w: World, w': World, id: nat, p: string)
    requires Quiet(w, w') && Paying(w', id, p)
    ensures Paying(w, id, p)
  {
  }

  lemma {:induction false} PayingAgrees(durable: bool, events: seq<Event>, p: string, id: nat)
    requires Continuous(durable, events) && NoReset(events) && OneAtATime(durable, events, p)
    requires Paying(Run(durable, events), id, p)
    ensures Agrees(Run(durable, events), p)
  {
    hide Sound, ReceiptsKnown, ToldOnce, Settled, Step, OneAtATime;
    assert events != [];
    var n := |events| - 1;
    var init := events[..n];
    OneAtATimeBefore(durable, events, p, n);
    RunKeeps(durable, init, p);
    var w := Run(durable, init);
    if Paying(w, id, p) {
      PayingAgrees(durable, init, p, id);
      RestartEnds(durable, w, id, p);
    } else {
      PayingStarts(durable, w, events[n], id, p);
    }
    StepKeeps(durable, w, events[n], p);
  }

  lemma RestartEnds(durable: bool, w: World, id: nat, p: string)
    ensures !Paying(Step(durable, w, Restart), id, p)
  {
  }

  /**
   * While the checks of a payment do not overlap and the ledger is not reset, whatever its check returns, the
   * handler that paid is answered 200 for its own request and transaction, with the verdict and the receipt's
   * new status: reconciling never costs it the answer.
   */
  lemma PayingHandlerIsServed(durable: bool, events: seq<Event>, id: nat, verdict: Finality, volume: bool, p: string)
    requires Continuous(durable, events) && NoReset(events) && OneAtATime(durable, events, p)
    requires Paying(Run(durable, events), id, p)
    ensures var w := Run(durable, events);
      var h := w.handlers[id];
      var settlement := h.phase.own.value.settlement;
      var w' := Run(durable, events + [CheckReturns(id, verdict, volume)]);
      var status := if settlement.receipt.Some? then Some(StatusFor(Some(verdict))) else None;
      var answer := Resource(h.requestHash, settlement.transaction, Reconciled(verdict, status));
      && id in w'.handlers && w'.handlers[id].phase == Done(Served(answer))
      && w'.served == w.served + [Serving(h.requestHash, answer)]
  {
    RunKeeps(durable, events, p);
    PayingAgrees(durable, events, p, id);
    RunLast(durable, events, CheckReturns(id, verdict, volume));
    hide Run, OneAtATime;
    var w := Run(durable, events);
    Local(w, id);
    AttemptOf(w, p);
    var phase := w.handlers[id].phase;
    ToldAgrees(w, phase.check, verdict, durable && volume, p);
    var end, r := CheckDoneIs(w, id, w.handlers[id], phase.check, phase.own, verdict, durable && volume);
    hide Sound, CheckDone;
    StatusAfter(w, phase.check, verdict, durable && volume, p);
    assert end.ledger == Told(w, phase.check, verdict, durable && volume).ledger;
    hide Told;
  }

  lemma StatusAfter(w: World, check: Check, verdict: Finality, copying: bool, p: string)
    requires check.proof == p && p in w.store.attempts
    requires SameSettlement(w.store.attempts[p].settlement, Some(check.settlement))
    requires Agrees(Told(w, check, verdict, copying), p)
    ensures var told := Told(w, check, verdict, copying);
      StatusShown(told.ledger, check.settlement.receipt) ==
        if check.settlement.receipt.Some? then Some(StatusFor(Some(verdict))) else None
  {
    TellEffect(w.(store := Checked(w.store, check.proof, verdict)), check, verdict, copying);
    hide TellLedger;
  }

  // ---- When checks overlap -------------------------------------------------------------------------

  /** Two checks of one payment in flight: the store ends up confirming what the ledger has challenged. */
  lemma OverlapContradicts() returns (events: seq<Event>)
    ensures Continuous(false, events) && NoReset(events) && !OneAtATime(false, events, "p")
    ensures var w := Run(false, events);
      && HasReceipt(w.store, "p") && w.store.attempts["p"].finality == Some(Confirmed)
      && w.ledger.receipts == map["t" := Challenged]
      && w.ledgerCalls == ["p", "p"]
      && 0 in w.handlers && w.handlers[0].phase == Done(Crashed)
  {
    var start := [Arrive(0, Some("p"), "r"), AuthorizeReturns(0, Verified("t")),
                  SettleReturns(0, Success(true), true), Poll(1, "p", true)];
    events := start + [CheckReturns(1, Mismatch, true)] + [CheckReturns(0, Confirmed, true)];
    hide Run, OneAtATime, Continuous, AtMostOneCheck, HasReceipt;
    NoRestartIsContinuous(false, events);
    var w := OverlapStarts(start);
    OverlapEnds(start, w);
    TwoInFlight(events, start, w);
  }

  lemma TwoInFlight(events: seq<Event>, start: seq<Event>, w: World)
    requires start <= events && w == Run(false, start) && Checks(w, 0, "p") && Checks(w, 1, "p")
    ensures !OneAtATime(false, events, "p")
  {
    hide Run;
    assert events[..|start|] == start;
    assert !AtMostOneCheck(Run(false, events[..|start|]), "p");
  }

  lemma NoRestartIsContinuous(durable: bool, events: seq<Event>)
    requires forall e | e in events :: !e.Restart?
    ensures Continuous(durable, events)
  {
  }

  lemma OverlapEnds(start: seq<Event>, w: World)
    requires w == Run(false, start)
    requires 0 in w.handlers && 1 in w.handlers && "p" in w.store.attempts
    requires var s := Settlement("t", Some("t"), Resource("r", "t", Provisional));
      && w.handlers[0] == Handler("r", Some("p"), AwaitCheck(Check("p", s), Some(Check("p", s))))
      && w.handlers[1] == Handler("", Some("p"), AwaitCheck(Check("p", s), None))
      && w.store.attempts["p"].settlement == Some(s)
      && w.ledger.receipts == map["t" := Anchored] && w.ledgerCalls == []
    ensures var w' := Run(false, start + [CheckReturns(1, Mismatch, true)] + [CheckReturns(0, Confirmed, true)]);
      && HasReceipt(w'.store, "p") && w'.store.attempts["p"].finality == Some(Confirmed)
      && w'.ledger.receipts == map["t" := Challenged]
      && w'.ledgerCalls == ["p", "p"]
      && 0 in w'.handlers && w'.handlers[0].phase == Done(Crashed)
  {
    hide Run;
    var mid := start + [CheckReturns(1, Mismatch, true)];
    RunLast(false, start, CheckReturns(1, Mismatch, true));
    RunLast(false, mid, CheckReturns(0, Confirmed, true));
  }

  lemma OverlapStarts(events: seq<Event>) returns (w: World)
    requires events == [Arrive(0, Some("p"), "r"), AuthorizeReturns(0, Verified("t")),
                        SettleReturns(0, Success(true), true), Poll(1, "p", true)]
    ensures w == Run(false, events)
    ensures var s := Settlement("t", Some("t"), Resource("r", "t", Provisional));
      && w.store == Store(map["p" := Attempt("r", AttemptStatus.Settled, Some(s), None)], map["t" := "p"])
      && w.ledger.receipts == map["t" := Anchored] && w.ledgerCalls == []
      && w.handlers == map[0 := Handler("r", Some("p"), AwaitCheck(Check("p", s), Some(Check("p", s)))),
                           1 := Handler("", Some("p"), AwaitCheck(Check("p", s), None))]
  {
    var w1 := Step(false, START, events[0]);
    var w2 := Step(false, w1, events[1]);
    assert w2.store == Store(map["p" := Attempt("r", Settling, None, None)], map["t" := "p"]);
    assert w2.handlers == map[0 := Handler("r", Some("p"), AwaitSettle("t"))];
    SettleDoneIs(w2, 0, w2.handlers[0], "t", true, false);
    var w3 := SettledWorld(w2, 0, w2.handlers[0], "p", "t", Some("t"), false);
    w := Step(false, w3, events[3]);
    RunLast(false, [], events[0]);
    RunLast(false, events[..1], events[1]);
    RunLast(false, events[..2], events[2]);
    RunLast(false, events[..3], events[3]);
    assert events[..1] == [] + [events[0]] && events[..2] == events[..1] + [events[1]];
    assert events[..3] == events[..2] + [events[2]] && events == events[..3] + [events[3]];
  }

  // ---- When a verdict stands -----------------------------------------------------------------------

  /** The terminal verdict of a payment, once no check of it is in flight. */
  ghost predicate Sealed(w: World, p: string, verdict: Option<Finality>) {
    && Decided(w.store, p) && w.store.attempts[p].finality == verdict
    && forall id :: !Checks(w, id, p)
  }

  lemma StepSealed(durable: bool, w: World, e: Event, p: string, verdict: Option<Finality>)
    requires Sound(w) && Sealed(w, p, verdict) && Remembers(durable, e)
    ensures Sealed(Step(durable, w, e), p, verdict)
  {
    hide Sound, Quiet, Authorized, Polled, SettleDone, CheckDone, Alike, SettledWorld, Told, Respond;
    match e
    case Restart =>
    case ResetLedger =>
      assert forall i | Checks(Step(durable, w, e), i, p) :: Checks(w, i, p);
    case SettleReturns(id, Success(anchored), volume) =>
      if id in w.handlers && w.handlers[id].phase.AwaitSettle? {
        Local(w, id);
        var h := w.handlers[id];
        SettleDoneIs(w, id, h, h.phase.tx, anchored, durable && volume);
        SettledKeeps(w, id, h, h.phase.tx, if anchored then Some(h.phase.tx) else None, durable && volume, p);
      }
    case CheckReturns(id, verdict', volume) =>
      if id in w.handlers && w.handlers[id].phase.AwaitCheck? {
        Local(w, id);
        var phase := w.handlers[id].phase;
        assert !Checks(w, id, p);
        var end, r := CheckDoneIs(w, id, w.handlers[id], phase.check, phase.own, verdict', durable && volume);
        OtherCheckSealed(w, id, phase.check, verdict', durable && volume, end, r, p, verdict);
      }
    case _ =>
      QuietStep(durable, w, e);
      QuietSealed(w, Step(durable, w, e), p, verdict);
  }

  lemma OtherCheckSealed(w: World, id: nat, check: Check, verdict': Finality, copying: bool, end: World, r: Response,
                         p: string, verdict: Option<Finality>)
    requires Sealed(w, p, verdict) && check.proof != p && check.proof in w.store.attempts && id in w.handlers
    requires end == Told(w, check, verdict', copying).(store := end.store)
    requires Alike(Told(w, check, verdict', copying).store, end.store)
    ensures Sealed(Respond(end, id, w.handlers[id], r), p, verdict)
  {
    hide TellLedger;
    TellEffect(w.(store := Checked(w.store, check.proof, verdict')), check, verdict', copying);
    assert Untouched(Told(w, check, verdict', copying).store, end.store, p);
    var w' := Respond(end, id, w.handlers[id], r);
    ToldHandlers(w, check, verdict', copying);
    forall i ensures !Checks(w', i, p) {
      assert !Checks(w, i, p) && end.handlers == w.handlers;
      if Checks(w', i, p) {
        RespondedChecks(end, id, w.handlers[id], r, i, p);
      }
    }
  }

  lemma QuietSealed(w: World, w': World, p: string, verdict: Option<Finality>)
    requires Sealed(w, p, verdict) && Quiet(w, w')
    ensures Sealed(w', p, verdict)
  {
    assert Untouched(w.store, w'.store, p);
  }

  lemma {:induction false} RunSealed(durable: bool, events: seq<Event>, more: seq<Event>, p: string,
                                     verdict: Option<Finality>)
    requires Continuous(durable, events + more) && Sealed(Run(durable, events), p, verdict)
    ensures Sealed(Run(durable, events + more), p, verdict)
    decreases |more|
  {
    hide Sound, Sealed, Step;
    if more == [] {
      assert events + more == events;
    } else {
      var init := more[..|more| - 1];
      var e := more[|more| - 1];
      assert events + more == (events + init) + [e];
      assert forall x | x in events + init :: x in events + more;
      RunSealed(durable, events, init, p, verdict);
      assert (events + init) + [] == events + init;
      RunGrows(durable, events + init, []);
      RunLast(durable, events + init, e);
      StepSealed(durable, Run(durable, events + init), e, p, verdict);
    }
  }

  ghost predicate HasVerdict(w: World, p: string, verdict: Option<Finality>) {
    p in w.store.attempts && w.store.attempts[p].finality == verdict
  }

  /** Only the receipt of a settlement matters to the ledger. */
  lemma TellSameReceipt(w: World, w': World, check: Check, check': Check, verdict: Finality, copying: bool)
    requires w.ledger == w'.ledger && check.settlement.receipt == check'.settlement.receipt
    ensures TellLedger(w, check, verdict, copying).ledger == TellLedger(w', check', verdict, copying).ledger
  {
    hide FinalizeReceipt, ChallengeReceipt;
  }

  /** A check that returns writes its verdict and tells the ledger, whatever was there before. */
  lemma CheckOverwrites(durable: bool, w: World, id: nat, p: string, verdict: Finality, volume: bool)
    requires Sound(w) && Checks(w, id, p)
    ensures var w' := Step(durable, w, CheckReturns(id, verdict, volume));
      && HasVerdict(w', p, Some(verdict))
      && (HasReceipt(w.store, p) ==> HasReceipt(w'.store, p) && OverwrittenWith(w, w', p, verdict, durable && volume))
      && (forall j | j in w.handlers && j != id :: j in w'.handlers && w'.handlers[j] == w.handlers[j])
  {
    hide Sound, Step, CheckDone, Respond, Told, Alike, HandlerSound, PhaseSound, SameSettlement, OverwrittenWith,
         HasVerdict, HasReceipt, FinalSettlement, TellThrows;
    Local(w, id);
    PhaseCheck(w, id);
    StepIsCheckDone(durable, w, id, verdict, volume);
    var phase := w.handlers[id].phase;
    var end, r := CheckDoneIs(w, id, w.handlers[id], phase.check, phase.own, verdict, durable && volume);
    EndOverwrites(w, id, phase.check, verdict, durable && volume, end, r);
  }

  lemma StepIsCheckDone(durable: bool, w: World, id: nat, verdict: Finality, volume: bool)
    requires id in w.handlers && w.handlers[id].phase.AwaitCheck?
    ensures var phase := w.handlers[id].phase;
      Step(durable, w, CheckReturns(id, verdict, volume)) ==
      CheckDone(w, id, w.handlers[id], phase.check, phase.own, verdict, durable && volume)
  {
    hide CheckDone;
  }

  lemma PhaseCheck(w: World, id: nat)
    requires id in w.handlers && HandlerSound(w, id) && w.handlers[id].phase.AwaitCheck?
    ensures PhaseSound(w, w.handlers[id], w.handlers[id].phase)
    ensures var check := w.handlers[id].phase.check;
      check.proof in w.store.attempts &&
      SameSettlement(w.store.attempts[check.proof].settlement, Some(check.settlement))
  {
  }

  lemma EndOverwrites(w: World, id: nat, check: Check, verdict: Finality, copying: bool, end: World, r: Response)
    requires check.proof in w.store.attempts && id in w.handlers
    requires SameSettlement(w.store.attempts[check.proof].settlement, Some(check.settlement))
    requires end == Told(w, check, verdict, copying).(store := end.store)
    requires Alike(Told(w, check, verdict, copying).store, end.store)
    ensures var w' := Respond(end, id, w.handlers[id], r);
      && HasVerdict(w', check.proof, Some(verdict))
      && (HasReceipt(w.store, check.proof) ==>
            HasReceipt(w'.store, check.proof) && OverwrittenWith(w, w', check.proof, verdict, copying))
      && (forall j | j in w.handlers && j != id :: j in w'.handlers && w'.handlers[j] == w.handlers[j])
  {
    var p := check.proof;
    var recorded := w.(store := Checked(w.store, p, verdict));
    TellEffect(recorded, check, verdict, copying);
    hide TellLedger;
    assert Untouched(Told(w, check, verdict, copying).store, end.store, p);
    hide Alike;
    if HasReceipt(w.store, p) {
      TellSameReceipt(w, recorded, Check(p, w.store.attempts[p].settlement.value), check, verdict, copying);
    }
  }

  ghost predicate OverwrittenWith(w: World, w': World, p: string, verdict: Finality, copying: bool)
    requires HasReceipt(w.store, p)
  {
    && HasReceipt(w'.store, p)
    && w'.store.attempts[p].settlement.value.receipt == w.store.attempts[p].settlement.value.receipt
    && w'.ledger == TellLedger(w, Check(p, w.store.attempts[p].settlement.value), verdict, copying).ledger
  }

  /**
   * A terminal verdict stands in every continuation of the run exactly when no check of that payment is
   * still in flight: a check that started before the verdict overwrites it.
   */
  lemma VerdictStands(durable: bool, events: seq<Event>, p: string)
    requires Continuous(durable, events) && Decided(Run(durable, events).store, p)
    ensures var w := Run(durable, events);
      (forall id :: !Checks(w, id, p)) <==>
      (forall more | Continuous(durable, events + more) ::
         HasVerdict(Run(durable, events + more), p, w.store.attempts[p].finality))
  {
    hide Sound, Step;
    var w := Run(durable, events);
    var verdict := w.store.attempts[p].finality;
    if id :| Checks(w, id, p) {
      var e := CheckReturns(id, Pending, false);
      RunLast(durable, events, e);
      assert events + [] == events;
      RunGrows(durable, events, []);
      CheckOverwrites(durable, w, id, p, Pending, false);
      assert Continuous(durable, events + [e]);
      assert !HasVerdict(Run(durable, events + [e]), p, verdict);
    } else {
      forall more | Continuous(durable, events + more)
        ensures HasVerdict(Run(durable, events + more), p, verdict)
      {
        RunSealed(durable, events, more, p, verdict);
      }
    }
  }

  // ---- When a receipt stands, and what sellers are credited ----------------------------------------

  /** Sellers are credited once for each finalized receipt and for nothing else. */
  ghost predicate CreditedOnce(l: Ledger) {
    forall id :: l.credited[id] == if id in l.receipts && l.receipts[id] == Finalized then 1 else 0
  }

  /** The receipt has left the anchored state, and a new process would find it so. */
  ghost predicate Fixed(durable: bool, l: Ledger, id: string, status: ReceiptStatus) {
    && status != Anchored && id in l.receipts && l.receipts[id] == status
    && (durable ==> id in l.copies && l.copies[id] == status)
  }

  /** Nothing that the route does to the ledger credits twice or moves a fixed receipt. */
  ghost predicate Careful(durable: bool, l: Ledger, l': Ledger) {
    && (CreditedOnce(l) ==> CreditedOnce(l'))
    && forall id, status | Fixed(durable, l, id, status) :: Fixed(durable, l', id, status)
  }

  lemma AnchorCareful(durable: bool, l: Ledger, receipt: Option<string>, copying: bool)
    ensures Careful(durable, l, Anchor(l, receipt, copying))
  {
  }

  lemma TellCareful(durable: bool, w: World, check: Check, verdict: Finality, copying: bool)
    ensures Careful(durable, w.ledger, TellLedger(w, check, verdict, copying).ledger)
  {
  }

  lemma SelfCareful(durable: bool, l: Ledger)
    ensures Careful(durable, l, l)
  {
  }

  lemma CarefulOn(durable: bool, l: Ledger, l': Ledger, l'': Ledger)
    requires Careful(durable, l, l') && Careful(durable, l', l'')
    ensures Careful(durable, l, l'')
  {
  }

  /** In any state at all, an event other than a restart or a reset is careful with the ledger. */
  lemma StepCareful(durable: bool, w: World, e: Event)
    requires !e.Restart? && !e.ResetLedger?
    ensures Careful(durable, w.ledger, Step(durable, w, e).ledger)
  {
    hide Careful, TellLedger, Anchor, TellThrows, FinalSettlement;
    SelfCareful(durable, w.ledger);
    match e
    case Arrive(id, proof, requestHash) =>
    case Poll(id, attempt, volume) =>
      ReconcileCareful(durable, w, id, Handler("", Some(attempt), AwaitAuthorize), attempt, None, durable && volume);
    case AuthorizeReturns(id, a) =>
    case SettleReturns(id, outcome, volume) =>
      if id in w.handlers && w.handlers[id].phase.AwaitSettle? {
        SettleDoneCareful(durable, w, id, w.handlers[id], w.handlers[id].phase.tx, outcome, durable && volume);
      }
    case CheckReturns(id, verdict, volume) =>
      if id in w.handlers && w.handlers[id].phase.AwaitCheck? {
        var check := w.handlers[id].phase.check;
        TellCareful(durable, w.(store := Checked(w.store, check.proof, verdict)), check, verdict, durable && volume);
      }
  }

  lemma ReconcileCareful(durable: bool, w: World, id: nat, h: Handler, proof: string, own: Option<Check>, copying: bool)
    ensures Careful(durable, w.ledger, Reconcile(w, id, h, proof, own, copying).ledger)
  {
    hide Careful, TellLedger, TellThrows, FinalSettlement;
    SelfCareful(durable, w.ledger);
    if proof in w.store.attempts && w.store.attempts[proof].settlement.Some? {
      TellCareful(durable, w, Check(proof, w.store.attempts[proof].settlement.value), Mismatch, copying);
    }
  }

  lemma SettleDoneCareful(durable: bool, w: World, id: nat, h: Handler, tx: string, outcome: SettleOutcome,
                          copying: bool)
    ensures Careful(durable, w.ledger, SettleDone(w, id, h, tx, outcome, copying).ledger)
  {
    hide Careful, Anchor, Reconcile;
    SelfCareful(durable, w.ledger);
    if h.proof.Some? && h.proof.value in w.store.attempts && outcome.Success? {
      var receipt := if outcome.anchored then Some(tx) else None;
      var resource := Resource(h.requestHash, tx, Provisional);
      var settlement := Settlement(tx, receipt, resource);
      var settled := SettledWith(SettledWith(w.store, h.proof.value, Settlement(tx, None, resource)),
                                 h.proof.value, settlement);
      var w' := w.(store := settled, ledger := Anchor(w.ledger, receipt, copying), anchors := w.anchors + [tx]);
      AnchorCareful(durable, w.ledger, receipt, copying);
      ReconcileCareful(durable, w', id, h, h.proof.value, Some(Check(h.proof.value, settlement)), copying);
      CarefulOn(durable, w.ledger, w'.ledger, SettleDone(w, id, h, tx, outcome, copying).ledger);
    }
  }

  lemma RebuiltCredits(copies: map<string, ReceiptStatus>)
    ensures CreditedOnce(Rebuilt(copies)) && CreditedOnce(NO_RECEIPTS.(copies := copies))
  {
  }

  /**
   * In every run whatever, overlapping checks, restarts with or without a directory, failed copies and ledger
   * resets included, sellers have been credited once for each receipt that the ledger has as finalized.
   */
  lemma {:induction false} RevenueCountedOnce(durable: bool, events: seq<Event>)
    ensures CreditedOnce(Run(durable, events).ledger)
  {
    hide CreditedOnce, Careful;
    if events == [] {
      RebuiltCredits(map[]);
    } else {
      var w := Run(durable, events[..|events| - 1]);
      var e := events[|events| - 1];
      RevenueCountedOnce(durable, events[..|events| - 1]);
      RebuiltCredits(w.ledger.copies);
      RebuiltCredits(map[]);
      if !e.Restart? && !e.ResetLedger? {
        StepCareful(durable, w, e);
        hide Step;
        CarefulCredits(durable, w.ledger, Step(durable, w, e).ledger);
      }
    }
  }

  lemma CarefulCredits(durable: bool, l: Ledger, l': Ledger)
    requires Careful(durable, l, l') && CreditedOnce(l)
    ensures CreditedOnce(l')
  {
  }

  lemma StepFixed(durable: bool, w: World, e: Event, id: string, status: ReceiptStatus)
    requires Fixed(durable, w.ledger, id, status) && Remembers(durable, e) && !e.ResetLedger?
    ensures Fixed(durable, Step(durable, w, e).ledger, id, status)
  {
    if !e.Restart? {
      StepCareful(durable, w, e);
      hide Step, CreditedOnce;
    }
  }

  lemma {:induction false} RunFixed(durable: bool, events: seq<Event>, more: seq<Event>, id: string,
                                    status: ReceiptStatus)
    requires Continuous(durable, events + more) && NoReset(more) &&
      Fixed(durable, Run(durable, events).ledger, id, status)
    ensures Fixed(durable, Run(durable, events + more).ledger, id, status)
    decreases |more|
  {
    hide Step, Fixed;
    if more == [] {
      assert events + more == events;
    } else {
      var init := more[..|more| - 1];
      var e := more[|more| - 1];
      assert events + more == (events + init) + [e];
      assert forall x | x in events + init :: x in events + more;
      RunFixed(durable, events, init, id, status);
      RunLast(durable, events + init, e);
      StepFixed(durable, Run(durable, events + init), e, id, status);
    }
  }

  /**
   * A finalized or challenged receipt stays so in every continuation without a ledger reset exactly when its
   * durable copy says the same, if there is a durable store.
   */
  lemma ReceiptStands(durable: bool, events: seq<Event>, id: string)
    requires Continuous(durable, events) && id in Run(durable, events).ledger.receipts
    requires Run(durable, events).ledger.receipts[id] != Anchored
    ensures var l := Run(durable, events).ledger;
      (durable ==> id in l.copies && l.copies[id] == l.receipts[id]) <==>
      (forall more | Continuous(durable, events + more) && NoReset(more) ::
         ReceiptIs(Run(durable, events + more).ledger, id, l.receipts[id]))
  {
    var l := Run(durable, events).ledger;
    var status := l.receipts[id];
    if durable ==> id in l.copies && l.copies[id] == status {
      forall more | Continuous(durable, events + more) && NoReset(more)
        ensures ReceiptIs(Run(durable, events + more).ledger, id, status)
      {
        RunFixed(durable, events, more, id, status);
      }
    } else {
      RunLast(durable, events, Restart);
      assert Continuous(durable, events + [Restart]) && NoReset([Restart]);
      assert !ReceiptIs(Run(durable, events + [Restart]).ledger, id, status);
    }
  }

  ghost predicate ReceiptIs(l: Ledger, id: string, status: ReceiptStatus) {
    id in l.receipts && l.receipts[id] == status
  }

  // ---- Exactly when ledger and store cannot part ---------------------------------------------------

  lemma {:induction false} FreshId(ids: set<nat>) returns (id: nat)
    ensures forall k | k in ids :: k < id
    decreases |ids|
  {
    if ids == {} {
      id := 0;
    } else {
      var k :| k in ids;
      var rest := FreshId(ids - {k});
      id := if k < rest then rest else k + 1;
      assert forall i | i in ids :: i == k || i in ids - {k};
    }
  }

  /** A status request starts a check of a settled, undecided payment. */
  lemma PollChecks(durable: bool, w: World, id: nat, p: string)
    requires Sound(w) && id !in w.handlers && HasReceipt(w.store, p) && !Decided(w.store, p)
    ensures Step(durable, w, Poll(id, p, true)) ==
      Enter(w, id, Handler("", Some(p), AwaitAuthorize),
            AwaitCheck(Check(p, w.store.attempts[p].settlement.value), None))
  {
    AttemptOf(w, p);
  }

  /** Two status requests at once are enough to make store and ledger disagree about an undecided payment. */
  lemma TwoPollsDisagree(durable: bool, events: seq<Event>, p: string) returns (more: seq<Event>)
    requires Continuous(durable, events)
    requires var w := Run(durable, events); HasReceipt(w.store, p) && Agrees(w, p) && !Decided(w.store, p)
    ensures NoReset(more) && forall e | e in more :: !e.Restart?
    ensures !Agrees(Run(durable, events + more), p)
  {
    hide Run, Sound, Step, AttemptSound, OverwrittenWith, TellLedger;
    var w := Run(durable, events);
    var i := FreshId(w.handlers.Keys);
    var e1, e2, e3 := Poll(i, p, true), Poll(i + 1, p, true), CheckReturns(i, Mismatch, true);
    var e4 := CheckReturns(i + 1, Confirmed, true);
    more := [e1, e2, e3, e4];
    assert events + more == events + [e1] + [e2] + [e3] + [e4];
    assert events + [] == events;
    RunGrows(durable, events, []);
    RunLast(durable, events, e1);
    RunLast(durable, events + [e1], e2);
    RunLast(durable, events + [e1] + [e2], e3);
    RunLast(durable, events + [e1] + [e2] + [e3], e4);
    PollChecks(durable, w, i, p);
    StepSound(durable, w, e1);
    var w1 := Step(durable, w, e1);
    PollChecks(durable, w1, i + 1, p);
    StepSound(durable, w1, e2);
    var w2 := Step(durable, w1, e2);
    CheckOverwrites(durable, w2, i, p, Mismatch, true);
    StepSound(durable, w2, e3);
    var w3 := Step(durable, w2, e3);
    assert Checks(w3, i + 1, p);
    CheckOverwrites(durable, w3, i + 1, p, Confirmed, true);
    assert w2.store == w.store && w2.ledger == w.ledger;
    ChallengedStays(w2, w3, Step(durable, w3, e4), p, durable && true);
  }

  lemma ChallengedStays(w: World, w': World, w'': World, p: string, copying: bool)
    requires HasReceipt(w.store, p) && Agrees(w, p) && !Decided(w.store, p)
    requires OverwrittenWith(w, w', p, Mismatch, copying)
    requires OverwrittenWith(w', w'', p, Confirmed, copying) && HasVerdict(w'', p, Some(Confirmed))
    ensures !Agrees(w'', p)
  {
  }

  /** A check still in flight can withdraw a terminal verdict that the ledger has already acted on. */
  lemma LateCheckDisagrees(durable: bool, events: seq<Event>, p: string, id: nat)
    requires Continuous(durable, events)
    requires var w := Run(durable, events);
      HasReceipt(w.store, p) && Agrees(w, p) && Decided(w.store, p) && Checks(w, id, p)
    ensures !Agrees(Run(durable, events + [CheckReturns(id, Pending, true)]), p)
  {
    assert events + [] == events;
    RunGrows(durable, events, []);
    hide Run, Sound, Step;
    RunLast(durable, events, CheckReturns(id, Pending, true));
    CheckOverwrites(durable, Run(durable, events), id, p, Pending, true);
  }

  lemma SealedAgrees(durable: bool, events: seq<Event>, more: seq<Event>, p: string)
    requires Continuous(durable, events + more) && NoReset(more)
    requires var w := Run(durable, events);
      && HasReceipt(w.store, p) && Agrees(w, p) && Decided(w.store, p) && (forall id :: !Checks(w, id, p))
      && (durable ==> CopyCurrent(w, p))
    ensures Agrees(Run(durable, events + more), p)
  {
    RunGrows(durable, events, more);
    var w := Run(durable, events);
    AttemptOf(w, p);
    OutcomeIsFinal(durable, events, more, p);
    RunSealed(durable, events, more, p, w.store.attempts[p].finality);
    var id := w.store.attempts[p].settlement.value.receipt.value;
    RunFixed(durable, events, more, id, w.ledger.receipts[id]);
  }

  /**
   * Once store and ledger agree about a payment with a receipt, they agree in every continuation without a
   * ledger reset exactly when its verdict is terminal, no check of it is in flight and, if there is a durable
   * store, the copy of its receipt is current.
   */
  lemma AgreementLasts(durable: bool, events: seq<Event>, p: string)
    requires Continuous(durable, events)
    requires HasReceipt(Run(durable, events).store, p) && Agrees(Run(durable, events), p)
    ensures var w := Run(durable, events);
      (Decided(w.store, p) && (forall id :: !Checks(w, id, p)) && (durable ==> CopyCurrent(w, p))) <==>
      (forall more | Continuous(durable, events + more) && NoReset(more) :: Agrees(Run(durable, events + more), p))
  {
    hide Sound, Run, Agrees, Checks, CopyCurrent;
    var w := Run(durable, events);
    if !Decided(w.store, p) {
      var more := TwoPollsDisagree(durable, events, p);
      assert Continuous(durable, events + more);
    } else if id :| Checks(w, id, p) {
      LateCheckDisagrees(durable, events, p, id);
      assert NoReset([CheckReturns(id, Pending, true)]);
      assert Continuous(durable, events + [CheckReturns(id, Pending, true)]);
    } else if durable && !CopyCurrent(w, p) {
      RunLast(durable, events, Restart);
      RestartKeeps(durable, w, p);
      RestartIs(durable, w);
      assert NoReset([Restart]) && Continuous(durable, events + [Restart]);
    } else {
      forall more | Continuous(durable, events + more) && NoReset(more) ensures Agrees(Run(durable, events + more), p) {
        SealedAgrees(durable, events, more, p);
      }
    }
  }
}
