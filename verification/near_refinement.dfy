/**
 * The route's ledger, which names a receipt by its transaction, against the anchor's books, which hold whole
 * receipts under their ids: every step of the books is the matching step of the ledger.
 */
module NearRefinement {
  import opened Wrappers
  import opened Receipts
  import opened NearAnchor
  import opened NearAnchorLaws
  import opened NearUsage
  import NearPayments

  // ---- The books as a ledger -----------------------------------------------------------------------

  /** The transactions of a chain that a list has receipts of, with their statuses. */
  ghost function View(chain: string, list: seq<Receipt>): map<string, ReceiptStatus> {
    map t | t in Named(chain, list) && FirstFor(list, chain, t) < |list| :: list[FirstFor(list, chain, t)].status
  }

  ghost function Named(chain: string, list: seq<Receipt>): set<string> {
    set r | r in list && r.envelope.chain == chain :: r.envelope.transaction
  }

  /** What the route sees of the books of its chain. Each finalized receipt has been credited once. */
  ghost function AsLedger(chain: string, b: Books): NearPayments.Ledger {
    var receipts := View(chain, b.live);
    NearPayments.Ledger(receipts, multiset(set t | t in receipts && receipts[t] == Finalized), View(chain, Copies(b)))
  }

  /** The transaction of a receipt of the chain, by its id. */
  ghost function TransactionOf(chain: string, b: Books, id: string): Option<string> {
    if Has(b.live, id) && Get(b.live, id).value.envelope.chain == chain
    then Some(Get(b.live, id).value.envelope.transaction) else None
  }

  /** The step of the ledger that an event of the books stands for. */
  ghost function LedgerStep(chain: string, makeId: Envelope -> string, seller: string, b: Books, e: Event,
                            l: NearPayments.Ledger): NearPayments.Ledger {
    match e
    case Anchoring(s, now, volume) =>
      var id := AnchorSettlement(makeId, seller, b, s, now, volume).1;
      NearPayments.Anchor(l, if s.chain == chain && id.Some? then Some(s.transaction) else None,
                          b.durable.Some? && volume)
    case Finalizing(id, volume) =>
      var t := TransactionOf(chain, b, id);
      if t == None then l else NearPayments.FinalizeReceipt(l, t.value, b.durable.Some? && volume)
    case Challenging(id, volume) =>
      var t := TransactionOf(chain, b, id);
      if t == None then l else NearPayments.ChallengeReceipt(l, t.value, b.durable.Some? && volume)
    case Restarting(listing) =>
      if multiset(listing) != multiset(Copies(b)) then l
      else if b.durable.Some? then NearPayments.Rebuilt(l.copies) else NearPayments.NO_RECEIPTS
    case Resetting => NearPayments.NO_RECEIPTS.(copies := l.copies)
  }

  /** In both stores one id, one transaction and one envelope go together. */
  ghost predicate Tidy(b: Books) {
    Numbered(b) && forall x, y | Holds(b, x) && Holds(b, y) && (x.id == y.id || SameTransaction(x, y)) ::
      x.id == y.id && x.envelope == y.envelope
  }

  ghost predicate OneEach(list: seq<Receipt>) {
    forall x, y | x in list && y in list && SameTransaction(x, y) :: x == y
  }

  // ---- Views ---------------------------------------------------------------------------------------

  ghost predicate Lists(chain: string, list: seq<Receipt>, m: map<string, ReceiptStatus>) {
    && (forall x | x in list && x.envelope.chain == chain ::
          x.envelope.transaction in m && m[x.envelope.transaction] == x.status)
    && forall t | t in m :: Names(chain, list, t)
  }

  ghost predicate Names(chain: string, list: seq<Receipt>, t: string) {
    exists x :: x in list && x.envelope.chain == chain && x.envelope.transaction == t
  }

  lemma ViewLists(chain: string, list: seq<Receipt>)
    requires OneEach(list)
    ensures Lists(chain, list, View(chain, list))
  {
    var m := View(chain, list);
    forall x | x in list && x.envelope.chain == chain
      ensures x.envelope.transaction in m && m[x.envelope.transaction] == x.status
    {
      var i :| 0 <= i < |list| && list[i] == x;
      var k := FirstFor(list, chain, x.envelope.transaction);
      assert k <= i && list[k] in list && SameTransaction(list[k], x);
    }
  }

  lemma ViewIs(chain: string, list: seq<Receipt>, m: map<string, ReceiptStatus>)
    requires OneEach(list) && Lists(chain, list, m)
    ensures View(chain, list) == m
  {
    ViewLists(chain, list);
    hide View;
    var v := View(chain, list);
    forall t ensures t in v <==> t in m {
      if t in v || t in m {
        var x :| x in list && x.envelope.chain == chain && x.envelope.transaction == t;
      }
    }
    forall t | t in v ensures v[t] == m[t] {
      var x :| x in list && x.envelope.chain == chain && x.envelope.transaction == t;
    }
  }

  /** A view with one entry rewritten: the list has that receipt, and otherwise what it had. */
  lemma ViewUpdate(chain: string, list: seq<Receipt>, list': seq<Receipt>, r: Receipt)
    requires OneEach(list) && OneEach(list') && r in list'
    requires forall x | x in list' :: x == r || x in list
    requires forall x | x in list :: x in list' || (x.id == r.id && SameTransaction(x, r))
    ensures View(chain, list') ==
      if r.envelope.chain == chain then View(chain, list)[r.envelope.transaction := r.status] else View(chain, list)
  {
    ViewLists(chain, list);
    hide View;
    var v := View(chain, list);
    var m := if r.envelope.chain == chain then v[r.envelope.transaction := r.status] else v;
    forall x | x in list' && x.envelope.chain == chain
      ensures x.envelope.transaction in m && m[x.envelope.transaction] == x.status
    {
      assert x != r ==> !SameTransaction(x, r);
    }
    forall t | t in m ensures Names(chain, list', t) {
      if r.envelope.chain != chain || t != r.envelope.transaction {
        var x :| x in list && x.envelope.chain == chain && x.envelope.transaction == t;
        assert x in list';
      }
    }
    ViewIs(chain, list', m);
  }

  lemma TidyOneEach(b: Books)
    requires Tidy(b)
    ensures OneEach(b.live) && OneEach(Copies(b))
  {
    forall x, y | x in b.live && y in b.live && SameTransaction(x, y) ensures x == y {
      assert Holds(b, x) && Holds(b, y);
      SameIdSame(b.live, x, y);
    }
    forall x, y | x in Copies(b) && y in Copies(b) && SameTransaction(x, y) ensures x == y {
      assert Holds(b, x) && Holds(b, y);
      SameIdSame(Copies(b), x, y);
    }
  }

  // ---- Steps ---------------------------------------------------------------------------------------

  /** Copying one live receipt. */
  lemma PersistRefines(chain: string, b: Books, r: Receipt, volume: bool)
    requires Numbered(b) && r in b.live
    requires OneEach(b.live) && Tidy(Persisted(b, r.id, volume)) && OneEach(Copies(b))
    requires forall x | x in Copies(b) && x.id == r.id :: SameTransaction(x, r)
    ensures AsLedger(chain, Persisted(b, r.id, volume)) ==
      if r.envelope.chain == chain
      then NearPayments.Copied(AsLedger(chain, b), r.envelope.transaction, b.durable.Some? && volume)
      else AsLedger(chain, b)
  {
    hide View, Put, Tidy;
    LiveIs(b.live, r);
    TidyOneEach(Persisted(b, r.id, volume));
    ViewLists(chain, b.live);
    if b.durable.Some? && volume {
      PutKeepsIds(b.durable.value, r);
      ViewUpdate(chain, Copies(b), Put(b.durable.value, r), r);
    }
  }

  lemma LiveIs(live: seq<Receipt>, r: Receipt)
    requires DistinctIds(live) && r in live
    ensures Has(live, r.id) && Get(live, r.id) == Some(r)
  {
    var i :| 0 <= i < |live| && live[i] == r;
    PositionIs(live, i);
  }

  /** Only the receipt itself changes its status. */
  lemma StatusRefines(chain: string, b: Books, r: Receipt, status: ReceiptStatus)
    requires Tidy(b) && r in b.live
    ensures var b' := b.(live := WithStatus(b.live, r.id, status));
      && Has(b.live, r.id) && Numbered(b') && OneEach(b'.live) && r.(status := status) in b'.live
      && View(chain, b'.live) ==
           if r.envelope.chain == chain then View(chain, b.live)[r.envelope.transaction := status]
           else View(chain, b.live)
  {
    LiveIs(b.live, r);
    TidyOneEach(b);
    hide View, Tidy, Position;
    var b' := b.(live := WithStatus(b.live, r.id, status));
    StatusMembers(b.live, r, status);
    StatusNumbered(b, r.id, status);
    forall x, y | x in b'.live && y in b'.live && SameTransaction(x, y) ensures x == y {
      assert x != r.(status := status) && y != r.(status := status) ==> x in b.live && y in b.live;
    }
    ViewUpdate(chain, b.live, b'.live, r.(status := status));
  }

  lemma StatusMembers(live: seq<Receipt>, r: Receipt, status: ReceiptStatus)
    requires DistinctIds(live) && r in live && Has(live, r.id)
    ensures var live' := WithStatus(live, r.id, status);
      && r.(status := status) in live'
      && (forall x | x in live' :: x == r.(status := status) || (x in live && x.id != r.id))
      && (forall x | x in live :: x in live' || x == r)
  {
    var k :| 0 <= k < |live| && live[k] == r;
    PositionIs(live, k);
    hide Position;
    var live' := WithStatus(live, r.id, status);
    assert live' == live[k := r.(status := status)];
    assert live'[k] in live';
    forall x | x in live' ensures x == r.(status := status) || (x in live && x.id != r.id) {
      var i :| 0 <= i < |live'| && live'[i] == x;
      assert i != k ==> live[i] == x && live[i].id != live[k].id;
    }
    forall x | x in live ensures x in live' || x == r {
      var i :| 0 <= i < |live| && live[i] == x;
      assert i != k ==> live'[i] == x;
    }
  }

  lemma CreditsOnce(m: map<string, ReceiptStatus>, t: string)
    requires t in m
    ensures var m' := m[t := Finalized];
      multiset(set k | k in m' && m'[k] == Finalized) ==
      multiset(set k | k in m && m[k] == Finalized) + if m[t] == Finalized then multiset{} else multiset{t}
    ensures m[t] == Finalized ==> m[t := Finalized] == m
  {
    var m' := m[t := Finalized];
    if m[t] == Finalized {
      assert m' == m;
    } else {
      assert (set k | k in m' && m'[k] == Finalized) == (set k | k in m && m[k] == Finalized) + {t};
    }
  }

  lemma CreditsStay(m: map<string, ReceiptStatus>, t: string, status: ReceiptStatus)
    requires status != Finalized && !(t in m && m[t] == Finalized)
    ensures var m' := m[t := status];
      (set k | k in m' && m'[k] == Finalized) == (set k | k in m && m[k] == Finalized)
  {
  }

  /** Finalizing throws for the books exactly when it throws for the ledger, and else does the same to both. */
  lemma FinalizeRefines(chain: string, b: Books, r: Receipt, volume: bool)
    requires Tidy(b) && Tidy(FinalizeReceipt(b, r.id, volume)) && r in b.live
    ensures r.envelope.chain == chain ==>
      (r.status == Challenged <==> NearPayments.FinalizeThrows(AsLedger(chain, b), r.envelope.transaction))
    ensures AsLedger(chain, FinalizeReceipt(b, r.id, volume)) ==
      if r.envelope.chain == chain
      then NearPayments.FinalizeReceipt(AsLedger(chain, b), r.envelope.transaction, b.durable.Some? && volume)
      else AsLedger(chain, b)
  {
    LiveIs(b.live, r);
    TidyOneEach(b);
    ViewLists(chain, b.live);
    SameCopies(b, r);
    if r.status != Challenged {
      var b' := b.(live := WithStatus(b.live, r.id, Finalized));
      StatusRefines(chain, b, r, Finalized);
      hide View, Tidy, WithStatus, Persisted, Numbered, OneEach, NearPayments.Copied;
      PersistRefines(chain, b', r.(status := Finalized), volume);
      if r.envelope.chain == chain {
        CreditsOnce(View(chain, b.live), r.envelope.transaction);
      }
    }
  }

  lemma ChallengeRefines(chain: string, b: Books, r: Receipt, volume: bool)
    requires Tidy(b) && Tidy(ChallengeReceipt(b, r.id, volume)) && r in b.live
    ensures AsLedger(chain, ChallengeReceipt(b, r.id, volume)) ==
      if r.envelope.chain == chain
      then NearPayments.ChallengeReceipt(AsLedger(chain, b), r.envelope.transaction, b.durable.Some? && volume)
      else AsLedger(chain, b)
  {
    LiveIs(b.live, r);
    TidyOneEach(b);
    ViewLists(chain, b.live);
    SameCopies(b, r);
    if r.status == Finalized {
      hide View, Tidy, Persisted;
      PersistRefines(chain, b, r, volume);
    } else {
      var b' := b.(live := WithStatus(b.live, r.id, Challenged));
      StatusRefines(chain, b, r, Challenged);
      hide View, Tidy, WithStatus, Persisted;
      PersistRefines(chain, b', r.(status := Challenged), volume);
      if r.envelope.chain == chain {
        CreditsStay(View(chain, b.live), r.envelope.transaction, Challenged);
      }
    }
  }

  lemma SameCopies(b: Books, r: Receipt)
    requires Tidy(b) && r in b.live
    ensures forall x | x in Copies(b) && x.id == r.id :: SameTransaction(x, r)
  {
    forall x | x in Copies(b) && x.id == r.id ensures SameTransaction(x, r) {
      assert Holds(b, x) && Holds(b, r);
    }
  }

  /** The digest of an envelope is not the id of another one's receipt. */
  ghost predicate NoClash(b: Books, id: string, e: Envelope) {
    forall x | Holds(b, x) && x.id == id :: x.envelope == e
  }

  lemma AnchorRefines(chain: string, makeId: Envelope -> string, seller: string, b: Books, s: Settled, now: int,
                      volume: bool)
    requires Tidy(b) && Tidy(AnchorSettlement(makeId, seller, b, s, now, volume).0)
    requires NoClash(b, makeId(EnvelopeOf(seller, s, now)), EnvelopeOf(seller, s, now))
    ensures var (b', id) := AnchorSettlement(makeId, seller, b, s, now, volume);
      AsLedger(chain, b') ==
      NearPayments.Anchor(AsLedger(chain, b), if s.chain == chain && id.Some? then Some(s.transaction) else None,
                          b.durable.Some? && volume)
  {
    hide View, Tidy, Persisted, Has, Position, Recordable, NearPayments.Copied, FirstFor;
    var (b', id) := AnchorSettlement(makeId, seller, b, s, now, volume);
    if id.Some? {
      TidyOneEach(b);
      ViewLists(chain, b.live);
      var k := FirstFor(b.live, s.chain, s.transaction);
      if k < |b.live| {
        SameCopies(b, b.live[k]);
        TidyNumbered(b);
        PersistRefines(chain, b, b.live[k], volume);
      } else {
        var r := Receipt(makeId(EnvelopeOf(seller, s, now)), EnvelopeOf(seller, s, now), now, Anchored);
        assert forall x | x in b.live || x in Copies(b) :: Holds(b, x);
        NotYetLive(b.live, r);
        RecordRefines(chain, b, r, volume);
      }
    }
  }

  lemma TidyNumbered(b: Books)
    requires Tidy(b)
    ensures Numbered(b)
  {
  }

  lemma NotYetLive(live: seq<Receipt>, r: Receipt)
    requires FirstFor(live, r.envelope.chain, r.envelope.transaction) == |live|
    requires forall x | x in live && x.id == r.id :: x.envelope == r.envelope
    ensures !Has(live, r.id) && forall x | x in live :: !SameTransaction(x, r)
  {
    forall i | 0 <= i < |live| ensures live[i].id != r.id {
      assert live[i] in live;
    }
  }

  lemma Unnamed(chain: string, live: seq<Receipt>, r: Receipt)
    requires Lists(chain, live, View(chain, live)) && forall x | x in live :: !SameTransaction(x, r)
    ensures r.envelope.chain == chain ==> r.envelope.transaction !in View(chain, live)
  {
    hide View;
    assert r.envelope.chain == chain ==> !Names(chain, live, r.envelope.transaction);
  }

  lemma RecordRefines(chain: string, b: Books, r: Receipt, volume: bool)
    requires Tidy(b) && Tidy(Persisted(Recorded(b, r), r.id, volume)) && r.status == Anchored
    requires !Has(b.live, r.id) && forall x | x in b.live :: !SameTransaction(x, r)
    requires forall x | x in Copies(b) && x.id == r.id :: x.envelope == r.envelope
    ensures AsLedger(chain, Persisted(Recorded(b, r), r.id, volume)) ==
      NearPayments.Anchor(AsLedger(chain, b), if r.envelope.chain == chain then Some(r.envelope.transaction) else None,
                          b.durable.Some? && volume)
  {
    TidyOneEach(b);
    TidyNumbered(b);
    var b' := Recorded(b, r);
    SnocNumbered(b.live, r);
    hide View, Tidy, Persisted, Has, NonceKey, DistinctIds;
    ViewLists(chain, b.live);
    ViewUpdate(chain, b.live, b'.live, r);
    PersistRefines(chain, b', r, volume);
    if r.envelope.chain == chain {
      Unnamed(chain, b.live, r);
      CreditsStay(View(chain, b.live), r.envelope.transaction, Anchored);
    }
  }

  /** A restart finds every copy again. */
  lemma RestartRefines(chain: string, b: Books, listing: seq<Receipt>)
    requires Tidy(b) && multiset(listing) == multiset(Copies(b)) && !SharedNonce(Copies(b))
    ensures AsLedger(chain, RestartedWith(b, listing)) ==
      if b.durable.Some? then NearPayments.Rebuilt(View(chain, Copies(b))) else NearPayments.NO_RECEIPTS
  {
    TidyOneEach(b);
    TidyNumbered(b);
    SameMembers(listing, Copies(b));
    ListedOnce(listing, Copies(b));
    KeysDiffer(listing, Copies(b));
    RestoredAll(listing);
    ViewLists(chain, Copies(b));
    hide View, Tidy, Restored, NonceKey;
    var m := View(chain, Copies(b));
    forall t | t in m ensures Names(chain, listing, t) {
      var x :| x in Copies(b) && x.envelope.chain == chain && x.envelope.transaction == t;
      assert x in listing;
    }
    ViewIs(chain, listing, m);
    if b.durable == None {
      assert m == map[] by {
        assert forall t :: !Names(chain, [], t);
      }
    }
  }

  lemma KeysDiffer(listing: seq<Receipt>, copies: seq<Receipt>)
    requires (forall x :: x in listing <==> x in copies) && DistinctIds(listing)
    requires OneEach(copies) && !SharedNonce(copies)
    ensures DistinctKeys(listing)
  {
    hide NonceKey;
    forall i, j | 0 <= i < j < |listing| ensures NonceKey(listing[i].envelope) != NonceKey(listing[j].envelope) {
      assert listing[i] in copies && listing[j] in copies && listing[i].id != listing[j].id;
    }
  }

  /** The envelope of the payment that an event delivers. */
  ghost predicate Delivers(seller: string, e: Event, envelope: Envelope) {
    e.Anchoring? && envelope == EnvelopeOf(seller, e.settled, e.now)
  }

  /** Every step of the books is the matching step of the ledger. */
  lemma StepRefines(chain: string, makeId: Envelope -> string, seller: string, b: Books, e: Event)
    requires Tidy(b) && Tidy(Apply(makeId, seller, b, e))
    requires e.Anchoring? ==>
      var envelope := EnvelopeOf(seller, e.settled, e.now);
      NoClash(b, makeId(envelope), envelope)
    requires e.Restarting? ==> !SharedNonce(Copies(b))
    ensures AsLedger(chain, Apply(makeId, seller, b, e)) ==
      LedgerStep(chain, makeId, seller, b, e, AsLedger(chain, b))
  {
    hide Tidy, AsLedger, NoClash, SharedNonce, FinalizeReceipt, ChallengeReceipt, AnchorSettlement, View;
    match e
    case Anchoring(s, now, volume) =>
      AnchorRefines(chain, makeId, seller, b, s, now, volume);
    case Finalizing(id, volume) =>
      if Has(b.live, id) {
        assert Get(b.live, id).value in b.live;
        FinalizeRefines(chain, b, Get(b.live, id).value, volume);
      } else {
        Unknown(b, id, volume);
      }
    case Challenging(id, volume) =>
      if Has(b.live, id) {
        assert Get(b.live, id).value in b.live;
        ChallengeRefines(chain, b, Get(b.live, id).value, volume);
      } else {
        Unknown(b, id, volume);
      }
    case Restarting(listing) =>
      LedgerCopies(chain, b);
      if multiset(listing) == multiset(Copies(b)) {
        RestartRefines(chain, b, listing);
      } else {
        NotRestarted(b, listing);
      }
    case Resetting =>
      LedgerCopies(chain, b);
      ResetRefines(chain, b);
  }

  lemma Unknown(b: Books, id: string, volume: bool)
    requires !Has(b.live, id)
    ensures FinalizeReceipt(b, id, volume) == b && ChallengeReceipt(b, id, volume) == b
  {
  }

  lemma LedgerCopies(chain: string, b: Books)
    ensures AsLedger(chain, b).copies == View(chain, Copies(b))
  {
  }

  lemma ResetRefines(chain: string, b: Books)
    ensures AsLedger(chain, Books([], {}, b.durable)) ==
      NearPayments.NO_RECEIPTS.(copies := View(chain, Copies(b)))
  {
    assert View(chain, []) == map[];
  }

  // ---- Runs ----------------------------------------------------------------------------------------

  ghost function LedgerRun(chain: string, makeId: Envelope -> string, seller: string, start: Books, events: seq<Event>)
    : NearPayments.Ledger
  {
    if events == [] then NearPayments.NO_RECEIPTS
    else
      var init, e := events[..|events| - 1], events[|events| - 1];
      LedgerStep(chain, makeId, seller, Run(makeId, seller, start, init), e,
                 LedgerRun(chain, makeId, seller, start, init))
  }

  /** The digests of the delivered envelopes do not collide. */
  ghost predicate NoCollisions(makeId: Envelope -> string, seller: string, events: seq<Event>) {
    forall d, e, x, y | d in events && e in events && Delivers(seller, d, x) && Delivers(seller, e, y) &&
      makeId(x) == makeId(y) :: x == y
  }

  /** Accounts and transaction hashes have no colon. */
  ghost predicate PlainTexts(events: seq<Event>) {
    forall e | e in events && e.Anchoring? :: ':' !in e.settled.payer && ':' !in e.settled.transaction
  }

  /** As long as the ledger is not reset anything may be redelivered; otherwise each payment is delivered once. */
  ghost predicate Orderly(events: seq<Event>) {
    Resetting !in events || (DeliveredOnce(events) && PlainTexts(events))
  }

  lemma HeldIsDelivered(makeId: Envelope -> string, seller: string, start: Books, events: seq<Event>, x: Receipt)
    returns (i: nat)
    requires Empty(start) && Holds(Run(makeId, seller, start, events), x)
    ensures Born(makeId, seller, events, x, i)
    ensures i < |events| && events[i] in events && Delivers(seller, events[i], x.envelope) && x.id == makeId(x.envelope)
  {
    RunTraced(makeId, seller, start, events);
    hide Run, Forgettings, FinalizedAfter;
    i :| Born(makeId, seller, events, x, i);
  }

  lemma RunTidy(makeId: Envelope -> string, seller: string, start: Books, events: seq<Event>)
    requires Empty(start) && NoCollisions(makeId, seller, events)
    requires Resetting !in events || DeliveredOnce(events)
    ensures Tidy(Run(makeId, seller, start, events))
  {
    hide Run, Empty, NoCollisions, Numbered;
    var b := Run(makeId, seller, start, events);
    RunNumbered(makeId, seller, start, events);
    forall x, y | Holds(b, x) && Holds(b, y) && (x.id == y.id || SameTransaction(x, y))
      ensures x.id == y.id && x.envelope == y.envelope
    {
      if x.id != y.id {
        if Resetting !in events {
          RunKeeps(makeId, seller, start, events);
          KeptTogether(b, x, y);
        } else {
          DeliveredTogether(makeId, seller, start, events, x, y);
        }
      }
      var i := HeldIsDelivered(makeId, seller, start, events, x);
      var j := HeldIsDelivered(makeId, seller, start, events, y);
      NotColliding(makeId, seller, events, events[i], events[j], x.envelope, y.envelope);
    }
  }

  lemma NotColliding(makeId: Envelope -> string, seller: string, events: seq<Event>, d: Event, e: Event,
                     x: Envelope, y: Envelope)
    requires NoCollisions(makeId, seller, events) && d in events && e in events
    requires Delivers(seller, d, x) && Delivers(seller, e, y) && makeId(x) == makeId(y)
    ensures x == y
  {
  }

  lemma KeptTogether(b: Books, x: Receipt, y: Receipt)
    requires Kept(b) && Holds(b, x) && Holds(b, y) && SameTransaction(x, y)
    ensures x.id == y.id
  {
    LiveOriginal(b, x);
    LiveOriginal(b, y);
    hide Position, FirstFor;
    FoundAgain(b.live, Get(b.live, x.id).value, x.envelope.chain, x.envelope.transaction);
    FoundAgain(b.live, Get(b.live, y.id).value, x.envelope.chain, x.envelope.transaction);
  }

  lemma LiveOriginal(b: Books, x: Receipt)
    requires Kept(b) && Holds(b, x)
    ensures Has(b.live, x.id) && Get(b.live, x.id).value in b.live
    ensures Get(b.live, x.id).value.id == x.id && Get(b.live, x.id).value.envelope == x.envelope
  {
    if x in b.live {
      LiveIs(b.live, x);
    }
  }

  lemma DeliveredTogether(makeId: Envelope -> string, seller: string, start: Books, events: seq<Event>,
                          x: Receipt, y: Receipt)
    requires Empty(start) && DeliveredOnce(events) && SameTransaction(x, y)
    requires Holds(Run(makeId, seller, start, events), x) && Holds(Run(makeId, seller, start, events), y)
    ensures x.id == y.id
  {
    RunTraced(makeId, seller, start, events);
    hide Run, Forgettings, FinalizedAfter;
  }

  lemma NonceOfOne(makeId: Envelope -> string, seller: string, start: Books, events: seq<Event>)
    requires Empty(start) && Orderly(events)
    ensures !SharedNonce(Copies(Run(makeId, seller, start, events)))
  {
    hide Run, Empty, NonceKey;
    var b := Run(makeId, seller, start, events);
    forall x, y | x in Copies(b) && y in Copies(b) && NonceKey(x.envelope) == NonceKey(y.envelope)
      ensures SameTransaction(x, y)
    {
      assert Holds(b, x) && Holds(b, y);
      if Resetting !in events {
        RunKeeps(makeId, seller, start, events);
        CopiesAreDistinct(Copies(b), b);
      } else {
        var i := HeldIsDelivered(makeId, seller, start, events, x);
        var j := HeldIsDelivered(makeId, seller, start, events, y);
        PlainNonces(x.envelope, y.envelope, events[i].settled.payer, events[j].settled.payer);
      }
    }
  }

  lemma PrefixOrderly(makeId: Envelope -> string, seller: string, events: seq<Event>)
    requires events != [] && NoCollisions(makeId, seller, events) && Orderly(events)
    ensures var init := events[..|events| - 1];
      NoCollisions(makeId, seller, init) && Orderly(init)
  {
    var init := events[..|events| - 1];
    assert forall e | e in init :: e in events;
    assert DeliveredOnce(events) ==> DeliveredOnce(init);
  }

  /** Over every run, what the route sees of the books is the ledger that it would have kept itself. */
  lemma {:induction false} RunRefines(chain: string, makeId: Envelope -> string, seller: string, start: Books,
                                      events: seq<Event>)
    requires Empty(start) && NoCollisions(makeId, seller, events) && Orderly(events)
    ensures AsLedger(chain, Run(makeId, seller, start, events)) == LedgerRun(chain, makeId, seller, start, events)
  {
    RunTidy(makeId, seller, start, events);
    if events == [] {
      assert View(chain, []) == map[];
    } else {
      var init, e := events[..|events| - 1], events[|events| - 1];
      var b := Run(makeId, seller, start, init);
      PrefixOrderly(makeId, seller, events);
      RunTidy(makeId, seller, start, init);
      RunRefines(chain, makeId, seller, start, init);
      NonceOfOne(makeId, seller, start, init);
      if e.Anchoring? {
        Delivering(makeId, seller, start, events);
      }
      hide Tidy, AsLedger, LedgerStep, NoCollisions, Orderly, NoClash, Empty, Apply, SharedNonce;
      StepRefines(chain, makeId, seller, b, e);
    }
  }

  lemma Delivering(makeId: Envelope -> string, seller: string, start: Books, events: seq<Event>)
    requires Empty(start) && NoCollisions(makeId, seller, events) && events != [] && events[|events| - 1].Anchoring?
    ensures var e := events[|events| - 1];
      var envelope := EnvelopeOf(seller, e.settled, e.now);
      NoClash(Run(makeId, seller, start, events[..|events| - 1]), makeId(envelope), envelope)
  {
    hide Run, NoCollisions;
    var init, e := events[..|events| - 1], events[|events| - 1];
    var envelope := EnvelopeOf(seller, e.settled, e.now);
    forall x | Holds(Run(makeId, seller, start, init), x) && x.id == makeId(envelope) ensures x.envelope == envelope {
      var i := HeldIsDelivered(makeId, seller, start, init, x);
      assert events[i] == init[i];
      NotColliding(makeId, seller, events, events[i], e, x.envelope, envelope);
    }
  }
}
