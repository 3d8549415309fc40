/**
 * What the receipts say and which payments get one, told by the payments' own fields; and what the usage report adds
 * up, as sums over the receipts that the two stores hold.
 */
module NearReceipts {
  import opened Wrappers
  import opened Receipts
  import opened Decimal
  import opened NearAnchor
  import opened NearAnchorLaws
  import opened NearUsage

  // ---- What a receipt says -------------------------------------------------------------------------

  /** The envelope states this payment to this seller, at this time. */
  ghost predicate States(e: Envelope, seller: string, s: Settled, now: int) {
    && e.chain == s.chain && e.network == s.network && e.payer == "near:" + s.payer && e.seller == seller
    && e.receiver == s.receiver && e.asset == "near-native:NEAR" && e.amount == s.amount && e.service == "credit-score"
    && e.hashes == s.hashes && e.transaction == s.transaction && e.createdAt == now
  }

  lemma StatesIs(e: Envelope, seller: string, s: Settled, now: int)
    ensures States(e, seller, s, now) <==> e == EnvelopeOf(seller, s, now)
  {
  }

  /**
   * In every run, whatever restarts, resets and failed copies it has: every receipt that the stores hold states a
   * payment that was delivered, under the digest of its envelope, and is finalized only if it was finalized since.
   */
  lemma ReceiptsSayWhatWasPaid(makeId: Envelope -> string, seller: string, start: Books, events: seq<Event>, r: Receipt)
    returns (i: nat)
    requires Empty(start) && Holds(Run(makeId, seller, start, events), r)
    ensures i < |events| && events[i].Anchoring?
    ensures States(r.envelope, seller, events[i].settled, events[i].now) && r.id == makeId(r.envelope)
    ensures r.status == Finalized ==> FinalizedAfter(events, i, r.id)
  {
    RunTraced(makeId, seller, start, events);
    hide Run, Forgettings, FinalizedAfter;
    i :| Born(makeId, seller, events, r, i);
    StatesIs(r.envelope, seller, events[i].settled, events[i].now);
  }

  // ---- Which deliveries yield a receipt ------------------------------------------------------------

  /** A digit string: the amounts that receipts are made out for. */
  ghost predicate IsIntegerText(s: string) {
    |s| > 0 && forall i | 0 <= i < |s| :: '0' <= s[i] <= '9'
  }

  /** The live receipt is for the very payment. */
  ghost predicate ForPayment(e: Envelope, seller: string, s: Settled) {
    && e.payer == "near:" + s.payer && e.seller == seller && e.receiver == s.receiver
    && e.asset == "near-native:NEAR" && e.amount == s.amount
  }

  ghost predicate HasReceiptOf(b: Books, s: Settled) {
    exists r :: r in b.live && r.envelope.chain == s.chain && r.envelope.transaction == s.transaction
  }

  /** The copies after a receipt was stored, if there is a directory and its volume is up. */
  ghost predicate StoredOnly(b: Books, b': Books, r: Receipt, volume: bool) {
    if b.durable.Some? && volume
    then b'.durable.Some? && r in b'.durable.value &&
         forall x: Receipt | x.id != r.id :: x in b'.durable.value <==> x in b.durable.value
    else b'.durable == b.durable
  }

  lemma StoresOnly(b: Books, r: Receipt, volume: bool)
    requires Numbered(b) && r in b.live
    ensures var b' := Persisted(b, r.id, volume);
      b'.live == b.live && b'.nonces == b.nonces && StoredOnly(b, b', r, volume)
  {
    var i :| 0 <= i < |b.live| && b.live[i] == r;
    PositionIs(b.live, i);
    if b.durable.Some? && volume {
      PutKeepsIds(b.durable.value, r);
    }
    hide Put;
  }

  /**
   * A delivery without payer, transaction or integer amount yields nothing. If its transaction has a live receipt, that
   * is returned if it is for the same payment to the same seller; nothing is added.
   */
  lemma DeliveryAgain(makeId: Envelope -> string, seller: string, start: Books, events: seq<Event>, r: Receipt,
                      s: Settled, now: int, volume: bool)
    requires Empty(start) && Resetting !in events && r in Run(makeId, seller, start, events).live
    requires r.envelope.chain == s.chain && r.envelope.transaction == s.transaction
    ensures var b := Run(makeId, seller, start, events);
      var (b', id) := AnchorSettlement(makeId, seller, b, s, now, volume);
      var same := s.payer != "" && s.transaction != "" && IsIntegerText(s.amount) && ForPayment(r.envelope, seller, s);
      && id == (if same then Some(r.id) else None)
      && b'.live == b.live && b'.nonces == b.nonces && (if same then StoredOnly(b, b', r, volume) else b' == b)
  {
    RunKeeps(makeId, seller, start, events);
    RunNumbered(makeId, seller, start, events);
    var b := Run(makeId, seller, start, events);
    FoundAgain(b.live, r, s.chain, s.transaction);
    StoresOnly(b, r, volume);
    hide Run, Position, FirstFor, Kept, Put, Persisted, StoredOnly;
  }

  /**
   * In every run: a delivery whose transaction has no live receipt yields one if and only if payer and transaction are
   * given, the amount is an integer text, and either the digest is already a live receipt's, or chain and seller are
   * given and the nonce is unused. The new receipt states the payment, is anchored, comes last and is copied.
   */
  lemma DeliveryAnew(makeId: Envelope -> string, seller: string, start: Books, events: seq<Event>, s: Settled, now: int,
                     volume: bool, e: Envelope)
    requires Empty(start) && !HasReceiptOf(Run(makeId, seller, start, events), s) && States(e, seller, s, now)
    ensures var b := Run(makeId, seller, start, events);
      var (b', id) := AnchorSettlement(makeId, seller, b, s, now, volume);
      var complete := s.payer != "" && s.transaction != "" && IsIntegerText(s.amount);
      var known := exists r :: r in b.live && r.id == makeId(e);
      var unused := s.chain != "" && seller != "" && s.chain + ":near:" + s.payer + ":" + s.transaction !in b.nonces;
      && id == (if complete && (known || unused) then Some(makeId(e)) else None)
      && b'.live == b.live + (if complete && !known && unused then [Receipt(makeId(e), e, now, Anchored)] else [])
      && (complete && !known && unused ==>
            && b'.nonces == b.nonces + {s.chain + ":near:" + s.payer + ":" + s.transaction}
            && StoredOnly(b, b', Receipt(makeId(e), e, now, Anchored), volume))
      && (!(complete && (known || unused)) ==> b' == b)
  {
    RunNumbered(makeId, seller, start, events);
    var b := Run(makeId, seller, start, events);
    hide Run;
    StatesIs(e, seller, s, now);
    NoneFirst(b.live, s);
    KnownId(b.live, makeId(e));
    NonceText(e, s);
    var r := Receipt(makeId(e), e, now, Anchored);
    var b1 := Recorded(b, r);
    hide FirstFor, Has, Position, Put, NonceKey, StoredOnly;
    assert b.live + [] == b.live;
    if Recordable(b, r.id, e) {
      RecordNumbered(b, r);
      assert r in b1.live;
      StoresOnly(b1, r, volume);
      SameCopiesBefore(b, b1, Persisted(b1, r.id, volume), r, volume);
    }
    PersistLive(b, makeId(e), volume);
    hide Persisted;
  }

  lemma SameCopiesBefore(b: Books, b1: Books, b2: Books, r: Receipt, volume: bool)
    requires b1.durable == b.durable && StoredOnly(b1, b2, r, volume)
    ensures StoredOnly(b, b2, r, volume)
  {
  }

  lemma NoneFirst(live: seq<Receipt>, s: Settled)
    requires forall r | r in live :: r.envelope.chain != s.chain || r.envelope.transaction != s.transaction
    ensures FirstFor(live, s.chain, s.transaction) == |live|
  {
    forall i | 0 <= i < |live|
      ensures !(live[i].envelope.chain == s.chain && live[i].envelope.transaction == s.transaction)
    {
      assert live[i] in live;
    }
  }

  lemma KnownId(live: seq<Receipt>, id: string)
    ensures Has(live, id) <==> exists r :: r in live && r.id == id
  {
    if r :| r in live && r.id == id {
      var i :| 0 <= i < |live| && live[i] == r;
      assert live[i].id == id;
    }
    if Has(live, id) {
      var i :| 0 <= i < |live| && live[i].id == id;
      assert live[i] in live;
    }
  }

  lemma NonceText(e: Envelope, s: Settled)
    requires e.chain == s.chain && e.payer == "near:" + s.payer && e.transaction == s.transaction
    ensures NonceKey(e) == s.chain + ":near:" + s.payer + ":" + s.transaction
    ensures e.payer != ""
  {
    assert e.chain + ":" + e.payer == s.chain + ":near:" + s.payer;
  }

  // ---- What a restart restores ---------------------------------------------------------------------

  /** What the registry knows a payment by, besides the receipt's id. */
  ghost predicate SameNonce(x: Receipt, y: Receipt) {
    x.envelope.chain + ":" + x.envelope.payer + ":" + x.envelope.transaction ==
    y.envelope.chain + ":" + y.envelope.payer + ":" + y.envelope.transaction
  }

  /** These places of a listing, in order, hold no two receipts with one id or one nonce, and every other place does. */
  ghost predicate FirstOnes(listing: seq<Receipt>, kept: seq<nat>) {
    && (forall i, j | 0 <= i < j < |kept| :: kept[i] < kept[j])
    && (forall i | 0 <= i < |kept| :: kept[i] < |listing|)
    && forall k: nat | k < |listing| :: k !in kept <==> exists i :: Precedes(listing, kept, i, k)
  }

  /** Kept place i comes before place k, and its receipt has the id or the nonce of the one there. */
  ghost predicate Precedes(listing: seq<Receipt>, kept: seq<nat>, i: int, k: nat)
    requires k < |listing| && forall j | 0 <= j < |kept| :: kept[j] < |listing|
  {
    0 <= i < |kept| && kept[i] < k &&
    (listing[kept[i]].id == listing[k].id || SameNonce(listing[kept[i]], listing[k]))
  }

  ghost function At(listing: seq<Receipt>, kept: seq<nat>): seq<Receipt>
    requires forall i | 0 <= i < |kept| :: kept[i] < |listing|
  {
    seq(|kept|, i requires 0 <= i < |kept| => listing[kept[i]])
  }

  lemma KeyIs(x: Receipt, y: Receipt)
    ensures NonceKey(x.envelope) == NonceKey(y.envelope) <==> SameNonce(x, y)
  {
  }

  /** The last receipt of a listing is skipped exactly when a kept one has its id or its nonce. */
  lemma SkippedIf(listing: seq<Receipt>, kept: seq<nat>, live: seq<Receipt>, nonces: set<string>, r: Receipt)
    requires (forall i | 0 <= i < |kept| :: kept[i] < |listing|) && live == At(listing, kept) && KeysOf(live, nonces)
    ensures (Has(live, r.id) || NonceKey(r.envelope) in nonces) <==>
      exists i :: Precedes(listing + [r], kept, i, |listing|)
  {
    hide NonceKey, SameNonce;
    forall i | 0 <= i < |kept|
      ensures live[i] == listing[kept[i]] == (listing + [r])[kept[i]]
      ensures NonceKey(live[i].envelope) == NonceKey(r.envelope) <==> SameNonce(live[i], r)
    {
      KeyIs(live[i], r);
    }
    if Has(live, r.id) {
      var i :| 0 <= i < |live| && live[i].id == r.id;
      assert Precedes(listing + [r], kept, i, |listing|);
    }
    if NonceKey(r.envelope) in nonces {
      var i :| 0 <= i < |live| && NonceKey(live[i].envelope) == NonceKey(r.envelope);
      assert Precedes(listing + [r], kept, i, |listing|);
    }
  }

  lemma OneMorePlace(listing: seq<Receipt>, kept: seq<nat>, r: Receipt, more: seq<nat>)
    requires FirstOnes(listing, kept)
    requires var skipped := exists i :: Precedes(listing + [r], kept, i, |listing|);
      more == if skipped then kept else kept + [|listing|]
    ensures FirstOnes(listing + [r], more)
    ensures At(listing + [r], more) == At(listing, kept) + if more == kept then [] else [r]
  {
    hide SameNonce;
    var all, n := listing + [r], |listing|;
    assert forall i | 0 <= i < |kept| :: more[i] == kept[i] && all[kept[i]] == listing[kept[i]];
    forall k: nat | k < |all| ensures k !in more <==> exists i :: Precedes(all, more, i, k) {
      if k < n {
        assert k in more <==> k in kept;
        forall i ensures Precedes(all, more, i, k) <==> Precedes(listing, kept, i, k) {
        }
      } else {
        assert n !in kept;
        forall i ensures Precedes(all, more, i, n) <==> Precedes(all, kept, i, n) {
        }
        assert more != kept ==> more[|kept|] == n;
      }
    }
  }

  /**
   * A new process restores the copies in the order in which the directory lists them, each unless an earlier restored
   * one has its id or its nonce, with their statuses; and their nonces are used.
   */
  lemma {:induction false} RestoresFirstOnes(listing: seq<Receipt>) returns (kept: seq<nat>)
    ensures FirstOnes(listing, kept) && Restored(listing).0 == At(listing, kept)
    ensures KeysOf(Restored(listing).0, Restored(listing).1)
  {
    hide NonceKey, FirstOnes, At, KeyOf;
    if listing == [] {
      kept := [];
      NoPlaces();
    } else {
      var init, r := listing[..|listing| - 1], listing[|listing| - 1];
      assert listing == init + [r];
      kept := RestoresFirstOnes(init);
      PlacesFit(init, kept);
      hide KeysOf;
      var (live, nonces) := Restored(init);
      SkippedIf(init, kept, live, nonces, r);
      KeysSnoc(live, r, nonces);
      var skipped := Has(live, r.id) || NonceKey(r.envelope) in nonces;
      var more := if skipped then kept else kept + [|init|];
      hide Has, Precedes;
      OneMorePlace(init, kept, r, more);
      assert live + [] == live;
      assert more != kept <==> !skipped;
      kept := more;
    }
  }

  lemma PlacesFit(listing: seq<Receipt>, kept: seq<nat>)
    requires FirstOnes(listing, kept)
    ensures forall i | 0 <= i < |kept| :: kept[i] < |listing|
  {
  }

  lemma NoPlaces()
    ensures FirstOnes([], []) && At([], []) == [] && KeysOf([], {})
  {
  }

  // ---- What the usage report adds up ---------------------------------------------------------------

  /** The receipts that a chain's report is about: finalized ones for its native payments for the credit score. */
  ghost function Reported(chain: string, b: Books): set<Receipt> {
    set r | r in Held(b) && r.envelope.chain == chain && r.envelope.asset == "near-native:NEAR" &&
            r.envelope.service == "credit-score" && r.status == Finalized
  }

  ghost function AmountOf(r: Receipt): nat {
    if AllDigits(r.envelope.amount) then Value(r.envelope.amount) else 0
  }

  /** The sum over a set, in any order. */
  ghost function SumOver(s: set<Receipt>): nat {
    if s == {} then 0
    else
      var r :| r in s;
      AmountOf(r) + SumOver(s - {r})
  }

  lemma {:induction false} SumPicks(s: set<Receipt>, x: Receipt)
    requires x in s
    ensures SumOver(s) == AmountOf(x) + SumOver(s - {x})
    decreases |s|
  {
    hide AmountOf;
    var r :| r in s && SumOver(s) == AmountOf(r) + SumOver(s - {r});
    if r != x {
      SumPicks(s - {r}, x);
      SumPicks(s - {x}, r);
      assert s - {r} - {x} == s - {x} - {r};
    }
  }

  ghost function Members(list: seq<Receipt>): set<Receipt> {
    set r | r in list
  }

  lemma MembersSnoc(init: seq<Receipt>, last: Receipt)
    requires !Has(init, last.id)
    ensures last !in Members(init) && Members(init + [last]) == Members(init) + {last}
  {
    MemberIds(init, last);
  }

  lemma TotalSnoc(init: seq<Receipt>, last: Receipt)
    ensures Total(init + [last]) == Total(init) + AmountOf(last)
  {
    assert (init + [last])[..|init|] == init;
  }

  lemma {:induction false} ListSums(list: seq<Receipt>)
    requires DistinctIds(list)
    ensures |Members(list)| == |list| && Total(list) == SumOver(Members(list))
  {
    hide DistinctIds, Total, AmountOf, Members, SumOver;
    if list == [] {
      NothingSums();
    } else {
      var init, last := list[..|list| - 1], list[|list| - 1];
      assert list == init + [last];
      IdsSnoc(init, last);
      ListSums(init);
      MembersSnoc(init, last);
      TotalSnoc(init, last);
      var s := Members(list);
      assert s - {last} == Members(init);
      SumPicks(s, last);
    }
  }

  lemma NothingSums()
    ensures Members([]) == {} && Total([]) == 0 && SumOver({}) == 0
  {
  }

  /**
   * In every run the report counts the receipts that the stores hold and that it is about, their different payers, and
   * the sum of their amounts.
   */
  lemma ReportAddsUp(makeId: Envelope -> string, seller: string, start: Books, events: seq<Event>, chain: string)
    requires Empty(start)
    ensures var b := Run(makeId, seller, start, events);
      var reported := Reported(chain, b);
      UsageOf(chain, Merged(b)) ==
        Usage(|reported|, |set r | r in reported :: r.envelope.payer|, SumOver(reported))
  {
    RunNumbered(makeId, seller, start, events);
    var b := Run(makeId, seller, start, events);
    hide Run;
    var counted := CountedOf(chain, Merged(b));
    MergedMembers(Copies(b), b.live);
    CountedIds(chain, Merged(b));
    ListSums(counted);
    forall r ensures r in counted <==> r in Reported(chain, b) {
      InCounted(chain, Merged(b), r);
      InStrays(Copies(b), b.live, r);
    }
    hide Merged, CountedOf, Reported, SumOver, Total;
    assert Members(counted) == Reported(chain, b);
    PayersAre(counted, Reported(chain, b));
  }

  lemma PayersAre(list: seq<Receipt>, s: set<Receipt>)
    requires forall r :: r in list <==> r in s
    ensures Payers(list) == set r | r in s :: r.envelope.payer
  {
    forall r | r in s ensures r.envelope.payer in Payers(list) {
      assert r in list;
      var i :| 0 <= i < |list| && list[i] == r;
    }
    forall p | p in Payers(list) ensures p in set r | r in s :: r.envelope.payer {
      var i :| 0 <= i < |list| && list[i].envelope.payer == p;
      assert list[i] in list;
    }
  }
}
