/**
 * When the usage report is honest: exactly when it counts every transaction once, why the payments of the route
 * are, and which finalized payments a restart can lose.
 */
module NearUsage {
  import opened Wrappers
  import opened Receipts
  import opened Decimal
  import opened NearAnchor
  import opened NearAnchorLaws
  import NearPayments
  import NearGuarantees

  // ---- Exactly when the report counts every transaction once ---------------------------------------

  /** Everything the two stores hold: the live receipts and the copies that are not live. */
  ghost function Held(b: Books): seq<Receipt> {
    b.live + Strays(Copies(b), b.live)
  }

  /** No two finalized receipts of the network have one transaction. */
  ghost predicate NoneTwice(chain: string, list: seq<Receipt>) {
    forall x, y | x in list && y in list && Counted(chain, x) && Counted(chain, y) && SameTransaction(x, y) :: x == y
  }

  lemma {:induction false} AtMostAsMany(s: seq<string>)
    ensures |set k | k in s| <= |s|
  {
    if s != [] {
      AtMostAsMany(s[1..]);
      assert (set k | k in s) == (set k | k in s[1..]) + {s[0]};
    }
  }

  /** A list names as many strings as it is long exactly when it repeats none. */
  lemma RepeatsShrink(s: seq<string>)
    ensures |set k | k in s| == |s| <==> NoRepeats(s)
  {
    if NoRepeats(s) {
      DistinctCount(s);
    } else {
      var i, j :| 0 <= i < j < |s| && s[i] == s[j];
      var rest := s[..j] + s[j + 1..];
      AtMostAsMany(rest);
      assert rest[i] == s[j];
      assert (set k | k in s) == (set k | k in rest) by {
        assert s == s[..j] + [s[j]] + s[j + 1..];
      }
    }
  }

  lemma {:induction false} CountedIds(chain: string, list: seq<Receipt>)
    requires DistinctIds(list)
    ensures DistinctIds(CountedOf(chain, list))
  {
    if list != [] {
      var init, r := list[..|list| - 1], list[|list| - 1];
      CountedIds(chain, init);
      var counted := CountedOf(chain, init);
      forall i | 0 <= i < |counted| ensures counted[i].id != r.id {
        InCounted(chain, init, counted[i]);
        var j :| 0 <= j < |init| && init[j] == counted[i];
        assert list[j].id != list[|list| - 1].id;
      }
      assert CountedOf(chain, list) == if Counted(chain, r) then counted + [r] else counted;
    }
  }

  lemma CountedOnce(chain: string, list: seq<Receipt>)
    requires DistinctIds(list)
    ensures NoRepeats(Transactions(CountedOf(chain, list))) <==> NoneTwice(chain, list)
  {
    CountedIds(chain, list);
    var counted := CountedOf(chain, list);
    forall x ensures x in counted <==> x in list && Counted(chain, x) {
      InCounted(chain, list, x);
    }
    hide CountedOf;
    var names := Transactions(counted);
    if NoneTwice(chain, list) {
      forall i, j | 0 <= i < j < |names| ensures names[i] != names[j] {
        assert counted[i] in counted && counted[j] in counted && counted[i].id != counted[j].id;
      }
    }
    if NoRepeats(names) {
      forall x, y | x in list && y in list && Counted(chain, x) && Counted(chain, y) && SameTransaction(x, y)
        ensures x == y
      {
        var i :| 0 <= i < |counted| && counted[i] == x;
        var j :| 0 <= j < |counted| && counted[j] == y;
        assert names[i] == names[j];
      }
    }
  }

  /**
   * The report counts every finalized transaction of the network once if and only if no two finalized receipts
   * that the stores hold, live or copied, are receipts of one transaction.
   */
  lemma ReportExactly(chain: string, b: Books)
    requires DistinctIds(b.live) && DistinctIds(Copies(b))
    ensures UsageOf(chain, Merged(b)).paid == |set t | t in Transactions(CountedOf(chain, Merged(b)))| <==>
      NoneTwice(chain, Held(b))
  {
    hide CountedOf, Strays;
    var merged := Merged(b);
    assert merged == PutAll(Copies(b), b.live);
    hide Merged;
    MergedMembers(Copies(b), b.live);
    CountedOnce(chain, merged);
    RepeatsShrink(Transactions(CountedOf(chain, merged)));
    forall x ensures x in merged <==> x in Held(b) {
      InStrays(Copies(b), b.live, x);
    }
  }

  /** Ids are distinct in both stores over every run, ledger resets included. */
  ghost predicate Numbered(b: Books) {
    DistinctIds(b.live) && DistinctIds(Copies(b))
  }

  lemma PersistNumbered(b: Books, id: string, volume: bool)
    requires Numbered(b)
    ensures Numbered(Persisted(b, id, volume))
  {
    if b.durable.Some? && Has(b.live, id) && volume {
      hide Put;
      PutKeepsIds(b.durable.value, Get(b.live, id).value);
    }
  }

  lemma StatusNumbered(b: Books, id: string, status: ReceiptStatus)
    requires Numbered(b) && Has(b.live, id)
    ensures Numbered(b.(live := WithStatus(b.live, id, status)))
  {
    hide Position;
  }

  lemma {:induction false} RestoredNumbered(copies: seq<Receipt>)
    ensures DistinctIds(Restored(copies).0)
    ensures forall x | x in Restored(copies).0 :: x in copies
  {
    hide NonceKey;
    if copies != [] {
      var init := copies[..|copies| - 1];
      RestoredNumbered(init);
      assert copies == init + [copies[|copies| - 1]];
      var live := Restored(init).0;
      if !Has(live, copies[|copies| - 1].id) {
        SnocNumbered(live, copies[|copies| - 1]);
      }
    }
  }

  lemma SnocNumbered(list: seq<Receipt>, r: Receipt)
    requires DistinctIds(list) && !Has(list, r.id)
    ensures DistinctIds(list + [r])
  {
  }

  lemma ApplyNumbered(makeId: Envelope -> string, seller: string, b: Books, e: Event)
    requires Numbered(b)
    ensures Numbered(Apply(makeId, seller, b, e))
  {
    hide Numbered, Persisted, Position, FirstFor, Has, WithStatus, Restored, Recordable;
    match e
    case Anchoring(s, now, volume) =>
      var k := FirstFor(b.live, s.chain, s.transaction);
      if k < |b.live| {
        PersistNumbered(b, b.live[k].id, volume);
      } else {
        var e := EnvelopeOf(seller, s, now);
        PersistNumbered(b, makeId(e), volume);
        if Recordable(b, makeId(e), e) {
          RecordNumbered(b, Receipt(makeId(e), e, now, Anchored));
          PersistNumbered(Recorded(b, Receipt(makeId(e), e, now, Anchored)), makeId(e), volume);
        }
      }
    case Finalizing(id, volume) =>
      if Has(b.live, id) {
        StatusNumbered(b, id, Finalized);
        PersistNumbered(b.(live := WithStatus(b.live, id, Finalized)), id, volume);
      }
    case Challenging(id, volume) =>
      PersistNumbered(b, id, volume);
      if Has(b.live, id) {
        StatusNumbered(b, id, Challenged);
        PersistNumbered(b.(live := WithStatus(b.live, id, Challenged)), id, volume);
      }
    case Restarting(listing) =>
      RestartNumbered(b, listing);
    case Resetting =>
      ResetNumbered(b);
  }

  lemma RecordNumbered(b: Books, r: Receipt)
    requires Numbered(b) && Recordable(b, r.id, r.envelope)
    ensures Numbered(Recorded(b, r))
  {
    SnocNumbered(b.live, r);
  }

  lemma RestartNumbered(b: Books, listing: seq<Receipt>)
    requires Numbered(b)
    ensures Numbered(RestartedWith(b, listing))
  {
    RestoredNumbered(listing);
  }

  lemma ResetNumbered(b: Books)
    requires Numbered(b)
    ensures Numbered(Books([], {}, b.durable))
  {
  }

  lemma {:induction false} RunNumbered(makeId: Envelope -> string, seller: string, start: Books, events: seq<Event>)
    requires Empty(start)
    ensures Numbered(Run(makeId, seller, start, events))
  {
    if events != [] {
      hide Numbered, Apply;
      RunNumbered(makeId, seller, start, events[..|events| - 1]);
      ApplyNumbered(makeId, seller, Run(makeId, seller, start, events[..|events| - 1]), events[|events| - 1]);
    }
  }

  /** The same over every run, ledger resets and failed copies included. */
  lemma ReportExactlyInRuns(makeId: Envelope -> string, seller: string, start: Books, events: seq<Event>, chain: string)
    requires Empty(start)
    ensures var b := Run(makeId, seller, start, events);
      UsageOf(chain, Merged(b)).paid == |set t | t in Transactions(CountedOf(chain, Merged(b)))| <==>
      NoneTwice(chain, Held(b))
  {
    RunNumbered(makeId, seller, start, events);
    ReportExactly(chain, Run(makeId, seller, start, events));
  }

  // ---- Transactions that are counted twice ---------------------------------------------------------

  ghost predicate Holds(b: Books, x: Receipt) {
    x in b.live || x in Copies(b)
  }

  /** Copies of different transactions whose texts give one nonce; a restart skips all but one of them. */
  ghost predicate SharedNonce(copies: seq<Receipt>) {
    exists x, y | x in copies && y in copies :: NonceKey(x.envelope) == NonceKey(y.envelope) && !SameTransaction(x, y)
  }

  /** A receipt with a durable copy can leave the live registry in two ways. */
  ghost predicate Forgets(b: Books, e: Event) {
    e.Resetting? || (e.Restarting? && SharedNonce(Copies(b)))
  }

  /** The positions of a run at which receipts can be forgotten. */
  ghost function Forgettings(makeId: Envelope -> string, seller: string, start: Books,
                             events: seq<Event>): (at: set<nat>)
    ensures forall k | k in at :: k < |events|
  {
    if events == [] then {}
    else
      var init, e := events[..|events| - 1], events[|events| - 1];
      Forgettings(makeId, seller, start, init) +
      if Forgets(Run(makeId, seller, start, init), e) then {|events| - 1} else {}
  }

  ghost predicate FinalizedAfter(events: seq<Event>, i: nat, id: string) {
    exists f :: i < f < |events| && events[f].Finalizing? && events[f].id == id
  }

  /** The receipt stems from the delivery at a position of the run, and was finalized after that if it is now. */
  ghost predicate Born(makeId: Envelope -> string, seller: string, events: seq<Event>, x: Receipt, i: nat) {
    && i < |events| && events[i].Anchoring?
    && x.envelope == EnvelopeOf(seller, events[i].settled, events[i].now) && x.id == makeId(x.envelope)
    && (x.status == Finalized ==> FinalizedAfter(events, i, x.id))
  }

  ghost predicate LiveTwin(b: Books, x: Receipt) {
    exists r :: r in b.live && SameTransaction(r, x)
  }

  ghost predicate Since(at: set<nat>, i: nat) {
    exists k :: k in at && i < k
  }

  ghost predicate Between(at: set<nat>, i: nat, j: nat) {
    exists k :: k in at && (i < k < j || j < k < i)
  }

  /** Where a receipt comes from, and since when its transaction has had no live receipt. */
  ghost predicate Stems(makeId: Envelope -> string, seller: string, at: set<nat>, events: seq<Event>, b: Books,
                        x: Receipt) {
    exists i :: Born(makeId, seller, events, x, i) && (LiveTwin(b, x) || Since(at, i))
  }

  /** Two receipts come from two deliveries with a forgetting between them. */
  ghost predicate Apart(makeId: Envelope -> string, seller: string, at: set<nat>, events: seq<Event>,
                        x: Receipt, y: Receipt) {
    exists i, j :: Born(makeId, seller, events, x, i) && Born(makeId, seller, events, y, j) && Between(at, i, j)
  }

  ghost predicate Traced(makeId: Envelope -> string, seller: string, at: set<nat>, events: seq<Event>, b: Books) {
    && (forall x | Holds(b, x) :: Stems(makeId, seller, at, events, b, x))
    && forall x, y | Holds(b, x) && Holds(b, y) && SameTransaction(x, y) && x.id != y.id ::
         Apart(makeId, seller, at, events, x, y)
  }

  /** What a step leaves in the stores: receipts that were there, up to their status, and perhaps a new one. */
  ghost predicate OnlyFrom(b: Books, e: Event, b': Books, news: Option<Receipt>) {
    forall x | Holds(b', x) :: WasHeld(b, e, x) || news == Some(x)
  }

  ghost predicate WasHeld(b: Books, e: Event, x: Receipt) {
    exists y :: Holds(b, y) && Older(y, e, x)
  }

  /** The same receipt before an event. */
  ghost predicate Older(y: Receipt, e: Event, x: Receipt) {
    && y.id == x.id && y.envelope == x.envelope
    && (x.status == Finalized ==> y.status == Finalized || (e.Finalizing? && e.id == x.id))
  }

  /** Every transaction with a live receipt still has one. */
  ghost predicate KeepsLive(b: Books, b': Books) {
    forall x | LiveTwin(b, x) :: LiveTwin(b', x)
  }

  lemma PersistOnly(b: Books, e: Event, b': Books, id: string, volume: bool, news: Option<Receipt>)
    requires Numbered(b') && OnlyFrom(b, e, b', news) && KeepsLive(b, b')
    ensures OnlyFrom(b, e, Persisted(b', id, volume), news) && KeepsLive(b, Persisted(b', id, volume))
  {
    if b'.durable.Some? && Has(b'.live, id) && volume {
      var r := Get(b'.live, id).value;
      assert r in b'.live;
      hide Put;
      PutKeepsIds(b'.durable.value, r);
      forall x | Holds(Persisted(b', id, volume), x) ensures Holds(b', x) {
      }
      forall x | LiveTwin(b', x) ensures LiveTwin(Persisted(b', id, volume), x) {
      }
    }
  }

  lemma StatusOnly(b: Books, e: Event, id: string, status: ReceiptStatus)
    requires Has(b.live, id) && (status == Finalized ==> e.Finalizing? && e.id == id)
    ensures OnlyFrom(b, e, b.(live := WithStatus(b.live, id, status)), None)
    ensures KeepsLive(b, b.(live := WithStatus(b.live, id, status)))
  {
    hide Position;
    var b' := b.(live := WithStatus(b.live, id, status));
    forall x | Holds(b', x) ensures WasHeld(b, e, x) {
      if x in b'.live {
        var i :| 0 <= i < |b'.live| && b'.live[i] == x;
        assert Holds(b, b.live[i]) && Older(b.live[i], e, x);
      } else {
        assert Holds(b, x) && Older(x, e, x);
      }
    }
    forall x | LiveTwin(b, x) ensures LiveTwin(b', x) {
      var r :| r in b.live && SameTransaction(r, x);
      var i :| 0 <= i < |b.live| && b.live[i] == r;
      assert b'.live[i] in b'.live && SameTransaction(b'.live[i], x);
    }
  }

  lemma FewerOnly(b: Books, e: Event, b': Books)
    requires forall x | Holds(b', x) :: Holds(b, x)
    ensures OnlyFrom(b, e, b', None)
  {
    forall x | Holds(b', x) ensures WasHeld(b, e, x) {
      assert Older(x, e, x);
    }
  }

  lemma RecordOnly(b: Books, e: Event, r: Receipt)
    ensures OnlyFrom(b, e, Recorded(b, r), Some(r)) && KeepsLive(b, Recorded(b, r)) && LiveTwin(Recorded(b, r), r)
  {
    forall x | Holds(Recorded(b, r), x) ensures WasHeld(b, e, x) || x == r {
      assert x != r ==> Holds(b, x) && Older(x, e, x);
    }
    forall x | LiveTwin(b, x) ensures LiveTwin(Recorded(b, r), x) {
      var y :| y in b.live && SameTransaction(y, x);
      assert y in Recorded(b, r).live;
    }
    assert r in Recorded(b, r).live;
  }

  /** The receipt that a delivery brings in when its transaction has no live receipt. */
  ghost predicate NewFrom(makeId: Envelope -> string, seller: string, b: Books, e: Event, r: Receipt) {
    && e.Anchoring? && r.envelope == EnvelopeOf(seller, e.settled, e.now)
    && r.id == makeId(r.envelope) && r.status == Anchored && !LiveTwin(b, r)
  }

  /** A step brings in at most the receipt of the payment it delivers, and forgets live receipts in two ways only. */
  lemma ApplyOnly(makeId: Envelope -> string, seller: string, b: Books, e: Event) returns (news: Option<Receipt>)
    requires Numbered(b)
    ensures var b' := Apply(makeId, seller, b, e);
      && OnlyFrom(b, e, b', news)
      && (news.Some? ==> NewFrom(makeId, seller, b, e, news.value) && LiveTwin(b', news.value))
      && (Forgets(b, e) || KeepsLive(b, b') || forall x | Holds(b', x) :: LiveTwin(b', x))
  {
    hide Numbered, OnlyFrom, Persisted, Position, FirstFor, Has, WithStatus, Restored, Recordable, LiveTwin,
         SharedNonce;
    news := None;
    FewerOnly(b, e, b);
    match e
    case Anchoring(s, now, volume) =>
      var k := FirstFor(b.live, s.chain, s.transaction);
      if k < |b.live| {
        PersistOnly(b, e, b, b.live[k].id, volume, None);
      } else {
        var envelope := EnvelopeOf(seller, s, now);
        PersistOnly(b, e, b, makeId(envelope), volume, None);
        if s.payer != "" && s.transaction != "" && IsNumber(s.amount) && !Has(b.live, makeId(envelope)) &&
           Recordable(b, makeId(envelope), envelope) {
          var r := Receipt(makeId(envelope), envelope, now, Anchored);
          news := Some(r);
          NoneLive(b, r);
          RecordOnly(b, e, r);
          RecordNumbered(b, r);
          PersistOnly(b, e, Recorded(b, r), makeId(envelope), volume, news);
          TwinPersisted(Recorded(b, r), makeId(envelope), volume, r);
        }
      }
    case Finalizing(id, volume) =>
      if Has(b.live, id) {
        StatusOnly(b, e, id, Finalized);
        StatusNumbered(b, id, Finalized);
        PersistOnly(b, e, b.(live := WithStatus(b.live, id, Finalized)), id, volume, None);
      }
    case Challenging(id, volume) =>
      PersistOnly(b, e, b, id, volume, None);
      if Has(b.live, id) {
        StatusOnly(b, e, id, Challenged);
        StatusNumbered(b, id, Challenged);
        PersistOnly(b, e, b.(live := WithStatus(b.live, id, Challenged)), id, volume, None);
      }
    case Restarting(listing) =>
      RestartOnly(b, listing);
    case Resetting =>
      FewerOnly(b, e, Books([], {}, b.durable));
  }

  lemma NoneLive(b: Books, r: Receipt)
    requires FirstFor(b.live, r.envelope.chain, r.envelope.transaction) == |b.live|
    ensures !LiveTwin(b, r)
  {
  }

  lemma TwinPersisted(b: Books, id: string, volume: bool, x: Receipt)
    requires LiveTwin(b, x)
    ensures LiveTwin(Persisted(b, id, volume), x)
  {
    PersistLive(b, id, volume);
  }

  lemma RestartOnly(b: Books, listing: seq<Receipt>)
    requires Numbered(b)
    ensures var b' := RestartedWith(b, listing);
      && OnlyFrom(b, Restarting(listing), b', None)
      && (b' == b || SharedNonce(Copies(b)) || forall x | Holds(b', x) :: LiveTwin(b', x))
  {
    FewerOnly(b, Restarting(listing), b);
    if multiset(listing) == multiset(Copies(b)) {
      var b' := RestartedWith(b, listing);
      SameMembers(listing, Copies(b));
      ListedOnce(listing, Copies(b));
      RestoredNumbered(listing);
      FewerOnly(b, Restarting(listing), b');
      if !SharedNonce(Copies(b)) {
        forall x | Holds(b', x) ensures LiveTwin(b', x) {
          CoveredUnlessShared(listing, Copies(b), x);
        }
      }
    }
  }

  /** Every copy is restored, or skipped for another with its nonce. */
  lemma {:induction false} RestoredCovers(listing: seq<Receipt>)
    requires DistinctIds(listing)
    ensures KeysOf(Restored(listing).0, Restored(listing).1)
    ensures forall c | c in listing :: NonceKey(c.envelope) in Restored(listing).1
  {
    hide NonceKey, KeyOf;
    if listing != [] {
      var init, r := listing[..|listing| - 1], listing[|listing| - 1];
      assert listing == init + [r];
      IdsSnoc(init, r);
      hide DistinctIds;
      RestoredCovers(init);
      RestoredNumbered(init);
      var (live, nonces) := Restored(init);
      NotRestoredYet(init, live, r.id);
      hide KeysOf;
      KeysSnoc(live, r, nonces);
    }
  }

  lemma NotRestoredYet(init: seq<Receipt>, live: seq<Receipt>, id: string)
    requires (forall x | x in live :: x in init) && !Has(init, id)
    ensures !Has(live, id)
  {
    forall i | 0 <= i < |live| ensures live[i].id != id {
      assert live[i] in live;
    }
  }

  lemma CoveredUnlessShared(listing: seq<Receipt>, copies: seq<Receipt>, x: Receipt)
    requires (forall y :: y in listing <==> y in copies) && DistinctIds(listing) && x in copies
    ensures SharedNonce(copies) || exists r :: r in Restored(listing).0 && SameTransaction(r, x)
  {
    hide NonceKey;
    RestoredCovers(listing);
    RestoredNumbered(listing);
    var live := Restored(listing).0;
    var i :| 0 <= i < |live| && NonceKey(live[i].envelope) == NonceKey(x.envelope);
    assert live[i] in live && live[i] in copies;
  }

  lemma BornOn(makeId: Envelope -> string, seller: string, init: seq<Event>, e: Event, y: Receipt, x: Receipt, i: nat)
    requires Born(makeId, seller, init, y, i) && Older(y, e, x)
    ensures Born(makeId, seller, init + [e], x, i)
  {
    var events := init + [e];
    assert events[i] == init[i] && events[|init|] == e;
    if x.status == Finalized && y.status == Finalized {
      var f :| i < f < |init| && init[f].Finalizing? && init[f].id == y.id;
      assert events[f] == init[f];
    }
  }

  lemma TracedOn(makeId: Envelope -> string, seller: string, at: set<nat>, at': set<nat>, init: seq<Event>,
                 b: Books, e: Event, b': Books, news: Option<Receipt>)
    requires Traced(makeId, seller, at, init, b) && OnlyFrom(b, e, b', news)
    requires at <= at' && forall k | k in at :: k < |init|
    requires news.Some? ==> NewFrom(makeId, seller, b, e, news.value) && LiveTwin(b', news.value)
    requires |init| in at' || KeepsLive(b, b') || forall x | Holds(b', x) :: LiveTwin(b', x)
    ensures Traced(makeId, seller, at', init + [e], b')
  {
    hide Born, LiveTwin, OnlyFrom, Older;
    var events := init + [e];
    forall x | Holds(b', x) ensures Stems(makeId, seller, at', events, b', x) {
      FromOne(b, e, b', news, x);
      if news == Some(x) {
        NewBorn(makeId, seller, b, init, e, x);
      } else {
        var y :| Holds(b, y) && Older(y, e, x);
        var i :| Born(makeId, seller, init, y, i) && (LiveTwin(b, y) || Since(at, i));
        BornOn(makeId, seller, init, e, y, x, i);
        TwinOf(b, y, x, e);
        BornEarlier(makeId, seller, init, y, i);
        assert LiveTwin(b', x) || Since(at', i);
      }
    }
    forall x, y | Holds(b', x) && Holds(b', y) && SameTransaction(x, y) && x.id != y.id
      ensures Apart(makeId, seller, at', events, x, y)
    {
      FromOne(b, e, b', news, x);
      FromOne(b, e, b', news, y);
      if news == Some(x) {
        NewApart(makeId, seller, at, at', init, b, e, x, y);
      } else if news == Some(y) {
        NewApart(makeId, seller, at, at', init, b, e, y, x);
      } else {
        OldApart(makeId, seller, at, at', init, b, e, x, y);
      }
    }
  }

  lemma FromOne(b: Books, e: Event, b': Books, news: Option<Receipt>, x: Receipt)
    requires OnlyFrom(b, e, b', news) && Holds(b', x)
    ensures WasHeld(b, e, x) || news == Some(x)
  {
  }

  lemma TwinOf(b: Books, y: Receipt, x: Receipt, e: Event)
    requires Older(y, e, x)
    ensures LiveTwin(b, y) <==> LiveTwin(b, x)
  {
  }

  lemma BornEarlier(makeId: Envelope -> string, seller: string, events: seq<Event>, x: Receipt, i: nat)
    requires Born(makeId, seller, events, x, i)
    ensures i < |events|
  {
  }

  lemma NewBorn(makeId: Envelope -> string, seller: string, b: Books, init: seq<Event>, e: Event, x: Receipt)
    requires NewFrom(makeId, seller, b, e, x)
    ensures Born(makeId, seller, init + [e], x, |init|)
  {
    assert (init + [e])[|init|] == e;
  }

  lemma NewApart(makeId: Envelope -> string, seller: string, at: set<nat>, at': set<nat>, init: seq<Event>,
                 b: Books, e: Event, x: Receipt, y: Receipt)
    requires Traced(makeId, seller, at, init, b) && at <= at' && forall k | k in at :: k < |init|
    requires NewFrom(makeId, seller, b, e, x) && WasHeld(b, e, y) && SameTransaction(x, y)
    ensures Apart(makeId, seller, at', init + [e], x, y) && Apart(makeId, seller, at', init + [e], y, x)
  {
    hide Born;
    var z :| Holds(b, z) && Older(z, e, y);
    assert !LiveTwin(b, z);
    hide NewFrom;
    var i: nat :| Born(makeId, seller, init, z, i) && (LiveTwin(b, z) || Since(at, i));
    BornOn(makeId, seller, init, e, z, y, i);
    NewBorn(makeId, seller, b, init, e, x);
    var k :| k in at && i < k;
    assert k in at' && i < k < |init|;
    assert Between(at', i, |init|) && Between(at', |init|, i);
  }

  lemma OldApart(makeId: Envelope -> string, seller: string, at: set<nat>, at': set<nat>, init: seq<Event>,
                 b: Books, e: Event, x: Receipt, y: Receipt)
    requires Traced(makeId, seller, at, init, b) && at <= at'
    requires WasHeld(b, e, x) && WasHeld(b, e, y) && SameTransaction(x, y) && x.id != y.id
    ensures Apart(makeId, seller, at', init + [e], x, y)
  {
    hide Born, Holds;
    var x' :| Holds(b, x') && Older(x', e, x);
    var y' :| Holds(b, y') && Older(y', e, y);
    assert SameTransaction(x', y') && Apart(makeId, seller, at, init, x', y');
    var i, j :| Born(makeId, seller, init, x', i) && Born(makeId, seller, init, y', j) && Between(at, i, j);
    BornOn(makeId, seller, init, e, x', x, i);
    BornOn(makeId, seller, init, e, y', y, j);
    assert Between(at', i, j);
  }

  lemma {:induction false} RunTraced(makeId: Envelope -> string, seller: string, start: Books, events: seq<Event>)
    requires Empty(start)
    ensures Traced(makeId, seller, Forgettings(makeId, seller, start, events), events,
                   Run(makeId, seller, start, events))
  {
    hide Traced, Apply, Numbered, Forgets, NewFrom, OnlyFrom, LiveTwin, KeepsLive;
    if events == [] {
      NothingTraced(makeId, seller, start);
    } else {
      var init, e := events[..|events| - 1], events[|events| - 1];
      var b := Run(makeId, seller, start, init);
      assert events == init + [e];
      RunTraced(makeId, seller, start, init);
      RunNumbered(makeId, seller, start, init);
      var news := ApplyOnly(makeId, seller, b, e);
      TracedOn(makeId, seller, Forgettings(makeId, seller, start, init), Forgettings(makeId, seller, start, events),
               init, b, e, Apply(makeId, seller, b, e), news);
    }
  }

  lemma NothingTraced(makeId: Envelope -> string, seller: string, start: Books)
    requires Empty(start)
    ensures Traced(makeId, seller, {}, [], start)
  {
  }

  lemma {:induction false} ForgettingsAre(makeId: Envelope -> string, seller: string, start: Books, events: seq<Event>,
                                          k: nat)
    ensures k in Forgettings(makeId, seller, start, events) <==>
      k < |events| && Forgets(Run(makeId, seller, start, events[..k]), events[k])
    decreases |events|
  {
    hide Forgets, Run;
    if events != [] {
      var init := events[..|events| - 1];
      ForgettingsAre(makeId, seller, start, init, k);
      assert k < |init| ==> init[..k] == events[..k];
    }
  }

  /** Deliveries of one transaction under two ids, both finalized, with a ledger reset or the like in between. */
  ghost predicate PaidTwice(makeId: Envelope -> string, seller: string, start: Books, events: seq<Event>, chain: string,
                            i: nat, k: nat, j: nat) {
    && i < k < j < |events| && events[i].Anchoring? && events[j].Anchoring?
    && Forgets(Run(makeId, seller, start, events[..k]), events[k])
    && var first, second := EnvelopeOf(seller, events[i].settled, events[i].now),
                            EnvelopeOf(seller, events[j].settled, events[j].now);
      && first.chain == second.chain == chain && first.transaction == second.transaction
      && makeId(first) != makeId(second)
      && FinalizedAfter(events, i, makeId(first)) && FinalizedAfter(events, j, makeId(second))
  }

  /**
   * A report counts a transaction twice only if it was delivered twice under two ids, both receipts were finalized,
   * and in between the ledger was reset or restarted over two copies with one nonce.
   */
  lemma CountedTwice(makeId: Envelope -> string, seller: string, start: Books, events: seq<Event>, chain: string)
    returns (i: nat, k: nat, j: nat)
    requires Empty(start)
    requires var b := Run(makeId, seller, start, events);
      UsageOf(chain, Merged(b)).paid != |set t | t in Transactions(CountedOf(chain, Merged(b)))|
    ensures PaidTwice(makeId, seller, start, events, chain, i, k, j)
  {
    hide PaidTwice, Traced, Born, Forgets;
    var b, at := Run(makeId, seller, start, events), Forgettings(makeId, seller, start, events);
    RunNumbered(makeId, seller, start, events);
    ReportExactly(chain, b);
    RunTraced(makeId, seller, start, events);
    hide Run;
    var x, y :| x in Held(b) && y in Held(b) && Counted(chain, x) && Counted(chain, y) && SameTransaction(x, y) &&
      x != y;
    TwoHeld(b, x, y);
    ApartAre(makeId, seller, at, events, b, x, y);
    i, j :| Born(makeId, seller, events, x, i) && Born(makeId, seller, events, y, j) && Between(at, i, j);
    k :| k in at && (i < k < j || j < k < i);
    ForgettingsAre(makeId, seller, start, events, k);
    if i < k {
      BornTwice(makeId, seller, start, events, chain, i, k, j, x, y);
    } else {
      BornTwice(makeId, seller, start, events, chain, j, k, i, y, x);
      i, j := j, i;
    }
  }

  lemma TwoHeld(b: Books, x: Receipt, y: Receipt)
    requires Numbered(b) && x in Held(b) && y in Held(b) && x != y
    ensures Holds(b, x) && Holds(b, y) && x.id != y.id
  {
    InStrays(Copies(b), b.live, x);
    InStrays(Copies(b), b.live, y);
    if x.id == y.id {
      HeldOnce(b, x, y);
    }
  }

  lemma ApartAre(makeId: Envelope -> string, seller: string, at: set<nat>, events: seq<Event>, b: Books,
                 x: Receipt, y: Receipt)
    requires Traced(makeId, seller, at, events, b) && Holds(b, x) && Holds(b, y) && SameTransaction(x, y) &&
      x.id != y.id
    ensures Apart(makeId, seller, at, events, x, y)
  {
  }

  lemma BornTwice(makeId: Envelope -> string, seller: string, start: Books, events: seq<Event>, chain: string,
                  i: nat, k: nat, j: nat, x: Receipt, y: Receipt)
    requires Born(makeId, seller, events, x, i) && Born(makeId, seller, events, y, j) && i < k < j
    requires Counted(chain, x) && Counted(chain, y) && SameTransaction(x, y) && x.id != y.id
    requires Forgets(Run(makeId, seller, start, events[..k]), events[k])
    ensures PaidTwice(makeId, seller, start, events, chain, i, k, j)
  {
    hide Forgets, Run, FinalizedAfter;
  }

  /** A text splits at its last colon in one way. */
  lemma LastColon(a: string, s: string, b: string, t: string)
    requires ':' !in s && ':' !in t && a + ":" + s == b + ":" + t
    ensures a == b && s == t
  {
    var text := a + ":" + s;
    assert text[|a|] == ':' && text[|b|] == ':';
    assert forall i | 0 <= i < |s| :: text[|a| + 1 + i] == s[i];
    assert forall i | 0 <= i < |t| :: text[|b| + 1 + i] == t[i];
    assert a == text[..|a|] && b == text[..|b|];
    assert s == text[|a| + 1..] && t == text[|b| + 1..];
  }

  /**
   * Neither NEAR accounts nor transaction hashes have colons. Receipts of such accounts and transactions never share
   * a nonce, whatever their chains are called, so then only a ledger reset forgets receipts.
   */
  lemma PlainNonces(x: Envelope, y: Envelope, p: string, q: string)
    requires x.payer == "near:" + p && y.payer == "near:" + q
    requires ':' !in p && ':' !in q && ':' !in x.transaction && ':' !in y.transaction
    requires NonceKey(x) == NonceKey(y)
    ensures x.chain == y.chain && x.payer == y.payer && x.transaction == y.transaction
  {
    LastColon(x.chain + ":" + x.payer, x.transaction, y.chain + ":" + y.payer, y.transaction);
    assert x.chain + ":" + x.payer == (x.chain + ":near") + ":" + p;
    assert y.chain + ":" + y.payer == (y.chain + ":near") + ":" + q;
    LastColon(x.chain + ":near", p, y.chain + ":near", q);
    assert x.chain == (x.chain + ":near")[..|x.chain|] && y.chain == (y.chain + ":near")[..|y.chain|];
  }

  // ---- Payments that are delivered once ------------------------------------------------------------

  /** No payment is delivered to the anchor twice. */
  ghost predicate DeliveredOnce(events: seq<Event>) {
    forall i, j | 0 <= i < j < |events| && events[i].Anchoring? && events[j].Anchoring? ::
      events[i].settled.chain != events[j].settled.chain ||
      events[i].settled.transaction != events[j].settled.transaction
  }

  /**
   * If every payment is delivered to the anchor once, the report counts every transaction once, whatever
   * restarts, failed copies and ledger resets the run has.
   */
  lemma DeliveredOnceCountedOnce(makeId: Envelope -> string, seller: string, start: Books, events: seq<Event>,
                                 chain: string)
    requires Empty(start) && DeliveredOnce(events)
    ensures var b := Run(makeId, seller, start, events);
      UsageOf(chain, Merged(b)).paid == |set t | t in Transactions(CountedOf(chain, Merged(b)))|
  {
    hide Run, UsageOf, CountedOf, Merged, Forgets;
    var b := Run(makeId, seller, start, events);
    if UsageOf(chain, Merged(b)).paid != |set t | t in Transactions(CountedOf(chain, Merged(b)))| {
      var i, k, j := CountedTwice(makeId, seller, start, events, chain);
      assert false;
    }
  }

  lemma HeldOnce(b: Books, x: Receipt, y: Receipt)
    requires Numbered(b) && x.id == y.id
    requires x in b.live || (x in Copies(b) && !Has(b.live, x.id))
    requires y in b.live || (y in Copies(b) && !Has(b.live, y.id))
    ensures x == y
  {
    if x in b.live && y in b.live {
      SameIdSame(b.live, x, y);
    } else if x !in b.live && y !in b.live {
      SameIdSame(Copies(b), x, y);
    }
  }

  /** The transactions handed to the anchor, in order. */
  ghost function Anchorings(events: seq<Event>): seq<string> {
    if events == [] then []
    else
      var e := events[|events| - 1];
      Anchorings(events[..|events| - 1]) + if e.Anchoring? then [e.settled.transaction] else []
  }

  lemma {:induction false} AnchoringsHold(events: seq<Event>, i: nat)
    requires i < |events| && events[i].Anchoring?
    ensures events[i].settled.transaction in Anchorings(events)
  {
    if i < |events| - 1 {
      AnchoringsHold(events[..|events| - 1], i);
    }
  }

  lemma {:induction false} DistinctAnchorings(events: seq<Event>)
    requires NoRepeats(Anchorings(events))
    ensures DeliveredOnce(events)
  {
    if events != [] {
      var n := |events| - 1;
      var init, e := events[..n], events[n];
      var names := Anchorings(init);
      assert forall i | 0 <= i < |names| :: names[i] == Anchorings(events)[i];
      DistinctAnchorings(init);
      forall i | 0 <= i < n && events[i].Anchoring? && e.Anchoring?
        ensures events[i].settled.transaction != e.settled.transaction
      {
        AnchoringsHold(init, i);
        var k :| 0 <= k < |Anchorings(init)| && Anchorings(init)[k] == events[i].settled.transaction;
        assert Anchorings(events)[k] != Anchorings(events)[|Anchorings(init)|];
      }
      forall i, j | 0 <= i < j < |events| && events[i].Anchoring? && events[j].Anchoring?
        ensures !(events[i].settled.chain == events[j].settled.chain &&
                  events[i].settled.transaction == events[j].settled.transaction)
      {
        assert j < n ==> init[i] == events[i] && init[j] == events[j];
      }
    }
  }

  /**
   * The payments that reach the anchor through the paid route, however its handlers interleave and whatever
   * restarts, failed copies and ledger resets happen to the receipts, are reported once each.
   */
  lemma RoutePaymentsCountedOnce(durable: bool, route: seq<NearPayments.Event>, makeId: Envelope -> string,
                                 seller: string, start: Books, events: seq<Event>, chain: string)
    requires NearGuarantees.Continuous(durable, route) && Empty(start)
    requires Anchorings(events) == NearPayments.Run(durable, route).anchors
    ensures var b := Run(makeId, seller, start, events);
      UsageOf(chain, Merged(b)).paid == |set t | t in Transactions(CountedOf(chain, Merged(b)))|
  {
    NearGuarantees.AnchoredOnce(durable, route);
    DistinctAnchorings(events);
    DeliveredOnceCountedOnce(makeId, seller, start, events, chain);
  }

  // ---- The payments finalized in a run -------------------------------------------------------------

  /** The transaction of a network's payment that this event finalizes, if it finalizes one. */
  ghost predicate Finalizes(chain: string, b: Books, e: Event, t: string) {
    && e.Finalizing? && Has(b.live, e.id) && Get(b.live, e.id).value.status != Challenged
    && Counted(chain, Get(b.live, e.id).value.(status := Finalized))
    && Get(b.live, e.id).value.envelope.transaction == t
  }

  ghost function FinalizedNow(chain: string, b: Books, e: Event): set<string> {
    if e.Finalizing? && Has(b.live, e.id) && Finalizes(chain, b, e, Get(b.live, e.id).value.envelope.transaction)
    then {Get(b.live, e.id).value.envelope.transaction} else {}
  }

  /** Some durable copy says that the transaction is finalized. */
  ghost predicate CopySays(chain: string, b: Books, t: string) {
    exists c :: c in Copies(b) && Counted(chain, c) && c.envelope.transaction == t
  }

  /** The transactions that the events of a run have finalized. */
  ghost function Ever(makeId: Envelope -> string, seller: string, start: Books, events: seq<Event>,
                      chain: string): set<string> {
    if events == [] then {}
    else
      var init, e := events[..|events| - 1], events[|events| - 1];
      Ever(makeId, seller, start, init, chain) + FinalizedNow(chain, Run(makeId, seller, start, init), e)
  }

  /** Those of them that every later restart found finalized on disk, or that were finalized again since. */
  ghost function OnRecord(makeId: Envelope -> string, seller: string, start: Books, events: seq<Event>,
                          chain: string): set<string> {
    if events == [] then {}
    else
      var init, e := events[..|events| - 1], events[|events| - 1];
      var b, before := Run(makeId, seller, start, init), OnRecord(makeId, seller, start, init, chain);
      if e.Restarting? && multiset(e.listing) == multiset(Copies(b)) then set t | t in before && CopySays(chain, b, t)
      else before + FinalizedNow(chain, b, e)
  }

  /** The transactions that a list counts. */
  ghost predicate Reports(chain: string, list: seq<Receipt>, t: string) {
    exists r :: r in list && Counted(chain, r) && r.envelope.transaction == t
  }

  lemma PersistLive(b: Books, id: string, volume: bool)
    ensures Persisted(b, id, volume).live == b.live
  {
  }

  lemma FinalizeReports(chain: string, b: Books, e: Event, t: string)
    requires DistinctIds(b.live) && e.Finalizing?
    ensures Reports(chain, FinalizeReceipt(b, e.id, e.volume).live, t) <==>
      Reports(chain, b.live, t) || t in FinalizedNow(chain, b, e)
  {
    hide Persisted;
    if Has(b.live, e.id) && Get(b.live, e.id).value.status != Challenged {
      var k := Position(b.live, e.id);
      var live' := WithStatus(b.live, e.id, Finalized);
      PersistLive(b.(live := live'), e.id, e.volume);
      assert forall i | 0 <= i < |live'| && i != k :: live'[i] == b.live[i];
      assert live'[k] == b.live[k].(status := Finalized);
      ReportsUpdate(chain, b.live, k, live'[k], t);
    }
  }

  /** Counting one entry more can only add its own transaction. */
  lemma ReportsUpdate(chain: string, list: seq<Receipt>, k: nat, r: Receipt, t: string)
    requires k < |list| && (Counted(chain, list[k]) ==> Counted(chain, r))
    requires r.envelope == list[k].envelope
    ensures Reports(chain, list[k := r], t) <==>
      Reports(chain, list, t) || (Counted(chain, r) && r.envelope.transaction == t)
  {
    hide Counted;
    var list' := list[k := r];
    if Reports(chain, list, t) {
      var x :| x in list && Counted(chain, x) && x.envelope.transaction == t;
      var i :| 0 <= i < |list| && list[i] == x;
      assert list'[i] in list';
    }
    if Reports(chain, list', t) {
      var x :| x in list' && Counted(chain, x) && x.envelope.transaction == t;
      var i :| 0 <= i < |list'| && list'[i] == x;
      assert i != k ==> list[i] in list;
    }
    assert list'[k] == r && r in list';
  }

  lemma ChallengeReports(chain: string, b: Books, id: string, volume: bool, t: string)
    ensures Reports(chain, ChallengeReceipt(b, id, volume).live, t) <==> Reports(chain, b.live, t)
  {
    hide Persisted;
    PersistLive(b, id, volume);
    if Has(b.live, id) && Get(b.live, id).value.status != Finalized {
      var k := Position(b.live, id);
      var live' := WithStatus(b.live, id, Challenged);
      PersistLive(b.(live := live'), id, volume);
      ReportsUpdate(chain, b.live, k, live'[k], t);
    }
  }

  lemma AnchorReports(chain: string, makeId: Envelope -> string, seller: string, b: Books, s: Settled, now: int,
                      volume: bool, t: string)
    ensures Reports(chain, AnchorSettlement(makeId, seller, b, s, now, volume).0.live, t) <==> Reports(chain, b.live, t)
  {
    hide Persisted, FirstFor, Has;
    var e := EnvelopeOf(seller, s, now);
    var r := Receipt(makeId(e), e, now, Anchored);
    var k := FirstFor(b.live, s.chain, s.transaction);
    if k < |b.live| {
      PersistLive(b, b.live[k].id, volume);
    }
    PersistLive(b, makeId(e), volume);
    PersistLive(Recorded(b, r), makeId(e), volume);
    assert Reports(chain, b.live + [r], t) <==> Reports(chain, b.live, t);
  }

  lemma RestartReports(chain: string, b: Books, listing: seq<Receipt>, t: string)
    requires Kept(b) && multiset(listing) == multiset(Copies(b))
    ensures Reports(chain, RestartedWith(b, listing).live, t) <==> Reports(chain, b.live, t) && CopySays(chain, b, t)
  {
    RestartKeeps(b, listing);
    SameMembers(listing, Copies(b));
    if CopySays(chain, b, t) {
      var c :| c in Copies(b) && Counted(chain, c) && c.envelope.transaction == t;
      assert CopyOf(c, Get(b.live, c.id).value);
      assert Get(b.live, c.id).value in b.live;
    }
  }

  lemma {:induction false} ReportedIsOnRecord(makeId: Envelope -> string, seller: string, start: Books,
                                              events: seq<Event>, chain: string, t: string)
    requires Empty(start) && Resetting !in events
    ensures Reports(chain, Run(makeId, seller, start, events).live, t) <==>
      t in OnRecord(makeId, seller, start, events, chain)
  {
    if events != [] {
      hide Kept, FinalizedNow, Reports, CopySays, FinalizeReceipt, ChallengeReceipt, AnchorSettlement, RestartedWith;
      var init, e := events[..|events| - 1], events[|events| - 1];
      var b := Run(makeId, seller, start, init);
      ReportedIsOnRecord(makeId, seller, start, init, chain, t);
      RunKeeps(makeId, seller, start, init);
      KeptIds(b);
      assert e in events;
      match e
      case Anchoring(s, now, volume) =>
        AnchorReports(chain, makeId, seller, b, s, now, volume, t);
        NothingFinalized(chain, b, e);
      case Finalizing(id, volume) =>
        FinalizeReports(chain, b, e, t);
      case Challenging(id, volume) =>
        ChallengeReports(chain, b, id, volume, t);
        NothingFinalized(chain, b, e);
      case Restarting(listing) =>
        NothingFinalized(chain, b, e);
        if multiset(listing) == multiset(Copies(b)) {
          RestartReports(chain, b, listing, t);
        } else {
          NotRestarted(b, listing);
        }
    }
  }

  lemma NotRestarted(b: Books, listing: seq<Receipt>)
    requires multiset(listing) != multiset(Copies(b))
    ensures RestartedWith(b, listing) == b
  {
  }

  lemma KeptIds(b: Books)
    requires Kept(b)
    ensures DistinctIds(b.live) && DistinctTransactions(b.live)
  {
  }

  lemma NothingFinalized(chain: string, b: Books, e: Event)
    requires !e.Finalizing?
    ensures FinalizedNow(chain, b, e) == {}
  {
  }

  lemma {:induction false} RecordedWasFinalized(makeId: Envelope -> string, seller: string, start: Books,
                                                events: seq<Event>, chain: string)
    ensures OnRecord(makeId, seller, start, events, chain) <= Ever(makeId, seller, start, events, chain)
  {
    if events != [] {
      hide FinalizedNow, CopySays;
      RecordedWasFinalized(makeId, seller, start, events[..|events| - 1], chain);
    }
  }

  /**
   * In every run without a ledger reset the report counts exactly the transactions that were finalized and are
   * still on record, each once and with its amount. It counts every transaction the run ever finalized if and
   * only if no restart lost one for good.
   */
  lemma UsageIsExact(makeId: Envelope -> string, seller: string, start: Books, events: seq<Event>, chain: string)
    requires Empty(start) && Resetting !in events
    ensures var b := Run(makeId, seller, start, events);
      var record, ever := OnRecord(makeId, seller, start, events, chain), Ever(makeId, seller, start, events, chain);
      var counted := CountedOf(chain, b.live);
      && (set t | t in Transactions(counted)) == record && NoRepeats(Transactions(counted))
      && UsageOf(chain, Merged(b)).paid == |record| && UsageOf(chain, Merged(b)).total == Total(counted)
      && (UsageOf(chain, Merged(b)).paid == |ever| <==> ever <= record)
  {
    hide Run, Ever, OnRecord, Merged, CountedOf, Kept, UsageOf, Total, NoRepeats, Empty;
    RunKeeps(makeId, seller, start, events);
    ReportedSet(makeId, seller, start, events, chain);
    RecordedWasFinalized(makeId, seller, start, events, chain);
    LiveUsage(chain, Run(makeId, seller, start, events));
    Complete(OnRecord(makeId, seller, start, events, chain), Ever(makeId, seller, start, events, chain));
  }

  lemma Complete(record: set<string>, ever: set<string>)
    requires record <= ever
    ensures |record| == |ever| <==> ever <= record
  {
    if |record| == |ever| {
      SameSize(record, ever);
    } else {
      assert ever <= record ==> ever == record;
    }
  }

  lemma ReportedSet(makeId: Envelope -> string, seller: string, start: Books, events: seq<Event>, chain: string)
    requires Empty(start) && Resetting !in events
    ensures (set t | t in Transactions(CountedOf(chain, Run(makeId, seller, start, events).live))) ==
      OnRecord(makeId, seller, start, events, chain)
  {
    var live, record := Run(makeId, seller, start, events).live, OnRecord(makeId, seller, start, events, chain);
    forall t ensures t in Transactions(CountedOf(chain, live)) <==> t in record {
      ReportedIsOnRecord(makeId, seller, start, events, chain, t);
      CountedTransactions(chain, live, t);
    }
    hide Run, OnRecord, CountedOf, Reports;
  }

  lemma LiveUsage(chain: string, b: Books)
    requires Kept(b)
    ensures var counted := CountedOf(chain, b.live);
      && UsageOf(chain, Merged(b)).paid == |counted| == |set t | t in Transactions(counted)|
      && UsageOf(chain, Merged(b)).total == Total(counted) && NoRepeats(Transactions(counted))
  {
    UsageIsLive(chain, b);
    NothingMissing(Copies(b), b.live);
    CountedDistinct(chain, b.live);
    DistinctCount(Transactions(CountedOf(chain, b.live)));
  }

  lemma SameSize(small: set<string>, large: set<string>)
    requires small <= large && |small| == |large|
    ensures small == large
  {
    assert large == small + (large - small);
  }

  lemma CountedTransactions(chain: string, list: seq<Receipt>, t: string)
    ensures t in Transactions(CountedOf(chain, list)) <==> Reports(chain, list, t)
  {
    var counted := CountedOf(chain, list);
    forall x ensures x in counted <==> x in list && Counted(chain, x) {
      InCounted(chain, list, x);
    }
    hide CountedOf, Counted;
    if t in Transactions(counted) {
      var i :| 0 <= i < |counted| && Transactions(counted)[i] == t;
      assert counted[i] in counted;
    }
    if Reports(chain, list, t) {
      var x :| x in list && Counted(chain, x) && x.envelope.transaction == t;
      var i :| 0 <= i < |counted| && counted[i] == x;
      assert Transactions(counted)[i] == t;
    }
  }

  /** Every finalized live receipt is finalized on disk. */
  ghost predicate Saved(b: Books) {
    forall r | r in b.live && r.status == Finalized :: r in Copies(b)
  }

  /** The run has no restart, or it has a directory whose volume was up at every finalization. */
  ghost predicate NothingToLose(start: Books, events: seq<Event>) {
    || (forall e | e in events :: !e.Restarting?)
    || (start.durable.Some? && forall e | e in events && e.Finalizing? :: e.volume)
  }

  lemma PersistSaves(b: Books, b': Books, id: string, volume: bool)
    requires Kept(b') && Saved(b) && b'.durable == b.durable && b.durable.Some?
    requires forall r | r in b'.live && r.status == Finalized && r.id != id :: r in b.live
    requires (forall r | r in b'.live && r.id == id && r.status == Finalized :: r in b.live) || volume
    ensures Saved(Persisted(b', id, volume))
  {
    if Has(b'.live, id) && volume {
      var r := Get(b'.live, id).value;
      hide Put;
      PutKeepsIds(b'.durable.value, r);
      forall x | x in b'.live && x.status == Finalized ensures x in Put(b'.durable.value, r) {
        if x.id == id {
          assert r in b'.live;
          SameIdSame(b'.live, x, r);
        }
      }
    }
  }

  lemma StatusLive(live: seq<Receipt>, id: string, status: ReceiptStatus)
    requires Has(live, id) && DistinctIds(live)
    ensures forall x | x in WithStatus(live, id, status) && x.id != id :: x in live
    ensures forall x | x in WithStatus(live, id, status) && x.id == id :: x.status == status
  {
    var k := Position(live, id);
    var live' := WithStatus(live, id, status);
    forall x | x in live' ensures (x.id != id ==> x in live) && (x.id == id ==> x.status == status) {
      var i :| 0 <= i < |live'| && live'[i] == x;
      assert i != k ==> live[i] == x && x in live;
      PositionIs(live, i);
    }
  }

  lemma ApplySaves(makeId: Envelope -> string, seller: string, b: Books, e: Event)
    requires Kept(b) && Saved(b) && b.durable.Some? && e != Resetting && (e.Finalizing? ==> e.volume)
    ensures Saved(Apply(makeId, seller, b, e)) && Apply(makeId, seller, b, e).durable.Some?
  {
    hide Position, FirstFor, Has, NonceKey, Put, Copied, Restored;
    match e
    case Anchoring(s, now, volume) =>
      var k := FirstFor(b.live, s.chain, s.transaction);
      if k < |b.live| {
        PersistSaves(b, b, b.live[k].id, volume);
      } else {
        var e := EnvelopeOf(seller, s, now);
        PersistSaves(b, b, makeId(e), volume);
        if Recordable(b, makeId(e), e) {
          RecordKeeps(b, Receipt(makeId(e), e, now, Anchored));
          PersistSaves(b, Recorded(b, Receipt(makeId(e), e, now, Anchored)), makeId(e), volume);
        }
      }
    case Finalizing(id, volume) =>
      if Has(b.live, id) && Get(b.live, id).value.status != Challenged {
        StatusKeeps(b, id, Finalized);
        StatusLive(b.live, id, Finalized);
        PersistSaves(b, b.(live := WithStatus(b.live, id, Finalized)), id, volume);
      }
    case Challenging(id, volume) =>
      PersistSaves(b, b, id, volume);
      if Has(b.live, id) && Get(b.live, id).value.status != Finalized {
        StatusKeeps(b, id, Challenged);
        StatusLive(b.live, id, Challenged);
        PersistSaves(b, b.(live := WithStatus(b.live, id, Challenged)), id, volume);
      }
    case Restarting(listing) =>
      if multiset(listing) == multiset(Copies(b)) {
        RestartKeeps(b, listing);
        SameMembers(listing, Copies(b));
      }
  }

  lemma {:induction false} RunSaves(makeId: Envelope -> string, seller: string, start: Books, events: seq<Event>)
    requires Empty(start) && Resetting !in events
    requires start.durable.Some? && forall e | e in events && e.Finalizing? :: e.volume
    ensures Saved(Run(makeId, seller, start, events)) && Run(makeId, seller, start, events).durable.Some?
  {
    if events != [] {
      hide Apply, Saved;
      var init := events[..|events| - 1];
      RunKeeps(makeId, seller, start, init);
      RunSaves(makeId, seller, start, init);
      assert events[|events| - 1] in events;
      ApplySaves(makeId, seller, Run(makeId, seller, start, init), events[|events| - 1]);
    }
  }

  /** Then the report counts every transaction that the run ever finalized. */
  lemma {:induction false} NothingIsLost(makeId: Envelope -> string, seller: string, start: Books, events: seq<Event>,
                                         chain: string)
    requires Empty(start) && Resetting !in events && NothingToLose(start, events)
    ensures OnRecord(makeId, seller, start, events, chain) == Ever(makeId, seller, start, events, chain)
  {
    if events != [] {
      hide Apply, FinalizedNow, Saved, CopySays, Reports;
      var init, e := events[..|events| - 1], events[|events| - 1];
      assert e in events;
      NothingIsLost(makeId, seller, start, init, chain);
      var b := Run(makeId, seller, start, init);
      NothingFinalizedUnless(chain, b, e);
      if e.Restarting? && multiset(e.listing) == multiset(Copies(b)) {
        RunSaves(makeId, seller, start, init);
        forall t | t in OnRecord(makeId, seller, start, init, chain) ensures CopySays(chain, b, t) {
          ReportedIsOnRecord(makeId, seller, start, init, chain, t);
          SavedSays(chain, b, t);
        }
      }
    }
  }

  lemma NothingFinalizedUnless(chain: string, b: Books, e: Event)
    ensures e.Finalizing? || FinalizedNow(chain, b, e) == {}
  {
  }

  lemma SavedSays(chain: string, b: Books, t: string)
    requires Saved(b) && Reports(chain, b.live, t)
    ensures CopySays(chain, b, t)
  {
  }

  /** A finalization whose copy fails is forgotten by the next restart. */
  lemma LostFinalization(makeId: Envelope -> string, seller: string, s: Settled, now: int) returns (events: seq<Event>)
    requires s.chain != "" && s.payer != "" && s.transaction != "" && seller != "" && IsNumber(s.amount)
    ensures Resetting !in events
    ensures var start := Books([], {}, Some([]));
      && Ever(makeId, seller, start, events, s.chain) == {s.transaction}
      && OnRecord(makeId, seller, start, events, s.chain) == {}
      && UsageOf(s.chain, Merged(Run(makeId, seller, start, events))).paid == 0
  {
    hide Run, Apply, FinalizedNow, CopySays, Ever, OnRecord, UsageOf, Merged, CountedOf, AnchorSettlement,
         FinalizeReceipt, NoRepeats, Total;
    var start := Books([], {}, Some([]));
    var r := Receipt(makeId(EnvelopeOf(seller, s, now)), EnvelopeOf(seller, s, now), now, Anchored);
    var e1, e2, e3 := Anchoring(s, now, true), Finalizing(r.id, false), Restarting([r]);
    events := [e1] + [e2] + [e3];
    assert [] + [e1] == [e1];
    RunNothing(makeId, seller, start);
    RunLast(makeId, seller, start, [], e1);
    RunLast(makeId, seller, start, [e1], e2);
    NothingYet(makeId, seller, start, s.chain);
    RecordLast(makeId, seller, start, [], e1, s.chain);
    RecordLast(makeId, seller, start, [e1], e2, s.chain);
    RecordLast(makeId, seller, start, [e1] + [e2], e3, s.chain);
    var b0, b1 := start, Run(makeId, seller, start, [e1]);
    NothingFinalizedUnless(s.chain, b0, e1);
    AnchoredAlone(makeId, seller, s, now, r);
    ApplyIs(makeId, seller, b0, b1, s, now, r.id);
    FinalizedAlone(seller, s, now, r);
    var b2 := Run(makeId, seller, start, [e1] + [e2]);
    assert Copies(b2) == [r];
    NothingFinalizedUnless(s.chain, b2, e3);
    UsageIsExact(makeId, seller, start, events, s.chain);
  }

  lemma ApplyIs(makeId: Envelope -> string, seller: string, b: Books, b': Books, s: Settled, now: int, id: string)
    ensures Apply(makeId, seller, b, Anchoring(s, now, true)) == AnchorSettlement(makeId, seller, b, s, now, true).0
    ensures Apply(makeId, seller, b', Finalizing(id, false)) == FinalizeReceipt(b', id, false)
  {
  }

  lemma NothingYet(makeId: Envelope -> string, seller: string, start: Books, chain: string)
    ensures Ever(makeId, seller, start, [], chain) == {} && OnRecord(makeId, seller, start, [], chain) == {}
  {
  }

  lemma RecordLast(makeId: Envelope -> string, seller: string, start: Books, events: seq<Event>, e: Event,
                   chain: string)
    ensures var b, before := Run(makeId, seller, start, events), OnRecord(makeId, seller, start, events, chain);
      && Ever(makeId, seller, start, events + [e], chain) ==
           Ever(makeId, seller, start, events, chain) + FinalizedNow(chain, b, e)
      && OnRecord(makeId, seller, start, events + [e], chain) ==
           if e.Restarting? && multiset(e.listing) == multiset(Copies(b))
           then set t | t in before && CopySays(chain, b, t)
           else before + FinalizedNow(chain, b, e)
  {
    hide Run, FinalizedNow, CopySays;
    assert (events + [e])[..|events|] == events;
  }

  lemma AnchoredAlone(makeId: Envelope -> string, seller: string, s: Settled, now: int, r: Receipt)
    requires s.chain != "" && s.payer != "" && s.transaction != "" && seller != "" && IsNumber(s.amount)
    requires r == Receipt(makeId(EnvelopeOf(seller, s, now)), EnvelopeOf(seller, s, now), now, Anchored)
    ensures var b := AnchorSettlement(makeId, seller, Books([], {}, Some([])), s, now, true).0;
      b.live == [r] && b.durable == Some([r])
  {
    assert [r][0] == r && Position([r], r.id) == 0 && [] + [r] == [r];
  }

  lemma FinalizedAlone(seller: string, s: Settled, now: int, r: Receipt)
    requires r.envelope == EnvelopeOf(seller, s, now) && r.status == Anchored
    ensures forall b: Books | b.live == [r] && b.durable == Some([r]) ::
      && FinalizeReceipt(b, r.id, false).durable == Some([r])
      && FinalizedNow(s.chain, b, Finalizing(r.id, false)) == {s.transaction}
    ensures forall b: Books, t | b.durable == Some([r]) :: !CopySays(s.chain, b, t)
  {
    assert [r][0] == r && Position([r], r.id) == 0;
  }
}
