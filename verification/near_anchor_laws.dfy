/**
 * Runs of the anchor: one receipt per transaction, redelivery, and how the usage report over both stores
 * compares with the live registry.
 */
module NearAnchorLaws {
  import opened Wrappers
  import opened Decimal
  import opened NearAnchor
  import opened Receipts

  datatype Event =
    | Anchoring(settled: Settled, now: int, volume: bool)
    | Finalizing(id: string, volume: bool)
    | Challenging(id: string, volume: bool)
    | Restarting(listing: seq<Receipt>)
    | Resetting

  function Copies(b: Books): seq<Receipt> {
    if b.durable.Some? then b.durable.value else []
  }

  /** A new process restores the copies in the order of a listing; a listing of anything else cannot occur. */
  function RestartedWith(b: Books, listing: seq<Receipt>): Books {
    if multiset(listing) != multiset(Copies(b)) then b
    else Books(Restored(listing).0, Restored(listing).1, b.durable)
  }

  function Apply(makeId: Envelope -> string, seller: string, b: Books, e: Event): Books {
    match e
    case Anchoring(s, now, volume) => AnchorSettlement(makeId, seller, b, s, now, volume).0
    case Finalizing(id, volume) => FinalizeReceipt(b, id, volume)
    case Challenging(id, volume) => ChallengeReceipt(b, id, volume)
    case Restarting(listing) => RestartedWith(b, listing)
    case Resetting => Books([], {}, b.durable)
  }

  function Run(makeId: Envelope -> string, seller: string, start: Books, events: seq<Event>): Books {
    if events == [] then start
    else Apply(makeId, seller, Run(makeId, seller, start, events[..|events| - 1]), events[|events| - 1])
  }

  /** A new process without receipts, with or without a directory. */
  predicate Empty(b: Books) {
    b.live == [] && b.nonces == {} && Copies(b) == []
  }

  // ---- One receipt per transaction -----------------------------------------------------------------

  ghost predicate DistinctIds(list: seq<Receipt>) {
    forall i, j | 0 <= i < j < |list| :: list[i].id != list[j].id
  }

  ghost predicate SameTransaction(r: Receipt, r': Receipt) {
    r.envelope.chain == r'.envelope.chain && r.envelope.transaction == r'.envelope.transaction
  }

  ghost predicate DistinctTransactions(list: seq<Receipt>) {
    forall i, j | 0 <= i < j < |list| :: !SameTransaction(list[i], list[j])
  }

  ghost predicate DistinctKeys(list: seq<Receipt>) {
    forall i, j | 0 <= i < j < |list| :: NonceKey(list[i].envelope) != NonceKey(list[j].envelope)
  }

  ghost predicate Registered(b: Books) {
    && DistinctIds(b.live) && DistinctTransactions(b.live) && DistinctKeys(b.live)
    && forall r | r in b.live :: NonceKey(r.envelope) in b.nonces
  }

  /** The copy of a receipt: its envelope, and its status unless that is older. */
  ghost predicate CopyOf(c: Receipt, r: Receipt) {
    c.id == r.id && c.envelope == r.envelope && (c.status == Anchored || c.status == r.status)
  }

  /** Every durable copy is the copy of a live receipt. */
  ghost predicate Copied(copies: seq<Receipt>, live: seq<Receipt>) {
    && DistinctIds(copies)
    && forall c | c in copies :: Has(live, c.id) && CopyOf(c, Get(live, c.id).value)
  }

  ghost predicate Kept(b: Books) {
    Registered(b) && Copied(Copies(b), b.live)
  }

  lemma PositionIs(list: seq<Receipt>, k: nat)
    requires DistinctIds(list) && k < |list|
    ensures Position(list, list[k].id) == k
  {
    var p := Position(list, list[k].id);
  }

  lemma PutKeepsIds(list: seq<Receipt>, r: Receipt)
    requires DistinctIds(list)
    ensures DistinctIds(Put(list, r))
    ensures forall x | x in Put(list, r) :: x == r || (x in list && x.id != r.id)
    ensures forall id :: Has(Put(list, r), id) <==> Has(list, id) || id == r.id
    ensures forall x | x in list && x.id != r.id :: x in Put(list, r)
    ensures r in Put(list, r)
  {
    var k := Position(list, r.id);
    var list' := Put(list, r);
    if k < |list| {
      forall id ensures Has(list', id) <==> Has(list, id) {
        if Has(list, id) {
          var i :| 0 <= i < |list| && list[i].id == id;
          assert list'[i].id == id;
        }
        if Has(list', id) {
          var i :| 0 <= i < |list'| && list'[i].id == id;
          assert list[i].id == id;
        }
      }
      forall x | x in list' ensures x == r || (x in list && x.id != r.id) {
        var i :| 0 <= i < |list'| && list'[i] == x;
        assert i != k ==> list[i] == x && list[k].id == r.id;
      }
      assert list'[k] == r;
      forall x | x in list && x.id != r.id ensures x in list' {
        var i :| 0 <= i < |list| && list[i] == x;
        assert list'[i] == x;
      }
    } else {
      forall id ensures Has(list', id) <==> Has(list, id) || id == r.id {
        if Has(list, id) {
          var i :| 0 <= i < |list| && list[i].id == id;
          assert list'[i].id == id;
        }
        assert list'[|list|].id == r.id;
        if Has(list', id) {
          var i :| 0 <= i < |list'| && list'[i].id == id;
          assert i < |list| ==> list[i].id == id;
        }
      }
    }
  }

  lemma PersistKeeps(b: Books, id: string, volume: bool)
    requires Kept(b)
    ensures Kept(Persisted(b, id, volume))
  {
    if b.durable.Some? && Has(b.live, id) && volume {
      var r := Get(b.live, id).value;
      hide Put;
      PutKeepsIds(b.durable.value, r);
    }
  }

  /** Changing a status changes neither ids nor envelopes. */
  lemma StatusKeeps(b: Books, id: string, status: ReceiptStatus)
    requires Kept(b) && Has(b.live, id) && Get(b.live, id).value.status in {Anchored, status}
    ensures Kept(b.(live := WithStatus(b.live, id, status)))
  {
    hide NonceKey, Position;
    var k := Position(b.live, id);
    var live' := WithStatus(b.live, id, status);
    assert forall i | 0 <= i < |live'| :: live'[i].id == b.live[i].id && live'[i].envelope == b.live[i].envelope;
    forall r | r in Copies(b) ensures Has(live', r.id) && CopyOf(r, Get(live', r.id).value) {
      var p := Position(b.live, r.id);
      assert live'[p].id == r.id;
      PositionIs(live', p);
    }
    forall r | r in live' ensures NonceKey(r.envelope) in b.nonces {
      var i :| 0 <= i < |live'| && live'[i] == r;
      assert b.live[i] in b.live;
    }
  }

  lemma CopiedSnoc(copies: seq<Receipt>, live: seq<Receipt>, r: Receipt)
    requires Copied(copies, live) && DistinctIds(live + [r])
    ensures Copied(copies, live + [r])
  {
    hide Position;
    forall x | x in copies ensures Has(live + [r], x.id) && CopyOf(x, Get(live + [r], x.id).value) {
      var p := Position(live, x.id);
      assert (live + [r])[p] == live[p];
      PositionIs(live + [r], p);
    }
  }

  lemma RecordKeeps(b: Books, r: Receipt)
    requires Kept(b) && !Has(b.live, r.id) && NonceKey(r.envelope) !in b.nonces
    requires FirstFor(b.live, r.envelope.chain, r.envelope.transaction) == |b.live|
    ensures Kept(Recorded(b, r))
  {
    hide NonceKey, Position, FirstFor, Copied;
    forall i | 0 <= i < |b.live|
      ensures b.live[i].id != r.id && NonceKey(b.live[i].envelope) != NonceKey(r.envelope)
      ensures !SameTransaction(b.live[i], r)
    {
      assert b.live[i] in b.live;
    }
    CopiedSnoc(Copies(b), b.live, r);
  }

  ghost predicate KeyOf(list: seq<Receipt>, key: string) {
    exists i | 0 <= i < |list| :: NonceKey(list[i].envelope) == key
  }

  /** The keys are those of the list. */
  ghost predicate KeysOf(list: seq<Receipt>, keys: set<string>) {
    && (forall key | key in keys :: KeyOf(list, key))
    && (forall i | 0 <= i < |list| :: NonceKey(list[i].envelope) in keys)
  }

  lemma KeysSnoc(init: seq<Receipt>, r: Receipt, keys: set<string>)
    requires KeysOf(init, keys)
    ensures KeysOf(init + [r], keys + {NonceKey(r.envelope)})
  {
    hide NonceKey;
    var all := init + [r];
    forall key | key in keys ensures KeyOf(all, key) {
      var i :| 0 <= i < |init| && NonceKey(init[i].envelope) == key;
      assert all[i] == init[i];
    }
    assert all[|init|] == r && KeyOf(all, NonceKey(r.envelope));
  }

  /** With distinct ids and nonces nothing is skipped. */
  lemma {:induction false} RestoredAll(copies: seq<Receipt>)
    requires DistinctIds(copies) && DistinctKeys(copies)
    ensures Restored(copies).0 == copies && KeysOf(copies, Restored(copies).1)
  {
    hide NonceKey, Position, Has, KeyOf;
    if copies != [] {
      var init, r := copies[..|copies| - 1], copies[|copies| - 1];
      FewerDistinct(copies);
      RestoredAll(init);
      hide Restored, DistinctIds, DistinctKeys, KeysOf;
      assert copies == init + [r];
      RestoredLast(init, r);
      KeysSnoc(init, r, Restored(init).1);
    }
  }

  lemma FewerDistinct(copies: seq<Receipt>)
    requires copies != [] && DistinctIds(copies) && DistinctKeys(copies)
    ensures DistinctIds(copies[..|copies| - 1]) && DistinctKeys(copies[..|copies| - 1])
  {
    hide NonceKey;
  }

  lemma RestoredStep(init: seq<Receipt>, r: Receipt)
    ensures Restored(init + [r]) ==
      var (live, nonces) := Restored(init);
      if Has(live, r.id) || NonceKey(r.envelope) in nonces then (live, nonces)
      else (live + [r], nonces + {NonceKey(r.envelope)})
  {
    hide NonceKey, Has;
    assert (init + [r])[..|init|] == init;
  }

  lemma RestoredLast(init: seq<Receipt>, r: Receipt)
    requires DistinctIds(init + [r]) && DistinctKeys(init + [r])
    requires Restored(init).0 == init && KeysOf(init, Restored(init).1)
    ensures Restored(init + [r]) == (init + [r], Restored(init).1 + {NonceKey(r.envelope)})
  {
    hide NonceKey, Position, Restored;
    RestoredStep(init, r);
    var all := init + [r];
    assert all[|init|] == r;
    forall i | 0 <= i < |init| ensures init[i].id != r.id && NonceKey(init[i].envelope) != NonceKey(r.envelope) {
      assert init[i] == all[i];
    }
  }

  lemma CopiesAreDistinct(copies: seq<Receipt>, b: Books)
    requires Registered(b) && Copied(copies, b.live)
    ensures DistinctTransactions(copies) && DistinctKeys(copies)
  {
    forall i, j | 0 <= i < j < |copies|
      ensures !SameTransaction(copies[i], copies[j])
      ensures NonceKey(copies[i].envelope) != NonceKey(copies[j].envelope)
    {
      assert copies[i] in copies && copies[j] in copies;
      var p, q := Position(b.live, copies[i].id), Position(b.live, copies[j].id);
      assert p != q && b.live[p].envelope == copies[i].envelope && b.live[q].envelope == copies[j].envelope;
      assert if p < q then !SameTransaction(b.live[p], b.live[q]) else !SameTransaction(b.live[q], b.live[p]);
    }
  }

  lemma ListingIsCopied(listing: seq<Receipt>, copies: seq<Receipt>, live: seq<Receipt>)
    requires Copied(copies, live) && multiset(listing) == multiset(copies)
    ensures Copied(listing, live)
    ensures forall x :: x in listing <==> x in copies
  {
    SameMembers(listing, copies);
    ListedOnce(listing, copies);
  }

  lemma ListedOnce(listing: seq<Receipt>, copies: seq<Receipt>)
    requires DistinctIds(copies) && multiset(listing) == multiset(copies)
    ensures DistinctIds(listing)
  {
    SameMembers(listing, copies);
    forall i, j | 0 <= i < j < |listing| ensures listing[i].id != listing[j].id {
      if listing[i].id == listing[j].id {
        assert listing[i] in copies && listing[j] in copies;
        SameIdSame(copies, listing[i], listing[j]);
        Twice(listing, i, j);
        Once(copies, listing[i]);
      }
    }
  }

  lemma SameMembers(s: seq<Receipt>, t: seq<Receipt>)
    requires multiset(s) == multiset(t)
    ensures forall x :: x in s <==> x in t
  {
    forall x ensures x in s <==> x in t {
      assert x in s <==> x in multiset(s);
      assert x in t <==> x in multiset(t);
    }
  }

  lemma SameIdSame(list: seq<Receipt>, x: Receipt, y: Receipt)
    requires DistinctIds(list) && x in list && y in list && x.id == y.id
    ensures x == y
  {
    var i :| 0 <= i < |list| && list[i] == x;
    var j :| 0 <= j < |list| && list[j] == y;
    PositionIs(list, i);
    PositionIs(list, j);
  }

  lemma Twice(list: seq<Receipt>, i: nat, j: nat)
    requires i < j < |list| && list[i] == list[j]
    ensures multiset(list)[list[i]] >= 2
  {
    assert list == list[..i] + [list[i]] + list[i + 1..j] + [list[j]] + list[j + 1..];
  }

  lemma Once(list: seq<Receipt>, x: Receipt)
    requires DistinctIds(list) && x in list
    ensures multiset(list)[x] == 1
  {
    var i :| 0 <= i < |list| && list[i] == x;
    assert list == list[..i] + [x] + list[i + 1..];
    assert x !in list[..i] && x !in list[i + 1..] by {
      assert forall k | 0 <= k < i :: list[k].id != x.id;
      assert forall k | i < k < |list| :: list[k].id != x.id;
    }
  }

  lemma RestartKeeps(b: Books, listing: seq<Receipt>)
    requires Kept(b) && multiset(listing) == multiset(Copies(b))
    ensures RestartedWith(b, listing).live == listing
    ensures Kept(RestartedWith(b, listing))
  {
    ListingIsCopied(listing, Copies(b), b.live);
    CopiesAreDistinct(listing, b);
    RestoredAll(listing);
    forall c | c in Copies(b) ensures Has(listing, c.id) && CopyOf(c, Get(listing, c.id).value) {
      var i :| 0 <= i < |listing| && listing[i] == c;
      PositionIs(listing, i);
    }
  }

  lemma ApplyKeeps(makeId: Envelope -> string, seller: string, b: Books, e: Event)
    requires Kept(b) && e != Resetting
    ensures Kept(Apply(makeId, seller, b, e))
  {
    hide Kept, Persisted, Position, FirstFor, Has, WithStatus, Restored;
    match e
    case Anchoring(s, now, volume) =>
      var k := FirstFor(b.live, s.chain, s.transaction);
      if k < |b.live| {
        PersistKeeps(b, b.live[k].id, volume);
      } else {
        var e := EnvelopeOf(seller, s, now);
        PersistKeeps(b, makeId(e), volume);
        if Recordable(b, makeId(e), e) {
          RecordKeeps(b, Receipt(makeId(e), e, now, Anchored));
          PersistKeeps(Recorded(b, Receipt(makeId(e), e, now, Anchored)), makeId(e), volume);
        }
      }
    case Finalizing(id, volume) =>
      if Has(b.live, id) && Get(b.live, id).value.status != Challenged {
        StatusKeeps(b, id, Finalized);
        PersistKeeps(b.(live := WithStatus(b.live, id, Finalized)), id, volume);
      }
    case Challenging(id, volume) =>
      PersistKeeps(b, id, volume);
      if Has(b.live, id) && Get(b.live, id).value.status != Finalized {
        StatusKeeps(b, id, Challenged);
        PersistKeeps(b.(live := WithStatus(b.live, id, Challenged)), id, volume);
      }
    case Restarting(listing) =>
      if multiset(listing) == multiset(Copies(b)) {
        RestartKeeps(b, listing);
      }
  }

  lemma {:induction false} RunKeeps(makeId: Envelope -> string, seller: string, start: Books, events: seq<Event>)
    requires Empty(start) && Resetting !in events
    ensures Kept(Run(makeId, seller, start, events))
  {
    if events != [] {
      hide Kept, Apply;
      RunKeeps(makeId, seller, start, events[..|events| - 1]);
      ApplyKeeps(makeId, seller, Run(makeId, seller, start, events[..|events| - 1]), events[|events| - 1]);
    }
  }

  /** However payments are delivered, redelivered, finalized and restarted over, a transaction has one receipt. */
  lemma OneReceiptPerTransaction(makeId: Envelope -> string, seller: string, start: Books, events: seq<Event>)
    requires Empty(start) && Resetting !in events
    ensures DistinctIds(Run(makeId, seller, start, events).live)
    ensures DistinctTransactions(Run(makeId, seller, start, events).live)
  {
    RunKeeps(makeId, seller, start, events);
  }

  /** A receipt once anchored is found again: redelivery of its payment returns it and adds nothing. */
  lemma RedeliveryReturnsIt(makeId: Envelope -> string, seller: string, start: Books, events: seq<Event>,
                            r: Receipt, s: Settled, now: int, volume: bool)
    requires Empty(start) && Resetting !in events
    requires r in Run(makeId, seller, start, events).live
    requires r.envelope.chain == s.chain && r.envelope.transaction == s.transaction
    ensures var b := Run(makeId, seller, start, events);
      var (b', id) := AnchorSettlement(makeId, seller, b, s, now, volume);
      && b'.live == b.live
      && id == if s.payer != "" && s.transaction != "" && IsNumber(s.amount) && SameSettlement(r.envelope, seller, s)
               then Some(r.id) else None
  {
    RunKeeps(makeId, seller, start, events);
    FoundAgain(Run(makeId, seller, start, events).live, r, s.chain, s.transaction);
    hide Run, Position, FirstFor, Kept, Put;
  }

  lemma FoundAgain(list: seq<Receipt>, r: Receipt, chain: string, transaction: string)
    requires DistinctTransactions(list) && r in list
    requires r.envelope.chain == chain && r.envelope.transaction == transaction
    ensures FirstFor(list, chain, transaction) < |list| && list[FirstFor(list, chain, transaction)] == r
  {
    var i :| 0 <= i < |list| && list[i] == r;
    var k := FirstFor(list, chain, transaction);
    assert k <= i;
    assert k < i ==> !SameTransaction(list[k], list[i]);
  }

  // ---- Usage totals --------------------------------------------------------------------------------

  function Sum(weight: Receipt -> nat, list: seq<Receipt>): nat {
    if list == [] then 0 else Sum(weight, list[..|list| - 1]) + weight(list[|list| - 1])
  }

  /** The durable copies that are not in the live registry. */
  function Strays(copies: seq<Receipt>, live: seq<Receipt>): seq<Receipt> {
    if copies == [] then []
    else
      var r := copies[|copies| - 1];
      Strays(copies[..|copies| - 1], live) + if Has(live, r.id) then [] else [r]
  }

  function One(chain: string): Receipt -> nat {
    r => if Counted(chain, r) then 1 else 0
  }

  function Amount(chain: string): Receipt -> nat {
    r => if Counted(chain, r) then Yocto(r) else 0
  }

  lemma {:induction false} CountedSums(chain: string, list: seq<Receipt>)
    ensures |CountedOf(chain, list)| == Sum(One(chain), list)
    ensures Total(CountedOf(chain, list)) == Sum(Amount(chain), list)
  {
    if list != [] {
      var init, r := list[..|list| - 1], list[|list| - 1];
      CountedSums(chain, init);
      var counted := CountedOf(chain, init);
      assert (counted + [r])[..|counted|] == counted && counted + [] == counted;
      assert CountedOf(chain, list) == if Counted(chain, r) then counted + [r] else counted;
    }
  }

  lemma {:induction false} SumUpdate(weight: Receipt -> nat, list: seq<Receipt>, k: nat, r: Receipt)
    requires k < |list|
    ensures Sum(weight, list[k := r]) + weight(list[k]) == Sum(weight, list) + weight(r)
    decreases |list|
  {
    var n := |list| - 1;
    if k == n {
      assert list[k := r][..n] == list[..n];
    } else {
      assert list[k := r][..n] == list[..n][k := r];
      SumUpdate(weight, list[..n], k, r);
    }
  }

  /** One more live receipt takes one copy out of the strays, if there is a copy of it. */
  lemma {:induction false} StraySum(weight: Receipt -> nat, copies: seq<Receipt>, live: seq<Receipt>, r: Receipt)
    requires DistinctIds(copies) && !Has(live, r.id)
    ensures Sum(weight, Strays(copies, live)) ==
      Sum(weight, Strays(copies, live + [r])) + CopyWeight(weight, copies, r.id)
  {
    if copies == [] {
      NothingFound(weight, r.id);
    } else {
      var init, c := copies[..|copies| - 1], copies[|copies| - 1];
      assert copies == init + [c];
      assert DistinctIds(init);
      StraySum(weight, init, live, r);
      hide Sum, Strays, CopyWeight;
      HasSnoc(live, r);
      StraysSnoc(weight, init, c, live);
      StraysSnoc(weight, init, c, live + [r]);
      CopySnoc(weight, init, c, r.id);
    }
  }

  function CopyWeight(weight: Receipt -> nat, copies: seq<Receipt>, id: string): nat {
    if Has(copies, id) then weight(Get(copies, id).value) else 0
  }

  lemma NothingFound(weight: Receipt -> nat, id: string)
    ensures CopyWeight(weight, [], id) == 0
  {
  }

  lemma CopySnoc(weight: Receipt -> nat, init: seq<Receipt>, c: Receipt, id: string)
    requires DistinctIds(init + [c])
    ensures CopyWeight(weight, init + [c], id) == if c.id == id then weight(c) else CopyWeight(weight, init, id)
    ensures c.id == id ==> CopyWeight(weight, init, id) == 0
  {
    var all := init + [c];
    assert all[|init|] == c && forall i | 0 <= i < |init| :: all[i] == init[i];
    HasSnoc(init, c);
    if c.id == id {
      PositionIs(all, |init|);
      assert forall i | 0 <= i < |init| :: init[i].id == all[i].id != all[|init|].id;
    } else if Has(init, id) {
      PositionIs(all, Position(init, id));
    }
  }

  lemma HasSnoc(list: seq<Receipt>, r: Receipt)
    ensures forall id :: Has(list + [r], id) <==> Has(list, id) || id == r.id
  {
    forall id ensures Has(list + [r], id) <==> Has(list, id) || id == r.id {
      if Has(list, id) {
        var i :| 0 <= i < |list| && list[i].id == id;
        assert (list + [r])[i].id == id;
      }
      assert (list + [r])[|list|] == r;
    }
  }

  lemma StraysSnoc(weight: Receipt -> nat, copies: seq<Receipt>, c: Receipt, live: seq<Receipt>)
    ensures Sum(weight, Strays(copies + [c], live)) ==
      Sum(weight, Strays(copies, live)) + if Has(live, c.id) then 0 else weight(c)
  {
    assert (copies + [c])[..|copies|] == copies;
    var s := Strays(copies, live);
    assert (s + [c])[..|s|] == s;
    assert s + [] == s;
  }

  /** Merging keeps the live receipts and the stray copies. */
  lemma {:induction false} MergedMembers(copies: seq<Receipt>, live: seq<Receipt>)
    requires DistinctIds(copies) && DistinctIds(live)
    ensures DistinctIds(PutAll(copies, live))
    ensures forall x :: x in PutAll(copies, live) <==> x in live || (x in copies && !Has(live, x.id))
    decreases |live|
  {
    hide DistinctIds, Has, Put;
    if live == [] {
      NobodyThere();
    } else {
      var init, r := live[..|live| - 1], live[|live| - 1];
      assert live == init + [r];
      IdsSnoc(init, r);
      MergedMembers(copies, init);
      HasSnoc(init, r);
      PutKeepsIds(PutAll(copies, init), r);
      MemberIds(init, r);
    }
  }

  lemma NobodyThere()
    ensures forall id :: !Has([], id)
  {
  }

  lemma IdsSnoc(init: seq<Receipt>, r: Receipt)
    requires DistinctIds(init + [r])
    ensures DistinctIds(init) && !Has(init, r.id)
  {
    var all := init + [r];
    assert all[|init|] == r && forall i | 0 <= i < |init| :: all[i] == init[i];
  }

  lemma MemberIds(list: seq<Receipt>, r: Receipt)
    requires !Has(list, r.id)
    ensures forall x | x in list :: x.id != r.id
  {
  }

  /** Merging counts every live receipt once and every stray copy once. */
  lemma {:induction false} MergedSum(weight: Receipt -> nat, copies: seq<Receipt>, live: seq<Receipt>)
    requires DistinctIds(copies) && DistinctIds(live)
    ensures Sum(weight, PutAll(copies, live)) == Sum(weight, live) + Sum(weight, Strays(copies, live))
    decreases |live|
  {
    hide DistinctIds, Has, Put, Strays, CopyWeight;
    if live == [] {
      NoStrays(copies);
    } else {
      var init, r := live[..|live| - 1], live[|live| - 1];
      assert live == init + [r];
      IdsSnoc(init, r);
      MergedSum(weight, copies, init);
      StraySum(weight, copies, init, r);
      MergedMembers(copies, init);
      MergedHas(PutAll(copies, init), copies, init, r);
      SameWeight(weight, copies, PutAll(copies, init), r.id);
      PutSum(weight, PutAll(copies, init), r);
    }
  }

  lemma SameWeight(weight: Receipt -> nat, copies: seq<Receipt>, merged: seq<Receipt>, id: string)
    requires Has(merged, id) <==> Has(copies, id)
    requires Has(merged, id) ==> Get(merged, id) == Get(copies, id)
    ensures CopyWeight(weight, copies, id) == CopyWeight(weight, merged, id)
  {
  }

  lemma PutSum(weight: Receipt -> nat, list: seq<Receipt>, r: Receipt)
    ensures Sum(weight, Put(list, r)) + CopyWeight(weight, list, r.id) == Sum(weight, list) + weight(r)
  {
    var k := Position(list, r.id);
    if k < |list| {
      SumUpdate(weight, list, k, r);
    } else {
      assert (list + [r])[..|list|] == list;
    }
  }

  /** An id that is not live is merged exactly when it was copied, and then it is the copy. */
  lemma MergedHas(merged: seq<Receipt>, copies: seq<Receipt>, live: seq<Receipt>, r: Receipt)
    requires DistinctIds(merged) && DistinctIds(copies) && !Has(live, r.id)
    requires forall x :: x in merged <==> x in live || (x in copies && !Has(live, x.id))
    ensures Has(merged, r.id) <==> Has(copies, r.id)
    ensures Has(merged, r.id) ==> Get(merged, r.id) == Get(copies, r.id)
  {
    if Has(merged, r.id) {
      var x := merged[Position(merged, r.id)];
      assert x in merged;
      assert forall i | 0 <= i < |live| :: live[i].id != r.id;
      var i :| 0 <= i < |copies| && copies[i] == x;
      PositionIs(copies, i);
    }
    if Has(copies, r.id) {
      var x := copies[Position(copies, r.id)];
      assert x in copies;
      var i :| 0 <= i < |merged| && merged[i] == x;
      PositionIs(merged, i);
    }
  }

  lemma {:induction false} NoStrays(copies: seq<Receipt>)
    ensures Strays(copies, []) == copies
  {
    if copies != [] {
      NoStrays(copies[..|copies| - 1]);
      assert copies == copies[..|copies| - 1] + [copies[|copies| - 1]];
    }
  }

  ghost predicate NothingStray(chain: string, b: Books) {
    CountedOf(chain, Strays(Copies(b), b.live)) == []
  }

  /**
   * The report over both stores counts what the live registry alone would, and no more, exactly when no
   * finalized copy of the network is missing from the registry.
   */
  lemma UsageIsLive(chain: string, b: Books)
    requires DistinctIds(b.live) && DistinctIds(Copies(b))
    ensures UsageOf(chain, Merged(b)).paid ==
      UsageOf(chain, b.live).paid + |CountedOf(chain, Strays(Copies(b), b.live))|
    ensures UsageOf(chain, Merged(b)).total ==
      UsageOf(chain, b.live).total + Total(CountedOf(chain, Strays(Copies(b), b.live)))
    ensures UsageOf(chain, Merged(b)) == UsageOf(chain, b.live) <==> NothingStray(chain, b)
  {
    hide CountedOf, Total, Sum, PutAll, Strays, Payers;
    var copies := Copies(b);
    assert Merged(b) == PutAll(copies, b.live);
    MergedSum(One(chain), copies, b.live);
    MergedSum(Amount(chain), copies, b.live);
    CountedSums(chain, b.live);
    CountedSums(chain, Merged(b));
    CountedSums(chain, Strays(copies, b.live));
    if NothingStray(chain, b) {
      NothingTotal();
      SamePayers(chain, b);
    }
  }

  lemma NothingTotal()
    ensures Total([]) == 0
  {
  }

  lemma {:induction false} InCounted(chain: string, list: seq<Receipt>, x: Receipt)
    ensures x in CountedOf(chain, list) <==> x in list && Counted(chain, x)
  {
    if list != [] {
      InCounted(chain, list[..|list| - 1], x);
      assert list == list[..|list| - 1] + [list[|list| - 1]];
    }
  }

  lemma {:induction false} InStrays(copies: seq<Receipt>, live: seq<Receipt>, x: Receipt)
    ensures x in Strays(copies, live) <==> x in copies && !Has(live, x.id)
  {
    if copies != [] {
      InStrays(copies[..|copies| - 1], live, x);
      assert copies == copies[..|copies| - 1] + [copies[|copies| - 1]];
    }
  }

  lemma SamePayers(chain: string, b: Books)
    requires DistinctIds(b.live) && DistinctIds(Copies(b)) && NothingStray(chain, b)
    ensures Payers(CountedOf(chain, Merged(b))) == Payers(CountedOf(chain, b.live))
  {
    var both, live := CountedOf(chain, Merged(b)), CountedOf(chain, b.live);
    forall x ensures x in both <==> x in live {
      InCounted(chain, Merged(b), x);
      InCounted(chain, b.live, x);
      InStrays(Copies(b), b.live, x);
      InCounted(chain, Strays(Copies(b), b.live), x);
      MergedMembers(Copies(b), b.live);
    }
    hide CountedOf, Merged;
    PayersOf(both);
    PayersOf(live);
  }

  lemma PayersOf(list: seq<Receipt>)
    ensures forall p :: p in Payers(list) <==> exists x :: x in list && x.envelope.payer == p
  {
    forall p | p in Payers(list) ensures exists x :: x in list && x.envelope.payer == p {
      var i :| 0 <= i < |list| && list[i].envelope.payer == p;
      assert list[i] in list;
    }
    forall x | x in list ensures x.envelope.payer in Payers(list) {
      var i :| 0 <= i < |list| && list[i] == x;
    }
  }

  function Transactions(list: seq<Receipt>): (names: seq<string>)
    ensures |names| == |list|
  {
    seq(|list|, i requires 0 <= i < |list| => list[i].envelope.transaction)
  }

  lemma {:induction false} CountedDistinct(chain: string, list: seq<Receipt>)
    requires DistinctTransactions(list)
    ensures NoRepeats(Transactions(CountedOf(chain, list)))
  {
    if list != [] {
      var init, r := list[..|list| - 1], list[|list| - 1];
      CountedDistinct(chain, init);
      var counted := CountedOf(chain, init);
      forall i | 0 <= i < |counted| ensures Counted(chain, counted[i]) && !SameTransaction(counted[i], r) {
        InCounted(chain, init, counted[i]);
        var j :| 0 <= j < |init| && init[j] == counted[i];
        assert !SameTransaction(list[j], list[|list| - 1]);
      }
      assert CountedOf(chain, list) == if Counted(chain, r) then counted + [r] else counted;
      var names := Transactions(counted);
      assert forall i | 0 <= i < |counted| :: names[i] == counted[i].envelope.transaction;
      assert Transactions(counted + [r]) == names + [r.envelope.transaction];
      if Counted(chain, r) {
        assert forall i | 0 <= i < |names| :: names[i] != r.envelope.transaction;
      }
    }
  }

  lemma NothingMissing(copies: seq<Receipt>, live: seq<Receipt>)
    requires forall r | r in copies :: Has(live, r.id)
    ensures Strays(copies, live) == []
  {
    var strays := Strays(copies, live);
    if strays != [] {
      InStrays(copies, live, strays[0]);
    }
  }

  /** Anchored again after a ledger reset, one transaction is reported as two payments. */
  lemma ResetCountsTwice(s: Settled, seller: string) returns (makeId: Envelope -> string, events: seq<Event>)
    requires s.chain != "" && s.payer != "" && s.transaction != "" && seller != "" && IsNumber(s.amount)
    ensures var b := Run(makeId, seller, Books([], {}, Some([])), events);
      && UsageOf(s.chain, b.live).paid == 1
      && UsageOf(s.chain, Merged(b)).paid == 2
      && forall r | r in Merged(b) :: r.envelope.chain == s.chain && r.envelope.transaction == s.transaction
  {
    hide Run, Apply, Put, PutAll, CountedOf, Position, Has, Merged, UsageOf;
    makeId := (e: Envelope) => if e.createdAt == 1 then "a" else "b";
    var start := Books([], {}, Some([]));
    var a := Receipt("a", EnvelopeOf(seller, s, 1), 1, Finalized);
    var b := Receipt("b", EnvelopeOf(seller, s, 2), 2, Finalized);
    var before := [Anchoring(s, 1, true), Finalizing("a", true)];
    var after := [Anchoring(s, 2, true), Finalizing("b", true)];
    events := before + [Resetting] + after;
    RunNothing(makeId, seller, start);
    RunTwo(makeId, seller, start, [], before);
    assert [] + before == before;
    PaidAndFinalized(makeId, seller, [], s, 1, "a");
    PutTwice([], a);
    RunLast(makeId, seller, start, before, Resetting);
    ResetForgets(makeId, seller, Run(makeId, seller, start, before));
    assert Copies(Run(makeId, seller, start, before)) == [a];
    RunTwo(makeId, seller, start, before + [Resetting], after);
    PaidAndFinalized(makeId, seller, [a], s, 2, "b");
    PutTwice([a], b);
    assert [a] + [b] == [a, b];
    TwoCopies(s.chain, Run(makeId, seller, start, events), a, b);
  }

  lemma RunNothing(makeId: Envelope -> string, seller: string, start: Books)
    ensures Run(makeId, seller, start, []) == start
  {
  }

  lemma RunTwo(makeId: Envelope -> string, seller: string, start: Books, events: seq<Event>, two: seq<Event>)
    requires |two| == 2
    ensures Run(makeId, seller, start, events + two) ==
      Apply(makeId, seller, Apply(makeId, seller, Run(makeId, seller, start, events), two[0]), two[1])
  {
    hide Run, Apply;
    RunLast(makeId, seller, start, events, two[0]);
    RunLast(makeId, seller, start, events + [two[0]], two[1]);
    assert events + two == events + [two[0]] + [two[1]];
  }

  lemma ResetForgets(makeId: Envelope -> string, seller: string, b: Books)
    ensures Apply(makeId, seller, b, Resetting) == Books([], {}, b.durable)
  {
  }

  lemma TwoCopies(chain: string, books: Books, a: Receipt, b: Receipt)
    requires books.live == [b] && books.durable == Some([a, b]) && a.id != b.id
    requires Counted(chain, a) && Counted(chain, b)
    ensures UsageOf(chain, books.live).paid == 1 && UsageOf(chain, Merged(books)).paid == 2
    ensures Merged(books) == [a, b]
  {
    hide Counted, Payers;
    assert [b][..0] == [] && [a, b][..1] == [a] && [a][..0] == [];
    assert Position([a, b], b.id) == 1;
    assert Put([a, b], b) == [a, b];
    assert PutAll([a, b], [b]) == [a, b] by {
      hide Position, Put;
    }
    hide Put, PutAll, Position;
    assert CountedOf(chain, [a]) == [a] && CountedOf(chain, [b]) == [b];
    assert CountedOf(chain, [a, b]) == [a] + [b];
  }

  lemma PutTwice(list: seq<Receipt>, r: Receipt)
    requires forall x | x in list :: x.id != r.id
    ensures Put(Put(list, r.(status := Anchored)), r) == list + [r]
  {
    var once := list + [r.(status := Anchored)];
    assert once[|list|].id == r.id;
    var k := Position(once, r.id);
    assert forall i | 0 <= i < |list| :: once[i] == list[i];
  }

  lemma RunLast(makeId: Envelope -> string, seller: string, start: Books, events: seq<Event>, e: Event)
    ensures Run(makeId, seller, start, events + [e]) == Apply(makeId, seller, Run(makeId, seller, start, events), e)
  {
    assert (events + [e])[..|events|] == events;
  }

  /** Anchoring and finalizing a payment over an empty registry adds one finalized copy to the durable ones. */
  lemma PaidAndFinalized(makeId: Envelope -> string, seller: string, copies: seq<Receipt>, s: Settled, now: int,
                         id: string)
    requires s.chain != "" && s.payer != "" && s.transaction != "" && seller != "" && IsNumber(s.amount)
    requires makeId(EnvelopeOf(seller, s, now)) == id
    ensures var r := Receipt(id, EnvelopeOf(seller, s, now), now, Finalized);
      var b := Apply(makeId, seller, Books([], {}, Some(copies)), Anchoring(s, now, true));
      var b' := Apply(makeId, seller, b, Finalizing(id, true));
      b'.live == [r] && b'.durable == Some(Put(Put(copies, r.(status := Anchored)), r))
  {
    var r := Receipt(id, EnvelopeOf(seller, s, now), now, Anchored);
    var b := Apply(makeId, seller, Books([], {}, Some(copies)), Anchoring(s, now, true));
    assert [r][0] == r;
    assert Position([r], id) == 0;
    assert b.live == [r] && b.durable == Some(Put(copies, r));
    hide Put;
    assert [r.(status := Finalized)][0].id == id && Position([r.(status := Finalized)], id) == 0;
    assert WithStatus([r], id, Finalized) == [r.(status := Finalized)];
  }
}
