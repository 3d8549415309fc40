/**
 * Anchoring of settled NEAR payments (api/near_receipt_anchor.ts) over the receipt registry
 * (lib/ledger/contracts/external_receipt_registry.ts) and the durable proof store, and the usage report.
 */
module NearAnchor {
  import opened Wrappers
  import opened Decimal
  import opened Receipts

  const NEAR_ASSET := "near-native:NEAR"
  const CREDIT_SCORE := "credit-score"

  /** The hashed fields of a receipt. The transaction is also its nonce. */
  datatype Envelope = Envelope(
    chain: string,
    network: string,
    payer: string,
    seller: string,
    receiver: string,
    asset: string,
    amount: string,
    service: string,
    hashes: string,
    transaction: string,
    createdAt: int)

  datatype Receipt = Receipt(id: string, envelope: Envelope, anchoredAt: int, status: ReceiptStatus)

  /** A settled payment. The payer and the transaction are trimmed, and may be missing or blank. */
  datatype Settled = Settled(
    chain: string,
    network: string,
    amount: string,
    payer: string,
    receiver: string,
    transaction: string,
    hashes: string)

  /** The live registry in insertion order, its used nonces, and the durable copies if there is a directory. */
  datatype Books = Books(live: seq<Receipt>, nonces: set<string>, durable: Option<seq<Receipt>>)

  datatype Usage = Usage(paid: nat, uniquePayers: nat, total: nat)

  // ---- Lists keyed by receipt id -------------------------------------------------------------------

  predicate Has(list: seq<Receipt>, id: string) {
    exists i | 0 <= i < |list| :: list[i].id == id
  }

  /** The position of an id, or the length. */
  function Position(list: seq<Receipt>, id: string): (k: nat)
    ensures k <= |list|
    ensures k < |list| ==> list[k].id == id
    ensures forall i | 0 <= i < k :: list[i].id != id
    ensures Has(list, id) <==> k < |list|
  {
    if list == [] then 0
    else if list[0].id == id then 0
    else
      var k := Position(list[1..], id);
      assert forall i | 0 <= i < |list| - 1 :: list[1..][i] == list[i + 1];
      k + 1
  }

  function Get(list: seq<Receipt>, id: string): Option<Receipt> {
    var k := Position(list, id);
    if k < |list| then Some(list[k]) else None
  }

  /** A known id is overwritten in place, a new one goes to the end. */
  function Put(list: seq<Receipt>, r: Receipt): seq<Receipt> {
    var k := Position(list, r.id);
    if k < |list| then list[k := r] else list + [r]
  }

  function PutAll(list: seq<Receipt>, more: seq<Receipt>): seq<Receipt> {
    if more == [] then list else Put(PutAll(list, more[..|more| - 1]), more[|more| - 1])
  }

  // ---- Anchoring -----------------------------------------------------------------------------------

  function NonceKey(e: Envelope): string {
    e.chain + ":" + e.payer + ":" + e.transaction
  }

  /** The first receipt of a transaction. */
  function FirstFor(list: seq<Receipt>, chain: string, transaction: string): (k: nat)
    ensures k <= |list|
    ensures k < |list| ==> list[k].envelope.chain == chain && list[k].envelope.transaction == transaction
    ensures forall i | 0 <= i < k :: !(list[i].envelope.chain == chain && list[i].envelope.transaction == transaction)
  {
    if list == [] then 0
    else if list[0].envelope.chain == chain && list[0].envelope.transaction == transaction then 0
    else
      var k := FirstFor(list[1..], chain, transaction);
      assert forall i | 0 <= i < |list| - 1 :: list[1..][i] == list[i + 1];
      k + 1
  }

  predicate SameSettlement(e: Envelope, seller: string, s: Settled) {
    && e.payer == "near:" + s.payer && e.seller == seller && e.receiver == s.receiver
    && e.asset == NEAR_ASSET && e.amount == s.amount
  }

  function EnvelopeOf(seller: string, s: Settled, now: int): Envelope {
    Envelope(s.chain, s.network, "near:" + s.payer, seller, s.receiver, NEAR_ASSET, s.amount, CREDIT_SCORE,
             s.hashes, s.transaction, now)
  }

  predicate IsNumber(s: string) {
    s != "" && AllDigits(s)
  }

  /** The registry refuses an envelope with a missing field, a known id or a used nonce. */
  predicate Recordable(b: Books, id: string, e: Envelope) {
    && e.chain != "" && e.payer != "" && e.seller != "" && e.service != "" && e.transaction != ""
    && IsNumber(e.amount)
    && !Has(b.live, id)
    && NonceKey(e) !in b.nonces
  }

  function Recorded(b: Books, r: Receipt): Books {
    b.(live := b.live + [r], nonces := b.nonces + {NonceKey(r.envelope)})
  }

  /** Copies a live receipt to the durable store; a volume that is down is ignored. */
  function Persisted(b: Books, id: string, volume: bool): Books {
    if b.durable == None || !Has(b.live, id) || !volume then b
    else b.(durable := Some(Put(b.durable.value, Get(b.live, id).value)))
  }

  /** The result is the receipt's id, or nothing when the payment cannot be anchored. */
  function AnchorSettlement(makeId: Envelope -> string, seller: string, b: Books, s: Settled, now: int, volume: bool)
    : (Books, Option<string>)
  {
    if s.payer == "" || s.transaction == "" || !IsNumber(s.amount) then (b, None)
    else
      var k := FirstFor(b.live, s.chain, s.transaction);
      if k < |b.live| then
        var existing := b.live[k];
        if SameSettlement(existing.envelope, seller, s) then (Persisted(b, existing.id, volume), Some(existing.id))
        else (b, None)
      else
        var e := EnvelopeOf(seller, s, now);
        var id := makeId(e);
        if Has(b.live, id) then (Persisted(b, id, volume), Some(id))
        else if Recordable(b, id, e) then
          (Persisted(Recorded(b, Receipt(id, e, now, Anchored)), id, volume), Some(id))
        else (b, None)
  }

  function WithStatus(list: seq<Receipt>, id: string, status: ReceiptStatus): seq<Receipt>
    requires Has(list, id)
  {
    var k := Position(list, id);
    list[k := list[k].(status := status)]
  }

  /** Finalizing an unknown or challenged receipt throws and changes nothing. */
  function FinalizeReceipt(b: Books, id: string, volume: bool): Books {
    if !Has(b.live, id) || Get(b.live, id).value.status == Challenged then b
    else Persisted(b.(live := WithStatus(b.live, id, Finalized)), id, volume)
  }

  /** Challenging an unknown receipt throws; a finalized one stays finalized. */
  function ChallengeReceipt(b: Books, id: string, volume: bool): Books {
    if !Has(b.live, id) then b
    else if Get(b.live, id).value.status == Finalized then Persisted(b, id, volume)
    else Persisted(b.(live := WithStatus(b.live, id, Challenged)), id, volume)
  }

  /** Restores the durable copies one by one into a new registry; a known id or a used nonce is skipped. */
  function Restored(copies: seq<Receipt>): (seq<Receipt>, set<string>) {
    if copies == [] then ([], {})
    else
      var (live, nonces) := Restored(copies[..|copies| - 1]);
      var r := copies[|copies| - 1];
      if Has(live, r.id) || NonceKey(r.envelope) in nonces then (live, nonces)
      else (live + [r], nonces + {NonceKey(r.envelope)})
  }

  // ---- The usage report ----------------------------------------------------------------------------

  predicate Counted(chain: string, r: Receipt) {
    r.envelope.chain == chain && r.envelope.asset == NEAR_ASSET && r.envelope.service == CREDIT_SCORE &&
    r.status == Finalized
  }

  function CountedOf(chain: string, list: seq<Receipt>): seq<Receipt> {
    if list == [] then []
    else
      var r := list[|list| - 1];
      CountedOf(chain, list[..|list| - 1]) + if Counted(chain, r) then [r] else []
  }

  function Yocto(r: Receipt): nat {
    if AllDigits(r.envelope.amount) then Value(r.envelope.amount) else 0
  }

  function Total(list: seq<Receipt>): nat {
    if list == [] then 0 else Total(list[..|list| - 1]) + Yocto(list[|list| - 1])
  }

  function Payers(list: seq<Receipt>): set<string> {
    set i | 0 <= i < |list| :: list[i].envelope.payer
  }

  /** Durable copies first, the live registry over them. */
  function Merged(b: Books): seq<Receipt> {
    PutAll(if b.durable.Some? then b.durable.value else [], b.live)
  }

  function UsageOf(chain: string, list: seq<Receipt>): Usage {
    var receipts := CountedOf(chain, list);
    Usage(|receipts|, |Payers(receipts)|, Total(receipts))
  }

  // ---- The program ---------------------------------------------------------------------------------

  class ReceiptAnchor {
    const seller: string
    const makeId: Envelope -> string
    var live: seq<Receipt>
    var nonces: set<string>
    var durable: Option<seq<Receipt>>

    ghost function Contents(): Books
      reads this
    {
      Books(live, nonces, durable)
    }

    constructor (seller: string, makeId: Envelope -> string, hasDirectory: bool)
      ensures this.seller == seller && this.makeId == makeId
      ensures Contents() == Books([], {}, if hasDirectory then Some([]) else None)
    {
      this.seller, this.makeId := seller, makeId;
      live, nonces := [], {};
      durable := if hasDirectory then Some([]) else None;
    }

    method AnchorNearSettlement(s: Settled, now: int, volume: bool) returns (id: Option<string>)
      modifies this
      ensures (Contents(), id) == AnchorSettlement(makeId, seller, old(Contents()), s, now, volume)
    {
      hide Persisted, Recordable, Position, FirstFor, Has;
      if s.payer == "" || s.transaction == "" || !IsNumber(s.amount) {
        return None;
      }
      var k := Find(s.chain, s.transaction);
      if k < |live| {
        var existing := live[k];
        if SameSettlement(existing.envelope, seller, s) {
          PersistProof(existing.id, volume);
          return Some(existing.id);
        }
        return None;
      }
      var e := EnvelopeOf(seller, s, now);
      var newId := makeId(e);
      if Has(live, newId) {
        PersistProof(newId, volume);
        return Some(newId);
      }
      var recorded := Record(newId, e, now);
      if recorded {
        PersistProof(newId, volume);
        return Some(newId);
      }
      return None;
    }

    method Find(chain: string, transaction: string) returns (k: nat)
      ensures k == FirstFor(live, chain, transaction)
    {
      k := 0;
      while k < |live| && !(live[k].envelope.chain == chain && live[k].envelope.transaction == transaction)
        invariant k <= |live|
        invariant forall i | 0 <= i < k ::
          !(live[i].envelope.chain == chain && live[i].envelope.transaction == transaction)
      {
        k := k + 1;
      }
    }

    method Record(id: string, e: Envelope, now: int) returns (ok: bool)
      modifies this
      ensures ok <==> Recordable(old(Contents()), id, e)
      ensures Contents() == if ok then Recorded(old(Contents()), Receipt(id, e, now, Anchored)) else old(Contents())
    {
      ok := e.chain != "" && e.payer != "" && e.seller != "" && e.service != "" && e.transaction != "" &&
        IsNumber(e.amount) && !Has(live, id) && NonceKey(e) !in nonces;
      if ok {
        nonces := nonces + {NonceKey(e)};
        live := live + [Receipt(id, e, now, Anchored)];
      }
    }

    method PersistProof(id: string, volume: bool)
      modifies `durable
      ensures Contents() == Persisted(old(Contents()), id, volume)
    {
      if durable.Some? {
        var k := Position(live, id);
        if k < |live| && volume {
          durable := Some(Put(durable.value, live[k]));
        }
      }
    }

    method Finalize(id: string, volume: bool) returns (thrown: bool)
      modifies this
      ensures Contents() == FinalizeReceipt(old(Contents()), id, volume)
      ensures thrown <==> !Has(old(live), id) || Get(old(live), id).value.status == Challenged
    {
      var k := Position(live, id);
      if k == |live| || live[k].status == Challenged {
        return true;
      }
      if live[k].status != Finalized {
        live := live[k := live[k].(status := Finalized)];
      }
      assert live == WithStatus(old(live), id, Finalized);
      PersistProof(id, volume);
      thrown := false;
    }

    method Challenge(id: string, volume: bool) returns (thrown: bool)
      modifies this
      ensures Contents() == ChallengeReceipt(old(Contents()), id, volume)
      ensures thrown <==> !Has(old(live), id)
    {
      var k := Position(live, id);
      if k == |live| {
        return true;
      }
      if live[k].status != Finalized {
        live := live[k := live[k].(status := Challenged)];
      }
      PersistProof(id, volume);
      thrown := false;
    }

    /** A new process: the registry is rebuilt from the durable copies, in the order the directory lists them. */
    method Restart(listing: seq<Receipt>)
      requires multiset(listing) == multiset(if durable.Some? then durable.value else [])
      modifies `live, `nonces
      ensures Contents() == Books(Restored(listing).0, Restored(listing).1, old(durable))
    {
      live, nonces := [], {};
      for i := 0 to |listing|
        invariant (live, nonces) == Restored(listing[..i])
      {
        assert listing[..i + 1][..i] == listing[..i];
        var r := listing[i];
        if !Has(live, r.id) && NonceKey(r.envelope) !in nonces {
          live, nonces := live + [r], nonces + {NonceKey(r.envelope)};
        }
      }
      assert listing[..|listing|] == listing;
    }

    /** A ledger reset: an empty registry, over the same durable copies. */
    method Reset()
      modifies this
      ensures Contents() == Books([], {}, old(durable))
    {
      live, nonces := [], {};
    }

    method ReportUsage(chain: string) returns (usage: Usage)
      ensures usage == UsageOf(chain, Merged(Contents()))
    {
      hide Put, Yocto, Payers, Counted;
      var start := if durable.Some? then durable.value else [];
      var byId := start;
      for i := 0 to |live|
        invariant byId == PutAll(start, live[..i])
      {
        assert live[..i + 1][..i] == live[..i];
        byId := Put(byId, live[i]);
      }
      assert live[..|live|] == live;
      var receipts: seq<Receipt> := [];
      var total := 0;
      for i := 0 to |byId|
        invariant receipts == CountedOf(chain, byId[..i])
        invariant total == Total(receipts)
      {
        assert byId[..i + 1][..i] == byId[..i];
        if Counted(chain, byId[i]) {
          assert (receipts + [byId[i]])[..|receipts|] == receipts;
          receipts := receipts + [byId[i]];
          total := total + Yocto(byId[i]);
        }
      }
      assert byId[..|byId|] == byId;
      usage := Usage(|receipts|, |Payers(receipts)|, total);
    }
  }
}
