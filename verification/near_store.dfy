/**
 * The durable replay barrier of lib/x402/near_payment_attempt_store.ts: attempts keyed by payment proof,
 * and a first-claim-wins index of on-chain transactions, each kept in memory over an optional directory.
 */
module NearStore {
  import opened Wrappers
  import opened Receipts

  datatype AttemptStatus = Settling | Settled | Indeterminate | Failed

  datatype Finality = Pending | Confirmed | NotFound | Mismatch | Unavailable {
    predicate Terminal() {
      this == Confirmed || this == Mismatch
    }
  }

  /** What a paid answer says about its payment: at first nothing, in the end the finality and the receipt. */
  datatype PaymentState = Provisional | Reconciled(finality: Finality, receipt: Option<ReceiptStatus>)

  /** A paid answer: the request it answers, the transaction that paid for it, and the state of the payment. */
  datatype Resource = Resource(requestHash: string, transaction: string, payment: PaymentState)

  datatype Settlement = Settlement(transaction: string, receipt: Option<string>, response: Resource)

  datatype Attempt = Attempt(
    requestHash: string,
    status: AttemptStatus,
    settlement: Option<Settlement>,
    finality: Option<Finality>)

  /** What the store remembers, whichever tier holds it. */
  datatype Store = Store(attempts: map<string, Attempt>, owners: map<string, string>)

  const NOTHING: Store := Store(map[], map[])

  // ---- The operations as functions of the whole store ----------------------------------------------

  /** Put if absent. */
  function Claimed(s: Store, proof: string, requestHash: string): Store {
    if proof in s.attempts then s
    else s.(attempts := s.attempts[proof := Attempt(requestHash, Settling, None, None)])
  }

  /** First claim wins. */
  function TxClaimed(s: Store, tx: string, proof: string): (r: Store)
    ensures tx in r.owners
  {
    if tx in s.owners then s else s.(owners := s.owners[tx := proof])
  }

  function Updated(s: Store, proof: string, a: Attempt): Store {
    s.(attempts := s.attempts[proof := a])
  }

  /** An update of an unknown attempt throws and changes nothing; so do the next two. */
  function SettledWith(s: Store, proof: string, settlement: Settlement): Store {
    if proof !in s.attempts then s
    else Updated(s, proof, s.attempts[proof].(status := Settled, settlement := Some(settlement)))
  }

  function Marked(s: Store, proof: string, status: AttemptStatus): Store {
    if proof !in s.attempts then s else Updated(s, proof, s.attempts[proof].(status := status))
  }

  function Checked(s: Store, proof: string, verdict: Finality): Store {
    if proof !in s.attempts then s else Updated(s, proof, s.attempts[proof].(finality := Some(verdict)))
  }

  // ---- The program ---------------------------------------------------------------------------------

  class NearPaymentAttemptStore {
    /** Whether a data directory was configured. */
    const durable: bool
    var memory: map<string, Attempt>
    var txOwner: map<string, string>
    var directory: map<string, Attempt>
    var txDirectory: map<string, string>

    /** The memory tier is a cache of the directory when there is one. */
    ghost predicate Valid()
      reads this
    {
      durable ==>
        && (forall p | p in memory :: p in directory && memory[p] == directory[p])
        && (forall t | t in txOwner :: t in txDirectory && txOwner[t] == txDirectory[t])
    }

    ghost function Contents(): Store
      reads this
    {
      if durable then Store(directory, txDirectory) else Store(memory, txOwner)
    }

    constructor (durable: bool)
      ensures this.durable == durable && Valid() && Contents() == NOTHING
    {
      this.durable := durable;
      memory, txOwner, directory, txDirectory := map[], map[], map[], map[];
    }

    /** A new process over the same directory: attempts are loaded back, the transaction cache is not. */
    method Reopen()
      requires Valid()
      modifies this
      ensures Valid()
      ensures Contents() == if durable then old(Contents()) else NOTHING
    {
      memory, txOwner := map[], map[];
      if durable {
        memory := directory;
      }
    }

    method GetByProofHash(proof: string) returns (r: Option<Attempt>)
      requires Valid()
      modifies `memory
      ensures Valid() && Contents() == old(Contents())
      ensures r == if proof in Contents().attempts then Some(Contents().attempts[proof]) else None
    {
      if proof in memory {
        return Some(memory[proof]);
      }
      if durable && proof in directory {
        memory := memory[proof := directory[proof]];
        return Some(directory[proof]);
      }
      r := None;
    }

    method Claim(proof: string, requestHash: string) returns (created: bool)
      requires Valid()
      modifies this
      ensures Valid() && Contents() == Claimed(old(Contents()), proof, requestHash)
      ensures created <==> proof !in old(Contents()).attempts
    {
      var existing := GetByProofHash(proof);
      if existing.Some? {
        return false;
      }
      var attempt := Attempt(requestHash, Settling, None, None);
      if durable {
        directory := directory[proof := attempt];
      }
      memory := memory[proof := attempt];
      created := true;
    }

    method ClaimTransaction(tx: string, proof: string) returns (owner: string)
      requires Valid()
      modifies this
      ensures Valid() && Contents() == TxClaimed(old(Contents()), tx, proof)
      ensures owner == Contents().owners[tx]
    {
      if tx in txOwner {
        return txOwner[tx];
      }
      if durable {
        if tx in txDirectory {
          owner := txDirectory[tx];
          txOwner := txOwner[tx := owner];
          return;
        }
        txDirectory := txDirectory[tx := proof];
      }
      txOwner := txOwner[tx := proof];
      owner := proof;
    }

    /** Reads an attempt, changes it and writes it through. */
    method Persist(proof: string, a: Attempt)
      requires Valid()
      modifies this
      ensures Valid() && Contents() == Updated(old(Contents()), proof, a)
    {
      if durable {
        directory := directory[proof := a];
      }
      memory := memory[proof := a];
    }

    method Settle(proof: string, settlement: Settlement) returns (ok: bool)
      requires Valid()
      modifies this
      ensures Valid() && Contents() == SettledWith(old(Contents()), proof, settlement)
      ensures ok <==> proof in old(Contents()).attempts
    {
      var current := GetByProofHash(proof);
      if current == None {
        return false;
      }
      Persist(proof, current.value.(status := Settled, settlement := Some(settlement)));
      ok := true;
    }

    method Mark(proof: string, status: AttemptStatus) returns (ok: bool)
      requires Valid()
      modifies this
      ensures Valid() && Contents() == Marked(old(Contents()), proof, status)
      ensures ok <==> proof in old(Contents()).attempts
    {
      var current := GetByProofHash(proof);
      if current == None {
        return false;
      }
      Persist(proof, current.value.(status := status));
      ok := true;
    }

    method RecordFinality(proof: string, verdict: Finality) returns (ok: bool)
      requires Valid()
      modifies this
      ensures Valid() && Contents() == Checked(old(Contents()), proof, verdict)
      ensures ok <==> proof in old(Contents()).attempts
    {
      var current := GetByProofHash(proof);
      if current == None {
        return false;
      }
      Persist(proof, current.value.(finality := Some(verdict)));
      ok := true;
    }
  }
}
