/** The server's channel as the object its events mutate. It owns its receipt and drives
    it in place; each event is proved against the functions of module Server. */
module ServerCells {
  import opened Types
  import opened Squashes
  import opened Receipts
  import opened ReceiptCells
  import opened Server
  import opened Codec

  class ChannelMut {
    const key: Bytes
    const tag: Bytes
    const crypto: Crypto
    var retainer: Option<Retainer>
    var receipt: ReceiptMut?
    var active: bool

    ghost function State(): ServerChannel
      reads this, receipt
    {
      ServerChannel(key, tag, retainer, if receipt == null then None else Some(receipt.State()), active)
    }

    ghost predicate Invariant()
      reads this, receipt
    {
      receipt != null ==> receipt.Invariant()
    }

    constructor (key: Bytes, tag: Bytes, crypto: Crypto)
      ensures Invariant() && State() == ServerChannel(key, tag, None, None, true)
      ensures this.crypto == crypto
    {
      this.key, this.tag, this.crypto := key, tag, crypto;
      retainer, receipt, active := None, null, true;
    }

    /** What the deposit still leaves free, or why nothing can be committed. */
    method Uncommitted() returns (r: Result<nat, ServerError>)
      requires Invariant()
      requires receipt != null ==> Committed(receipt.State()) < U64
      ensures r == Server.Uncommitted(State())
    {
      if !active {
        return Err(NotActive);
      }
      if retainer.None? {
        return Err(NoRetainer);
      }
      if receipt == null {
        return Err(NoReceipt);
      }
      if |receipt.cheques| >= MAX_UNSQUASHED {
        return Err(NoCapacity);
      }
      var committed := receipt.Committed();
      return Ok(SaturatingSub(retainer.value.amount, SaturatingSub(committed, retainer.value.subbed)));
    }

    method ApplyLocked(l: Locked) returns (r: Result<(), ServerError>)
      requires Invariant()
      requires receipt != null ==> Committed(receipt.State()) < U64 && MaxIndex(receipt.State()) + 1 < U64
      modifies receipt
      ensures Invariant() && receipt == old(receipt)
      ensures r.Ok? ==> crypto.verify(key, ChequeMessage(tag, l.body), l.signature)
      ensures r.Ok? ==> AdmitLocked(old(State()), l, crypto) == Ok(State())
      ensures r.Err? ==> AdmitLocked(old(State()), l, crypto) == Err(r.error) && State() == old(State())
    {
      if !crypto.verify(key, ChequeMessage(tag, l.body), l.signature) {
        return Err(Verify);
      }
      var free := Uncommitted();
      if free.Err? {
        return Err(free.error);
      }
      if l.body.amount > free.value {
        return Err(Funds);
      }
      var applied := receipt.ApplyLocked(l);
      if applied.Err? {
        return Err(InReceipt(applied.error));
      }
      return Ok(());
    }

    /** The first squash creates the receipt, later ones advance it in place. */
    method ApplySquash(q: Squash) returns (r: Result<(), ServerError>)
      requires Invariant() && Valid(q.body)
      requires receipt != null ==> Committed(receipt.State()) < U64
      modifies this, receipt
      ensures Invariant() && (old(receipt) != null ==> receipt == old(receipt))
      ensures r.Ok? ==> crypto.verify(key, SquashMessage(tag, q.body), q.signature)
      ensures r.Ok? ==> AdmitSquash(old(State()), q, crypto) == Ok(State())
      ensures r.Ok? ==> receipt != null && receipt.squash == q
      ensures r.Err? ==> AdmitSquash(old(State()), q, crypto) == Err(r.error) && State() == old(State())
    {
      if !crypto.verify(key, SquashMessage(tag, q.body), q.signature) {
        return Err(Verify);
      }
      if receipt == null {
        receipt := new ReceiptMut(q);
        return Ok(());
      }
      var applied := receipt.ApplySquash(q);
      if applied.Err? {
        return Err(InReceipt(applied.error));
      }
      return Ok(());
    }

    method ApplySecret(secret: Secret) returns (r: Result<(), ServerError>)
      requires Invariant()
      modifies receipt
      ensures Invariant() && receipt == old(receipt)
      ensures r.Ok? ==> AdmitSecret(old(State()), secret, crypto) == Ok(State())
      ensures r.Err? ==> AdmitSecret(old(State()), secret, crypto) == Err(r.error) && State() == old(State())
    {
      if receipt == null {
        return Err(NoReceipt);
      }
      var applied := receipt.ApplySecret(secret, crypto.hash);
      if applied.Err? {
        return Err(InReceipt(applied.error));
      }
      return Ok(());
    }

    method ApplySecrets(secrets: seq<Secret>) returns (r: Result<(), ServerError>)
      requires Invariant()
      modifies receipt
      ensures Invariant() && receipt == old(receipt)
      ensures (State(), r) == AdmitSecrets(old(State()), secrets, crypto)
    {
      ghost var start := State();
      var i := 0;
      while i < |secrets|
        invariant i <= |secrets| && Invariant() && receipt == old(receipt)
        invariant AdmitSecrets(start, secrets[..i], crypto) == (State(), Ok(()))
      {
        AdmitNext(start, secrets, i, crypto);
        ghost var before := State();
        var step := ApplySecret(secrets[i]);
        if step.Err? {
          assert AdmitSecret(before, secrets[i], crypto) == Err(step.error) && State() == before;
          StopsAt(start, secrets, i + 1, crypto);
          return step;
        }
        assert AdmitSecret(before, secrets[i], crypto) == Ok(State());
        i := i + 1;
      }
      assert secrets[..i] == secrets;
      return Ok(());
    }
  }
}
