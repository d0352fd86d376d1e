/** The server's view of a channel: a cached retainer (the L1 side) and a receipt
    (the L2 side), with the funds check made before a cheque is accepted. */
module Server {
  import opened Types
  import opened Entries
  import opened Squashes
  import opened Cheques
  import opened Receipts
  import opened Codec

  datatype Retainer = Retainer(amount: nat, subbed: nat, useds: seq<Used>)

  datatype ServerError =
    | NotActive
    | NoRetainer
    | NoReceipt
    | NoCapacity
    | Funds
    | Verify
    | InReceipt(error: ReceiptError)

  datatype ServerChannel = ServerChannel(
    key: Bytes, tag: Bytes, retainer: Option<Retainer>, receipt: Option<Receipt>, active: bool)

  // ---- Queries ----

  function Uncommitted(s: ServerChannel): Result<nat, ServerError> {
    if !s.active then Err(NotActive)
    else if s.retainer.None? then Err(NoRetainer)
    else if s.receipt.None? then Err(NoReceipt)
    else if Capacity(s.receipt.value) == 0 then Err(NoCapacity)
    else
      var relative := SaturatingSub(Committed(s.receipt.value), s.retainer.value.subbed);
      Ok(SaturatingSub(s.retainer.value.amount, relative))
  }

  function NextIndex(s: ServerChannel): Result<nat, ServerError> {
    if !s.active then Err(NotActive)
    else if s.retainer.None? then Err(NoRetainer)
    else if s.receipt.None? then Err(NoReceipt)
    else
      var useds := s.retainer.value.useds;
      Ok(Max(if useds == [] then 0 else Last(useds).index, MaxIndex(s.receipt.value) + 1))
  }

  // ---- Events ----

  function AdmitLocked(s: ServerChannel, l: Locked, crypto: Crypto): Result<ServerChannel, ServerError> {
    if !crypto.verify(s.key, ChequeMessage(s.tag, l.body), l.signature) then Err(Verify)
    else match Uncommitted(s)
      case Err(e) => Err(e)
      case Ok(free) =>
        if l.body.amount > free then Err(Funds)
        else if s.receipt.None? then Err(NoReceipt)
        else match Receipts.ApplyLocked(s.receipt.value, l)
          case Err(e) => Err(InReceipt(e))
          case Ok(r) => Ok(s.(receipt := Some(r)))
  }

  function AdmitSquash(s: ServerChannel, q: Squash, crypto: Crypto): Result<ServerChannel, ServerError> {
    if !crypto.verify(s.key, SquashMessage(s.tag, q.body), q.signature) then Err(Verify)
    else match s.receipt
      case None => Ok(s.(receipt := Some(Receipt(q, []))))
      case Some(r) =>
        match Receipts.ApplySquash(r, q)
        case Err(e) => Err(InReceipt(e))
        case Ok(next) => Ok(s.(receipt := Some(next)))
  }

  function AdmitSecret(s: ServerChannel, secret: Secret, crypto: Crypto): Result<ServerChannel, ServerError> {
    match s.receipt
    case None => Err(NoReceipt)
    case Some(r) =>
      match Receipts.ApplySecret(r, secret, crypto.hash)
      case Err(e) => Err(InReceipt(e))
      case Ok(next) => Ok(s.(receipt := Some(next)))
  }

  /** Secrets one after the other; the first refusal stops, keeping what came before. */
  function AdmitSecrets(s: ServerChannel, secrets: seq<Secret>, crypto: Crypto)
    : (ServerChannel, Result<(), ServerError>)
  {
    if secrets == [] then (s, Ok(()))
    else
      var (before, r) := AdmitSecrets(s, Init(secrets), crypto);
      if r.Err? then (before, r)
      else match AdmitSecret(before, Last(secrets), crypto)
        case Ok(after) => (after, Ok(()))
        case Err(e) => (before, Err(e))
  }

  /** A cheque is accepted exactly when it is signed for this channel, the channel is active
      and has both halves and room, the index is the next one, and the deposit covers it
      on top of what is committed; it is then the last one held, and nothing else moves. */
  lemma AcceptedExactly(s: ServerChannel, l: Locked, crypto: Crypto)
    requires s.receipt.Some? ==> WellFormed(s.receipt.value)
    ensures AdmitLocked(s, l, crypto).Ok? <==>
      && crypto.verify(s.key, ChequeMessage(s.tag, l.body), l.signature)
      && s.active && s.retainer.Some? && s.receipt.Some?
      && |s.receipt.value.cheques| < MAX_UNSQUASHED
      && l.body.index == MaxIndex(s.receipt.value) + 1
      && (l.body.amount == 0 ||
          Max(Committed(s.receipt.value), s.retainer.value.subbed) + l.body.amount
          <= s.retainer.value.amount + s.retainer.value.subbed)
    ensures match AdmitLocked(s, l, crypto)
      case Err(_) => true
      case Ok(t) =>
        && t == s.(receipt := t.receipt)
        && t.receipt == Some(s.receipt.value.(cheques := s.receipt.value.cheques + [LockedCheque(l)]))
  {
    if s.receipt.Some? { LockedExactly(s.receipt.value, l); }
  }

  /** The refusals come in this order: the signature, the state of the channel, the funds,
      then the receipt. */
  lemma RefusedInOrder(s: ServerChannel, l: Locked, crypto: Crypto)
    ensures var signed := crypto.verify(s.key, ChequeMessage(s.tag, l.body), l.signature);
      var r := AdmitLocked(s, l, crypto);
      && (r == Err(Verify) <==> !signed)
      && (r == Err(NotActive) <==> signed && !s.active)
      && (r == Err(NoRetainer) <==> signed && s.active && s.retainer.None?)
      && (r == Err(NoReceipt) <==> signed && s.active && s.retainer.Some? && s.receipt.None?)
      && (r == Err(NoCapacity) <==>
            && signed && s.active && s.retainer.Some? && s.receipt.Some?
            && |s.receipt.value.cheques| >= MAX_UNSQUASHED)
      && (r.Err? && r.error.InReceipt? ==> signed && Uncommitted(s).Ok? && l.body.amount <= Uncommitted(s).value)
  {}

  /** A squash is accepted exactly when it is signed for this channel and, once there is a
      receipt, worth at least the current one plus the cheques it settles. */
  lemma SquashAcceptedExactly(s: ServerChannel, q: Squash, crypto: Crypto)
    requires Valid(q.body) && (s.receipt.Some? ==> WellFormed(s.receipt.value))
    ensures AdmitSquash(s, q, crypto).Ok? <==>
      && crypto.verify(s.key, SquashMessage(s.tag, q.body), q.signature)
      && (s.receipt.Some? ==>
            q.body.amount >= s.receipt.value.squash.body.amount
              + Total(Inside(EntriesOf(s.receipt.value.cheques), S(q.body))))
    ensures match AdmitSquash(s, q, crypto)
      case Err(_) => true
      case Ok(t) =>
        && t == s.(receipt := t.receipt) && t.receipt.Some? && t.receipt.value.squash == q
        && forall c :: c in t.receipt.value.cheques <==>
             s.receipt.Some? && c in s.receipt.value.cheques && c.Index() !in S(q.body)
  {
    if s.receipt.Some? { SquashExactly(s.receipt.value, q); }
  }

  /** A secret is accepted exactly when the receipt holds a cheque locked under it. */
  lemma SecretAcceptedExactly(s: ServerChannel, secret: Secret, crypto: Crypto)
    ensures AdmitSecret(s, secret, crypto).Ok? <==>
      s.receipt.Some? && exists l :: LockedCheque(l) in s.receipt.value.cheques && l.body.latch == crypto.hash(secret)
    ensures match AdmitSecret(s, secret, crypto)
      case Err(e) => e == if s.receipt.None? then NoReceipt else InReceipt(Unchanged)
      case Ok(t) => t == s.(receipt := t.receipt) && t.receipt.Some?
  {
    if s.receipt.Some? { SecretExactly(s.receipt.value, secret, crypto.hash); }
  }

  /** The offer is made only on an active channel with both halves: the first index above
      everything the receipt and the retainer's last used name. */
  lemma OffersExactly(s: ServerChannel)
    ensures NextIndex(s).Ok? <==> s.active && s.retainer.Some? && s.receipt.Some?
    ensures Uncommitted(s).Ok? <==> NextIndex(s).Ok? && |s.receipt.value.cheques| < MAX_UNSQUASHED
    ensures NextIndex(s).Ok? ==>
      var i, useds := NextIndex(s).value, s.retainer.value.useds;
      && i > MaxIndex(s.receipt.value)
      && (useds != [] ==> i >= Last(useds).index)
      && (i == MaxIndex(s.receipt.value) + 1 || (useds != [] && i == Last(useds).index))
  {}

  /** A batch of secrets goes through exactly up to the first one refused; if none is,
      nothing stays locked under any of them. */
  lemma {:induction false} SecretsExactly(s: ServerChannel, secrets: seq<Secret>, crypto: Crypto)
    ensures var (t, r) := AdmitSecrets(s, secrets, crypto);
      && (r.Ok? && t.receipt.Some? ==>
            forall x, c :: x in secrets && c in t.receipt.value.cheques ==> !Opens(c, crypto.hash(x)))
      && (r.Err? ==>
            exists k :: 0 <= k < |secrets| &&
              AdmitSecrets(s, secrets[..k], crypto) == (t, Ok(())) &&
              AdmitSecret(t, secrets[k], crypto) == Err(r.error))
  {
    if secrets != [] {
      SecretsExactly(s, Init(secrets), crypto);
      var (before, r) := AdmitSecrets(s, Init(secrets), crypto);
      assert secrets == Init(secrets) + [Last(secrets)];
      if r.Err? {
        var k :| 0 <= k < |Init(secrets)| && AdmitSecrets(s, Init(secrets)[..k], crypto) == (before, Ok(()))
          && AdmitSecret(before, Init(secrets)[k], crypto) == Err(r.error);
        assert secrets[..k] == Init(secrets)[..k] && secrets[k] == Init(secrets)[k];
      } else if AdmitSecret(before, Last(secrets), crypto).Ok? {
        StaysOpened(before, Last(secrets), crypto);
      } else {
        assert secrets[..|secrets| - 1] == Init(secrets);
      }
    }
  }

  /** A secret locks nothing again. */
  lemma StaysOpened(s: ServerChannel, secret: Secret, crypto: Crypto)
    requires AdmitSecret(s, secret, crypto).Ok?
    ensures var t := AdmitSecret(s, secret, crypto).value;
      && (forall c :: c in t.receipt.value.cheques ==> !Opens(c, crypto.hash(secret)))
      && forall c :: c in t.receipt.value.cheques && c.LockedCheque? ==> c in s.receipt.value.cheques
  {
    UnlockAllAt(s.receipt.value.cheques, secret, crypto.hash(secret));
    var cs, ds := s.receipt.value.cheques, UnlockAll(s.receipt.value.cheques, secret, crypto.hash(secret));
    forall d | d in ds ensures !Opens(d, crypto.hash(secret)) && (d.LockedCheque? ==> d in cs) {
      var k :| 0 <= k < |ds| && ds[k] == d;
      assert UnlocksTo(cs[k], ds[k], secret, crypto.hash(secret));
    }
  }

  // ---- Signatures ----

  /** The locked form of a cheque: what was signed. */
  function SignedBody(c: Cheque, hash: Secret -> Lock): ChequeBody<Lock> {
    match c
    case LockedCheque(l) => l.body
    case UnlockedCheque(u) =>
      ChequeBody(u.body.index, u.body.amount, u.body.timeout, hash(u.body.latch))
  }

  function SignatureOf(c: Cheque): Bytes {
    match c
    case LockedCheque(l) => l.signature
    case UnlockedCheque(u) => u.signature
  }

  ghost predicate SignedCheque(c: Cheque, key: Bytes, tag: Bytes, crypto: Crypto) {
    crypto.verify(key, ChequeMessage(tag, SignedBody(c, crypto.hash)), SignatureOf(c))
  }

  /** The squash and every cheque held carry the consumer's signature for this channel. */
  ghost predicate Authentic(s: ServerChannel, crypto: Crypto) {
    s.receipt.Some? ==>
      && crypto.verify(s.key, SquashMessage(s.tag, s.receipt.value.squash.body), s.receipt.value.squash.signature)
      && forall c :: c in s.receipt.value.cheques ==> SignedCheque(c, s.key, s.tag, crypto)
  }

  lemma LockedAuthentic(s: ServerChannel, l: Locked, crypto: Crypto)
    requires Authentic(s, crypto) && AdmitLocked(s, l, crypto).Ok?
    ensures crypto.verify(s.key, ChequeMessage(s.tag, l.body), l.signature)
    ensures Authentic(AdmitLocked(s, l, crypto).value, crypto)
  {
    var r := s.receipt.value;
    forall c | c in r.cheques + [LockedCheque(l)] ensures SignedCheque(c, s.key, s.tag, crypto) {
      assert c == LockedCheque(l) || c in r.cheques;
    }
  }

  lemma {:induction false} DropKeepsMembers(cs: seq<Cheque>, b: SquashBody)
    ensures forall c :: c in DropSquashed(cs, b) ==> c in cs
  {
    if cs != [] {
      DropKeepsMembers(Init(cs), b);
      assert cs == Init(cs) + [Last(cs)];
    }
  }

  lemma SquashAuthentic(s: ServerChannel, q: Squash, crypto: Crypto)
    requires Authentic(s, crypto) && AdmitSquash(s, q, crypto).Ok?
    ensures crypto.verify(s.key, SquashMessage(s.tag, q.body), q.signature)
    ensures Authentic(AdmitSquash(s, q, crypto).value, crypto)
  {
    if s.receipt.Some? { DropKeepsMembers(s.receipt.value.cheques, q.body); }
  }

  /** A revealed secret leaves the signed form of each cheque as it was. */
  lemma UnlockKeepsSigned(c: Cheque, d: Cheque, secret: Secret, crypto: Crypto)
    requires UnlocksTo(c, d, secret, crypto.hash(secret))
    ensures SignedBody(d, crypto.hash) == SignedBody(c, crypto.hash) && SignatureOf(d) == SignatureOf(c)
  {}

  lemma SecretAuthentic(s: ServerChannel, secret: Secret, crypto: Crypto)
    requires Authentic(s, crypto) && AdmitSecret(s, secret, crypto).Ok?
    ensures Authentic(AdmitSecret(s, secret, crypto).value, crypto)
  {
    var r, t := s.receipt.value, AdmitSecret(s, secret, crypto).value.receipt.value;
    SecretExactly(r, secret, crypto.hash);
    forall d | d in t.cheques ensures SignedCheque(d, s.key, s.tag, crypto) {
      var k :| 0 <= k < |t.cheques| && t.cheques[k] == d;
      assert r.cheques[k] in r.cheques;
      UnlockKeepsSigned(r.cheques[k], d, secret, crypto);
    }
  }

  lemma TimeoutAuthentic(s: ServerChannel, now: nat, crypto: Crypto)
    requires Authentic(s, crypto) && s.receipt.Some?
    ensures Authentic(s.(receipt := Some(ApplyTimeout(s.receipt.value, now))), crypto)
  {
    TimeoutMembers(s.receipt.value.cheques, now);
  }

  /** A cheque is only accepted when the retainer's whole deposit still covers all that
      is committed with it. */
  lemma AcceptedIsCovered(s: ServerChannel, l: Locked, crypto: Crypto)
    requires AdmitLocked(s, l, crypto).Ok? && s.receipt.Some? && WellFormed(s.receipt.value)
    ensures var t := AdmitLocked(s, l, crypto).value;
      && s.retainer.Some? && t.retainer == s.retainer
      && t.receipt.Some? && WellFormed(t.receipt.value)
      && Committed(t.receipt.value) == Committed(s.receipt.value) + l.body.amount
      && |t.receipt.value.cheques| <= MAX_UNSQUASHED
      && (l.body.amount > 0 ==>
            Committed(t.receipt.value) <= s.retainer.value.amount + s.retainer.value.subbed)
  {
    AdmittedShape(s, l, crypto);
    LockedKeeps(s.receipt.value, l);
  }

  lemma AdmittedShape(s: ServerChannel, l: Locked, crypto: Crypto)
    requires AdmitLocked(s, l, crypto).Ok? && s.receipt.Some?
    ensures Uncommitted(s).Ok? && l.body.amount <= Uncommitted(s).value
    ensures Receipts.ApplyLocked(s.receipt.value, l).Ok?
    ensures AdmitLocked(s, l, crypto).value ==
      s.(receipt := Some(Receipts.ApplyLocked(s.receipt.value, l).value))
  {}

  lemma AdmitNext(s: ServerChannel, secrets: seq<Secret>, i: nat, crypto: Crypto)
    requires i < |secrets|
    ensures var (before, r) := AdmitSecrets(s, secrets[..i], crypto);
      AdmitSecrets(s, secrets[..i + 1], crypto) ==
      if r.Err? then (before, r)
      else match AdmitSecret(before, secrets[i], crypto)
        case Ok(after) => (after, Ok(()))
        case Err(e) => (before, Err(e))
  {
    assert Init(secrets[..i + 1]) == secrets[..i];
  }

  lemma {:induction false} StopsAt(s: ServerChannel, secrets: seq<Secret>, i: nat, crypto: Crypto)
    requires i <= |secrets| && AdmitSecrets(s, secrets[..i], crypto).1.Err?
    ensures AdmitSecrets(s, secrets, crypto) == AdmitSecrets(s, secrets[..i], crypto)
    decreases |secrets| - i
  {
    if i == |secrets| {
      assert secrets[..i] == secrets;
    } else {
      assert Init(secrets[..i + 1]) == secrets[..i];
      StopsAt(s, secrets, i + 1, crypto);
    }
  }
}
