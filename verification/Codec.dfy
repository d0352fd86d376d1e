/** Wire form of the channel's data: cheques, squashes, stages and redeemers. Each
    decoder is the branch-for-branch reading of the source's, and undoes the encoder
    on everything that fits the fixed sizes. */
module Codec {
  import opened Types
  import opened Squashes
  import opened Cbor

  // ---- Sizes ----

  ghost predicate FitsBody<T>(b: ChequeBody<T>) {
    b.index < U64 && b.amount < U64 && b.timeout < U64
  }

  ghost predicate FitsUnlocked(u: Unlocked) {
    FitsBody(u.body) && |u.body.latch.bytes| == 32 && |u.signature| == 64
  }

  ghost predicate FitsLocked(l: Locked) {
    FitsBody(l.body) && |l.body.latch.bytes| == 32 && |l.signature| == 64
  }

  ghost predicate FitsCheque(c: Cheque) {
    match c
    case UnlockedCheque(u) => FitsUnlocked(u)
    case LockedCheque(l) => FitsLocked(l)
  }

  ghost predicate FitsIndexes(xs: seq<nat>) {
    forall x :: x in xs ==> x < U64
  }

  ghost predicate FitsSquashBody(b: SquashBody) {
    b.amount < U64 && b.index < U64 && FitsIndexes(b.exclude)
  }

  ghost predicate FitsSquash(q: Squash) {
    FitsSquashBody(q.body) && Valid(q.body) && |q.signature| == 64
  }

  ghost predicate FitsUnpend(u: Unpend) {
    u.Unlock? ==> |u.secret.bytes| == 32
  }

  ghost predicate FitsUsed(u: Used) {
    u.index < U64 && u.amount < U64
  }

  ghost predicate FitsPending(p: Pending) {
    p.amount < U64 && p.timeout < U64 && |p.lock.bytes| == 32
  }

  ghost predicate FitsStage(s: Stage) {
    match s
    case Opened(n, us) => n < U64 && forall u :: u in us ==> FitsUsed(u)
    case Closed(n, us, at) => n < U64 && at < U64 && forall u :: u in us ==> FitsUsed(u)
    case Responded(n, ps) => n < U64 && forall p :: p in ps ==> FitsPending(p)
  }

  ghost predicate FitsCont(c: Cont) {
    match c
    case ContAdd => true
    case ContSub(q, us) => FitsSquash(q) && forall u :: u in us ==> FitsUnlocked(u)
    case ContClose => true
    case ContRespond(q, cs) => FitsSquash(q) && forall x :: x in cs ==> FitsCheque(x)
    case ContUnlock(us) => forall u :: u in us ==> FitsUnpend(u)
    case ContExpire(us) => forall u :: u in us ==> FitsUnpend(u)
  }

  ghost predicate FitsStep(s: Step) {
    s.StepCont? ==> FitsCont(s.cont)
  }

  ghost predicate FitsRedeemer(r: Redeemer) {
    r.Main? ==> forall s :: s in r.steps ==> FitsStep(s)
  }

  // ---- Fixed-size byte strings ----

  function EncodeLock(l: Lock): Bytes {
    EncodeBytes(l.bytes)
  }

  function ParseLock(s: Bytes): (p: Parse<Lock>)
    ensures p.Parsed? ==> |p.rest| < |s|
  {
    var (raw, s1) :- ParseBytes(s);
    if |raw| == 32 then Parsed(Lock(raw), s1) else Failed
  }

  function EncodeSecret(x: Secret): Bytes {
    EncodeBytes(x.bytes)
  }

  function ParseSecret(s: Bytes): (p: Parse<Secret>)
    ensures p.Parsed? ==> |p.rest| < |s|
  {
    var (raw, s1) :- ParseBytes(s);
    if |raw| == 32 then Parsed(Secret(raw), s1) else Failed
  }

  /** A signature may also be read from chunks. */
  function ParseSignature(s: Bytes): (p: Parse<Bytes>)
    ensures p.Parsed? ==> |p.rest| < |s|
  {
    var (raw, s1) :- ParseByteString(s);
    if |raw| == 64 then Parsed(raw, s1) else Failed
  }

  lemma SignatureRoundTrip(b: Bytes, rest: Bytes)
    requires |b| == 64
    ensures ParseSignature(EncodeBytes(b) + rest) == Parsed(b, rest)
  {
    ByteStringRoundTrip(b, rest);
  }

  lemma LockUndoes(l: Lock)
    requires |l.bytes| == 32
    ensures Undoes(l, EncodeLock, ParseLock)
  {
    forall rest: Bytes ensures ParseLock(EncodeLock(l) + rest) == Parsed(l, rest) {
      BytesRoundTrip(l.bytes, rest);
    }
  }

  lemma SecretUndoes(x: Secret)
    requires |x.bytes| == 32
    ensures Undoes(x, EncodeSecret, ParseSecret)
  {
    forall rest: Bytes ensures ParseSecret(EncodeSecret(x) + rest) == Parsed(x, rest) {
      BytesRoundTrip(x.bytes, rest);
    }
  }

  /** On the wire a lock is two head bytes, then its 32 bytes. */
  lemma LockWire(l: Lock)
    requires |l.bytes| == 32
    ensures EncodeLock(l) == [0x58, 0x20] + l.bytes
  {
    assert BigEndian(32, 1) == BigEndian(0, 0) + [0x20];
  }

  // ---- Cheques ----

  function EncodeBody<T>(b: ChequeBody<T>, latch: T -> Bytes): Bytes {
    Frame4(EncodeU64(b.index), EncodeU64(b.amount), EncodeU64(b.timeout), latch(b.latch))
  }

  function ParseBody<T(!new)>(s: Bytes, latch: Bytes -> Parse<T>): (p: Parse<ChequeBody<T>>)
    requires Consumes(latch)
    ensures p.Parsed? ==> |p.rest| < |s|
  {
    var (_, s1) :- ParseArray(s);
    var (index, s2) :- ParseU64(s1);
    var (amount, s3) :- ParseU64(s2);
    var (timeout, s4) :- ParseU64(s3);
    var (l, s5) :- latch(s4);
    var (_, s6) :- ParseBreak(s5);
    Parsed(ChequeBody(index, amount, timeout, l), s6)
  }

  lemma BodyRoundTrip<T(!new)>(b: ChequeBody<T>, enc: T -> Bytes, dec: Bytes -> Parse<T>, rest: Bytes)
    requires FitsBody(b) && Consumes(dec) && Undoes(b.latch, enc, dec)
    ensures ParseBody(EncodeBody(b, enc) + rest, dec) == Parsed(b, rest)
  {
    var end := [BREAK] + rest;
    var e3 := enc(b.latch) + end;
    var e2 := EncodeU64(b.timeout) + e3;
    Frame4Plus(EncodeU64(b.index), EncodeU64(b.amount), EncodeU64(b.timeout), enc(b.latch), rest);
    U64RoundTrip(b.index, EncodeU64(b.amount) + e2);
    U64RoundTrip(b.amount, e2);
    U64RoundTrip(b.timeout, e3);
  }

  function EncodeUnlocked(u: Unlocked): Bytes {
    Frame2(EncodeBody(u.body, EncodeSecret), EncodeBytes(u.signature))
  }

  function ParseUnlocked(s: Bytes): (p: Parse<Unlocked>)
    ensures p.Parsed? ==> |p.rest| < |s|
  {
    var (_, s1) :- ParseArray(s);
    var (body, s2) :- ParseBody(s1, ParseSecret);
    var (signature, s3) :- ParseSignature(s2);
    var (_, s4) :- ParseBreak(s3);
    Parsed(Signed(body, signature), s4)
  }

  lemma UnlockedUndoes(u: Unlocked)
    requires FitsUnlocked(u)
    ensures Undoes(u, EncodeUnlocked, ParseUnlocked)
  {
    forall rest: Bytes ensures ParseUnlocked(EncodeUnlocked(u) + rest) == Parsed(u, rest) {
      SecretUndoes(u.body.latch);
      Frame2Plus(EncodeBody(u.body, EncodeSecret), EncodeBytes(u.signature), rest);
      BodyRoundTrip(u.body, EncodeSecret, ParseSecret, EncodeBytes(u.signature) + ([BREAK] + rest));
      SignatureRoundTrip(u.signature, [BREAK] + rest);
    }
  }

  function EncodeCheque(c: Cheque): Bytes {
    match c
    case UnlockedCheque(u) =>
      EncodeConstr(0, Frame2(EncodeBody(u.body, EncodeSecret), EncodeBytes(u.signature)))
    case LockedCheque(l) =>
      EncodeConstr(1, Frame2(EncodeBody(l.body, EncodeLock), EncodeBytes(l.signature)))
  }

  function ParseCheque(s: Bytes): (p: Parse<Cheque>)
    ensures p.Parsed? ==> |p.rest| < |s|
  {
    var (tag, s1) :- ParseTag(s);
    if tag == 121 then
      var (_, s2) :- ParseArray(s1);
      var (body, s3) :- ParseBody(s2, ParseSecret);
      var (signature, s4) :- ParseSignature(s3);
      var (_, s5) :- ParseBreak(s4);
      Parsed(UnlockedCheque(Signed(body, signature)), s5)
    else if tag == 122 then
      var (_, s2) :- ParseArray(s1);
      var (body, s3) :- ParseBody(s2, ParseLock);
      var (signature, s4) :- ParseSignature(s3);
      var (_, s5) :- ParseBreak(s4);
      Parsed(LockedCheque(Signed(body, signature)), s5)
    else Failed
  }

  lemma ChequeRoundTrip(c: Cheque, rest: Bytes)
    requires FitsCheque(c)
    ensures ParseCheque(EncodeCheque(c) + rest) == Parsed(c, rest)
    ensures EncodeCheque(c) != [] && EncodeCheque(c)[0] != BREAK
  {
    match c
    case UnlockedCheque(u) =>
      var fields := Frame2(EncodeBody(u.body, EncodeSecret), EncodeBytes(u.signature));
      ConstrPlus(0, fields, rest);
      SecretUndoes(u.body.latch);
      Frame2Plus(EncodeBody(u.body, EncodeSecret), EncodeBytes(u.signature), rest);
      BodyRoundTrip(u.body, EncodeSecret, ParseSecret, EncodeBytes(u.signature) + ([BREAK] + rest));
      SignatureRoundTrip(u.signature, [BREAK] + rest);
    case LockedCheque(l) =>
      var fields := Frame2(EncodeBody(l.body, EncodeLock), EncodeBytes(l.signature));
      ConstrPlus(1, fields, rest);
      LockUndoes(l.body.latch);
      Frame2Plus(EncodeBody(l.body, EncodeLock), EncodeBytes(l.signature), rest);
      BodyRoundTrip(l.body, EncodeLock, ParseLock, EncodeBytes(l.signature) + ([BREAK] + rest));
      SignatureRoundTrip(l.signature, [BREAK] + rest);
  }

  lemma ChequeUndoes(c: Cheque)
    requires FitsCheque(c)
    ensures Undoes(c, EncodeCheque, ParseCheque)
  {
    forall rest: Bytes ensures ParseCheque(EncodeCheque(c) + rest) == Parsed(c, rest) {
      ChequeRoundTrip(c, rest);
    }
    ChequeRoundTrip(c, []);
  }

  // ---- Squashes ----

  /** The constructor's test: bounded length and every window of two ascending. */
  predicate IndexesOk(xs: seq<nat>) {
    |xs| <= MAX_EXCLUDE_LENGTH && forall k :: 0 <= k < |xs| - 1 ==> xs[k] < xs[k + 1]
  }

  lemma {:induction false} WindowsAscend(xs: seq<nat>)
    ensures (forall k :: 0 <= k < |xs| - 1 ==> xs[k] < xs[k + 1]) <==> Ascending(xs)
  {
    if |xs| > 1 {
      WindowsAscend(Init(xs));
      assert forall k :: 0 <= k < |xs| - 1 ==> xs[k] == Init(xs)[k];
      if forall k :: 0 <= k < |xs| - 1 ==> xs[k] < xs[k + 1] {
        assert xs[|xs| - 2] < xs[|xs| - 1];
      }
    }
  }

  function EncodeSquashBody(b: SquashBody): Bytes {
    Frame3(EncodeU64(b.amount), EncodeU64(b.index), EncodeList(b.exclude, EncodeU64))
  }

  function ParseSquashBody(s: Bytes): (p: Parse<SquashBody>)
    ensures p.Parsed? ==> |p.rest| < |s|
  {
    var (_, s1) :- ParseArray(s);
    var (amount, s2) :- ParseU64(s1);
    var (index, s3) :- ParseU64(s2);
    var (exclude, s4) :- ParseList(s3, ParseU64);
    if !IndexesOk(exclude) then Failed
    else
      var (_, s5) :- ParseBreak(s4);
      if exclude == [] || Last(exclude) < index
      then Parsed(SquashBody(amount, index, exclude), s5)
      else Failed
  }

  lemma ChecksAreValid(b: SquashBody)
    ensures IndexesOk(b.exclude) && (b.exclude == [] || Last(b.exclude) < b.index) <==> Valid(b)
  {
    WindowsAscend(b.exclude);
    if Valid(b) && b.exclude != [] {
      assert Last(b.exclude) in b.exclude;
    }
    if Ascending(b.exclude) && b.exclude != [] && Last(b.exclude) < b.index {
      AscendingInit(b.exclude);
    }
  }

  /** Whatever bytes it came from, a decoded squash body is sorted, bounded, and below
      its index. */
  lemma DecodedIsValid(s: Bytes)
    requires ParseSquashBody(s).Parsed?
    ensures Valid(ParseSquashBody(s).value)
  {
    ChecksAreValid(ParseSquashBody(s).value);
  }

  lemma U64Undoes(n: nat)
    requires n < U64
    ensures Undoes(n, EncodeU64, ParseU64)
  {
    forall rest: Bytes ensures ParseU64(EncodeU64(n) + rest) == Parsed(n, rest) {
      U64RoundTrip(n, rest);
    }
  }

  /** An encoded body decodes exactly when it is valid. */
  lemma SquashBodyRoundTrip(b: SquashBody, rest: Bytes)
    requires FitsSquashBody(b)
    ensures ParseSquashBody(EncodeSquashBody(b) + rest) == if Valid(b) then Parsed(b, rest) else Failed
  {
    var end := [BREAK] + rest;
    var list := EncodeList(b.exclude, EncodeU64);
    Frame3Plus(EncodeU64(b.amount), EncodeU64(b.index), list, rest);
    U64RoundTrip(b.amount, EncodeU64(b.index) + (list + end));
    U64RoundTrip(b.index, list + end);
    forall x | x in b.exclude ensures Undoes(x, EncodeU64, ParseU64) { U64Undoes(x); }
    ListRoundTrip(b.exclude, EncodeU64, ParseU64, end);
    ChecksAreValid(b);
  }

  function EncodeSquash(q: Squash): Bytes {
    Frame2(EncodeSquashBody(q.body), EncodeBytes(q.signature))
  }

  function ParseSquash(s: Bytes): (p: Parse<Squash>)
    ensures p.Parsed? ==> |p.rest| < |s|
  {
    var (_, s1) :- ParseArray(s);
    var (body, s2) :- ParseSquashBody(s1);
    var (signature, s3) :- ParseSignature(s2);
    var (_, s4) :- ParseBreak(s3);
    Parsed(Squash(body, signature), s4)
  }

  lemma SquashRoundTrip(q: Squash, rest: Bytes)
    requires FitsSquash(q)
    ensures ParseSquash(EncodeSquash(q) + rest) == Parsed(q, rest)
  {
    Frame2Plus(EncodeSquashBody(q.body), EncodeBytes(q.signature), rest);
    SquashBodyRoundTrip(q.body, EncodeBytes(q.signature) + ([BREAK] + rest));
    SignatureRoundTrip(q.signature, [BREAK] + rest);
  }

  // ---- Unpends, useds, pendings ----

  function EncodeUnpend(u: Unpend): Bytes {
    match u
    case Continue => EncodeBytes([])
    case Expire => EncodeBytes([0])
    case Unlock(secret) => EncodeBytes(secret.bytes)
  }

  function ParseUnpend(s: Bytes): (p: Parse<Unpend>)
    ensures p.Parsed? ==> |p.rest| < |s|
  {
    var (raw, s1) :- ParseBytes(s);
    Parsed(if |raw| == 0 then Continue else if |raw| == 32 then Unlock(Secret(raw)) else Expire, s1)
  }

  lemma UnpendUndoes(u: Unpend)
    requires FitsUnpend(u)
    ensures Undoes(u, EncodeUnpend, ParseUnpend)
  {
    forall rest: Bytes ensures ParseUnpend(EncodeUnpend(u) + rest) == Parsed(u, rest) {
      match u
      case Continue => BytesRoundTrip([], rest);
      case Expire => BytesRoundTrip([0], rest);
      case Unlock(secret) => BytesRoundTrip(secret.bytes, rest);
    }
  }

  function EncodeUsed(u: Used): Bytes {
    Frame2(EncodeU64(u.index), EncodeU64(u.amount))
  }

  function ParseUsed(s: Bytes): (p: Parse<Used>)
    ensures p.Parsed? ==> |p.rest| < |s|
  {
    var (_, s1) :- ParseArray(s);
    var (index, s2) :- ParseU64(s1);
    var (amount, s3) :- ParseU64(s2);
    var (_, s4) :- ParseBreak(s3);
    Parsed(Used(index, amount), s4)
  }

  lemma UsedUndoes(u: Used)
    requires FitsUsed(u)
    ensures Undoes(u, EncodeUsed, ParseUsed)
  {
    forall rest: Bytes ensures ParseUsed(EncodeUsed(u) + rest) == Parsed(u, rest) {
      Frame2Plus(EncodeU64(u.index), EncodeU64(u.amount), rest);
      U64RoundTrip(u.index, EncodeU64(u.amount) + ([BREAK] + rest));
      U64RoundTrip(u.amount, [BREAK] + rest);
    }
  }

  function EncodePending(p: Pending): Bytes {
    Frame3(EncodeU64(p.amount), EncodeU64(p.timeout), EncodeLock(p.lock))
  }

  function ParsePending(s: Bytes): (p: Parse<Pending>)
    ensures p.Parsed? ==> |p.rest| < |s|
  {
    var (_, s1) :- ParseArray(s);
    var (amount, s2) :- ParseU64(s1);
    var (timeout, s3) :- ParseU64(s2);
    var (lock, s4) :- ParseLock(s3);
    var (_, s5) :- ParseBreak(s4);
    Parsed(Pending(amount, timeout, lock), s5)
  }

  lemma PendingUndoes(p: Pending)
    requires FitsPending(p)
    ensures Undoes(p, EncodePending, ParsePending)
  {
    LockUndoes(p.lock);
    forall rest: Bytes ensures ParsePending(EncodePending(p) + rest) == Parsed(p, rest) {
      var end := EncodeLock(p.lock) + ([BREAK] + rest);
      Frame3Plus(EncodeU64(p.amount), EncodeU64(p.timeout), EncodeLock(p.lock), rest);
      U64RoundTrip(p.amount, EncodeU64(p.timeout) + end);
      U64RoundTrip(p.timeout, end);
    }
  }

  // ---- Stages ----

  function EncodeStage(s: Stage): Bytes {
    match s
    case Opened(n, us) => EncodeConstr(0, Frame2(EncodeU64(n), EncodeList(us, EncodeUsed)))
    case Closed(n, us, at) => EncodeConstr(1, Frame3(EncodeU64(n), EncodeList(us, EncodeUsed), EncodeU64(at)))
    case Responded(n, ps) => EncodeConstr(2, Frame2(EncodeU64(n), EncodeList(ps, EncodePending)))
  }

  function ParseStage(s: Bytes): (p: Parse<Stage>)
    ensures p.Parsed? ==> |p.rest| < |s|
  {
    var (tag, s1) :- ParseTag(s);
    if tag !in {121, 122, 123} then Failed
    else
      var (_, s2) :- ParseArray(s1);
      var (n, s3) :- ParseU64(s2);
      if tag == 121 then
        var (us, s4) :- ParseList(s3, ParseUsed);
        var (_, s5) :- ParseBreak(s4);
        Parsed(Opened(n, us), s5)
      else if tag == 122 then
        var (us, s4) :- ParseList(s3, ParseUsed);
        var (at, s5) :- ParseU64(s4);
        var (_, s6) :- ParseBreak(s5);
        Parsed(Closed(n, us, at), s6)
      else
        var (ps, s4) :- ParseList(s3, ParsePending);
        var (_, s5) :- ParseBreak(s4);
        Parsed(Responded(n, ps), s5)
  }

  lemma UsedsRoundTrip(us: seq<Used>, rest: Bytes)
    requires forall u :: u in us ==> FitsUsed(u)
    ensures ParseList(EncodeList(us, EncodeUsed) + rest, ParseUsed) == Parsed(us, rest)
  {
    forall u | u in us ensures Undoes(u, EncodeUsed, ParseUsed) { UsedUndoes(u); }
    ListRoundTrip(us, EncodeUsed, ParseUsed, rest);
  }

  lemma PendingsRoundTrip(ps: seq<Pending>, rest: Bytes)
    requires forall p :: p in ps ==> FitsPending(p)
    ensures ParseList(EncodeList(ps, EncodePending) + rest, ParsePending) == Parsed(ps, rest)
  {
    forall p | p in ps ensures Undoes(p, EncodePending, ParsePending) { PendingUndoes(p); }
    ListRoundTrip(ps, EncodePending, ParsePending, rest);
  }

  lemma OpenedRoundTrip(n: nat, us: seq<Used>, rest: Bytes)
    requires FitsStage(Opened(n, us))
    ensures ParseStage(EncodeStage(Opened(n, us)) + rest) == Parsed(Opened(n, us), rest)
  {
    var list := EncodeList(us, EncodeUsed);
    ConstrPlus(0, Frame2(EncodeU64(n), list), rest);
    Frame2Plus(EncodeU64(n), list, rest);
    U64RoundTrip(n, list + ([BREAK] + rest));
    UsedsRoundTrip(us, [BREAK] + rest);
  }

  lemma ClosedRoundTrip(n: nat, us: seq<Used>, at: nat, rest: Bytes)
    requires FitsStage(Closed(n, us, at))
    ensures ParseStage(EncodeStage(Closed(n, us, at)) + rest) == Parsed(Closed(n, us, at), rest)
  {
    var list, end := EncodeList(us, EncodeUsed), EncodeU64(at) + ([BREAK] + rest);
    ConstrPlus(1, Frame3(EncodeU64(n), list, EncodeU64(at)), rest);
    Frame3Plus(EncodeU64(n), list, EncodeU64(at), rest);
    U64RoundTrip(n, list + end);
    UsedsRoundTrip(us, end);
    U64RoundTrip(at, [BREAK] + rest);
  }

  lemma RespondedRoundTrip(n: nat, ps: seq<Pending>, rest: Bytes)
    requires FitsStage(Responded(n, ps))
    ensures ParseStage(EncodeStage(Responded(n, ps)) + rest) == Parsed(Responded(n, ps), rest)
  {
    var list := EncodeList(ps, EncodePending);
    ConstrPlus(2, Frame2(EncodeU64(n), list), rest);
    Frame2Plus(EncodeU64(n), list, rest);
    U64RoundTrip(n, list + ([BREAK] + rest));
    PendingsRoundTrip(ps, [BREAK] + rest);
  }

  lemma StageRoundTrip(s: Stage, rest: Bytes)
    requires FitsStage(s)
    ensures ParseStage(EncodeStage(s) + rest) == Parsed(s, rest)
  {
    match s
    case Opened(n, us) => OpenedRoundTrip(n, us, rest);
    case Closed(n, us, at) => ClosedRoundTrip(n, us, at, rest);
    case Responded(n, ps) => RespondedRoundTrip(n, ps, rest);
  }

  // ---- Redeemers ----

  function EncodeEol(e: Eol): Bytes {
    match e
    case EolEnd => EncodeConstr(0, [EMPTY_ARRAY])
    case EolElapse => EncodeConstr(1, [EMPTY_ARRAY])
  }

  function ParseEol(s: Bytes): (p: Parse<Eol>)
    ensures p.Parsed? ==> |p.rest| < |s|
  {
    var (tag, s1) :- ParseTag(s);
    if tag !in {121, 122} then Failed
    else
      var (_, s2) :- ParseArray(s1);
      Parsed(if tag == 121 then EolEnd else EolElapse, s2)
  }

  lemma EolRoundTrip(e: Eol, rest: Bytes)
    ensures ParseEol(EncodeEol(e) + rest) == Parsed(e, rest)
  {
    ConstrPlus(0, [EMPTY_ARRAY], rest);
    ConstrPlus(1, [EMPTY_ARRAY], rest);
    EmptyPlus(rest);
  }

  function EncodeCont(c: Cont): Bytes {
    match c
    case ContAdd => EncodeConstr(0, [EMPTY_ARRAY])
    case ContSub(q, us) => EncodeConstr(1, Frame2(EncodeSquash(q), EncodeList(us, EncodeUnlocked)))
    case ContClose => EncodeConstr(2, [EMPTY_ARRAY])
    case ContRespond(q, cs) => EncodeConstr(3, Frame2(EncodeSquash(q), EncodeList(cs, EncodeCheque)))
    case ContUnlock(us) => EncodeConstr(4, Frame1(EncodeList(us, EncodeUnpend)))
    case ContExpire(us) => EncodeConstr(5, Frame1(EncodeList(us, EncodeUnpend)))
  }

  /** A squash and a list of cheques, as an array of two fields. */
  function ParseEvidence<T(!new)>(s: Bytes, item: Bytes -> Parse<T>): (p: Parse<(Squash, seq<T>)>)
    requires Consumes(item)
    ensures p.Parsed? ==> |p.rest| < |s|
  {
    var (_, s1) :- ParseArray(s);
    var (q, s2) :- ParseSquash(s1);
    var (xs, s3) :- ParseList(s2, item);
    var (_, s4) :- ParseBreak(s3);
    Parsed((q, xs), s4)
  }

  lemma EvidenceRoundTrip<T(!new)>(q: Squash, xs: seq<T>, enc: T -> Bytes, dec: Bytes -> Parse<T>, rest: Bytes)
    requires FitsSquash(q) && Consumes(dec) && forall x :: x in xs ==> Undoes(x, enc, dec)
    ensures ParseEvidence(Frame2(EncodeSquash(q), EncodeList(xs, enc)) + rest, dec) == Parsed((q, xs), rest)
  {
    var end := [BREAK] + rest;
    Frame2Plus(EncodeSquash(q), EncodeList(xs, enc), rest);
    SquashRoundTrip(q, EncodeList(xs, enc) + end);
    ListRoundTrip(xs, enc, dec, end);
  }

  /** A list of unpends, as an array of one field. */
  function ParseUnpends(s: Bytes): (p: Parse<seq<Unpend>>)
    ensures p.Parsed? ==> |p.rest| < |s|
  {
    var (_, s1) :- ParseArray(s);
    var (us, s2) :- ParseList(s1, ParseUnpend);
    var (_, s3) :- ParseBreak(s2);
    Parsed(us, s3)
  }

  lemma UnpendsRoundTrip(us: seq<Unpend>, rest: Bytes)
    requires forall u :: u in us ==> FitsUnpend(u)
    ensures ParseUnpends(Frame1(EncodeList(us, EncodeUnpend)) + rest) == Parsed(us, rest)
  {
    Frame1Plus(EncodeList(us, EncodeUnpend), rest);
    forall u | u in us ensures Undoes(u, EncodeUnpend, ParseUnpend) { UnpendUndoes(u); }
    ListRoundTrip(us, EncodeUnpend, ParseUnpend, [BREAK] + rest);
  }

  function ParseCont(s: Bytes): (p: Parse<Cont>)
    ensures p.Parsed? ==> |p.rest| < |s|
  {
    var (tag, s1) :- ParseTag(s);
    ParseContFields(tag, s1)
  }

  function ParseContFields(tag: nat, s: Bytes): (p: Parse<Cont>)
    ensures p.Parsed? ==> |p.rest| < |s|
  {
    if tag == 121 then
      var (_, s1) :- ParseArray(s);
      Parsed(ContAdd, s1)
    else if tag == 122 then
      var (e, s1) :- ParseEvidence(s, ParseUnlocked);
      Parsed(ContSub(e.0, e.1), s1)
    else if tag == 123 then
      var (_, s1) :- ParseArray(s);
      Parsed(ContClose, s1)
    else if tag == 124 then
      var (e, s1) :- ParseEvidence(s, ParseCheque);
      Parsed(ContRespond(e.0, e.1), s1)
    else if tag == 125 || tag == 126 then
      var (us, s1) :- ParseUnpends(s);
      Parsed(Settling(tag, us), s1)
    else Failed
  }

  function Settling(tag: nat, us: seq<Unpend>): Cont {
    if tag == 125 then ContUnlock(us) else ContExpire(us)
  }

  lemma ContTag(n: nat, fields: Bytes, rest: Bytes)
    requires n < 7
    ensures ParseCont(EncodeConstr(n, fields) + rest) == ParseContFields(Constr(n), fields + rest)
  {
    ConstrPlus(n, fields, rest);
  }

  lemma SubRoundTrip(q: Squash, us: seq<Unlocked>, rest: Bytes)
    requires FitsCont(ContSub(q, us))
    ensures ParseCont(EncodeCont(ContSub(q, us)) + rest) == Parsed(ContSub(q, us), rest)
  {
    ContTag(1, Frame2(EncodeSquash(q), EncodeList(us, EncodeUnlocked)), rest);
    forall u | u in us ensures Undoes(u, EncodeUnlocked, ParseUnlocked) { UnlockedUndoes(u); }
    EvidenceRoundTrip(q, us, EncodeUnlocked, ParseUnlocked, rest);
  }

  lemma RespondRoundTrip(q: Squash, cs: seq<Cheque>, rest: Bytes)
    requires FitsCont(ContRespond(q, cs))
    ensures ParseCont(EncodeCont(ContRespond(q, cs)) + rest) == Parsed(ContRespond(q, cs), rest)
  {
    ContTag(3, Frame2(EncodeSquash(q), EncodeList(cs, EncodeCheque)), rest);
    forall c | c in cs ensures Undoes(c, EncodeCheque, ParseCheque) { ChequeUndoes(c); }
    EvidenceRoundTrip(q, cs, EncodeCheque, ParseCheque, rest);
  }

  lemma SettlingRoundTrip(n: nat, us: seq<Unpend>, rest: Bytes)
    requires n in {4, 5} && forall u :: u in us ==> FitsUnpend(u)
    ensures ParseCont(EncodeConstr(n, Frame1(EncodeList(us, EncodeUnpend))) + rest)
      == Parsed(Settling(Constr(n), us), rest)
  {
    var fields := Frame1(EncodeList(us, EncodeUnpend));
    ContTag(n, fields, rest);
    UnpendsRoundTrip(us, rest);
    SettlingFields(Constr(n), fields + rest);
  }

  lemma SettlingFields(tag: nat, s: Bytes)
    requires tag in {125, 126}
    ensures ParseContFields(tag, s) ==
      match ParseUnpends(s)
      case Parsed(us, s1) => Parsed(Settling(tag, us), s1)
      case Failed => Failed
  {}

  lemma ContRoundTrip(c: Cont, rest: Bytes)
    requires FitsCont(c)
    ensures ParseCont(EncodeCont(c) + rest) == Parsed(c, rest)
  {
    match c
    case ContAdd => ContTag(0, [EMPTY_ARRAY], rest); EmptyPlus(rest);
    case ContSub(q, us) => SubRoundTrip(q, us, rest);
    case ContClose => ContTag(2, [EMPTY_ARRAY], rest); EmptyPlus(rest);
    case ContRespond(q, cs) => RespondRoundTrip(q, cs, rest);
    case ContUnlock(us) => SettlingRoundTrip(4, us, rest);
    case ContExpire(us) => SettlingRoundTrip(5, us, rest);
  }

  function EncodeStep(s: Step): Bytes {
    match s
    case StepCont(c) => EncodeConstr(0, Frame1(EncodeCont(c)))
    case StepEol(e) => EncodeConstr(1, Frame1(EncodeEol(e)))
  }

  function ParseStep(s: Bytes): (p: Parse<Step>)
    ensures p.Parsed? ==> |p.rest| < |s|
  {
    var (tag, s1) :- ParseTag(s);
    if tag == 121 then
      var (_, s2) :- ParseArray(s1);
      var (c, s3) :- ParseCont(s2);
      var (_, s4) :- ParseBreak(s3);
      Parsed(StepCont(c), s4)
    else if tag == 122 then
      var (_, s2) :- ParseArray(s1);
      var (e, s3) :- ParseEol(s2);
      var (_, s4) :- ParseBreak(s3);
      Parsed(StepEol(e), s4)
    else Failed
  }

  lemma StepUndoes(s: Step)
    requires FitsStep(s)
    ensures Undoes(s, EncodeStep, ParseStep)
  {
    forall rest: Bytes ensures ParseStep(EncodeStep(s) + rest) == Parsed(s, rest) {
      match s
      case StepCont(c) =>
        ConstrPlus(0, Frame1(EncodeCont(c)), rest);
        Frame1Plus(EncodeCont(c), rest);
        ContRoundTrip(c, [BREAK] + rest);
      case StepEol(e) =>
        ConstrPlus(1, Frame1(EncodeEol(e)), rest);
        Frame1Plus(EncodeEol(e), rest);
        EolRoundTrip(e, [BREAK] + rest);
    }
  }

  function EncodeRedeemer(r: Redeemer): Bytes {
    match r
    case Defer => EncodeConstr(0, [EMPTY_ARRAY])
    case Main(steps) => EncodeConstr(1, Frame1(EncodeList(steps, EncodeStep)))
    case Mutual => EncodeConstr(2, [EMPTY_ARRAY])
  }

  function ParseRedeemer(s: Bytes): (p: Parse<Redeemer>)
    ensures p.Parsed? ==> |p.rest| < |s|
  {
    var (tag, s1) :- ParseTag(s);
    if tag == 121 then
      var (_, s2) :- ParseArray(s1);
      Parsed(Defer, s2)
    else if tag == 122 then
      var (_, s2) :- ParseArray(s1);
      var (steps, s3) :- ParseList(s2, ParseStep);
      var (_, s4) :- ParseBreak(s3);
      Parsed(Main(steps), s4)
    else if tag == 123 then
      var (_, s2) :- ParseArray(s1);
      Parsed(Mutual, s2)
    else Failed
  }

  /** Decoding `encode(r) ++ rest` gives `r` back and leaves exactly `rest`. */
  lemma RedeemerRoundTrip(r: Redeemer, rest: Bytes)
    requires FitsRedeemer(r)
    ensures ParseRedeemer(EncodeRedeemer(r) + rest) == Parsed(r, rest)
  {
    match r
    case Defer => ConstrPlus(0, [EMPTY_ARRAY], rest); EmptyPlus(rest);
    case Main(steps) =>
      ConstrPlus(1, Frame1(EncodeList(steps, EncodeStep)), rest);
      Frame1Plus(EncodeList(steps, EncodeStep), rest);
      forall s | s in steps ensures Undoes(s, EncodeStep, ParseStep) { StepUndoes(s); }
      ListRoundTrip(steps, EncodeStep, ParseStep, [BREAK] + rest);
    case Mutual => ConstrPlus(2, [EMPTY_ARRAY], rest); EmptyPlus(rest);
  }

  /** What is read once the tag said an empty constructor: any array head, whatever length
      it states, and nothing of what that array would hold. */
  ghost function HeadOnly<T>(x: T, s: Bytes): Parse<T> {
    if ParseArray(s).Parsed? then Parsed(x, ParseArray(s).rest) else Failed
  }

  lemma TagOfConstr(n: nat, s: Bytes)
    requires n < 7
    ensures ParseTag(EncodeConstr(n, s)) == Parsed(Constr(n), s)
  {
    ConstrPlus(n, s, []);
    assert s + [] == s && EncodeConstr(n, s) + [] == EncodeConstr(n, s);
  }

  lemma EmptyDefer(s: Bytes)
    ensures ParseRedeemer(EncodeConstr(0, s)) == HeadOnly(Defer, s)
  {
    TagOfConstr(0, s);
  }

  lemma EmptyMutual(s: Bytes)
    ensures ParseRedeemer(EncodeConstr(2, s)) == HeadOnly(Mutual, s)
  {
    TagOfConstr(2, s);
  }

  lemma EmptyAdd(s: Bytes)
    ensures ParseCont(EncodeConstr(0, s)) == HeadOnly(ContAdd, s)
  {
    TagOfConstr(0, s);
  }

  lemma EmptyClose(s: Bytes)
    ensures ParseCont(EncodeConstr(2, s)) == HeadOnly(ContClose, s)
  {
    TagOfConstr(2, s);
  }

  lemma EmptyEols(s: Bytes)
    ensures ParseEol(EncodeConstr(0, s)) == HeadOnly(EolEnd, s)
    ensures ParseEol(EncodeConstr(1, s)) == HeadOnly(EolElapse, s)
  {
    TagOfConstr(0, s);
    TagOfConstr(1, s);
  }

  /** The decoder is lax about what the encoder never writes: all six empty constructors
      are read without looking at the length of their array. */
  lemma EmptyConstructorIgnoresLength(s: Bytes)
    ensures ParseRedeemer(EncodeConstr(0, s)) == HeadOnly(Defer, s)
    ensures ParseRedeemer(EncodeConstr(2, s)) == HeadOnly(Mutual, s)
    ensures ParseCont(EncodeConstr(0, s)) == HeadOnly(ContAdd, s)
    ensures ParseCont(EncodeConstr(2, s)) == HeadOnly(ContClose, s)
    ensures ParseEol(EncodeConstr(0, s)) == HeadOnly(EolEnd, s)
    ensures ParseEol(EncodeConstr(1, s)) == HeadOnly(EolElapse, s)
  {
    EmptyDefer(s);
    EmptyMutual(s);
    EmptyAdd(s);
    EmptyClose(s);
    EmptyEols(s);
  }

  /** So each of the 2^64 definite lengths, and the indefinite one, gives the same value
      and leaves the same bytes. */
  lemma AnyLengthReads<T>(x: T, n: nat, rest: Bytes)
    requires n < U64
    ensures HeadOnly(x, EncodeHead(ARRAY, n) + rest) == Parsed(x, rest)
    ensures HeadOnly(x, [BEGIN_ARRAY] + rest) == Parsed(x, rest)
  {
    HeadRoundTrip(ARRAY, n, rest);
    OpenArray(rest);
  }

  // ---- Signed messages ----

  function Message(tag: Bytes, data: Bytes): Bytes {
    Frame2(EncodeByteString(tag), data)
  }

  function ChequeMessage(tag: Bytes, b: ChequeBody<Lock>): Bytes {
    Message(tag, EncodeBody(b, EncodeLock))
  }

  function SquashMessage(tag: Bytes, b: SquashBody): Bytes {
    Message(tag, EncodeSquashBody(b))
  }

  ghost predicate FitsMessage(b: ChequeBody<Lock>) {
    FitsBody(b) && |b.latch.bytes| == 32
  }

  lemma MessageReads(tag: Bytes, data: Bytes)
    ensures var s := Message(tag, data);
      && ParseArray(s).Parsed?
      && ParseByteString(ParseArray(s).rest) == Parsed(tag, data + [BREAK])
  {
    var s := Message(tag, data);
    Frame2Plus(EncodeByteString(tag), data, []);
    assert s + [] == s;
    assert [BREAK] + [] == [BREAK];
    ByteStringRoundTrip(tag, data + [BREAK]);
  }

  /** The signed message determines the tag and the body, for cheques. */
  lemma ChequeMessageInjective(t: Bytes, b: ChequeBody<Lock>, u: Bytes, c: ChequeBody<Lock>)
    requires FitsMessage(b) && FitsMessage(c)
    requires ChequeMessage(t, b) == ChequeMessage(u, c)
    ensures t == u && b == c
  {
    MessageReads(t, EncodeBody(b, EncodeLock));
    MessageReads(u, EncodeBody(c, EncodeLock));
    LockUndoes(b.latch);
    LockUndoes(c.latch);
    BodyRoundTrip(b, EncodeLock, ParseLock, [BREAK]);
    BodyRoundTrip(c, EncodeLock, ParseLock, [BREAK]);
  }

  /** And for squashes, valid or not. */
  lemma SquashMessageInjective(t: Bytes, b: SquashBody, u: Bytes, c: SquashBody)
    requires FitsSquashBody(b) && FitsSquashBody(c)
    requires SquashMessage(t, b) == SquashMessage(u, c)
    ensures t == u && b == c
  {
    MessageReads(t, EncodeSquashBody(b));
    MessageReads(u, EncodeSquashBody(c));
    FieldsOf(b, [BREAK]);
    FieldsOf(c, [BREAK]);
  }

  /** The three fields of a squash body before any check. */
  function ParseFields(s: Bytes): Parse<(nat, nat, seq<nat>)> {
    var (_, s1) :- ParseArray(s);
    var (amount, s2) :- ParseU64(s1);
    var (index, s3) :- ParseU64(s2);
    var (exclude, s4) :- ParseList(s3, ParseU64);
    Parsed((amount, index, exclude), s4)
  }

  lemma FieldsOf(b: SquashBody, rest: Bytes)
    requires FitsSquashBody(b)
    ensures ParseFields(EncodeSquashBody(b) + rest) == Parsed((b.amount, b.index, b.exclude), [BREAK] + rest)
  {
    var end := [BREAK] + rest;
    var list := EncodeList(b.exclude, EncodeU64);
    Frame3Plus(EncodeU64(b.amount), EncodeU64(b.index), list, rest);
    U64RoundTrip(b.amount, EncodeU64(b.index) + (list + end));
    U64RoundTrip(b.index, list + end);
    forall x | x in b.exclude ensures Undoes(x, EncodeU64, ParseU64) { U64Undoes(x); }
    ListRoundTrip(b.exclude, EncodeU64, ParseU64, end);
  }

  /** Two unsigned integers, then whatever follows: the third field of a cheque is an
      integer, of a squash a list. */
  function ThirdField(s: Bytes): Parse<()> {
    var (_, s1) :- ParseArray(s);
    var (_, s2) :- ParseU64(s1);
    var (_, s3) :- ParseU64(s2);
    Parsed((), s3)
  }

  lemma ChequeThird(b: ChequeBody<Lock>)
    requires FitsMessage(b)
    ensures var p := ThirdField(EncodeBody(b, EncodeLock) + [BREAK]);
      p.Parsed? && p.rest != [] && p.rest[0] < 0x20
  {
    var e3 := EncodeLock(b.latch) + ([BREAK] + [BREAK]);
    var e2 := EncodeU64(b.timeout) + e3;
    Frame4Plus(EncodeU64(b.index), EncodeU64(b.amount), EncodeU64(b.timeout), EncodeLock(b.latch), [BREAK]);
    U64RoundTrip(b.index, EncodeU64(b.amount) + e2);
    U64RoundTrip(b.amount, e2);
    assert e2[0] == EncodeU64(b.timeout)[0];
  }

  lemma SquashThird(b: SquashBody)
    requires FitsSquashBody(b)
    ensures var p := ThirdField(EncodeSquashBody(b) + [BREAK]);
      p.Parsed? && p.rest != [] && p.rest[0] >= 0x80
  {
    var end := [BREAK] + [BREAK];
    var list := EncodeList(b.exclude, EncodeU64);
    Frame3Plus(EncodeU64(b.amount), EncodeU64(b.index), list, [BREAK]);
    U64RoundTrip(b.amount, EncodeU64(b.index) + (list + end));
    U64RoundTrip(b.index, list + end);
    assert (list + end)[0] == list[0];
  }

  /** No bytes are both a cheque message and a squash message, for any tags. */
  lemma MessagesDisjoint(t: Bytes, b: ChequeBody<Lock>, u: Bytes, c: SquashBody)
    requires FitsMessage(b) && FitsSquashBody(c)
    ensures ChequeMessage(t, b) != SquashMessage(u, c)
  {
    if ChequeMessage(t, b) == SquashMessage(u, c) {
      MessageReads(t, EncodeBody(b, EncodeLock));
      MessageReads(u, EncodeSquashBody(c));
      ChequeThird(b);
      SquashThird(c);
      assert false;
    }
  }
}
