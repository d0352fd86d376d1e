/** What the encoders put on the wire, read back with the plain readers of module Cbor
    and, for heads, tags and byte strings, byte by byte: which field comes first does not
    depend on the decoders of module Codec. */
module Wire {
  import opened Types
  import opened Cbor
  import opened Codec

  // ---- Bytes ----

  /** A head is its major type and argument, the argument most significant byte first
      (section 3 of RFC 8949). */
  lemma HeadWire(m: Major, n: nat)
    requires n < U64
    ensures EncodeHead(m, n) ==
      if n < 24 then [m * 32 + n]
      else if n < 0x100 then [m * 32 + 24, n]
      else if n < 0x1_0000 then [m * 32 + 25, n / 0x100, n % 0x100]
      else if n < 0x1_0000_0000 then
        [m * 32 + 26, n / 0x100_0000, n / 0x1_0000 % 0x100, n / 0x100 % 0x100, n % 0x100]
      else
        [m * 32 + 27,
         n / 0x100_0000_0000_0000, n / 0x1_0000_0000_0000 % 0x100,
         n / 0x100_0000_0000 % 0x100, n / 0x1_0000_0000 % 0x100,
         n / 0x100_0000 % 0x100, n / 0x1_0000 % 0x100, n / 0x100 % 0x100, n % 0x100]
  {
    if n >= 0x1_0000_0000 {
      EightWire(m, n);
    } else if n >= 0x1_0000 {
      FourBytes(n);
      assert [m * 32 + 26] + BigEndian(n, 4)
        == [m * 32 + 26, n / 0x100_0000, n / 0x1_0000 % 0x100, n / 0x100 % 0x100, n % 0x100];
    } else if n >= 0x100 {
      TwoBytes(n);
      assert [m * 32 + 25] + BigEndian(n, 2) == [m * 32 + 25, n / 0x100, n % 0x100];
    } else if n >= 24 {
      OneByte(n);
      assert [m * 32 + 24] + BigEndian(n, 1) == [m * 32 + 24, n];
    }
  }

  lemma EightWire(m: Major, n: nat)
    requires 0x1_0000_0000 <= n < U64
    ensures EncodeHead(m, n) ==
      [m * 32 + 27,
       n / 0x100_0000_0000_0000, n / 0x1_0000_0000_0000 % 0x100,
       n / 0x100_0000_0000 % 0x100, n / 0x1_0000_0000 % 0x100,
       n / 0x100_0000 % 0x100, n / 0x1_0000 % 0x100, n / 0x100 % 0x100, n % 0x100]
  {
    var high := n / 0x1_0000_0000;
    FourBelow(n);
    FourBytes(high);
    HighBytes(n);
    assert [m * 32 + 27] + BigEndian(n, 8) ==
      [m * 32 + 27,
       high / 0x100_0000 % 0x100, high / 0x1_0000 % 0x100, high / 0x100 % 0x100, high % 0x100,
       n / 0x100_0000 % 0x100, n / 0x1_0000 % 0x100, n / 0x100 % 0x100, n % 0x100];
  }

  lemma HighBytes(n: nat)
    requires n < U64
    ensures var high := n / 0x1_0000_0000;
      && high / 0x100_0000 == high / 0x100_0000 % 0x100 == n / 0x100_0000_0000_0000
      && high / 0x1_0000 == n / 0x1_0000_0000_0000
      && high / 0x100 == n / 0x100_0000_0000
  {}

  lemma OneByte(n: nat)
    ensures BigEndian(n, 1) == [n % 0x100]
  {
    assert BigEndian(n / 256, 0) == [];
  }

  lemma TwoBytes(n: nat)
    ensures BigEndian(n, 2) == [n / 0x100 % 0x100, n % 0x100]
  {
    OneByte(n / 256);
  }

  lemma FourBytes(n: nat)
    ensures BigEndian(n, 4) == [n / 0x100_0000 % 0x100, n / 0x1_0000 % 0x100, n / 0x100 % 0x100, n % 0x100]
  {
    TwoBytes(n / 256 / 256);
    assert BigEndian(n / 256, 3) == BigEndian(n / 256 / 256, 2) + [n / 256 % 256];
  }

  lemma TwoBelow(n: nat, k: nat)
    requires k >= 2
    ensures BigEndian(n, k) == BigEndian(n / 0x1_0000, k - 2) + [n / 0x100 % 0x100, n % 0x100]
  {
    assert n / 0x100 / 0x100 == n / 0x1_0000;
    assert BigEndian(n / 0x100, k - 1) == BigEndian(n / 0x1_0000, k - 2) + [n / 0x100 % 0x100];
  }

  lemma Halves(n: nat)
    ensures var high := n / 0x1_0000;
      && high / 0x1_0000 == n / 0x1_0000_0000
      && high / 0x100 % 0x100 == n / 0x100_0000 % 0x100
  {}

  lemma Join(s: Bytes, a: Byte, b: Byte, c: Byte, d: Byte)
    ensures s + [a, b] + [c, d] == s + [a, b, c, d]
  {}

  lemma FourBelow(n: nat)
    ensures BigEndian(n, 8) == BigEndian(n / 0x1_0000_0000, 4)
      + [n / 0x100_0000 % 0x100, n / 0x1_0000 % 0x100, n / 0x100 % 0x100, n % 0x100]
  {
    var high := n / 0x1_0000;
    TwoBelow(n, 8);
    TwoBelow(high, 6);
    Halves(n);
    Join(BigEndian(high / 0x1_0000, 4), high / 0x100 % 0x100, high % 0x100, n / 0x100 % 0x100, n % 0x100);
  }

  /** The tags of the constructors are 121, 122, and so on, in two bytes. */
  lemma TagWire(n: nat, fields: Bytes)
    requires n < 7
    ensures EncodeConstr(n, fields) == [0xd8, 0x79 + n] + fields
  {
    HeadWire(TAG, 121 + n);
  }

  /** Locks and secrets are 32 bytes behind a two-byte head, signatures 64. */
  lemma FixedWire(b: Bytes)
    requires |b| == 32 || |b| == 64
    ensures EncodeBytes(b) == [0x58, |b|] + b
  {
    HeadWire(BYTES, |b|);
  }

  lemma UnpendWire(u: Unpend)
    requires FitsUnpend(u)
    ensures EncodeUnpend(u) ==
      match u
      case Continue => [0x40]
      case Expire => [0x41, 0x00]
      case Unlock(secret) => [0x58, 0x20] + secret.bytes
  {
    HeadWire(BYTES, 0);
    HeadWire(BYTES, 1);
    if u.Unlock? { FixedWire(u.secret.bytes); }
  }

  /** A long byte string is an indefinite one, in chunks of 64 until the last. */
  lemma ChunksWire(b: Bytes)
    requires |b| > 64
    ensures EncodeByteString(b) == [0x5f] + (EncodeChunks(b) + [0xff])
    ensures EncodeChunks(b) == [0x58, 0x40] + b[..64] + EncodeChunks(b[64..])
  {
    FixedWire(b[..64]);
  }

  lemma LastChunkWire(b: Bytes)
    requires 0 < |b| <= 64
    ensures EncodeChunks(b) == EncodeBytes(b)
  {
    assert b[..|b|] == b && b[|b|..] == [];
    assert EncodeChunks([]) == [];
    assert EncodeBytes(b) + [] == EncodeBytes(b);
  }

  /** Items follow one another in the order of the list. */
  lemma {:induction false} ItemsWire<T>(xs: seq<T>, ys: seq<T>, enc: T -> Bytes)
    ensures EncodeItems(xs + ys, enc) == EncodeItems(xs, enc) + EncodeItems(ys, enc)
  {
    if xs == [] {
      assert xs + ys == ys;
    } else {
      assert (xs + ys)[0] == xs[0] && (xs + ys)[1..] == xs[1..] + ys;
      ItemsWire(xs[1..], ys, enc);
      Assoc(enc(xs[0]), EncodeItems(xs[1..], enc), EncodeItems(ys, enc));
    }
  }

  /** An empty list is a definite array of no items, any other an indefinite one. */
  lemma ListWire<T>(xs: seq<T>, enc: T -> Bytes)
    ensures EncodeList(xs, enc) == if xs == [] then [0x80] else [0x9f] + EncodeItems(xs, enc) + [0xff]
  {
    Assoc([0x9f], EncodeItems(xs, enc), [0xff]);
  }

  // ---- What the decoders accept beyond what is written ----

  /** An unpend is read by the length of its bytes alone. */
  lemma UnpendByLength(raw: Bytes, rest: Bytes)
    requires |raw| < U64
    ensures ParseUnpend(EncodeBytes(raw) + rest) ==
      Parsed(if |raw| == 0 then Continue else if |raw| == 32 then Unlock(Secret(raw)) else Expire, rest)
  {
    BytesRoundTrip(raw, rest);
  }

  /** A list of stated length is read like an indefinite one. */
  lemma {:induction false} CountRoundTrip<T(!new)>(xs: seq<T>, enc: T -> Bytes, dec: Bytes -> Parse<T>, rest: Bytes)
    requires Consumes(dec) && forall x :: x in xs ==> Undoes(x, enc, dec)
    ensures ParseCount(|xs|, EncodeItems(xs, enc) + rest, dec) == Parsed(xs, rest)
  {
    if xs == [] {
      assert [] + rest == rest;
    } else {
      assert Undoes(xs[0], enc, dec);
      CountRoundTrip(xs[1..], enc, dec, rest);
      Assoc(enc(xs[0]), EncodeItems(xs[1..], enc), rest);
      assert [xs[0]] + xs[1..] == xs;
    }
  }

  lemma DefiniteListReads<T(!new)>(xs: seq<T>, enc: T -> Bytes, dec: Bytes -> Parse<T>, rest: Bytes)
    requires Consumes(dec) && |xs| < U64 && forall x :: x in xs ==> Undoes(x, enc, dec)
    ensures ParseList(EncodeHead(ARRAY, |xs|) + EncodeItems(xs, enc) + rest, dec) == Parsed(xs, rest)
  {
    Assoc(EncodeHead(ARRAY, |xs|), EncodeItems(xs, enc), rest);
    HeadRoundTrip(ARRAY, |xs|, EncodeItems(xs, enc) + rest);
    CountRoundTrip(xs, enc, dec, rest);
  }

  /** A signature is read whole or in chunks; a lock or a secret only whole. */
  lemma ChunkedFields(b: Bytes, rest: Bytes)
    requires |b| == 64
    ensures ParseSignature([BEGIN_BYTES] + (EncodeChunks(b) + ([BREAK] + rest))) == Parsed(b, rest)
    ensures ParseLock([BEGIN_BYTES] + rest) == Failed && ParseSecret([BEGIN_BYTES] + rest) == Failed
  {
    ChunkedRoundTrip(b, rest);
  }

  /** Each enumeration refuses every tag it does not use. */
  lemma UnknownTagsFail(s: Bytes)
    requires ParseTag(s).Parsed?
    ensures var n := ParseTag(s).value;
      && (n < 121 || n > 122 ==> ParseEol(s) == Failed && ParseStep(s) == Failed && ParseCheque(s) == Failed)
      && (n < 121 || n > 123 ==> ParseStage(s) == Failed && ParseRedeemer(s) == Failed)
      && (n < 121 || n > 126 ==> ParseCont(s) == Failed)
  {}

  // ---- Fields ----

  ghost function ReadU64s(k: nat, s: Bytes): Parse<seq<nat>> {
    if k == 0 then Parsed([], s)
    else match ParseU64(s)
      case Failed => Failed
      case Parsed(n, s1) =>
        match ReadU64s(k - 1, s1)
        case Failed => Failed
        case Parsed(ns, s2) => Parsed([n] + ns, s2)
  }

  /** Opens an indefinite array and reads `k` integers. */
  ghost function OpenU64s(k: nat, s: Bytes): Parse<seq<nat>> {
    match ParseArray(s)
    case Parsed(None, s1) => ReadU64s(k, s1)
    case _ => Failed
  }

  lemma ReadNone(s: Bytes)
    ensures ReadU64s(0, s) == Parsed([], s)
  {}

  lemma ReadOne(n: nat, k: nat, s: Bytes)
    requires n < U64 && k > 0
    ensures ReadU64s(k, EncodeU64(n) + s) ==
      match ReadU64s(k - 1, s)
      case Failed => Failed
      case Parsed(ns, end) => Parsed([n] + ns, end)
  {
    U64RoundTrip(n, s);
  }

  lemma ReadTwo(m: nat, n: nat, s: Bytes)
    requires m < U64 && n < U64
    ensures ReadU64s(2, EncodeU64(m) + (EncodeU64(n) + s)) == Parsed([m, n], s)
  {
    ReadNone(s);
    ReadOne(n, 1, s);
    ReadOne(m, 2, EncodeU64(n) + s);
    assert [n] + [] == [n] && [m] + [n] == [m, n];
  }

  lemma ReadThree(m: nat, n: nat, o: nat, s: Bytes)
    requires m < U64 && n < U64 && o < U64
    ensures ReadU64s(3, EncodeU64(m) + (EncodeU64(n) + (EncodeU64(o) + s))) == Parsed([m, n, o], s)
  {
    ReadTwo(n, o, s);
    ReadOne(m, 3, EncodeU64(n) + (EncodeU64(o) + s));
    assert [m] + [n, o] == [m, n, o];
  }

  /** A cheque body: index, amount, timeout, then the latch and a break. */
  lemma BodyWire<T>(b: ChequeBody<T>, enc: T -> Bytes, rest: Bytes)
    requires FitsBody(b)
    ensures OpenU64s(3, EncodeBody(b, enc) + rest)
      == Parsed([b.index, b.amount, b.timeout], enc(b.latch) + ([BREAK] + rest))
  {
    Frame4Plus(EncodeU64(b.index), EncodeU64(b.amount), EncodeU64(b.timeout), enc(b.latch), rest);
    ReadThree(b.index, b.amount, b.timeout, enc(b.latch) + ([BREAK] + rest));
  }

  /** A squash body: amount, index, then the excluded indexes and a break. */
  lemma SquashBodyWire(b: SquashBody, rest: Bytes)
    requires FitsSquashBody(b)
    ensures var p := OpenU64s(2, EncodeSquashBody(b) + rest);
      && p == Parsed([b.amount, b.index], EncodeList(b.exclude, EncodeU64) + ([BREAK] + rest))
      && ParseList(p.rest, ParseU64) == Parsed(b.exclude, [BREAK] + rest)
  {
    var list := EncodeList(b.exclude, EncodeU64);
    Frame3Plus(EncodeU64(b.amount), EncodeU64(b.index), list, rest);
    ReadTwo(b.amount, b.index, list + ([BREAK] + rest));
    forall x | x in b.exclude ensures Undoes(x, EncodeU64, ParseU64) { U64Undoes(x); }
    ListRoundTrip(b.exclude, EncodeU64, ParseU64, [BREAK] + rest);
  }

  /** A used: index, amount, break. */
  lemma UsedWire(u: Used, rest: Bytes)
    requires FitsUsed(u)
    ensures OpenU64s(2, EncodeUsed(u) + rest) == Parsed([u.index, u.amount], [BREAK] + rest)
  {
    Frame2Plus(EncodeU64(u.index), EncodeU64(u.amount), rest);
    ReadTwo(u.index, u.amount, [BREAK] + rest);
  }

  /** A pending: amount, timeout, then the lock's bytes and a break. */
  lemma PendingWire(p: Pending, rest: Bytes)
    requires FitsPending(p)
    ensures OpenU64s(2, EncodePending(p) + rest)
      == Parsed([p.amount, p.timeout], [0x58, 0x20] + p.lock.bytes + ([BREAK] + rest))
  {
    Frame3Plus(EncodeU64(p.amount), EncodeU64(p.timeout), EncodeLock(p.lock), rest);
    ReadTwo(p.amount, p.timeout, EncodeLock(p.lock) + ([BREAK] + rest));
    FixedWire(p.lock.bytes);
  }

  /** A stage: its tag, its amount, its list, then for a closed one the elapse time. */
  lemma StageWire(s: Stage, rest: Bytes)
    requires FitsStage(s)
    ensures match s
      case Opened(n, us) =>
        EncodeStage(s)[..2] == [0xd8, 0x79]
        && OpenU64s(1, EncodeStage(s)[2..] + rest) == Parsed([n], EncodeList(us, EncodeUsed) + ([BREAK] + rest))
      case Closed(n, us, at) =>
        EncodeStage(s)[..2] == [0xd8, 0x7a]
        && OpenU64s(1, EncodeStage(s)[2..] + rest)
           == Parsed([n], EncodeList(us, EncodeUsed) + (EncodeU64(at) + ([BREAK] + rest)))
      case Responded(n, ps) =>
        EncodeStage(s)[..2] == [0xd8, 0x7b]
        && OpenU64s(1, EncodeStage(s)[2..] + rest) == Parsed([n], EncodeList(ps, EncodePending) + ([BREAK] + rest))
  {
    match s
    case Opened(n, us) => AmountFirst(0, n, EncodeList(us, EncodeUsed), rest);
    case Closed(n, us, at) =>
      var list := EncodeList(us, EncodeUsed);
      TagWire(1, Frame3(EncodeU64(n), list, EncodeU64(at)));
      Frame3Plus(EncodeU64(n), list, EncodeU64(at), rest);
      ReadNone(list + (EncodeU64(at) + ([BREAK] + rest)));
      ReadOne(n, 1, list + (EncodeU64(at) + ([BREAK] + rest)));
      assert [n] + [] == [n];
    case Responded(n, ps) => AmountFirst(2, n, EncodeList(ps, EncodePending), rest);
  }

  lemma AmountFirst(c: nat, n: nat, list: Bytes, rest: Bytes)
    requires c < 7 && n < U64
    ensures var e := EncodeConstr(c, Frame2(EncodeU64(n), list));
      && |e| >= 2 && e[..2] == [0xd8, 0x79 + c]
      && OpenU64s(1, e[2..] + rest) == Parsed([n], list + ([BREAK] + rest))
  {
    TagWire(c, Frame2(EncodeU64(n), list));
    Frame2Plus(EncodeU64(n), list, rest);
    ReadNone(list + ([BREAK] + rest));
    ReadOne(n, 1, list + ([BREAK] + rest));
    assert [n] + [] == [n];
  }

  /** Two fields of an indefinite array, in this order. */
  ghost predicate Pair(e: Bytes, first: Bytes, second: Bytes) {
    e == [0x9f] + first + second + [0xff]
  }

  lemma FramesPair(first: Bytes, second: Bytes)
    ensures Pair(Frame2(first, second), first, second)
  {
    assert Frame2(first, second) == [0x9f] + first + second + [0xff];
  }

  /** What is signed comes before its signature, for squashes and for cheques, whose
      constructor says whether the secret is known. */
  lemma SignedWire(q: Squash, c: Cheque)
    requires |q.signature| == 64 && FitsCheque(c)
    ensures Pair(EncodeSquash(q), EncodeSquashBody(q.body), [0x58, 0x40] + q.signature)
    ensures match c
      case UnlockedCheque(u) =>
        && Pair(EncodeUnlocked(u), EncodeBody(u.body, EncodeSecret), [0x58, 0x40] + u.signature)
        && EncodeCheque(c) == [0xd8, 0x79] + EncodeUnlocked(u)
      case LockedCheque(l) =>
        exists e :: EncodeCheque(c) == [0xd8, 0x7a] + e
          && Pair(e, EncodeBody(l.body, EncodeLock), [0x58, 0x40] + l.signature)
  {
    FixedWire(q.signature);
    FramesPair(EncodeSquashBody(q.body), EncodeBytes(q.signature));
    match c
    case UnlockedCheque(u) =>
      FixedWire(u.signature);
      FramesPair(EncodeBody(u.body, EncodeSecret), EncodeBytes(u.signature));
      TagWire(0, EncodeUnlocked(u));
    case LockedCheque(l) =>
      FixedWire(l.signature);
      FramesPair(EncodeBody(l.body, EncodeLock), EncodeBytes(l.signature));
      TagWire(1, Frame2(EncodeBody(l.body, EncodeLock), EncodeBytes(l.signature)));
  }

  /** Each step has its own tag; a claim carries the squash, then the cheques. */
  lemma ContWire(c: Cont)
    ensures match c
      case ContAdd => EncodeCont(c) == [0xd8, 0x79, 0x80]
      case ContSub(q, us) =>
        exists e :: EncodeCont(c) == [0xd8, 0x7a] + e && Pair(e, EncodeSquash(q), EncodeList(us, EncodeUnlocked))
      case ContClose => EncodeCont(c) == [0xd8, 0x7b, 0x80]
      case ContRespond(q, cs) =>
        exists e :: EncodeCont(c) == [0xd8, 0x7c] + e && Pair(e, EncodeSquash(q), EncodeList(cs, EncodeCheque))
      case ContUnlock(us) => EncodeCont(c) == [0xd8, 0x7d, 0x9f] + EncodeList(us, EncodeUnpend) + [0xff]
      case ContExpire(us) => EncodeCont(c) == [0xd8, 0x7e, 0x9f] + EncodeList(us, EncodeUnpend) + [0xff]
  {
    match c
    case ContAdd => TagWire(0, [EMPTY_ARRAY]);
    case ContSub(q, us) =>
      TagWire(1, Frame2(EncodeSquash(q), EncodeList(us, EncodeUnlocked)));
      FramesPair(EncodeSquash(q), EncodeList(us, EncodeUnlocked));
    case ContClose => TagWire(2, [EMPTY_ARRAY]);
    case ContRespond(q, cs) =>
      TagWire(3, Frame2(EncodeSquash(q), EncodeList(cs, EncodeCheque)));
      FramesPair(EncodeSquash(q), EncodeList(cs, EncodeCheque));
    case ContUnlock(us) => OneField(4, EncodeList(us, EncodeUnpend));
    case ContExpire(us) => OneField(5, EncodeList(us, EncodeUnpend));
  }

  lemma OneField(n: nat, field: Bytes)
    requires n < 7
    ensures EncodeConstr(n, Frame1(field)) == [0xd8, 0x79 + n, 0x9f] + field + [0xff]
  {
    TagWire(n, Frame1(field));
    assert [0xd8, 0x79 + n] + ([0x9f] + (field + [0xff])) == [0xd8, 0x79 + n, 0x9f] + field + [0xff];
  }

  lemma EolWire(e: Eol)
    ensures EncodeEol(e) == if e.EolEnd? then [0xd8, 0x79, 0x80] else [0xd8, 0x7a, 0x80]
  {
    TagWire(0, [EMPTY_ARRAY]);
    TagWire(1, [EMPTY_ARRAY]);
  }

  lemma StepWire(s: Step)
    ensures match s
      case StepCont(c) => EncodeStep(s) == [0xd8, 0x79, 0x9f] + EncodeCont(c) + [0xff]
      case StepEol(f) => EncodeStep(s) == [0xd8, 0x7a, 0x9f] + EncodeEol(f) + [0xff]
  {
    match s
    case StepCont(c) => OneField(0, EncodeCont(c));
    case StepEol(f) => OneField(1, EncodeEol(f));
  }

  lemma MainWire(steps: seq<Step>)
    ensures EncodeRedeemer(Main(steps)) == [0xd8, 0x7a, 0x9f] + EncodeList(steps, EncodeStep) + [0xff]
  {
    OneField(1, EncodeList(steps, EncodeStep));
  }

  /** A redeemer, byte by byte around the steps it carries. */
  lemma RedeemerWire(r: Redeemer)
    ensures r.Defer? ==> EncodeRedeemer(r) == [0xd8, 0x79, 0x80]
    ensures r.Main? ==> EncodeRedeemer(r) == [0xd8, 0x7a, 0x9f] + EncodeList(r.steps, EncodeStep) + [0xff]
    ensures r.Mutual? ==> EncodeRedeemer(r) == [0xd8, 0x7b, 0x80]
  {
    if r.Main? {
      MainWire(r.steps);
    } else {
      TagWire(0, [EMPTY_ARRAY]);
      TagWire(2, [EMPTY_ARRAY]);
    }
  }

  /** A signed message: the channel's tag, then the body, in an indefinite array. */
  lemma MessageWire(tag: Bytes, b: ChequeBody<Lock>, q: SquashBody)
    ensures Pair(ChequeMessage(tag, b), EncodeByteString(tag), EncodeBody(b, EncodeLock))
    ensures Pair(SquashMessage(tag, q), EncodeByteString(tag), EncodeSquashBody(q))
  {
    FramesPair(EncodeByteString(tag), EncodeBody(b, EncodeLock));
    FramesPair(EncodeByteString(tag), EncodeSquashBody(q));
  }
}
