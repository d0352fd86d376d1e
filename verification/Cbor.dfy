/** Concise Binary Object Representation, as far as the channel's data needs it:
    heads (section 3 of RFC 8949), indefinite-length items and the break byte
    (section 3.2), and tags (section 3.4). Decoders return the unread bytes. */
module Cbor {
  import opened Types

  datatype Parse<+T> = Parsed(value: T, rest: Bytes) | Failed {
    predicate IsFailure() {
      Failed?
    }

    function PropagateFailure<U>(): Parse<U>
      requires Failed?
    {
      Failed
    }

    function Extract(): (T, Bytes)
      requires Parsed?
    {
      (value, rest)
    }
  }

  type Major = m: nat | m < 8

  const UNSIGNED: Major := 0
  const BYTES: Major := 2
  const ARRAY: Major := 4
  const TAG: Major := 6

  const BEGIN_BYTES: Byte := 0x5f
  const EMPTY_ARRAY: Byte := 0x80
  const BEGIN_ARRAY: Byte := 0x9f
  const BREAK: Byte := 0xff

  const CHUNK_SIZE: nat := 64

  // ---- Heads ----

  function BigEndian(n: nat, k: nat): (bs: Bytes)
    ensures |bs| == k
  {
    if k == 0 then [] else BigEndian(n / 256, k - 1) + [n % 256]
  }

  function FromBigEndian(bs: Bytes): nat {
    if bs == [] then 0 else FromBigEndian(Init(bs)) * 256 + Last(bs)
  }

  function EncodeHead(m: Major, n: nat): Bytes {
    if n < 24 then [m * 32 + n]
    else if n < 0x100 then [m * 32 + 24] + BigEndian(n, 1)
    else if n < 0x1_0000 then [m * 32 + 25] + BigEndian(n, 2)
    else if n < 0x1_0000_0000 then [m * 32 + 26] + BigEndian(n, 4)
    else [m * 32 + 27] + BigEndian(n, 8)
  }

  /** The argument is absent on an indefinite-length head. */
  datatype Head = Head(major: nat, argument: Option<nat>)

  function ParseHead(s: Bytes): (p: Parse<Head>)
    ensures p.Parsed? ==> |p.rest| < |s|
  {
    if s == [] then Failed
    else
      var major, info := s[0] / 32, s[0] % 32;
      if info < 24 then Parsed(Head(major, Some(info)), s[1..])
      else if info == 31 then Parsed(Head(major, None), s[1..])
      else if info > 27 then Failed
      else
        var k := if info == 24 then 1 else if info == 25 then 2 else if info == 26 then 4 else 8;
        if |s| <= k then Failed
        else Parsed(Head(major, Some(FromBigEndian(s[1..1 + k]))), s[1 + k..])
  }

  function Limit(k: nat): nat {
    if k == 0 then 1 else 256 * Limit(k - 1)
  }

  lemma {:induction false} BigEndianRoundTrip(n: nat, k: nat)
    requires n < Limit(k)
    ensures FromBigEndian(BigEndian(n, k)) == n
  {
    if k != 0 {
      BigEndianRoundTrip(n / 256, k - 1);
      assert Init(BigEndian(n, k)) == BigEndian(n / 256, k - 1);
    }
  }

  lemma Limits()
    ensures Limit(1) == 0x100 && Limit(2) == 0x1_0000 && Limit(4) == 0x1_0000_0000 && Limit(8) == U64
  {
    assert Limit(3) == 256 * Limit(2);
    assert Limit(5) == 256 * Limit(4);
    assert Limit(6) == 256 * Limit(5);
    assert Limit(7) == 256 * Limit(6);
  }

  lemma FirstByte(m: Major, info: nat)
    requires info < 32
    ensures 0 <= m * 32 + info < 256 && (m * 32 + info) / 32 == m && (m * 32 + info) % 32 == info
  {}

  lemma LongHead(info: nat, m: Major, n: nat, k: nat, rest: Bytes)
    requires (info == 24 && k == 1) || (info == 25 && k == 2) || (info == 26 && k == 4) || (info == 27 && k == 8)
    requires n < Limit(k)
    ensures ParseHead([m * 32 + info] + BigEndian(n, k) + rest) == Parsed(Head(m, Some(n)), rest)
  {
    FirstByte(m, info);
    var b: Byte := m * 32 + info;
    var be := BigEndian(n, k);
    BigEndianRoundTrip(n, k);
    Slices(b, be, rest);
  }

  lemma Slices(b: Byte, be: Bytes, rest: Bytes)
    ensures var s := [b] + be + rest;
      s[0] == b && |s| == 1 + |be| + |rest| && s[1..1 + |be|] == be && s[1 + |be|..] == rest
  {}

  lemma HeadRoundTrip(m: Major, n: nat, rest: Bytes)
    requires n < U64
    ensures ParseHead(EncodeHead(m, n) + rest) == Parsed(Head(m, Some(n)), rest)
  {
    Limits();
    if n < 24 {
      assert ([m * 32 + n] + rest)[1..] == rest;
    } else if n < 0x100 {
      LongHead(24, m, n, 1, rest);
    } else if n < 0x1_0000 {
      LongHead(25, m, n, 2, rest);
    } else if n < 0x1_0000_0000 {
      LongHead(26, m, n, 4, rest);
    } else {
      LongHead(27, m, n, 8, rest);
    }
  }

  // ---- Primitives ----

  function EncodeU64(n: nat): Bytes {
    EncodeHead(UNSIGNED, n)
  }

  function ParseU64(s: Bytes): (p: Parse<nat>)
    ensures p.Parsed? ==> |p.rest| < |s|
  {
    match ParseHead(s)
    case Parsed(Head(major, Some(n)), rest) => if major == UNSIGNED then Parsed(n, rest) else Failed
    case _ => Failed
  }

  function ParseTag(s: Bytes): (p: Parse<nat>)
    ensures p.Parsed? ==> |p.rest| < |s|
  {
    match ParseHead(s)
    case Parsed(Head(major, Some(n)), rest) => if major == TAG then Parsed(n, rest) else Failed
    case _ => Failed
  }

  function ParseArray(s: Bytes): (p: Parse<Option<nat>>)
    ensures p.Parsed? ==> |p.rest| < |s|
  {
    match ParseHead(s)
    case Parsed(Head(major, n), rest) => if major == ARRAY then Parsed(n, rest) else Failed
    case Failed => Failed
  }

  function ParseBreak(s: Bytes): (p: Parse<()>)
    ensures p.Parsed? ==> |p.rest| < |s|
  {
    if s != [] && s[0] == BREAK then Parsed((), s[1..]) else Failed
  }

  function EncodeBytes(b: Bytes): Bytes {
    EncodeHead(BYTES, |b|) + b
  }

  function ParseBytes(s: Bytes): (p: Parse<Bytes>)
    ensures p.Parsed? ==> |p.rest| < |s|
  {
    match ParseHead(s)
    case Parsed(Head(major, Some(n)), rest) =>
      if major == BYTES && n <= |rest| then Parsed(rest[..n], rest[n..]) else Failed
    case _ => Failed
  }

  lemma U64RoundTrip(n: nat, rest: Bytes)
    requires n < U64
    ensures ParseU64(EncodeU64(n) + rest) == Parsed(n, rest)
  {
    HeadRoundTrip(UNSIGNED, n, rest);
  }

  lemma TagRoundTrip(n: nat, rest: Bytes)
    requires n < U64
    ensures ParseTag(EncodeHead(TAG, n) + rest) == Parsed(n, rest)
  {
    HeadRoundTrip(TAG, n, rest);
  }

  lemma Assoc(a: Bytes, b: Bytes, c: Bytes)
    ensures (a + b) + c == a + (b + c)
  {}

  lemma BytesRoundTrip(b: Bytes, rest: Bytes)
    requires |b| < U64
    ensures ParseBytes(EncodeBytes(b) + rest) == Parsed(b, rest)
  {
    Assoc(EncodeHead(BYTES, |b|), b, rest);
    HeadRoundTrip(BYTES, |b|, b + rest);
    assert (b + rest)[..|b|] == b && (b + rest)[|b|..] == rest;
  }

  // ---- Byte strings, chunked beyond 64 bytes ----

  function EncodeChunks(b: Bytes): Bytes {
    if b == [] then []
    else
      var k := Min(CHUNK_SIZE, |b|);
      EncodeBytes(b[..k]) + EncodeChunks(b[k..])
  }

  function EncodeByteString(b: Bytes): Bytes {
    if |b| <= CHUNK_SIZE then EncodeBytes(b)
    else [BEGIN_BYTES] + (EncodeChunks(b) + [BREAK])
  }

  function ParseChunks(s: Bytes): (p: Parse<Bytes>)
    ensures p.Parsed? ==> |p.rest| < |s|
    decreases |s|
  {
    if s == [] then Failed
    else if s[0] == BREAK then Parsed([], s[1..])
    else match ParseBytes(s)
      case Failed => Failed
      case Parsed(chunk, rest) =>
        match ParseChunks(rest)
        case Failed => Failed
        case Parsed(tail, end) => Parsed(chunk + tail, end)
  }

  function ParseByteString(s: Bytes): (p: Parse<Bytes>)
    ensures p.Parsed? ==> |p.rest| < |s|
  {
    match ParseHead(s)
    case Failed => Failed
    case Parsed(Head(major, argument), rest) =>
      if major != BYTES then Failed
      else match argument
        case None => ParseChunks(rest)
        case Some(n) => if n <= |rest| then Parsed(rest[..n], rest[n..]) else Failed
  }

  lemma {:induction false} ChunksRoundTrip(b: Bytes, rest: Bytes)
    ensures ParseChunks(EncodeChunks(b) + ([BREAK] + rest)) == Parsed(b, rest)
    decreases |b|
  {
    var k := Min(CHUNK_SIZE, |b|);
    if b == [] {
      assert ([] + ([BREAK] + rest))[1..] == rest;
    } else {
      var tail := EncodeChunks(b[k..]) + ([BREAK] + rest);
      Assoc(EncodeBytes(b[..k]), EncodeChunks(b[k..]), [BREAK] + rest);
      BytesRoundTrip(b[..k], tail);
      ChunksRoundTrip(b[k..], rest);
      assert b[..k] + b[k..] == b;
      assert (EncodeBytes(b[..k]) + tail)[0] != BREAK;
    }
  }

  lemma ChunkedRoundTrip(b: Bytes, rest: Bytes)
    ensures ParseByteString([BEGIN_BYTES] + (EncodeChunks(b) + ([BREAK] + rest))) == Parsed(b, rest)
  {
    var tail := EncodeChunks(b) + ([BREAK] + rest);
    var s := [BEGIN_BYTES] + tail;
    assert s[1..] == tail;
    assert ParseHead(s) == Parsed(Head(BYTES, None), tail);
    ChunksRoundTrip(b, rest);
  }

  lemma ByteStringRoundTrip(b: Bytes, rest: Bytes)
    ensures ParseByteString(EncodeByteString(b) + rest) == Parsed(b, rest)
  {
    if |b| <= CHUNK_SIZE {
      Assoc(EncodeHead(BYTES, |b|), b, rest);
      HeadRoundTrip(BYTES, |b|, b + rest);
      assert (b + rest)[..|b|] == b && (b + rest)[|b|..] == rest;
    } else {
      Assoc([BEGIN_BYTES], EncodeChunks(b) + [BREAK], rest);
      Assoc(EncodeChunks(b), [BREAK], rest);
      ChunkedRoundTrip(b, rest);
    }
  }

  // ---- Lists: empty is array(0), anything else is indefinite ----

  function EncodeItems<T>(xs: seq<T>, enc: T -> Bytes): Bytes {
    if xs == [] then [] else enc(xs[0]) + EncodeItems(xs[1..], enc)
  }

  function EncodeList<T>(xs: seq<T>, enc: T -> Bytes): Bytes {
    if xs == [] then [EMPTY_ARRAY]
    else [BEGIN_ARRAY] + (EncodeItems(xs, enc) + [BREAK])
  }

  /** Element decoders always consume something. */
  ghost predicate Consumes<T(!new)>(dec: Bytes -> Parse<T>) {
    forall s :: dec(s).Parsed? ==> |dec(s).rest| < |s|
  }

  function ParseCount<T(!new)>(n: nat, s: Bytes, dec: Bytes -> Parse<T>): (p: Parse<seq<T>>)
    requires Consumes(dec)
    ensures p.Parsed? ==> |p.rest| <= |s|
  {
    if n == 0 then Parsed([], s)
    else match dec(s)
      case Failed => Failed
      case Parsed(x, rest) =>
        match ParseCount(n - 1, rest, dec)
        case Failed => Failed
        case Parsed(xs, end) => Parsed([x] + xs, end)
  }

  function ParseUntilBreak<T(!new)>(s: Bytes, dec: Bytes -> Parse<T>): (p: Parse<seq<T>>)
    requires Consumes(dec)
    ensures p.Parsed? ==> |p.rest| < |s|
    decreases |s|
  {
    if s == [] then Failed
    else if s[0] == BREAK then Parsed([], s[1..])
    else match dec(s)
      case Failed => Failed
      case Parsed(x, rest) =>
        match ParseUntilBreak(rest, dec)
        case Failed => Failed
        case Parsed(xs, end) => Parsed([x] + xs, end)
  }

  function ParseList<T(!new)>(s: Bytes, dec: Bytes -> Parse<T>): (p: Parse<seq<T>>)
    requires Consumes(dec)
    ensures p.Parsed? ==> |p.rest| < |s|
  {
    match ParseArray(s)
    case Failed => Failed
    case Parsed(None, rest) => ParseUntilBreak(rest, dec)
    case Parsed(Some(n), rest) => ParseCount(n, rest, dec)
  }

  /** `dec` undoes `enc` on `x` before any trailing bytes, and the encoding of `x`
      does not look like a break. */
  ghost predicate Undoes<T(!new)>(x: T, enc: T -> Bytes, dec: Bytes -> Parse<T>) {
    && enc(x) != [] && enc(x)[0] != BREAK
    && forall rest: Bytes :: dec(enc(x) + rest) == Parsed(x, rest)
  }

  lemma {:induction false} ItemsRoundTrip<T(!new)>(xs: seq<T>, enc: T -> Bytes, dec: Bytes -> Parse<T>, rest: Bytes)
    requires Consumes(dec) && forall x :: x in xs ==> Undoes(x, enc, dec)
    ensures ParseUntilBreak(EncodeItems(xs, enc) + ([BREAK] + rest), dec) == Parsed(xs, rest)
    decreases |xs|
  {
    var end := [BREAK] + rest;
    if xs == [] {
      assert [] + end == end && end[1..] == rest;
    } else {
      var tail := EncodeItems(xs[1..], enc) + end;
      Assoc(enc(xs[0]), EncodeItems(xs[1..], enc), end);
      assert Undoes(xs[0], enc, dec);
      ItemsRoundTrip(xs[1..], enc, dec, rest);
      assert [xs[0]] + xs[1..] == xs;
      assert (enc(xs[0]) + tail)[0] == enc(xs[0])[0];
    }
  }

  lemma ListRoundTrip<T(!new)>(xs: seq<T>, enc: T -> Bytes, dec: Bytes -> Parse<T>, rest: Bytes)
    requires Consumes(dec) && forall x :: x in xs ==> Undoes(x, enc, dec)
    ensures ParseList(EncodeList(xs, enc) + rest, dec) == Parsed(xs, rest)
  {
    if xs == [] {
      assert ([EMPTY_ARRAY] + rest)[1..] == rest;
    } else {
      Assoc([BEGIN_ARRAY], EncodeItems(xs, enc) + [BREAK], rest);
      Assoc(EncodeItems(xs, enc), [BREAK], rest);
      var s := [BEGIN_ARRAY] + (EncodeItems(xs, enc) + ([BREAK] + rest));
      assert s[1..] == EncodeItems(xs, enc) + ([BREAK] + rest);
      ItemsRoundTrip(xs, enc, dec, rest);
    }
  }

  // ---- Frames: an indefinite array of a fixed number of fields ----

  function Frame1(a: Bytes): Bytes {
    [BEGIN_ARRAY] + (a + [BREAK])
  }

  function Frame2(a: Bytes, b: Bytes): Bytes {
    [BEGIN_ARRAY] + (a + (b + [BREAK]))
  }

  function Frame3(a: Bytes, b: Bytes, c: Bytes): Bytes {
    [BEGIN_ARRAY] + (a + (b + (c + [BREAK])))
  }

  function Frame4(a: Bytes, b: Bytes, c: Bytes, d: Bytes): Bytes {
    [BEGIN_ARRAY] + (a + (b + (c + (d + [BREAK]))))
  }

  lemma OpenArray(t: Bytes)
    ensures ParseArray([BEGIN_ARRAY] + t) == Parsed(None, t)
  {
    assert ([BEGIN_ARRAY] + t)[1..] == t;
  }

  lemma CloseArray(rest: Bytes)
    ensures ParseBreak([BREAK] + rest) == Parsed((), rest)
  {
    assert ([BREAK] + rest)[1..] == rest;
  }

  lemma Frame1Plus(a: Bytes, rest: Bytes)
    ensures ParseArray(Frame1(a) + rest) == Parsed(None, a + ([BREAK] + rest))
    ensures ParseBreak([BREAK] + rest) == Parsed((), rest)
  {
    Assoc([BEGIN_ARRAY], a + [BREAK], rest);
    Assoc(a, [BREAK], rest);
    OpenArray(a + ([BREAK] + rest));
    CloseArray(rest);
  }

  lemma Frame2Plus(a: Bytes, b: Bytes, rest: Bytes)
    ensures ParseArray(Frame2(a, b) + rest) == Parsed(None, a + (b + ([BREAK] + rest)))
    ensures ParseBreak([BREAK] + rest) == Parsed((), rest)
  {
    Assoc([BEGIN_ARRAY], a + (b + [BREAK]), rest);
    Assoc(a, b + [BREAK], rest);
    Assoc(b, [BREAK], rest);
    OpenArray(a + (b + ([BREAK] + rest)));
    CloseArray(rest);
  }

  lemma Frame3Plus(a: Bytes, b: Bytes, c: Bytes, rest: Bytes)
    ensures ParseArray(Frame3(a, b, c) + rest) == Parsed(None, a + (b + (c + ([BREAK] + rest))))
    ensures ParseBreak([BREAK] + rest) == Parsed((), rest)
  {
    Assoc([BEGIN_ARRAY], a + (b + (c + [BREAK])), rest);
    Assoc(a, b + (c + [BREAK]), rest);
    Assoc(b, c + [BREAK], rest);
    Assoc(c, [BREAK], rest);
    OpenArray(a + (b + (c + ([BREAK] + rest))));
    CloseArray(rest);
  }

  lemma Frame4Plus(a: Bytes, b: Bytes, c: Bytes, d: Bytes, rest: Bytes)
    ensures ParseArray(Frame4(a, b, c, d) + rest) == Parsed(None, a + (b + (c + (d + ([BREAK] + rest)))))
    ensures ParseBreak([BREAK] + rest) == Parsed((), rest)
  {
    Assoc([BEGIN_ARRAY], a + (b + (c + (d + [BREAK]))), rest);
    Assoc(a, b + (c + (d + [BREAK])), rest);
    Assoc(b, c + (d + [BREAK]), rest);
    Assoc(c, d + [BREAK], rest);
    Assoc(d, [BREAK], rest);
    OpenArray(a + (b + (c + (d + ([BREAK] + rest)))));
    CloseArray(rest);
  }

  // ---- Constructors: a tag, then the fields ----

  /** Tag of constructor `n`. */
  function Constr(n: nat): nat {
    121 + n
  }

  function EncodeConstr(n: nat, fields: Bytes): Bytes {
    EncodeHead(TAG, Constr(n)) + fields
  }

  lemma ConstrPlus(n: nat, fields: Bytes, rest: Bytes)
    requires n < 7
    ensures ParseTag(EncodeConstr(n, fields) + rest) == Parsed(Constr(n), fields + rest)
    ensures EncodeConstr(n, fields) != [] && EncodeConstr(n, fields)[0] != BREAK
  {
    Assoc(EncodeHead(TAG, Constr(n)), fields, rest);
    TagRoundTrip(Constr(n), fields + rest);
  }

  lemma EmptyPlus(rest: Bytes)
    ensures ParseArray([EMPTY_ARRAY] + rest) == Parsed(Some(0), rest)
  {
    assert ([EMPTY_ARRAY] + rest)[1..] == rest;
  }
}
