/** The encoder and decoder the source drives step by step, each step proved against
    the functions of Cbor and Codec. */
module CodecCells {
  import opened Types
  import opened Squashes
  import opened Cbor
  import opened Codec

  class Encoder {
    var out: Bytes

    constructor ()
      ensures out == []
    {
      out := [];
    }

    method Put(b: Bytes)
      modifies this
      ensures out == old(out) + b
    {
      out := out + b;
    }

    method Tag(n: nat)
      modifies this
      ensures out == old(out) + EncodeHead(TAG, n)
    {
      Put(EncodeHead(TAG, n));
    }

    method U64(n: nat)
      modifies this
      ensures out == old(out) + EncodeU64(n)
    {
      Put(EncodeU64(n));
    }

    method ByteString(b: Bytes)
      modifies this
      ensures out == old(out) + EncodeBytes(b)
    {
      Put(EncodeBytes(b));
    }

    /** A byte string beyond 64 bytes goes out in chunks. */
    method PlutusBytes(b: Bytes)
      modifies this
      ensures out == old(out) + EncodeByteString(b)
    {
      if |b| <= CHUNK_SIZE {
        ByteString(b);
        return;
      }
      Put([BEGIN_BYTES]);
      var i := 0;
      assert EncodeChunks(b[..0]) == [] && old(out) + [BEGIN_BYTES] + [] == out;
      while i < |b|
        invariant i <= |b|
        invariant out + EncodeChunks(b[i..]) == old(out) + [BEGIN_BYTES] + EncodeChunks(b)
      {
        var k := Min(CHUNK_SIZE, |b| - i);
        ChunkNext(b, i);
        Assoc(out, EncodeBytes(b[i..i + k]), EncodeChunks(b[i + k..]));
        ByteString(b[i..i + k]);
        i := i + k;
      }
      assert EncodeChunks(b[i..]) == [] && out + [] == out;
      Put([BREAK]);
      Assoc(old(out) + [BEGIN_BYTES], EncodeChunks(b), [BREAK]);
      Assoc(old(out), [BEGIN_BYTES], EncodeChunks(b) + [BREAK]);
    }

    /** Empty lists are definite, all others indefinite. */
    method PlutusList<T>(xs: seq<T>, enc: T -> Bytes)
      modifies this
      ensures out == old(out) + EncodeList(xs, enc)
    {
      if xs == [] {
        Put([EMPTY_ARRAY]);
        return;
      }
      Put([BEGIN_ARRAY]);
      var i := 0;
      while i < |xs|
        invariant i <= |xs|
        invariant out + EncodeItems(xs[i..], enc) == old(out) + [BEGIN_ARRAY] + EncodeItems(xs, enc)
      {
        assert xs[i..][0] == xs[i] && xs[i..][1..] == xs[i + 1..];
        Assoc(out, enc(xs[i]), EncodeItems(xs[i + 1..], enc));
        Put(enc(xs[i]));
        i := i + 1;
      }
      assert EncodeItems(xs[i..], enc) == [] && out + [] == out;
      Put([BREAK]);
      Assoc(old(out) + [BEGIN_ARRAY], EncodeItems(xs, enc), [BREAK]);
      Assoc(old(out), [BEGIN_ARRAY], EncodeItems(xs, enc) + [BREAK]);
    }

    method SquashBody(b: SquashBody)
      modifies this
      ensures out == old(out) + EncodeSquashBody(b)
    {
      Put([BEGIN_ARRAY]);
      U64(b.amount);
      U64(b.index);
      PlutusList(b.exclude, EncodeU64);
      Put([BREAK]);
      Written3(old(out), EncodeU64(b.amount), EncodeU64(b.index), EncodeList(b.exclude, EncodeU64));
    }

    method Squash(q: Squash)
      modifies this
      ensures out == old(out) + EncodeSquash(q)
    {
      Put([BEGIN_ARRAY]);
      SquashBody(q.body);
      ByteString(q.signature);
      Put([BREAK]);
      Written2(old(out), EncodeSquashBody(q.body), EncodeBytes(q.signature));
    }

    method ChequeBody<T>(b: ChequeBody<T>, latch: T -> Bytes)
      modifies this
      ensures out == old(out) + EncodeBody(b, latch)
    {
      Put([BEGIN_ARRAY]);
      U64(b.index);
      U64(b.amount);
      U64(b.timeout);
      Put(latch(b.latch));
      Put([BREAK]);
      Written4(old(out), EncodeU64(b.index), EncodeU64(b.amount), EncodeU64(b.timeout), latch(b.latch));
    }

    method Cheque(c: Cheque)
      modifies this
      ensures out == old(out) + EncodeCheque(c)
    {
      match c {
        case UnlockedCheque(u) =>
          Tag(121);
          Put([BEGIN_ARRAY]);
          ChequeBody(u.body, EncodeSecret);
          ByteString(u.signature);
          Put([BREAK]);
          WrittenConstr2(old(out), 0, EncodeBody(u.body, EncodeSecret), EncodeBytes(u.signature));
        case LockedCheque(l) =>
          Tag(122);
          Put([BEGIN_ARRAY]);
          ChequeBody(l.body, EncodeLock);
          ByteString(l.signature);
          Put([BREAK]);
          WrittenConstr2(old(out), 1, EncodeBody(l.body, EncodeLock), EncodeBytes(l.signature));
      }
    }

    method Stage(s: Stage)
      modifies this
      ensures out == old(out) + EncodeStage(s)
    {
      match s {
        case Opened(n, us) =>
          AmountAndList(0, n, us, EncodeUsed);
        case Closed(n, us, at) =>
          AmountListTime(1, n, us, EncodeUsed, at);
        case Responded(n, ps) =>
          AmountAndList(2, n, ps, EncodePending);
      }
    }

    /** A constructor holding an amount and a list. */
    method AmountAndList<T>(constr: nat, n: nat, xs: seq<T>, enc: T -> Bytes)
      modifies this
      ensures out == old(out) + EncodeConstr(constr, Frame2(EncodeU64(n), EncodeList(xs, enc)))
    {
      WrittenConstr2(out, constr, EncodeU64(n), EncodeList(xs, enc));
      Tag(121 + constr);
      Put([BEGIN_ARRAY]);
      U64(n);
      PlutusList(xs, enc);
      Put([BREAK]);
    }

    /** A constructor holding an amount, a list and a time. */
    method AmountListTime<T>(constr: nat, n: nat, xs: seq<T>, enc: T -> Bytes, at: nat)
      modifies this
      ensures out == old(out) + EncodeConstr(constr, Frame3(EncodeU64(n), EncodeList(xs, enc), EncodeU64(at)))
    {
      WrittenConstr3(out, constr, EncodeU64(n), EncodeList(xs, enc), EncodeU64(at));
      Tag(121 + constr);
      Put([BEGIN_ARRAY]);
      U64(n);
      PlutusList(xs, enc);
      U64(at);
      Put([BREAK]);
    }

    /** A constructor without fields. */
    method EmptyConstr(n: nat)
      modifies this
      ensures out == old(out) + EncodeConstr(n, [EMPTY_ARRAY])
    {
      Tag(121 + n);
      Put([EMPTY_ARRAY]);
      Assoc(old(out), EncodeHead(TAG, Constr(n)), [EMPTY_ARRAY]);
    }

    method Eol(e: Eol)
      modifies this
      ensures out == old(out) + EncodeEol(e)
    {
      EmptyConstr(if e.EolEnd? then 0 else 1);
    }

    method Unpends(n: nat, us: seq<Unpend>)
      modifies this
      ensures out == old(out) + EncodeConstr(n, Frame1(EncodeList(us, EncodeUnpend)))
    {
      Tag(121 + n);
      Put([BEGIN_ARRAY]);
      PlutusList(us, EncodeUnpend);
      Put([BREAK]);
      WrittenConstr1(old(out), n, EncodeList(us, EncodeUnpend));
    }

    method Cont(c: Cont)
      modifies this
      ensures out == old(out) + EncodeCont(c)
    {
      match c {
        case ContAdd => EmptyConstr(0);
        case ContSub(q, us) =>
          Tag(122);
          Put([BEGIN_ARRAY]);
          Squash(q);
          PlutusList(us, EncodeUnlocked);
          Put([BREAK]);
          WrittenConstr2(old(out), 1, EncodeSquash(q), EncodeList(us, EncodeUnlocked));
        case ContClose => EmptyConstr(2);
        case ContRespond(q, cs) =>
          Tag(124);
          Put([BEGIN_ARRAY]);
          Squash(q);
          PlutusList(cs, EncodeCheque);
          Put([BREAK]);
          WrittenConstr2(old(out), 3, EncodeSquash(q), EncodeList(cs, EncodeCheque));
        case ContUnlock(us) => Unpends(4, us);
        case ContExpire(us) => Unpends(5, us);
      }
    }

    method Step(s: Step)
      modifies this
      ensures out == old(out) + EncodeStep(s)
    {
      ghost var n := if s.StepCont? then 0 else 1;
      ghost var field := if s.StepCont? then EncodeCont(s.cont) else EncodeEol(s.eol);
      WrittenConstr1(out, n, field);
      Tag(if s.StepCont? then 121 else 122);
      Put([BEGIN_ARRAY]);
      match s {
        case StepCont(c) => Cont(c);
        case StepEol(e) => Eol(e);
      }
      Put([BREAK]);
    }

    method Redeemer(r: Redeemer)
      modifies this
      ensures out == old(out) + EncodeRedeemer(r)
    {
      match r {
        case Defer => EmptyConstr(0);
        case Main(steps) =>
          Tag(122);
          Put([BEGIN_ARRAY]);
          PlutusList(steps, EncodeStep);
          Put([BREAK]);
          WrittenConstr1(old(out), 1, EncodeList(steps, EncodeStep));
        case Mutual => EmptyConstr(2);
      }
    }
  }

  /** The bytes signed for a piece of data under a channel tag. */
  method TagData(tag: Bytes, data: Bytes) returns (message: Bytes)
    ensures message == Message(tag, data)
  {
    var e := new Encoder();
    e.Put([BEGIN_ARRAY]);
    e.PlutusBytes(tag);
    e.Put(data);
    e.Put([BREAK]);
    Written2([], EncodeByteString(tag), data);
    assert [] + Message(tag, data) == Message(tag, data);
    return e.out;
  }

  // ---- What a sequence of writes leaves ----

  lemma ChunkNext(b: Bytes, i: nat)
    requires i < |b|
    ensures var k := Min(CHUNK_SIZE, |b| - i);
      EncodeChunks(b[i..]) == EncodeBytes(b[i..i + k]) + EncodeChunks(b[i + k..])
  {
    var k := Min(CHUNK_SIZE, |b| - i);
    assert b[i..][..k] == b[i..i + k] && b[i..][k..] == b[i + k..];
  }

  lemma Written1(o: Bytes, a: Bytes)
    ensures o + [BEGIN_ARRAY] + a + [BREAK] == o + Frame1(a)
  {}

  lemma Written2(o: Bytes, a: Bytes, b: Bytes)
    ensures o + [BEGIN_ARRAY] + a + b + [BREAK] == o + Frame2(a, b)
  {
    Assoc(o + [BEGIN_ARRAY] + a, b, [BREAK]);
    Assoc(o + [BEGIN_ARRAY], a, b + [BREAK]);
    Assoc(o, [BEGIN_ARRAY], a + (b + [BREAK]));
  }

  lemma Written3(o: Bytes, a: Bytes, b: Bytes, c: Bytes)
    ensures o + [BEGIN_ARRAY] + a + b + c + [BREAK] == o + Frame3(a, b, c)
  {
    Assoc(o + [BEGIN_ARRAY] + a + b, c, [BREAK]);
    Assoc(o + [BEGIN_ARRAY] + a, b, c + [BREAK]);
    Assoc(o + [BEGIN_ARRAY], a, b + (c + [BREAK]));
    Assoc(o, [BEGIN_ARRAY], a + (b + (c + [BREAK])));
  }

  lemma Written4(o: Bytes, a: Bytes, b: Bytes, c: Bytes, d: Bytes)
    ensures o + [BEGIN_ARRAY] + a + b + c + d + [BREAK] == o + Frame4(a, b, c, d)
  {
    Assoc(o + [BEGIN_ARRAY] + a + b + c, d, [BREAK]);
    Assoc(o + [BEGIN_ARRAY] + a + b, c, d + [BREAK]);
    Assoc(o + [BEGIN_ARRAY] + a, b, c + (d + [BREAK]));
    Assoc(o + [BEGIN_ARRAY], a, b + (c + (d + [BREAK])));
    Assoc(o, [BEGIN_ARRAY], a + (b + (c + (d + [BREAK]))));
  }

  lemma WrittenConstr1(o: Bytes, n: nat, a: Bytes)
    ensures o + EncodeHead(TAG, 121 + n) + [BEGIN_ARRAY] + a + [BREAK] == o + EncodeConstr(n, Frame1(a))
  {
    Written1(o + EncodeHead(TAG, 121 + n), a);
    Assoc(o, EncodeHead(TAG, 121 + n), Frame1(a));
  }

  lemma WrittenConstr2(o: Bytes, n: nat, a: Bytes, b: Bytes)
    ensures o + EncodeHead(TAG, 121 + n) + [BEGIN_ARRAY] + a + b + [BREAK] == o + EncodeConstr(n, Frame2(a, b))
  {
    Written2(o + EncodeHead(TAG, 121 + n), a, b);
    Assoc(o, EncodeHead(TAG, 121 + n), Frame2(a, b));
  }

  lemma WrittenConstr3(o: Bytes, n: nat, a: Bytes, b: Bytes, c: Bytes)
    ensures o + EncodeHead(TAG, 121 + n) + [BEGIN_ARRAY] + a + b + c + [BREAK]
      == o + EncodeConstr(n, Frame3(a, b, c))
  {
    Written3(o + EncodeHead(TAG, 121 + n), a, b, c);
    Assoc(o, EncodeHead(TAG, 121 + n), Frame3(a, b, c));
  }

  // ---- The decoder ----

  /** What a decoding step did: on success it gave the parsed value and left exactly
      the unread bytes. */
  ghost predicate Reads<T>(p: Parse<T>, r: Option<T>, rest: Bytes) {
    match p
    case Failed => r == None
    case Parsed(x, end) => r == Some(x) && rest == end
  }

  class Decoder {
    var rest: Bytes

    constructor (input: Bytes)
      ensures rest == input
    {
      rest := input;
    }

    /** Runs an element decoder on what is left. */
    method Item<T>(dec: Bytes -> Parse<T>) returns (r: Option<T>)
      modifies this
      ensures Reads(dec(old(rest)), r, rest)
    {
      match dec(rest) {
        case Failed => return None;
        case Parsed(x, end) =>
          rest := end;
          return Some(x);
      }
    }

    method Bytes() returns (r: Option<Types.Bytes>)
      modifies this
      ensures Reads(ParseBytes(old(rest)), r, rest)
    {
      r := Item(ParseBytes);
    }

    /** Definite byte strings and chunked ones alike. */
    method PlutusBytes() returns (r: Option<Types.Bytes>)
      modifies this
      ensures Reads(ParseByteString(old(rest)), r, rest)
    {
      var head := Item(ParseHead);
      if head.None? || head.value.major != BYTES {
        return None;
      }
      if head.value.argument.Some? {
        var n := head.value.argument.value;
        if n > |rest| {
          return None;
        }
        r := Some(rest[..n]);
        rest := rest[n..];
        return;
      }
      var raw := [];
      ghost var start := rest;
      ChunksFromNothing(ParseChunks(rest));
      while rest != [] && rest[0] != BREAK
        invariant ChunksFrom(raw, ParseChunks(rest)) == ParseChunks(start)
        decreases |rest|
      {
        ghost var here := rest;
        var chunk := Bytes();
        if chunk.None? {
          return None;
        }
        ChunksStep(raw, chunk.value, ParseChunks(rest));
        raw := raw + chunk.value;
      }
      if rest == [] {
        return None;
      }
      rest := rest[1..];
      assert raw + [] == raw;
      return Some(raw);
    }

    /** Counts down a definite list, or reads an indefinite one to its break. */
    method PlutusList<T(!new)>(dec: Types.Bytes -> Parse<T>) returns (r: Option<seq<T>>)
      requires Consumes(dec)
      modifies this
      ensures Reads(ParseList(old(rest), dec), r, rest)
    {
      var head := Item(ParseArray);
      if head.None? {
        return None;
      }
      var xs: seq<T> := [];
      ghost var start := rest;
      if head.value.Some? {
        var n := head.value.value;
        ListFromNothing(ParseCount(n, rest, dec));
        while n > 0
          invariant ListFrom(xs, ParseCount(n, rest, dec)) == ParseCount(head.value.value, start, dec)
        {
          var x := Item(dec);
          if x.None? {
            return None;
          }
          ListStep(xs, x.value, ParseCount(n - 1, rest, dec));
          xs := xs + [x.value];
          n := n - 1;
        }
        assert xs + [] == xs;
        return Some(xs);
      }
      ListFromNothing(ParseUntilBreak(rest, dec));
      while rest != [] && rest[0] != BREAK
        invariant ListFrom(xs, ParseUntilBreak(rest, dec)) == ParseUntilBreak(start, dec)
        decreases |rest|
      {
        var x := Item(dec);
        if x.None? {
          return None;
        }
        ListStep(xs, x.value, ParseUntilBreak(rest, dec));
        xs := xs + [x.value];
      }
      if rest == [] {
        return None;
      }
      rest := rest[1..];
      assert xs + [] == xs;
      return Some(xs);
    }

    /** Reads the three fields, then runs the constructors' checks. */
    method SquashBody() returns (r: Option<SquashBody>)
      modifies this
      ensures Reads(ParseSquashBody(old(rest)), r, rest)
      ensures r.Some? ==> Valid(r.value)
    {
      ghost var start := rest;
      var open := Item(ParseArray);
      if open.None? { return None; }
      var amount := Item(ParseU64);
      if amount.None? { return None; }
      var index := Item(ParseU64);
      if index.None? { return None; }
      var exclude := PlutusList(ParseU64);
      if exclude.None? || !IndexesOk(exclude.value) { return None; }
      var close := Item(ParseBreak);
      if close.None? || !(exclude.value == [] || Last(exclude.value) < index.value) { return None; }
      DecodedIsValid(start);
      return Some(Types.SquashBody(amount.value, index.value, exclude.value));
    }

    method Squash() returns (r: Option<Squash>)
      modifies this
      ensures Reads(ParseSquash(old(rest)), r, rest)
    {
      var open := Item(ParseArray);
      if open.None? { return None; }
      var body := SquashBody();
      if body.None? { return None; }
      var signature := PlutusBytes();
      if signature.None? || |signature.value| != 64 { return None; }
      var close := Item(ParseBreak);
      if close.None? { return None; }
      return Some(Types.Squash(body.value, signature.value));
    }

    method Cont() returns (r: Option<Cont>)
      modifies this
      ensures Reads(ParseCont(old(rest)), r, rest)
    {
      var tag := Item(ParseTag);
      if tag.None? || tag.value < 121 || tag.value > 126 { return None; }
      var open := Item(ParseArray);
      if open.None? { return None; }
      if tag.value == 121 { return Some(ContAdd); }
      if tag.value == 123 { return Some(ContClose); }
      if tag.value == 122 {
        var q := Squash();
        if q.None? { return None; }
        var us := PlutusList(ParseUnlocked);
        if us.None? { return None; }
        var close := Item(ParseBreak);
        if close.None? { return None; }
        return Some(ContSub(q.value, us.value));
      }
      if tag.value == 124 {
        var q := Squash();
        if q.None? { return None; }
        var cs := PlutusList(ParseCheque);
        if cs.None? { return None; }
        var close := Item(ParseBreak);
        if close.None? { return None; }
        return Some(ContRespond(q.value, cs.value));
      }
      var us := PlutusList(ParseUnpend);
      if us.None? { return None; }
      var close := Item(ParseBreak);
      if close.None? { return None; }
      return Some(if tag.value == 125 then ContUnlock(us.value) else ContExpire(us.value));
    }

    method Step() returns (r: Option<Step>)
      modifies this
      ensures Reads(ParseStep(old(rest)), r, rest)
    {
      var tag := Item(ParseTag);
      if tag.None? || (tag.value != 121 && tag.value != 122) { return None; }
      var open := Item(ParseArray);
      if open.None? { return None; }
      if tag.value == 121 {
        var c := Cont();
        if c.None? { return None; }
        var close := Item(ParseBreak);
        if close.None? { return None; }
        return Some(StepCont(c.value));
      }
      var e := Item(ParseEol);
      if e.None? { return None; }
      var close := Item(ParseBreak);
      if close.None? { return None; }
      return Some(StepEol(e.value));
    }

    method Redeemer() returns (r: Option<Redeemer>)
      modifies this
      ensures Reads(ParseRedeemer(old(rest)), r, rest)
    {
      var tag := Item(ParseTag);
      if tag.None? || tag.value < 121 || tag.value > 123 { return None; }
      var open := Item(ParseArray);
      if open.None? { return None; }
      if tag.value == 121 { return Some(Defer); }
      if tag.value == 123 { return Some(Mutual); }
      var steps := PlutusList(ParseStep);
      if steps.None? { return None; }
      var close := Item(ParseBreak);
      if close.None? { return None; }
      return Some(Main(steps.value));
    }

    method Stage() returns (r: Option<Stage>)
      modifies this
      ensures Reads(ParseStage(old(rest)), r, rest)
    {
      var tag := Item(ParseTag);
      if tag.None? || tag.value < 121 || tag.value > 123 { return None; }
      var open := Item(ParseArray);
      if open.None? { return None; }
      var n := Item(ParseU64);
      if n.None? { return None; }
      if tag.value == 123 {
        var ps := PlutusList(ParsePending);
        if ps.None? { return None; }
        var close := Item(ParseBreak);
        if close.None? { return None; }
        return Some(Responded(n.value, ps.value));
      }
      var us := PlutusList(ParseUsed);
      if us.None? { return None; }
      if tag.value == 121 {
        var close := Item(ParseBreak);
        if close.None? { return None; }
        return Some(Opened(n.value, us.value));
      }
      var at := Item(ParseU64);
      if at.None? { return None; }
      var close := Item(ParseBreak);
      if close.None? { return None; }
      return Some(Closed(n.value, us.value, at.value));
    }
  }

  // ---- Accumulating what was read ----

  ghost function ChunksFrom(raw: Bytes, p: Parse<Bytes>): Parse<Bytes> {
    match p
    case Failed => Failed
    case Parsed(tail, end) => Parsed(raw + tail, end)
  }

  lemma ChunksFromNothing(p: Parse<Bytes>)
    ensures ChunksFrom([], p) == p
  {
    if p.Parsed? { assert [] + p.value == p.value; }
  }

  lemma ChunksStep(raw: Bytes, chunk: Bytes, p: Parse<Bytes>)
    ensures ChunksFrom(raw, ChunksFrom(chunk, p)) == ChunksFrom(raw + chunk, p)
  {
    if p.Parsed? { Assoc(raw, chunk, p.value); }
  }

  ghost function ListFrom<T>(xs: seq<T>, p: Parse<seq<T>>): Parse<seq<T>> {
    match p
    case Failed => Failed
    case Parsed(tail, end) => Parsed(xs + tail, end)
  }

  lemma ListFromNothing<T>(p: Parse<seq<T>>)
    ensures ListFrom([], p) == p
  {
    if p.Parsed? { assert [] + p.value == p.value; }
  }

  lemma ListStep<T>(xs: seq<T>, x: T, p: Parse<seq<T>>)
    ensures ListFrom(xs, ListFrom([x], p)) == ListFrom(xs + [x], p)
  {
    if p.Parsed? { assert xs + ([x] + p.value) == xs + [x] + p.value; }
  }
}
