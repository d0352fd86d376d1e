/** Whatever bytes they are read from, decoded values have the fixed sizes, fit u64 and
    hold valid squashes: so they can be written again, and read back the same. */
module Decoded {
  import opened Types
  import opened Squashes
  import opened Cbor
  import opened Codec

  lemma {:induction false} FromBigEndianFits(bs: Bytes)
    ensures FromBigEndian(bs) < Limit(|bs|)
  {
    if bs != [] { FromBigEndianFits(Init(bs)); }
  }

  lemma HeadFits(s: Bytes)
    requires ParseHead(s).Parsed? && ParseHead(s).value.argument.Some?
    ensures ParseHead(s).value.argument.value < U64
  {
    var info := s[0] % 32;
    if info >= 24 {
      var k := if info == 24 then 1 else if info == 25 then 2 else if info == 26 then 4 else 8;
      FromBigEndianFits(s[1..1 + k]);
      Limits();
    }
  }

  lemma U64Fits(s: Bytes)
    requires ParseU64(s).Parsed?
    ensures ParseU64(s).value < U64
  {
    HeadFits(s);
  }

  // ---- Lists ----

  lemma {:induction false} CountFits<T(!new)>(n: nat, s: Bytes, dec: Bytes -> Parse<T>, fits: T -> bool)
    requires Consumes(dec) && forall s1 :: dec(s1).Parsed? ==> fits(dec(s1).value)
    ensures ParseCount(n, s, dec).Parsed? ==> forall x :: x in ParseCount(n, s, dec).value ==> fits(x)
    decreases n
  {
    if n > 0 && dec(s).Parsed? { CountFits(n - 1, dec(s).rest, dec, fits); }
  }

  lemma {:induction false} UntilBreakFits<T(!new)>(s: Bytes, dec: Bytes -> Parse<T>, fits: T -> bool)
    requires Consumes(dec) && forall s1 :: dec(s1).Parsed? ==> fits(dec(s1).value)
    ensures ParseUntilBreak(s, dec).Parsed? ==> forall x :: x in ParseUntilBreak(s, dec).value ==> fits(x)
    decreases |s|
  {
    if s != [] && s[0] != BREAK && dec(s).Parsed? { UntilBreakFits(dec(s).rest, dec, fits); }
  }

  lemma ListFits<T(!new)>(s: Bytes, dec: Bytes -> Parse<T>, fits: T -> bool)
    requires Consumes(dec) && forall s1 :: dec(s1).Parsed? ==> fits(dec(s1).value)
    ensures ParseList(s, dec).Parsed? ==> forall x :: x in ParseList(s, dec).value ==> fits(x)
  {
    match ParseArray(s)
    case Failed =>
    case Parsed(None, rest) => UntilBreakFits(rest, dec, fits);
    case Parsed(Some(n), rest) => CountFits(n, rest, dec, fits);
  }

  // ---- Entities ----

  lemma BodyFits<T(!new)>(s: Bytes, latch: Bytes -> Parse<T>)
    requires Consumes(latch) && ParseBody(s, latch).Parsed?
    ensures FitsBody(ParseBody(s, latch).value)
    ensures exists s1 :: latch(s1).Parsed? && latch(s1).value == ParseBody(s, latch).value.latch
  {
    var s1 := ParseArray(s).rest;
    var s2 := ParseU64(s1).rest;
    var s3 := ParseU64(s2).rest;
    U64Fits(s1);
    U64Fits(s2);
    U64Fits(s3);
    assert latch(ParseU64(s3).rest).Parsed?;
  }

  lemma UnlockedFits(s: Bytes)
    requires ParseUnlocked(s).Parsed?
    ensures FitsUnlocked(ParseUnlocked(s).value)
  {
    BodyFits(ParseArray(s).rest, ParseSecret);
  }

  lemma ChequeFits(s: Bytes)
    requires ParseCheque(s).Parsed?
    ensures FitsCheque(ParseCheque(s).value)
  {
    var s1 := ParseTag(s).rest;
    if ParseTag(s).value == 121 {
      BodyFits(ParseArray(s1).rest, ParseSecret);
    } else {
      BodyFits(ParseArray(s1).rest, ParseLock);
    }
  }

  lemma SquashFits(s: Bytes)
    requires ParseSquash(s).Parsed?
    ensures FitsSquash(ParseSquash(s).value)
  {
    SquashBodyFits(ParseArray(s).rest);
  }

  lemma SquashBodyFits(s: Bytes)
    requires ParseSquashBody(s).Parsed?
    ensures FitsSquashBody(ParseSquashBody(s).value) && Valid(ParseSquashBody(s).value)
  {
    var s1 := ParseArray(s).rest;
    var s2 := ParseU64(s1).rest;
    U64Fits(s1);
    U64Fits(s2);
    forall s0 | ParseU64(s0).Parsed? ensures ParseU64(s0).value < U64 { U64Fits(s0); }
    ListFits(ParseU64(s2).rest, ParseU64, (n: nat) => n < U64);
    DecodedIsValid(s);
  }

  lemma UsedFits(s: Bytes)
    requires ParseUsed(s).Parsed?
    ensures FitsUsed(ParseUsed(s).value)
  {
    var s1 := ParseArray(s).rest;
    U64Fits(s1);
    U64Fits(ParseU64(s1).rest);
  }

  lemma PendingFits(s: Bytes)
    requires ParsePending(s).Parsed?
    ensures FitsPending(ParsePending(s).value)
  {
    var s1 := ParseArray(s).rest;
    U64Fits(s1);
    U64Fits(ParseU64(s1).rest);
  }

  lemma UsedsFit(s: Bytes)
    ensures ParseList(s, ParseUsed).Parsed? ==> forall u :: u in ParseList(s, ParseUsed).value ==> FitsUsed(u)
  {
    forall s0 | ParseUsed(s0).Parsed? ensures FitsUsed(ParseUsed(s0).value) { UsedFits(s0); }
    ListFits(s, ParseUsed, u => FitsUsed(u));
  }

  lemma PendingsFit(s: Bytes)
    ensures ParseList(s, ParsePending).Parsed? ==> forall p :: p in ParseList(s, ParsePending).value ==> FitsPending(p)
  {
    forall s0 | ParsePending(s0).Parsed? ensures FitsPending(ParsePending(s0).value) { PendingFits(s0); }
    ListFits(s, ParsePending, p => FitsPending(p));
  }

  /** A decoded stage fits, and so is read back when written again. */
  lemma StageFits(s: Bytes, rest: Bytes)
    requires ParseStage(s).Parsed?
    ensures FitsStage(ParseStage(s).value)
    ensures ParseStage(EncodeStage(ParseStage(s).value) + rest) == Parsed(ParseStage(s).value, rest)
  {
    var s1 := ParseArray(ParseTag(s).rest).rest;
    U64Fits(s1);
    var s2 := ParseU64(s1).rest;
    UsedsFit(s2);
    PendingsFit(s2);
    if ParseTag(s).value == 122 { U64Fits(ParseList(s2, ParseUsed).rest); }
    StageRoundTrip(ParseStage(s).value, rest);
  }

  lemma UnpendFits(s: Bytes)
    requires ParseUnpend(s).Parsed?
    ensures FitsUnpend(ParseUnpend(s).value)
  {}

  lemma UnlockedEvidenceFits(s: Bytes)
    requires ParseEvidence(s, ParseUnlocked).Parsed?
    ensures var e := ParseEvidence(s, ParseUnlocked).value;
      FitsSquash(e.0) && forall u :: u in e.1 ==> FitsUnlocked(u)
  {
    var s1 := ParseArray(s).rest;
    SquashFits(s1);
    forall s0 | ParseUnlocked(s0).Parsed? ensures FitsUnlocked(ParseUnlocked(s0).value) { UnlockedFits(s0); }
    ListFits(ParseSquash(s1).rest, ParseUnlocked, u => FitsUnlocked(u));
  }

  lemma ChequeEvidenceFits(s: Bytes)
    requires ParseEvidence(s, ParseCheque).Parsed?
    ensures var e := ParseEvidence(s, ParseCheque).value;
      FitsSquash(e.0) && forall c :: c in e.1 ==> FitsCheque(c)
  {
    var s1 := ParseArray(s).rest;
    SquashFits(s1);
    forall s0 | ParseCheque(s0).Parsed? ensures FitsCheque(ParseCheque(s0).value) { ChequeFits(s0); }
    ListFits(ParseSquash(s1).rest, ParseCheque, c => FitsCheque(c));
  }

  lemma UnpendsFit(s: Bytes)
    requires ParseUnpends(s).Parsed?
    ensures forall u :: u in ParseUnpends(s).value ==> FitsUnpend(u)
  {
    forall s0 | ParseUnpend(s0).Parsed? ensures FitsUnpend(ParseUnpend(s0).value) { UnpendFits(s0); }
    ListFits(ParseArray(s).rest, ParseUnpend, u => FitsUnpend(u));
  }

  lemma ContFits(s: Bytes)
    requires ParseCont(s).Parsed?
    ensures FitsCont(ParseCont(s).value)
  {
    var tag, s1 := ParseTag(s).value, ParseTag(s).rest;
    if tag == 122 {
      UnlockedEvidenceFits(s1);
    } else if tag == 124 {
      ChequeEvidenceFits(s1);
    } else if tag == 125 || tag == 126 {
      UnpendsFit(s1);
    }
  }

  lemma StepFits(s: Bytes)
    requires ParseStep(s).Parsed?
    ensures FitsStep(ParseStep(s).value)
  {
    if ParseTag(s).value == 121 { ContFits(ParseArray(ParseTag(s).rest).rest); }
  }

  /** A decoded redeemer fits, and so is read back when written again. */
  lemma RedeemerFits(s: Bytes, rest: Bytes)
    requires ParseRedeemer(s).Parsed?
    ensures FitsRedeemer(ParseRedeemer(s).value)
    ensures ParseRedeemer(EncodeRedeemer(ParseRedeemer(s).value) + rest) == Parsed(ParseRedeemer(s).value, rest)
  {
    if ParseTag(s).value == 122 {
      forall s0 | ParseStep(s0).Parsed? ensures FitsStep(ParseStep(s0).value) { StepFits(s0); }
      ListFits(ParseArray(ParseTag(s).rest).rest, ParseStep, x => FitsStep(x));
    }
    RedeemerRoundTrip(ParseRedeemer(s).value, rest);
  }
}
