/** When the receipt can always propose: as long as no locked cheque timed out, no
    index below the top is lost, and ten cheques never outgrow the exclude list. */
module Proposals {
  import opened Types
  import opened Entries
  import opened Squashes
  import opened Cheques
  import opened Receipts

  ghost predicate Held(r: Receipt, index: nat) {
    exists c :: c in r.cheques && c.Index() == index
  }

  /** Every index up to the highest is settled or still held. */
  ghost predicate Dense(r: Receipt) {
    forall i: nat :: i <= MaxIndex(r) ==> i in S(r.squash.body) || Held(r, i)
  }

  ghost function LockedIndexes(cs: seq<Cheque>): set<nat> {
    set c | c in cs && c.LockedCheque? :: c.Index()
  }

  lemma {:induction false} FewLocked(cs: seq<Cheque>)
    ensures |LockedIndexes(cs)| <= |cs|
  {
    if cs == [] {
      assert LockedIndexes(cs) == {};
    } else {
      FewLocked(Init(cs));
      assert cs == Init(cs) + [Last(cs)];
      SubsetCard(LockedIndexes(cs), LockedIndexes(Init(cs)) + {Last(cs).Index()});
    }
  }

  /** A dense receipt of at most ten cheques always has a proposal. */
  lemma DenseProposes(r: Receipt)
    requires WellFormed(r) && Dense(r) && |r.cheques| <= MAX_UNSQUASHED
    ensures Propose(r).Ok?
  {
    var es := UnlockedEntries(r.cheques);
    ProposeExact(r);
    UnlockedMembers(r.cheques);
    TopBounds(r.squash.body, es);
    BelowMax(r);
    forall i | i in Unsettled(r.squash.body, es) ensures i in LockedIndexes(r.cheques) {
      assert Held(r, i);
      var c :| c in r.cheques && c.Index() == i;
      assert c.UnlockedCheque? ==> EntryOf(c) in es;
    }
    FewLocked(r.cheques);
    SubsetCard(Unsettled(r.squash.body, es), LockedIndexes(r.cheques));
  }

  // ---- Runs without timeouts ----

  datatype LiveStep =
    | Take(locked: Locked)
    | Open(secret: Secret)
    | Agree(signature: Bytes)

  /** A cheque is taken only below capacity; agreeing applies the receipt's own proposal. */
  function LiveNext(r: Receipt, step: LiveStep, hash: Secret -> Lock): Receipt {
    match step
    case Take(l) => if Capacity(r) == 0 then r else OrElse(ApplyLocked(r, l), r)
    case Open(s) => OrElse(ApplySecret(r, s, hash), r)
    case Agree(signature) =>
      match Propose(r)
      case Err(_) => r
      case Ok(b) => OrElse(ApplySquash(r, Squash(b, signature)), r)
  }

  function LiveRun(r: Receipt, steps: seq<LiveStep>, hash: Secret -> Lock): Receipt {
    if steps == [] then r else LiveNext(LiveRun(r, Init(steps), hash), Last(steps), hash)
  }

  /** A cheque taken below capacity is held, a secret leaves nothing locked under it, and
      agreeing leaves just the locked cheques. */
  lemma LiveActs(r: Receipt, step: LiveStep, hash: Secret -> Lock)
    requires WellFormed(r)
    ensures var q := LiveNext(r, step, hash);
      match step
      case Take(l) =>
        |r.cheques| < MAX_UNSQUASHED && l.body.index == MaxIndex(r) + 1 ==> LockedCheque(l) in q.cheques
      case Open(s) => forall c :: c in q.cheques ==> !Opens(c, hash(s))
      case Agree(signature) =>
        Propose(r).Ok? ==> q.squash == Squash(Propose(r).value, signature) && q.cheques == Lockeds(r.cheques)
  {
    match step
    case Take(l) =>
    case Open(s) => SecretActs(r, s, hash);
    case Agree(signature) => if Propose(r).Ok? { ProposeThenApply(r, signature); }
  }

  ghost predicate Live(r: Receipt) {
    WellFormed(r) && Dense(r) && |r.cheques| <= MAX_UNSQUASHED
  }

  lemma TakeKeeps(r: Receipt, l: Locked)
    requires Live(r) && Capacity(r) > 0 && ApplyLocked(r, l).Ok?
    ensures Live(ApplyLocked(r, l).value)
  {
    var q := ApplyLocked(r, l).value;
    LockedKeeps(r, l);
    assert LockedCheque(l) in q.cheques;
    forall i: nat | i <= MaxIndex(q) ensures i in S(q.squash.body) || Held(q, i) {
      if i <= MaxIndex(r) && i !in S(r.squash.body) {
        var c :| c in r.cheques && c.Index() == i;
        assert c in q.cheques;
      }
    }
  }

  lemma OpenKeeps(r: Receipt, s: Secret, hash: Secret -> Lock)
    requires Live(r) && ApplySecret(r, s, hash).Ok?
    ensures Live(ApplySecret(r, s, hash).value)
  {
    var q := ApplySecret(r, s, hash).value;
    SecretKeeps(r, s, hash);
    UnlockKeepsEntries(r.cheques, s, hash(s));
    EntriesAt(r.cheques);
    EntriesAt(q.cheques);
    SameIndexes(r, q);
  }

  /** Receipts with the same entries hold the same indexes. */
  lemma SameIndexes(r: Receipt, q: Receipt)
    requires EntriesOf(r.cheques) == EntriesOf(q.cheques) && r.squash == q.squash
    ensures MaxIndex(q) == MaxIndex(r) && forall i: nat :: Held(r, i) ==> Held(q, i)
  {
    EntriesAt(r.cheques);
    EntriesAt(q.cheques);
    assert r.cheques != [] ==> EntriesOf(r.cheques)[|r.cheques| - 1] == EntryOf(Last(r.cheques)) == EntryOf(Last(q.cheques));
    forall i: nat | Held(r, i) ensures Held(q, i) {
      var c :| c in r.cheques && c.Index() == i;
      var k :| 0 <= k < |r.cheques| && r.cheques[k] == c;
      assert EntryOf(q.cheques[k]) == EntryOf(c);
      assert q.cheques[k] in q.cheques;
    }
  }

  lemma {:induction false} LockedLength(cs: seq<Cheque>)
    ensures |Lockeds(cs)| <= |cs|
  {
    if cs != [] { LockedLength(Init(cs)); }
  }

  lemma AgreeKeeps(r: Receipt, signature: Bytes)
    requires Live(r)
    ensures Propose(r).Ok? && ApplySquash(r, Squash(Propose(r).value, signature)).Ok?
    ensures Live(ApplySquash(r, Squash(Propose(r).value, signature)).value)
  {
    DenseProposes(r);
    ProposeThenApply(r, signature);
    ProposeExact(r);
    LockedLength(r.cheques);
    LockedMembers(r.cheques);
    ProposalSettlesUnlocked(r);
    var q := ApplySquash(r, Squash(Propose(r).value, signature)).value;
    AgreedMax(r, q);
    forall i: nat | i <= MaxIndex(q) ensures i in S(q.squash.body) || Held(q, i) {
      if i !in S(r.squash.body) {
        var c :| c in r.cheques && c.Index() == i;
        assert c.LockedCheque? ==> c in q.cheques;
      }
    }
  }

  lemma AgreedMax(r: Receipt, q: Receipt)
    requires WellFormed(r) && Propose(r).Ok?
    requires q.squash.body == Propose(r).value && q.cheques == Lockeds(r.cheques)
    ensures MaxIndex(q) <= MaxIndex(r)
  {
    BelowMax(r);
    LockedMembers(r.cheques);
    FoldAllExact(r.squash.body, UnlockedEntries(r.cheques));
    TopBounds(r.squash.body, UnlockedEntries(r.cheques));
    UnlockedMembers(r.cheques);
    if q.cheques != [] { assert Last(q.cheques) in q.cheques; }
  }

  /** From a null squash, any run of cheques, secrets and agreed squashes can always
      propose the next squash, and agreeing to it is always accepted. */
  lemma {:induction false} AlwaysProposes(signature: Bytes, steps: seq<LiveStep>, hash: Secret -> Lock)
    ensures var r := LiveRun(Receipt(Squash(ZERO, signature), []), steps, hash);
      && Live(r) && Propose(r).Ok?
      && forall s: Bytes :: ApplySquash(r, Squash(Propose(r).value, s)).Ok?
  {
    var start := Receipt(Squash(ZERO, signature), []);
    var r := LiveRun(start, steps, hash);
    if steps != [] {
      var m := LiveRun(start, Init(steps), hash);
      AlwaysProposes(signature, Init(steps), hash);
      match Last(steps)
      case Take(l) => if Capacity(m) > 0 && ApplyLocked(m, l).Ok? { TakeKeeps(m, l); }
      case Open(s) => if ApplySecret(m, s, hash).Ok? { OpenKeeps(m, s, hash); }
      case Agree(s) => AgreeKeeps(m, s);
    }
    DenseProposes(r);
    forall s: Bytes ensures ApplySquash(r, Squash(Propose(r).value, s)).Ok? {
      AgreeKeeps(r, s);
    }
  }

  // ---- Holes ----

  /** Indexes below `top` that are neither settled nor held: their cheques timed out. */
  ghost function Holes(r: Receipt, top: nat): set<nat> {
    set i: nat | i < top && i !in S(r.squash.body) && !Held(r, i)
  }

  /** An unlocked cheque stands above more holes than an exclude list can name. */
  ghost predicate Stuck(r: Receipt, u: Used) {
    && WellFormed(r)
    && u in UnlockedEntries(r.cheques)
    && |Holes(r, u.index)| > MAX_EXCLUDE_LENGTH
  }

  lemma StuckBlocks(r: Receipt, u: Used)
    requires Stuck(r, u)
    ensures Propose(r).Err?
  {
    var es := UnlockedEntries(r.cheques);
    ProposeExact(r);
    UnlockedMembers(r.cheques);
    TopBounds(r.squash.body, es);
    forall i | i in Holes(r, u.index) ensures i in Unsettled(r.squash.body, es) {
      assert !Held(r, i);
    }
    SubsetCard(Holes(r, u.index), Unsettled(r.squash.body, es));
  }

  /** Nothing but a squash fills a hole below a held cheque. */
  lemma StuckStays(r: Receipt, u: Used, e: Event, hash: Secret -> Lock)
    requires Stuck(r, u) && !e.GotSquash?
    ensures Stuck(Apply(r, e, hash), u)
  {
    var q := Apply(r, e, hash);
    EventKeeps(r, e, hash);
    UnlockedMembers(r.cheques);
    BelowMax(r);
    match e {
      case GotLocked(l) =>
        UnlockedEntriesSnoc(r.cheques, LockedCheque(l));
        assert UnlockedEntries(r.cheques) + [] == UnlockedEntries(r.cheques);
      case GotSecret(s) => UnlockKeepsEntries(r.cheques, s, hash(s));
      case TimePassed(now) =>
        TimeoutKeepsUnlocked(r.cheques, now);
        TimeoutMembers(r.cheques, now);
      case Replaced(l) =>
        if ApplyReplace(r, l).Ok? { ReplaceAt(r.cheques, Find(r.cheques, l.body.index), l); }
    }
    forall i | i in Holes(r, u.index) ensures i in Holes(q, u.index) {
      if Held(q, i) { HeldBefore(r, u, e, hash, i); }
    }
    SubsetCard(Holes(r, u.index), Holes(q, u.index));
  }

  lemma HeldBefore(r: Receipt, u: Used, e: Event, hash: Secret -> Lock, i: nat)
    requires Stuck(r, u) && !e.GotSquash? && i < u.index
    requires Held(Apply(r, e, hash), i)
    ensures Held(r, i)
  {
    var q := Apply(r, e, hash);
    var c :| c in q.cheques && c.Index() == i;
    var k :| 0 <= k < |q.cheques| && q.cheques[k] == c;
    match e
    case GotLocked(l) =>
      UnlockedMembers(r.cheques);
      BelowMax(r);
    case GotSecret(s) =>
      UnlockKeepsEntries(r.cheques, s, hash(s));
      EntriesAt(r.cheques);
      EntriesAt(q.cheques);
      assert EntryOf(r.cheques[k]) == EntryOf(c) && r.cheques[k] in r.cheques;
    case TimePassed(now) => TimeoutMembers(r.cheques, now);
    case Replaced(l) => assert r.cheques[k] in r.cheques && r.cheques[k].Index() == i;
  }

  /** More than ten holes below an unlocked cheque block the proposal for good: until a
      squash the receipt never proposed arrives, no event unblocks it. */
  lemma {:induction false} HolesBlockForGood(r: Receipt, u: Used, es: seq<Event>, hash: Secret -> Lock)
    requires Stuck(r, u) && forall e :: e in es ==> !e.GotSquash?
    ensures Stuck(Receipts.Run(r, es, hash), u) && Propose(Receipts.Run(r, es, hash)).Err?
  {
    if es != [] {
      assert Last(es) in es;
      HolesBlockForGood(r, u, Init(es), hash);
      StuckStays(Receipts.Run(r, Init(es), hash), u, Last(es), hash);
    }
    StuckBlocks(Receipts.Run(r, es, hash), u);
  }

  /** Cheque `k` times out at `k`. */
  function Rung(k: nat, lock: Lock, signature: Bytes): Locked {
    Signed(ChequeBody(k, 1, k, lock), signature)
  }

  /** Each new cheque outlives the one before it: at most two are ever held. */
  function Ladder(n: nat, lock: Lock, signature: Bytes): seq<Event>
    requires n > 0
  {
    if n == 1 then [GotLocked(Rung(1, lock, signature))]
    else Ladder(n - 1, lock, signature) + [GotLocked(Rung(n, lock, signature)), TimePassed(n - 1)]
  }

  lemma {:induction false} LadderLeavesOne(n: nat, lock: Lock, signature: Bytes, hash: Secret -> Lock)
    requires n > 0
    ensures Receipts.Run(Receipt(Squash(ZERO, signature), []), Ladder(n, lock, signature), hash)
      == Receipt(Squash(ZERO, signature), [LockedCheque(Rung(n, lock, signature))])
  {
    var start, es, c := Receipt(Squash(ZERO, signature), []), Ladder(n, lock, signature), LockedCheque(Rung(n, lock, signature));
    if n == 1 {
      assert Init(es) == [] && Receipts.Run(start, Init(es), hash) == start;
      assert [] + [c] == [c];
    } else {
      var below := LockedCheque(Rung(n - 1, lock, signature));
      LadderLeavesOne(n - 1, lock, signature, hash);
      assert Init(Init(es)) == Ladder(n - 1, lock, signature);
      assert [below] + [c] == [below, c] && Init([below, c]) == [below] && Init([below]) == [];
      assert Receipts.Run(start, Init(es), hash) == start.(cheques := [below, c]);
      assert DropExpired([below], n - 1) == [];
      assert DropExpired([below, c], n - 1) == [] + [c] == [c];
    }
  }

  lemma {:induction false} RunConcat(r: Receipt, es: seq<Event>, fs: seq<Event>, hash: Secret -> Lock)
    ensures Receipts.Run(r, es + fs, hash) == Receipts.Run(Receipts.Run(r, es, hash), fs, hash)
  {
    if fs == [] {
      assert es + fs == es;
    } else {
      RunConcat(r, es, Init(fs), hash);
      assert Init(es + fs) == es + Init(fs);
    }
  }

  /** What the ladder and a secret for its last cheque leave: that cheque, unlocked. */
  lemma LadderOpens(n: nat, secret: Secret, signature: Bytes, hash: Secret -> Lock)
    requires n > 0
    ensures Receipts.Run(Receipt(Squash(ZERO, signature), []), Ladder(n, hash(secret), signature) + [GotSecret(secret)], hash)
      == Receipt(Squash(ZERO, signature), [UnlockedCheque(Signed(ChequeBody(n, 1, n, secret), signature))])
  {
    var lock := hash(secret);
    var ladder, last := Ladder(n, lock, signature), LockedCheque(Rung(n, lock, signature));
    LadderLeavesOne(n, lock, signature, hash);
    assert Init(ladder + [GotSecret(secret)]) == ladder;
    assert Opens([last][0], lock);
    assert Init([last]) == [] && UnlockAll([], secret, lock) == [];
    assert UnlockAll([last], secret, lock) == [] + [UnlockOne(last, secret, lock)] == [UnlockOne(last, secret, lock)];
  }

  /** From a null squash, timeouts alone lead there: twelve cheques, each timing out once
      the next is held, and a secret for the last leave a receipt that can never propose
      again on its own. */
  lemma TimeoutsBlockProposal(secret: Secret, signature: Bytes, es: seq<Event>, hash: Secret -> Lock)
    requires forall e :: e in es ==> !e.GotSquash?
    ensures var start := Receipt(Squash(ZERO, signature), []);
      Propose(Receipts.Run(start, Ladder(12, hash(secret), signature) + [GotSecret(secret)] + es, hash)).Err?
  {
    var start := Receipt(Squash(ZERO, signature), []);
    var path := Ladder(12, hash(secret), signature) + [GotSecret(secret)];
    LadderOpens(12, secret, signature, hash);
    LadderIsStuck(Receipts.Run(start, path, hash));
    HolesBlockForGood(Receipts.Run(start, path, hash), Used(12, 1), es, hash);
    RunConcat(start, path, es, hash);
  }

  lemma LadderIsStuck(r: Receipt)
    requires r.squash.body == ZERO && |r.cheques| == 1
    requires r.cheques[0].UnlockedCheque? && EntryOf(r.cheques[0]) == Used(12, 1)
    ensures Stuck(r, Used(12, 1))
  {
    assert r.cheques == [r.cheques[0]];
    assert r.cheques[0] in r.cheques;
    UnlockedMembers(r.cheques);
    LadderHoles(r, r.cheques[0]);
  }

  lemma LadderHoles(r: Receipt, c: Cheque)
    requires r.squash.body == ZERO && r.cheques == [c] && c.Index() == 12
    ensures |Holes(r, 12)| > MAX_EXCLUDE_LENGTH
  {
    ExtendAscends([], 1, 12);
    AscendingCard([] + Range(1, 12));
    SubsetCard(Elems([] + Range(1, 12)), Holes(r, 12));
  }
}
