/** The L2 receipt as a value: a squash and the cheques on top of it, with one
    function per mutation, and what every run of mutations keeps. */
module Receipts {
  import opened Types
  import opened Entries
  import opened Squashes
  import opened Cheques

  datatype ReceiptError = IncludesCheque(index: nat) | SquashAmountLess | Input | Unchanged | Other

  datatype Receipt = Receipt(squash: Squash, cheques: seq<Cheque>)

  type Outcome = Result<Receipt, ReceiptError>

  /** The representation invariant. */
  ghost predicate WellFormed(r: Receipt) {
    && Valid(r.squash.body)
    && ChequesAscend(r.cheques)
    && NoneSettled(r.cheques, r.squash.body)
  }

  function Owed(r: Receipt): nat {
    r.squash.body.amount + Total(UnlockedEntries(r.cheques))
  }

  function Committed(r: Receipt): nat {
    r.squash.body.amount + Total(EntriesOf(r.cheques))
  }

  function Capacity(r: Receipt): nat {
    SaturatingSub(MAX_UNSQUASHED, |r.cheques|)
  }

  function MaxIndex(r: Receipt): nat {
    Max(r.squash.body.index, if r.cheques == [] then 0 else Last(r.cheques).Index())
  }

  // ---- Mutations ----

  function ApplyLocked(r: Receipt, l: Locked): Outcome {
    if l.body.index != MaxIndex(r) + 1 then Err(Input)
    else Ok(r.(cheques := r.cheques + [LockedCheque(l)]))
  }

  function UnlockOne(c: Cheque, secret: Secret, lock: Lock): Cheque {
    if c.LockedCheque? && c.locked.body.latch == lock then
      var b := c.locked.body;
      UnlockedCheque(Signed(ChequeBody(b.index, b.amount, b.timeout, secret), c.locked.signature))
    else c
  }

  function UnlockAll(cs: seq<Cheque>, secret: Secret, lock: Lock): seq<Cheque> {
    if cs == [] then [] else UnlockAll(Init(cs), secret, lock) + [UnlockOne(Last(cs), secret, lock)]
  }

  predicate Opens(c: Cheque, lock: Lock) {
    c.LockedCheque? && c.locked.body.latch == lock
  }

  /** Total of the locked cheques under this lock. */
  function OpenedAmount(cs: seq<Cheque>, lock: Lock): nat {
    if cs == [] then 0
    else OpenedAmount(Init(cs), lock) + if Opens(Last(cs), lock) then Last(cs).Amount() else 0
  }

  function ApplySecret(r: Receipt, secret: Secret, hash: Secret -> Lock): Outcome {
    var lock := hash(secret);
    if exists k :: 0 <= k < |r.cheques| && Opens(r.cheques[k], lock)
    then Ok(r.(cheques := UnlockAll(r.cheques, secret, lock)))
    else Err(Unchanged)
  }

  predicate Expired(c: Cheque, now: nat) {
    c.LockedCheque? && c.Timeout() <= now
  }

  function DropExpired(cs: seq<Cheque>, now: nat): seq<Cheque> {
    if cs == [] then []
    else DropExpired(Init(cs), now) + if Expired(Last(cs), now) then [] else [Last(cs)]
  }

  function ExpiredOnly(cs: seq<Cheque>, now: nat): seq<Cheque> {
    if cs == [] then []
    else ExpiredOnly(Init(cs), now) + if Expired(Last(cs), now) then [Last(cs)] else []
  }

  function ApplyTimeout(r: Receipt, now: nat): Receipt {
    r.(cheques := DropExpired(r.cheques, now))
  }

  /** Position of the first cheque with this index, or the length if there is none. */
  function Find(cs: seq<Cheque>, index: nat): (k: nat)
    ensures k <= |cs|
    ensures k < |cs| ==> cs[k].Index() == index
  {
    if cs == [] then 0
    else
      var k := Find(Init(cs), index);
      if k < |cs| - 1 then k
      else if Last(cs).Index() == index then |cs| - 1
      else |cs|
  }

  function ApplyReplace(r: Receipt, l: Locked): Outcome {
    var k := Find(r.cheques, l.body.index);
    if k == |r.cheques| then Err(Input)
    else match r.cheques[k]
      case UnlockedCheque(_) => Err(Other)
      case LockedCheque(o) =>
        if l.body.latch != o.body.latch || l.body.amount <= o.body.amount || l.body.timeout <= o.body.timeout
        then Err(Input)
        else Ok(r.(cheques := r.cheques[k := LockedCheque(l)]))
  }

  function SquashedAmount(cs: seq<Cheque>, b: SquashBody): nat {
    if cs == [] then 0
    else SquashedAmount(Init(cs), b) + if IsIndexSquashed(b, Last(cs).Index()) then Last(cs).Amount() else 0
  }

  function DropSquashed(cs: seq<Cheque>, b: SquashBody): seq<Cheque> {
    if cs == [] then []
    else DropSquashed(Init(cs), b) + if IsIndexSquashed(b, Last(cs).Index()) then [] else [Last(cs)]
  }

  function ApplySquash(r: Receipt, squash: Squash): Outcome {
    if squash.body.amount < r.squash.body.amount + SquashedAmount(r.cheques, squash.body)
    then Err(SquashAmountLess)
    else Ok(Receipt(squash, DropSquashed(r.cheques, squash.body)))
  }

  /** The body the receipt asks the consumer to sign: every unlocked cheque folded in. */
  function Propose(r: Receipt): Result<SquashBody, SquashError> {
    FoldAll(r.squash.body, UnlockedEntries(r.cheques))
  }

  // ---- Facts about the mutations ----

  lemma {:induction false} UnlockKeepsEntries(cs: seq<Cheque>, secret: Secret, lock: Lock)
    ensures EntriesOf(UnlockAll(cs, secret, lock)) == EntriesOf(cs)
    ensures Total(UnlockedEntries(UnlockAll(cs, secret, lock)))
      == Total(UnlockedEntries(cs)) + OpenedAmount(cs, lock)
    ensures forall e :: e in UnlockedEntries(cs) ==> e in UnlockedEntries(UnlockAll(cs, secret, lock))
  {
    if cs != [] {
      var rest := UnlockAll(Init(cs), secret, lock);
      UnlockKeepsEntries(Init(cs), secret, lock);
      var c := UnlockOne(Last(cs), secret, lock);
      assert cs == Init(cs) + [Last(cs)];
      UnlockedEntriesSnoc(Init(cs), Last(cs));
      UnlockedEntriesSnoc(rest, c);
      EntriesSnoc(rest, c);
    }
  }

  /** The well-formedness of a receipt only depends on its indexes. */
  lemma SameEntries(cs: seq<Cheque>, ds: seq<Cheque>, b: SquashBody)
    requires EntriesOf(cs) == EntriesOf(ds) && ChequesAscend(cs) && NoneSettled(cs, b)
    ensures ChequesAscend(ds) && NoneSettled(ds, b)
  {
    EntriesAt(cs);
    EntriesAt(ds);
    forall i | 0 <= i < |ds| ensures ds[i].Index() == cs[i].Index() {
      assert EntryOf(ds[i]) == EntryOf(cs[i]);
    }
    forall d | d in ds ensures d.Index() !in S(b) {
      var i :| 0 <= i < |ds| && ds[i] == d;
      assert cs[i] in cs;
    }
  }

  lemma {:induction false} TimeoutMembers(cs: seq<Cheque>, now: nat)
    ensures forall c :: c in DropExpired(cs, now) <==> c in cs && !Expired(c, now)
    ensures ChequesAscend(cs) ==> ChequesAscend(DropExpired(cs, now))
  {
    if cs != [] {
      TimeoutMembers(Init(cs), now);
      assert cs == Init(cs) + [Last(cs)];
      if ChequesAscend(cs) {
        ChequesInit(cs);
        ChequesSnoc(DropExpired(Init(cs), now), Last(cs));
      }
    }
  }

  lemma {:induction false} TimeoutTotals(cs: seq<Cheque>, now: nat)
    ensures Total(EntriesOf(DropExpired(cs, now))) + Total(EntriesOf(ExpiredOnly(cs, now))) == Total(EntriesOf(cs))
  {
    if cs != [] {
      TimeoutTotals(Init(cs), now);
      var c := Last(cs);
      assert cs == Init(cs) + [c];
      EntriesSnoc(Init(cs), c);
      if Expired(c, now) {
        EntriesSnoc(ExpiredOnly(Init(cs), now), c);
        assert DropExpired(cs, now) == DropExpired(Init(cs), now);
      } else {
        EntriesSnoc(DropExpired(Init(cs), now), c);
        assert ExpiredOnly(cs, now) == ExpiredOnly(Init(cs), now);
      }
    }
  }

  lemma {:induction false} TimeoutKeepsUnlocked(cs: seq<Cheque>, now: nat)
    ensures UnlockedEntries(DropExpired(cs, now)) == UnlockedEntries(cs)
  {
    if cs != [] {
      TimeoutKeepsUnlocked(Init(cs), now);
      assert cs == Init(cs) + [Last(cs)];
      UnlockedEntriesSnoc(DropExpired(Init(cs), now), Last(cs));
      UnlockedEntriesSnoc(Init(cs), Last(cs));
      EntriesSnoc(DropExpired(Init(cs), now), Last(cs));
      assert UnlockedEntries(Init(cs)) + [] == UnlockedEntries(Init(cs));
    }
  }

  lemma BelowMax(r: Receipt)
    requires WellFormed(r)
    ensures forall c :: c in r.cheques ==> c.Index() <= MaxIndex(r)
  {
    if r.cheques != [] { ChequesInit(r.cheques); }
  }

  lemma {:induction false} SquashSplits(cs: seq<Cheque>, b: SquashBody)
    requires Valid(b)
    ensures forall c :: c in DropSquashed(cs, b) <==> c in cs && c.Index() !in S(b)
    ensures ChequesAscend(cs) ==> ChequesAscend(DropSquashed(cs, b))
  {
    if cs != [] {
      SquashSplits(Init(cs), b);
      assert cs == Init(cs) + [Last(cs)];
      SquashedIffInS(b, Last(cs).Index());
      if ChequesAscend(cs) {
        ChequesInit(cs);
        ChequesSnoc(DropSquashed(Init(cs), b), Last(cs));
      }
    }
  }

  lemma {:induction false} SquashTotals(cs: seq<Cheque>, b: SquashBody)
    ensures Total(EntriesOf(DropSquashed(cs, b))) + SquashedAmount(cs, b) == Total(EntriesOf(cs))
  {
    if cs != [] {
      SquashTotals(Init(cs), b);
      var kept, c := DropSquashed(Init(cs), b), Last(cs);
      assert cs == Init(cs) + [c];
      EntriesSnoc(Init(cs), c);
      if IsIndexSquashed(b, c.Index()) {
        assert DropSquashed(cs, b) == kept;
      } else {
        EntriesSnoc(kept, c);
      }
    }
  }

  lemma {:induction false} SquashCoversUnlocked(cs: seq<Cheque>, b: SquashBody)
    ensures Total(UnlockedEntries(DropSquashed(cs, b))) + SquashedAmount(cs, b) >= Total(UnlockedEntries(cs))
  {
    if cs != [] {
      SquashCoversUnlocked(Init(cs), b);
      var kept, c := DropSquashed(Init(cs), b), Last(cs);
      assert cs == Init(cs) + [c];
      UnlockedEntriesSnoc(Init(cs), c);
      if IsIndexSquashed(b, c.Index()) {
        assert DropSquashed(cs, b) == kept;
      } else {
        UnlockedEntriesSnoc(kept, c);
      }
    }
  }

  lemma {:induction false} SquashedIsInside(cs: seq<Cheque>, b: SquashBody)
    requires Valid(b)
    ensures SquashedAmount(cs, b) == Total(Inside(EntriesOf(cs), S(b)))
  {
    if cs != [] {
      SquashedIsInside(Init(cs), b);
      SquashedIffInS(b, Last(cs).Index());
      TotalSnoc(Inside(EntriesOf(Init(cs)), S(b)), EntryOf(Last(cs)));
      assert Inside(EntriesOf(Init(cs)), S(b)) + [] == Inside(EntriesOf(Init(cs)), S(b));
    }
  }

  // ---- When a mutation is accepted, and what it leaves ----

  lemma LockedExactly(r: Receipt, l: Locked)
    requires WellFormed(r)
    ensures ApplyLocked(r, l).Ok? <==>
      l.body.index == 1 + Max(r.squash.body.index, if r.cheques == [] then 0 else Last(r.cheques).Index())
    ensures match ApplyLocked(r, l)
      case Ok(q) =>
        && q.squash == r.squash && |q.cheques| == |r.cheques| + 1
        && r.cheques <= q.cheques && Last(q.cheques) == LockedCheque(l)
      case Err(e) => e == Input
  {}

  /** Unlocking keeps the index, the amount, the timeout and the signature, and puts the
      secret in the lock's place; every other cheque is left alone. */
  ghost predicate UnlocksTo(c: Cheque, d: Cheque, secret: Secret, lock: Lock) {
    if c.LockedCheque? && c.locked.body.latch == lock then
      && d.UnlockedCheque?
      && d.unlocked.body.index == c.locked.body.index
      && d.unlocked.body.amount == c.locked.body.amount
      && d.unlocked.body.timeout == c.locked.body.timeout
      && d.unlocked.body.latch == secret
      && d.unlocked.signature == c.locked.signature
    else d == c
  }

  lemma {:induction false} UnlockAllAt(cs: seq<Cheque>, secret: Secret, lock: Lock)
    ensures var ds := UnlockAll(cs, secret, lock);
      |ds| == |cs| && forall k :: 0 <= k < |cs| ==> UnlocksTo(cs[k], ds[k], secret, lock)
  {
    if cs != [] { UnlockAllAt(Init(cs), secret, lock); }
  }

  /** A secret is accepted exactly when some cheque is locked under it, and unlocks just
      those, each keeping all but its latch. */
  lemma SecretExactly(r: Receipt, secret: Secret, hash: Secret -> Lock)
    ensures ApplySecret(r, secret, hash).Ok? <==>
      exists l :: LockedCheque(l) in r.cheques && l.body.latch == hash(secret)
    ensures match ApplySecret(r, secret, hash)
      case Ok(q) =>
        && q.squash == r.squash && |q.cheques| == |r.cheques|
        && forall k :: 0 <= k < |r.cheques| ==> UnlocksTo(r.cheques[k], q.cheques[k], secret, hash(secret))
      case Err(e) => e == Unchanged
  {
    UnlockAllAt(r.cheques, secret, hash(secret));
    if ApplySecret(r, secret, hash).Ok? {
      var k :| 0 <= k < |r.cheques| && Opens(r.cheques[k], hash(secret));
      assert LockedCheque(r.cheques[k].locked) in r.cheques;
    }
    if l :| LockedCheque(l) in r.cheques && l.body.latch == hash(secret) {
      var k :| 0 <= k < |r.cheques| && r.cheques[k] == LockedCheque(l);
      assert Opens(r.cheques[k], hash(secret));
    }
  }

  lemma {:induction false} FindFirst(cs: seq<Cheque>, index: nat)
    ensures Find(cs, index) == |cs| <==> forall c :: c in cs ==> c.Index() != index
  {
    if cs != [] {
      FindFirst(Init(cs), index);
      assert cs == Init(cs) + [Last(cs)];
      assert Find(cs, index) < |cs| ==> cs[Find(cs, index)] in cs;
    }
  }

  /** A replacement is accepted exactly when the receipt holds a locked cheque of that
      index and lock which it outbids in amount and in time; it takes that cheque's
      place and leaves every other alone. */
  lemma ReplaceExactly(r: Receipt, l: Locked)
    requires WellFormed(r)
    ensures ApplyReplace(r, l).Ok? <==>
      exists o :: LockedCheque(o) in r.cheques && Outbids(l, o)
    ensures ApplyReplace(r, l) == Err(Other) <==>
      exists u :: UnlockedCheque(u) in r.cheques && u.body.index == l.body.index
    ensures match ApplyReplace(r, l)
      case Ok(q) =>
        && q.squash == r.squash && |q.cheques| == |r.cheques|
        && forall k :: 0 <= k < |r.cheques| ==>
             q.cheques[k] == if r.cheques[k].Index() == l.body.index then LockedCheque(l) else r.cheques[k]
      case Err(e) => e in {Input, Other}
  {
    var cs, k := r.cheques, Find(r.cheques, l.body.index);
    FindFirst(cs, l.body.index);
    if k < |cs| {
      assert cs[k] in cs;
      forall c | c in cs && c.Index() == l.body.index ensures c == cs[k] { SameIndexSameCheque(cs, c, cs[k]); }
      if cs[k].LockedCheque? { assert LockedCheque(cs[k].locked) in cs; }
      if cs[k].UnlockedCheque? { assert UnlockedCheque(cs[k].unlocked) in cs; }
    }
  }

  /** The three conditions under which replacing a commitment is safe for the adaptor. */
  ghost predicate Outbids(l: Locked, o: Locked) {
    && l.body.index == o.body.index && l.body.latch == o.body.latch
    && l.body.amount > o.body.amount && l.body.timeout > o.body.timeout
  }

  /** A squash is accepted exactly when it is worth at least the current one plus the
      cheques whose indexes it settles; those go, the others stay in order. */
  lemma SquashExactly(r: Receipt, q: Squash)
    requires WellFormed(r) && Valid(q.body)
    ensures ApplySquash(r, q).Ok? <==>
      q.body.amount >= r.squash.body.amount + Total(Inside(EntriesOf(r.cheques), S(q.body)))
    ensures match ApplySquash(r, q)
      case Ok(next) =>
        && next.squash == q && ChequesAscend(next.cheques)
        && forall c :: c in next.cheques <==> c in r.cheques && c.Index() !in S(q.body)
      case Err(e) => e == SquashAmountLess
  {
    SquashedIsInside(r.cheques, q.body);
    SquashSplits(r.cheques, q.body);
  }

  // ---- Runs ----

  datatype Event =
    | GotLocked(locked: Locked)
    | GotSecret(secret: Secret)
    | TimePassed(now: nat)
    | Replaced(locked: Locked)
    | GotSquash(squash: Squash)

  /** One event; a refused event leaves the receipt as it was. */
  function Apply(r: Receipt, e: Event, hash: Secret -> Lock): Receipt {
    match e
    case GotLocked(l) => OrElse(ApplyLocked(r, l), r)
    case GotSecret(s) => OrElse(ApplySecret(r, s, hash), r)
    case TimePassed(now) => ApplyTimeout(r, now)
    case Replaced(l) => OrElse(ApplyReplace(r, l), r)
    case GotSquash(q) => OrElse(ApplySquash(r, q), r)
  }

  function OrElse(o: Outcome, r: Receipt): Receipt {
    match o
    case Ok(v) => v
    case Err(_) => r
  }

  ghost predicate ValidEvent(e: Event) {
    e.GotSquash? ==> Valid(e.squash.body)
  }

  /** What one event does to the amount committed: it only ever drops the amounts
      of the timed-out locked cheques. */
  function Dropped(r: Receipt, e: Event): nat {
    match e
    case TimePassed(now) => Total(EntriesOf(ExpiredOnly(r.cheques, now)))
    case _ => 0
  }

  lemma EventKeeps(r: Receipt, e: Event, hash: Secret -> Lock)
    requires WellFormed(r) && ValidEvent(e)
    ensures var q := Apply(r, e, hash);
      && WellFormed(q)
      && Owed(q) >= Owed(r)
      && Committed(q) + Dropped(r, e) >= Committed(r)
      && (e.TimePassed? ==> Committed(q) + Dropped(r, e) == Committed(r) && Owed(q) == Owed(r))
  {
    match e
    case GotLocked(l) => if ApplyLocked(r, l).Ok? { LockedKeeps(r, l); }
    case GotSecret(s) => if ApplySecret(r, s, hash).Ok? { SecretKeeps(r, s, hash); }
    case TimePassed(now) =>
      TimeoutMembers(r.cheques, now);
      TimeoutTotals(r.cheques, now);
      TimeoutKeepsUnlocked(r.cheques, now);
    case Replaced(l) => if ApplyReplace(r, l).Ok? { ReplaceKeeps(r, l); }
    case GotSquash(q) => if ApplySquash(r, q).Ok? { SquashKeeps(r, q); }
  }

  /** An accepted event takes effect: the cheque is held, the secret's cheques are owed, no
      timed-out locked cheque stays, the replacement or the squash is in place. */
  lemma EventActs(r: Receipt, e: Event, hash: Secret -> Lock)
    requires WellFormed(r) && ValidEvent(e)
    ensures var q := Apply(r, e, hash);
      match e
      case GotLocked(l) =>
        ApplyLocked(r, l).Ok? ==> LockedCheque(l) in q.cheques && Committed(q) == Committed(r) + l.body.amount
      case GotSecret(s) =>
        (forall c :: c in q.cheques ==> !Opens(c, hash(s))) && Owed(q) == Owed(r) + OpenedAmount(r.cheques, hash(s))
      case TimePassed(now) =>
        forall c :: c in q.cheques <==> c in r.cheques && !(c.LockedCheque? && c.Timeout() <= now)
      case Replaced(l) => ApplyReplace(r, l).Ok? ==> LockedCheque(l) in q.cheques
      case GotSquash(s) => ApplySquash(r, s).Ok? ==> q.squash == s && NoneSettled(q.cheques, s.body)
  {
    match e
    case GotLocked(l) => if ApplyLocked(r, l).Ok? { LockedKeeps(r, l); }
    case GotSecret(s) => SecretActs(r, s, hash);
    case TimePassed(now) => TimeoutMembers(r.cheques, now);
    case Replaced(l) =>
      if ApplyReplace(r, l).Ok? {
        var k := Find(r.cheques, l.body.index);
        assert ApplyReplace(r, l).value.cheques[k] == LockedCheque(l);
      }
    case GotSquash(s) => if ApplySquash(r, s).Ok? { SquashKeeps(r, s); }
  }

  lemma SecretActs(r: Receipt, s: Secret, hash: Secret -> Lock)
    requires WellFormed(r)
    ensures var q := OrElse(ApplySecret(r, s, hash), r);
      && (forall c :: c in q.cheques ==> !Opens(c, hash(s)))
      && Owed(q) == Owed(r) + OpenedAmount(r.cheques, hash(s))
  {
    if ApplySecret(r, s, hash).Ok? {
      SecretKeeps(r, s, hash);
      UnlockAllAt(r.cheques, s, hash(s));
    } else {
      NothingOpens(r.cheques, hash(s));
    }
  }

  lemma {:induction false} NothingOpens(cs: seq<Cheque>, lock: Lock)
    requires forall k :: 0 <= k < |cs| ==> !Opens(cs[k], lock)
    ensures OpenedAmount(cs, lock) == 0
  {
    if cs != [] {
      assert forall k :: 0 <= k < |Init(cs)| ==> Init(cs)[k] == cs[k];
      NothingOpens(Init(cs), lock);
    }
  }

  lemma LockedKeeps(r: Receipt, l: Locked)
    requires WellFormed(r) && ApplyLocked(r, l).Ok?
    ensures var q := ApplyLocked(r, l).value;
      WellFormed(q) && Owed(q) == Owed(r) && Committed(q) == Committed(r) + l.body.amount
  {
    var c := LockedCheque(l);
    BelowMax(r);
    ChequesSnoc(r.cheques, c);
    EntriesSnoc(r.cheques, c);
    UnlockedEntriesSnoc(r.cheques, c);
    StaysUnsettled(r.cheques, c, r.squash.body);
  }

  lemma StaysUnsettled(cs: seq<Cheque>, c: Cheque, b: SquashBody)
    requires NoneSettled(cs, b) && b.index < c.Index()
    ensures NoneSettled(cs + [c], b)
  {}

  lemma SecretKeeps(r: Receipt, s: Secret, hash: Secret -> Lock)
    requires WellFormed(r) && ApplySecret(r, s, hash).Ok?
    ensures var q := ApplySecret(r, s, hash).value;
      && WellFormed(q) && Committed(q) == Committed(r)
      && Owed(q) == Owed(r) + OpenedAmount(r.cheques, hash(s))
  {
    UnlockKeepsEntries(r.cheques, s, hash(s));
    SameEntries(r.cheques, UnlockAll(r.cheques, s, hash(s)), r.squash.body);
  }

  lemma {:induction false} ReplaceAt(cs: seq<Cheque>, k: nat, l: Locked)
    requires k < |cs| && cs[k].LockedCheque? && cs[k].Index() == l.body.index
    ensures var ds := cs[k := LockedCheque(l)];
      && Unlockeds(ds) == Unlockeds(cs)
      && Total(EntriesOf(ds)) + cs[k].Amount() == Total(EntriesOf(cs)) + l.body.amount
  {
    var ds := cs[k := LockedCheque(l)];
    if k == |cs| - 1 {
      assert Init(ds) == Init(cs);
    } else {
      ReplaceAt(Init(cs), k, l);
      assert Init(ds) == Init(cs)[k := LockedCheque(l)];
    }
    EntriesSnoc(Init(cs), Last(cs));
    EntriesSnoc(Init(ds), Last(ds));
    assert cs == Init(cs) + [Last(cs)] && ds == Init(ds) + [Last(ds)];
  }

  lemma ReplaceKeeps(r: Receipt, l: Locked)
    requires WellFormed(r) && ApplyReplace(r, l).Ok?
    ensures var q := ApplyReplace(r, l).value;
      WellFormed(q) && Owed(q) == Owed(r) && Committed(q) > Committed(r)
  {
    var k := Find(r.cheques, l.body.index);
    ReplaceAt(r.cheques, k, l);
    var ds := r.cheques[k := LockedCheque(l)];
    forall d | d in ds ensures d.Index() !in S(r.squash.body) {
      var i :| 0 <= i < |ds| && ds[i] == d;
      assert r.cheques[i] in r.cheques && r.cheques[i].Index() == d.Index();
    }
  }

  lemma SquashKeeps(r: Receipt, squash: Squash)
    requires WellFormed(r) && Valid(squash.body) && ApplySquash(r, squash).Ok?
    ensures var q := ApplySquash(r, squash).value;
      && WellFormed(q) && Owed(q) >= Owed(r)
      && Committed(q) - Committed(r)
         == squash.body.amount - (r.squash.body.amount + SquashedAmount(r.cheques, squash.body))
  {
    SquashSplits(r.cheques, squash.body);
    SquashTotals(r.cheques, squash.body);
    SquashCoversUnlocked(r.cheques, squash.body);
  }

  function Run(r: Receipt, es: seq<Event>, hash: Secret -> Lock): Receipt {
    if es == [] then r else Apply(Run(r, Init(es), hash), Last(es), hash)
  }

  function DroppedInRun(r: Receipt, es: seq<Event>, hash: Secret -> Lock): nat {
    if es == [] then 0
    else DroppedInRun(r, Init(es), hash) + Dropped(Run(r, Init(es), hash), Last(es))
  }

  /** Every run keeps the invariant; what is owed never decreases; what is committed
      only loses the locked cheques that timed out. */
  lemma {:induction false} RunKeeps(r: Receipt, es: seq<Event>, hash: Secret -> Lock)
    requires WellFormed(r) && forall e :: e in es ==> ValidEvent(e)
    ensures var q := Run(r, es, hash);
      && WellFormed(q)
      && Owed(q) <= Committed(q)
      && Owed(q) >= Owed(r)
      && Committed(q) + DroppedInRun(r, es, hash) >= Committed(r)
  {
    TotalByLock(Run(r, es, hash).cheques);
    if es != [] {
      assert Last(es) in es;
      RunKeeps(r, Init(es), hash);
      EventKeeps(Run(r, Init(es), hash), Last(es), hash);
    }
  }

  // ---- Propose, then apply ----

  /** The proposal's amount is what is owed and its set is S plus the unlocked
      indexes; it exists exactly when at most ten indexes stay unsettled below the
      new top. */
  lemma ProposeExact(r: Receipt)
    requires WellFormed(r)
    ensures Propose(r).Ok? <==>
      |Unsettled(r.squash.body, UnlockedEntries(r.cheques))| <= MAX_EXCLUDE_LENGTH
    ensures Propose(r).Ok? ==>
      var b := Propose(r).value;
      && Valid(b)
      && b.amount == Owed(r)
      && S(b) == S(r.squash.body) + IndexSet(UnlockedEntries(r.cheques))
  {
    var es := UnlockedEntries(r.cheques);
    UnlockedAscend(r.cheques);
    UnlockedMembers(r.cheques);
    forall i | i in IndexSet(es) ensures i !in S(r.squash.body) {
      var e :| e in es && e.index == i;
    }
    AscendingFoldSucceeds(r.squash.body, es);
    FoldAllExact(r.squash.body, es);
  }

  lemma {:induction false} DropUnlocked(cs: seq<Cheque>, b: SquashBody)
    requires Valid(b)
    requires forall c :: c in cs ==> (c.Index() in S(b) <==> c.UnlockedCheque?)
    ensures DropSquashed(cs, b) == Lockeds(cs)
    ensures SquashedAmount(cs, b) == Total(UnlockedEntries(cs))
  {
    if cs != [] {
      var c := Last(cs);
      assert cs == Init(cs) + [c];
      DropUnlocked(Init(cs), b);
      SquashedIffInS(b, c.Index());
      UnlockedEntriesSnoc(Init(cs), c);
    }
  }

  lemma {:induction false} NoUnlockeds(cs: seq<Cheque>)
    requires forall c :: c in cs ==> c.LockedCheque?
    ensures Unlockeds(cs) == []
  {
    if cs != [] {
      assert Last(cs) in cs;
      NoUnlockeds(Init(cs));
    }
  }

  lemma SameIndexSameCheque(cs: seq<Cheque>, c: Cheque, d: Cheque)
    requires ChequesAscend(cs) && c in cs && d in cs && c.Index() == d.Index()
    ensures c == d
  {
    var i :| 0 <= i < |cs| && cs[i] == c;
    var j :| 0 <= j < |cs| && cs[j] == d;
    assert i == j;
  }

  lemma ProposalSettlesUnlocked(r: Receipt)
    requires WellFormed(r) && Propose(r).Ok?
    ensures forall c :: c in r.cheques ==> (c.Index() in S(Propose(r).value) <==> c.UnlockedCheque?)
  {
    ProposeExact(r);
    var cs := r.cheques;
    UnlockedMembers(cs);
    forall c | c in cs ensures c.Index() in S(Propose(r).value) <==> c.UnlockedCheque? {
      if c.UnlockedCheque? {
        assert EntryOf(c) in UnlockedEntries(cs);
      } else if c.Index() in IndexSet(UnlockedEntries(cs)) {
        var e :| e in UnlockedEntries(cs) && e.index == c.Index();
        var d :| d in cs && d.UnlockedCheque? && e == EntryOf(d);
        SameIndexSameCheque(cs, c, d);
      }
    }
  }

  /** Applying the receipt's own proposal is lossless. */
  lemma ProposeThenApply(r: Receipt, signature: Bytes)
    requires WellFormed(r) && Propose(r).Ok?
    ensures var o := ApplySquash(r, Squash(Propose(r).value, signature));
      && o.Ok?
      && o.value.cheques == Lockeds(r.cheques)
      && Owed(o.value) == Owed(r)
      && Committed(o.value) == Committed(r)
      && WellFormed(o.value)
  {
    var q := Squash(Propose(r).value, signature);
    ProposeExact(r);
    ProposalSettlesUnlocked(r);
    DropUnlocked(r.cheques, q.body);
    SquashKeeps(r, q);
    LockedMembers(r.cheques);
    NoUnlockeds(Lockeds(r.cheques));
  }

  /** The code also accepts squashes that settle less than the receipt already
      does: S may shrink, so only an exact and growing squash is an advance. */
  lemma AcceptsShrinkingSquash()
    ensures exists r: Receipt, q: Squash ::
      && WellFormed(r) && Valid(q.body)
      && ApplySquash(r, q).Ok? && ApplySquash(r, q).value.squash == q
      && S(q.body) < S(r.squash.body)
  {
    var r := Receipt(Squash(SquashBody(5, 3, []), []), []);
    var q := Squash(SquashBody(5, 2, []), []);
    assert 3 in S(r.squash.body) && 3 !in S(q.body);
    assert S(q.body) <= S(r.squash.body);
    assert WellFormed(r) && Valid(q.body) && ApplySquash(r, q).Ok?;
  }
}
