/** The two halves together: the server's funds check off-chain is enough to keep the
    on-chain channel able to pay, over every run of both. */
module Joint {
  import opened Types
  import opened Entries
  import opened Squashes
  import opened Cheques
  import opened Preparation
  import opened Receipts
  import opened Server
  import opened Channels
  import opened RespondedRuns
  import Codec

  datatype Joint = Joint(server: ServerChannel, l1: Channel)

  datatype JointStep =
    | Commit(locked: Locked)
    | Reveal(secret: Secret)
    | Timeout(now: nat)
    | Advance(squash: Squash)
    | Sync
    | AddFunds(amount: nat)
    | Claim(interval: Interval)
    | CloseChannel(interval: Interval)

  /** The squash advances the receipt: S grows, and the amount is exactly the squashed
      amount plus the cheques newly settled. */
  ghost predicate Advances(r: Receipt, q: Squash) {
    && Valid(q.body)
    && S(r.squash.body) <= S(q.body)
    && q.body.amount == r.squash.body.amount + SquashedAmount(r.cheques, q.body)
  }

  ghost predicate Allowed(j: Joint, step: JointStep) {
    step.Advance? ==> j.server.receipt.Some? && Advances(j.server.receipt.value, step.squash)
  }

  function OrKeep<T, E>(r: Result<T, E>, keep: T): T {
    match r
    case Ok(v) => v
    case Err(_) => keep
  }

  /** L1 as a step leaves it; a refused step leaves it as it was. */
  function Output(r: Resolution, keep: Channel): Channel {
    match r
    case Ok(WillContinue(d, _)) => d
    case _ => keep
  }

  function Snapshot(c: Channel): Option<Retainer> {
    match c.stage
    case Opened(subbed, useds) => Some(Retainer(c.amount, subbed, useds))
    case _ => None
  }

  function Next(j: Joint, step: JointStep, crypto: Crypto): Joint {
    match step
    case Commit(l) => j.(server := OrKeep(AdmitLocked(j.server, l, crypto), j.server))
    case Reveal(s) => j.(server := OrKeep(AdmitSecret(j.server, s, crypto), j.server))
    case Timeout(now) =>
      if j.server.receipt.None? then j
      else j.(server := j.server.(receipt := Some(ApplyTimeout(j.server.receipt.value, now))))
    case Advance(q) => j.(server := OrKeep(AdmitSquash(j.server, q, crypto), j.server))
    case Sync => j.(server := j.server.(retainer := Snapshot(j.l1)))
    case AddFunds(amount) => j.(l1 := Output(Add(j.l1, amount), j.l1))
    case Claim(i) =>
      if j.server.receipt.None? then j
      else
        var r := j.server.receipt.value;
        j.(l1 := Output(Sub(j.l1, r.squash, Unlockeds(r.cheques), i), j.l1))
    case CloseChannel(i) => j.(l1 := Output(Close(j.l1, i), j.l1))
  }

  // ---- The invariant ----

  /** Every used is settled or is an unlocked cheque of the receipt, same amount. */
  ghost predicate Backed(r: Receipt, useds: seq<Used>) {
    forall u :: u in useds ==> u.index in S(r.squash.body) || u in UnlockedEntries(r.cheques)
  }

  ghost predicate Solvent(r: Receipt, c: Channel)
    requires !c.stage.Responded?
  {
    && WellFormed(r)
    && Ascends(c.stage.useds)
    && Backed(r, c.stage.useds)
    && Committed(r) <= Deposited(c)
    && c.stage.subbed <= Owing(r.squash.body, c.stage.useds)
  }

  /** The retainer may be any earlier view of the L1 channel. */
  ghost predicate Stale(t: Retainer, r: Receipt, c: Channel) {
    && t.amount + t.subbed <= Deposited(c)
    && Backed(r, t.useds)
  }

  ghost predicate Inv(j: Joint) {
    && !j.l1.stage.Responded?
    && j.server.receipt.Some?
    && var r := j.server.receipt.value;
       && Solvent(r, j.l1)
       && |r.cheques| <= MAX_UNSQUASHED
       && (j.server.retainer.Some? ==> Stale(j.server.retainer.value, r, j.l1))
  }

  /** A fresh channel: opened with some amount, a first squash no larger, no retainer
      seen yet. */
  ghost predicate Start(j: Joint) {
    && j.l1.stage == Opened(0, [])
    && j.server.retainer.None?
    && j.server.receipt.Some?
    && Valid(j.server.receipt.value.squash.body)
    && j.server.receipt.value.cheques == []
    && j.server.receipt.value.squash.body.amount <= j.l1.amount
  }

  lemma StartHolds(j: Joint)
    requires Start(j)
    ensures Inv(j)
  {}

  // ---- Sums of evidence ----

  lemma DrawnTotal(us: seq<Used>, es: seq<Used>)
    requires Ascends(us) && Ascends(es) && forall u :: u in us ==> u in es
    ensures Total(us) + Total(Outside(es, IndexSet(us))) == Total(es)
  {
    DrawnFrom(us, es);
    TotalSplit(es, IndexSet(us));
  }

  lemma UnlockedAreEntries(cs: seq<Cheque>)
    requires ChequesAscend(cs)
    ensures forall e :: e in UnlockedEntries(cs) ==> e in EntriesOf(cs)
  {
    UnlockedMembers(cs);
    EntriesAscend(cs);
  }

  lemma {:induction false} PendingsTotal(cs: seq<Cheque>)
    ensures PendingTotal(PendingsOf(cs)) == Total(EntriesOf(Lockeds(cs)))
  {
    if cs != [] {
      PendingsTotal(Init(cs));
      EntriesSnoc(Lockeds(Init(cs)), Last(cs));
      if Last(cs).LockedCheque? {
        PendingSnoc(PendingsOf(Init(cs)), PendingOf(Last(cs).locked));
      } else {
        assert PendingsOf(cs) == PendingsOf(Init(cs));
      }
    }
  }

  lemma {:induction false} ActiveAscend(cs: seq<Cheque>, useds: seq<Used>, upper: nat)
    requires ChequesAscend(cs)
    ensures ChequesAscend(ActiveCheques(cs, useds, upper))
  {
    if cs != [] {
      ChequesInit(cs);
      ActiveAscend(Init(cs), useds, upper);
      ActiveChequeMembers(Init(cs), useds, upper);
      ChequesSnoc(ActiveCheques(Init(cs), useds, upper), Last(cs));
    }
  }

  lemma OwedAreBacked(r: Receipt, useds: seq<Used>)
    requires WellFormed(r) && Ascends(useds) && Backed(r, useds)
    ensures var owed := OwedUseds(useds, r.squash.body);
      && owed == Outside(useds, S(r.squash.body))
      && Ascends(owed)
      && forall u :: u in owed ==> u in useds && u in EntriesOf(r.cheques)
  {
    OwedUsedsIsOutside(useds, r.squash.body);
    AscendsOutside(useds, S(r.squash.body));
    MembersOutside(useds, S(r.squash.body));
    UnlockedAreEntries(r.cheques);
  }

  /** The active cheques and the useds still owed are disjoint parts of the receipt. */
  lemma EvidenceParts(r: Receipt, useds: seq<Used>, upper: nat)
    requires WellFormed(r) && Ascends(useds) && Backed(r, useds)
    ensures Total(OwedUseds(useds, r.squash.body)) + Total(EntriesOf(ActiveCheques(r.cheques, useds, upper)))
      <= Total(EntriesOf(r.cheques))
  {
    var owed := OwedUseds(useds, r.squash.body);
    var active := EntriesOf(ActiveCheques(r.cheques, useds, upper));
    var all := EntriesOf(r.cheques);
    OwedAreBacked(r, useds);
    EntriesAscend(r.cheques);
    ActiveAscend(r.cheques, useds, upper);
    EntriesAscend(ActiveCheques(r.cheques, useds, upper));
    DrawnTotal(owed, all);
    MembersOutside(all, IndexSet(owed));
    AscendsOutside(all, IndexSet(owed));
    forall e | e in active ensures e in Outside(all, IndexSet(owed)) {
      ActiveIsUnowed(r, useds, upper, e);
    }
    DrawnTotal(active, Outside(all, IndexSet(owed)));
  }

  lemma ActiveIsUnowed(r: Receipt, useds: seq<Used>, upper: nat, e: Used)
    requires WellFormed(r) && Ascends(useds) && Backed(r, useds)
    requires e in EntriesOf(ActiveCheques(r.cheques, useds, upper))
    ensures e in EntriesOf(r.cheques)
    ensures e.index !in IndexSet(OwedUseds(useds, r.squash.body))
  {
    ActiveChequeMembers(r.cheques, useds, upper);
    ActiveAscend(r.cheques, useds, upper);
    EntriesAscend(r.cheques);
    EntriesAscend(ActiveCheques(r.cheques, useds, upper));
    OwedAreBacked(r, useds);
    HasUsedIffIndex(useds, e.index);
  }

  /** What a respond shows, plus what it leaves pending, is within the committed; and it
      is at least what was already paid for. */
  lemma EvidenceFits(r: Receipt, useds: seq<Used>, upper: nat)
    requires WellFormed(r) && Ascends(useds) && Backed(r, useds)
    ensures var (active, pendings, total) := PrepRespond(r.squash.body, r.cheques, useds, upper);
      && r.squash.body.amount + total + PendingTotal(pendings) <= Committed(r)
      && r.squash.body.amount + total >= Owing(r.squash.body, useds)
  {
    var active := ActiveCheques(r.cheques, useds, upper);
    EvidenceParts(r, useds, upper);
    TotalByLock(active);
    PendingsTotal(active);
    OwedAreBacked(r, useds);
  }

  /** Total of the unlocked cheques that timed out before they were ever shown. */
  function LapsedAmount(cs: seq<Cheque>, useds: seq<Used>, upper: nat): nat {
    if cs == [] then 0 else
    LapsedAmount(Init(cs), useds, upper)
    + if Last(cs).UnlockedCheque? && Last(cs).Timeout() <= upper && !HasUsed(useds, Last(cs).Index())
      then Last(cs).Amount() else 0
  }

  lemma UnrecordedLast(cs: seq<Cheque>, x: set<nat>)
    requires cs != []
    ensures Total(Outside(UnlockedEntries(cs), x)) == Total(Outside(UnlockedEntries(Init(cs)), x))
      + if Last(cs).UnlockedCheque? && Last(cs).Index() !in x then Last(cs).Amount() else 0
  {
    var es, e := UnlockedEntries(Init(cs)), EntryOf(Last(cs));
    UnlockedStep(cs);
    if Last(cs).UnlockedCheque? {
      OutsideLast(es + [e], x);
      assert Init(es + [e]) == es;
    } else {
      assert es + [] == es;
    }
  }

  lemma ActiveLast(cs: seq<Cheque>, useds: seq<Used>, upper: nat)
    requires cs != []
    ensures var c := Last(cs);
      Total(UnlockedEntries(ActiveCheques(cs, useds, upper)))
      == Total(UnlockedEntries(ActiveCheques(Init(cs), useds, upper)))
        + if c.UnlockedCheque? && Active(c.Timeout(), c.Index(), useds, upper) then c.Amount() else 0
  {
    var active := ActiveCheques(Init(cs), useds, upper);
    UnlockedEntriesSnoc(active, Last(cs));
    assert active + [] == active;
  }

  /** An unlocked cheque without a used is active or lapsed. */
  lemma {:induction false} UnrecordedSplit(cs: seq<Cheque>, useds: seq<Used>, upper: nat)
    ensures Total(Outside(UnlockedEntries(cs), IndexSet(useds)))
      == Total(UnlockedEntries(ActiveCheques(cs, useds, upper))) + LapsedAmount(cs, useds, upper)
  {
    if cs != [] {
      UnrecordedSplit(Init(cs), useds, upper);
      HasUsedIffIndex(useds, Last(cs).Index());
      UnrecordedLast(cs, IndexSet(useds));
      ActiveLast(cs, useds, upper);
    }
  }

  /** A respond shows everything that is owed but the lapsed cheques. */
  lemma ShownIsOwed(r: Receipt, useds: seq<Used>, upper: nat)
    requires WellFormed(r) && Ascends(useds) && Backed(r, useds)
    ensures r.squash.body.amount + PrepRespond(r.squash.body, r.cheques, useds, upper).2
      + LapsedAmount(r.cheques, useds, upper) == Owed(r)
  {
    var es, owed := UnlockedEntries(r.cheques), OwedUseds(useds, r.squash.body);
    OwedAreBacked(r, useds);
    MembersOutside(useds, S(r.squash.body));
    UnlockedAscend(r.cheques);
    DrawnTotal(owed, es);
    UnlockedMembers(r.cheques);
    forall e | e in es ensures e.index in IndexSet(owed) <==> e.index in IndexSet(useds) {
      if e.index in IndexSet(useds) {
        var u :| u in useds && u.index == e.index;
        assert u in owed;
      }
    }
    OutsideAgrees(es, IndexSet(owed), IndexSet(useds));
    UnrecordedSplit(r.cheques, useds, upper);
  }

  // ---- Each step keeps the invariant ----

  lemma CommitKeeps(j: Joint, l: Locked, crypto: Crypto)
    requires Inv(j)
    ensures Inv(Next(j, Commit(l), crypto))
  {
    if AdmitLocked(j.server, l, crypto).Ok? {
      var r := j.server.receipt.value;
      AdmittedShape(j.server, l, crypto);
      AcceptedIsCovered(j.server, l, crypto);
      UnlockedEntriesSnoc(r.cheques, LockedCheque(l));
      assert UnlockedEntries(r.cheques) + [] == UnlockedEntries(r.cheques);
    }
  }

  lemma RevealKeeps(j: Joint, s: Secret, crypto: Crypto)
    requires Inv(j)
    ensures Inv(Next(j, Reveal(s), crypto))
  {
    if AdmitSecret(j.server, s, crypto).Ok? {
      var r := j.server.receipt.value;
      SecretKeeps(r, s, crypto.hash);
      UnlockKeepsEntries(r.cheques, s, crypto.hash(s));
      EntriesAt(r.cheques);
      EntriesAt(UnlockAll(r.cheques, s, crypto.hash(s)));
    }
  }

  lemma {:induction false} DropExpiredLength(cs: seq<Cheque>, now: nat)
    ensures |DropExpired(cs, now)| <= |cs|
  {
    if cs != [] { DropExpiredLength(Init(cs), now); }
  }

  lemma TimeoutSolvent(r: Receipt, c: Channel, now: nat)
    requires !c.stage.Responded? && Solvent(r, c)
    ensures Solvent(ApplyTimeout(r, now), c) && |ApplyTimeout(r, now).cheques| <= |r.cheques|
  {
    TimeoutMembers(r.cheques, now);
    TimeoutTotals(r.cheques, now);
    TimeoutBacks(r, c.stage.useds, now);
    DropExpiredLength(r.cheques, now);
  }

  /** No unlocked cheque is dropped, so every used stays backed. */
  lemma TimeoutBacks(r: Receipt, useds: seq<Used>, now: nat)
    requires Backed(r, useds)
    ensures Backed(ApplyTimeout(r, now), useds)
  {
    TimeoutKeepsUnlocked(r.cheques, now);
  }

  lemma TimeoutKeeps(j: Joint, now: nat, crypto: Crypto)
    requires Inv(j)
    ensures Inv(Next(j, Timeout(now), crypto))
  {
    var r := j.server.receipt.value;
    TimeoutSolvent(r, j.l1, now);
    if j.server.retainer.Some? { TimeoutBacks(r, j.server.retainer.value.useds, now); }
  }

  lemma {:induction false} DropSquashedLength(cs: seq<Cheque>, b: SquashBody)
    ensures |DropSquashed(cs, b)| <= |cs|
  {
    if cs != [] { DropSquashedLength(Init(cs), b); }
  }

  /** No used settled by the first body is unsettled by the second. */
  ghost predicate Remembers(useds: seq<Used>, was: SquashBody, now: SquashBody) {
    forall u :: u in useds && u.index in S(was) ==> u.index in S(now)
  }

  lemma {:induction false} OutsideTwice(us: seq<Used>, x: set<nat>, y: set<nat>)
    requires forall u :: u in us && u.index in x ==> u.index in y
    ensures Outside(Outside(us, x), y) == Outside(us, y)
  {
    if us != [] {
      OutsideTwice(Init(us), x, y);
      var rest := Outside(Init(us), x);
      assert Init(rest + [Last(us)]) == rest;
      assert rest + [] == rest;
    }
  }

  /** A squash that remembers the backed useds moves them into its amount without
      losing any. */
  lemma AdvanceCoversUseds(r: Receipt, q: Squash, useds: seq<Used>)
    requires WellFormed(r) && Ascends(useds) && Backed(r, useds)
    requires Valid(q.body) && Receipts.ApplySquash(r, q).Ok?
    requires Remembers(useds, r.squash.body, q.body)
    ensures Owing(q.body, useds) >= Owing(r.squash.body, useds)
  {
    var owed := Outside(useds, S(r.squash.body));
    var moved := Inside(owed, S(q.body));
    var settled := Inside(EntriesOf(r.cheques), S(q.body));
    OwedAreBacked(r, useds);
    TotalSplit(owed, S(q.body));
    OutsideTwice(useds, S(r.squash.body), S(q.body));
    SquashedIsInside(r.cheques, q.body);
    EntriesAscend(r.cheques);
    AscendsInside(owed, S(q.body));
    MembersInside(owed, S(q.body));
    AscendsInside(EntriesOf(r.cheques), S(q.body));
    MembersInside(EntriesOf(r.cheques), S(q.body));
    DrawnTotal(moved, settled);
  }

  /** After an accepted squash the useds stay backed exactly when it remembers them. */
  lemma SquashBacks(r: Receipt, q: Squash, useds: seq<Used>)
    requires WellFormed(r) && Backed(r, useds) && Valid(q.body)
    ensures Backed(Receipt(q, DropSquashed(r.cheques, q.body)), useds)
      <==> Remembers(useds, r.squash.body, q.body)
  {
    SquashSplits(r.cheques, q.body);
    UnlockedMembers(r.cheques);
    UnlockedMembers(DropSquashed(r.cheques, q.body));
    forall u | u in useds && u.index !in S(q.body)
      ensures u in UnlockedEntries(DropSquashed(r.cheques, q.body)) <==> u.index !in S(r.squash.body)
    {
      if u.index !in S(r.squash.body) {
        var c :| c in r.cheques && c.UnlockedCheque? && u == EntryOf(c);
        assert c in DropSquashed(r.cheques, q.body);
      }
    }
  }

  lemma AdvanceKeepsInv(j: Joint, q: Squash, crypto: Crypto)
    requires Inv(j) && Allowed(j, Advance(q))
    ensures Inv(Next(j, Advance(q), crypto))
  {
    if AdmitSquash(j.server, q, crypto).Ok? {
      var r := j.server.receipt.value;
      SquashKeeps(r, q);
      DropSquashedLength(r.cheques, q.body);
      AdvanceCoversUseds(r, q, j.l1.stage.useds);
      SquashBacks(r, q, j.l1.stage.useds);
      if j.server.retainer.Some? {
        SquashBacks(r, q, j.server.retainer.value.useds);
      }
    }
  }

  lemma AscendsIsDistinct(us: seq<Used>)
    requires Ascends(us)
    ensures Distinct(us)
  {}

  lemma ReceiptIsEvidence(r: Receipt)
    requires WellFormed(r)
    ensures SoundEvidence(r.squash.body, Unlockeds(r.cheques))
  {
    UnlockedAscend(r.cheques);
    UnlockedMembers(r.cheques);
    UsedsMembers(Unlockeds(r.cheques));
    forall u | u in Unlockeds(r.cheques) ensures u.body.index !in S(r.squash.body) {
      assert UsedOf(u) in UnlockedEntries(r.cheques);
    }
  }

  /** The next used history of a claim: ascending, unsettled, and backed. */
  lemma ClaimIsBacked(r: Receipt, useds: seq<Used>, upper: nat)
    requires WellFormed(r) && Ascends(useds) && Backed(r, useds)
    ensures var next := PrepSub(r.squash.body, Unlockeds(r.cheques), useds, upper).1;
      && Ascends(next) && Backed(r, next)
      && Outside(next, S(r.squash.body)) == next
  {
    var us, b := Unlockeds(r.cheques), r.squash.body;
    ReceiptIsEvidence(r);
    AscendsIsDistinct(useds);
    SubLeavesUseds(b, us, useds, upper);
    OutsideNothing(PrepSub(b, us, useds, upper).1, S(b));
    ActiveUnlockedMembers(us, useds, upper);
    UsedsMembers(PrepSub(b, us, useds, upper).0);
    UsedsMembers(us);
  }

  /** A claim with the receipt's evidence pays its full relative owed, never capped. */
  lemma ClaimUncapped(r: Receipt, c: Channel, i: Interval)
    requires c.stage.Opened? && Solvent(r, c)
    requires Sub(c, r.squash, Unlockeds(r.cheques), i).Ok?
    ensures var w := Sub(c, r.squash, Unlockeds(r.cheques), i).value;
      && w.output.stage.subbed == r.squash.body.amount + Total(w.output.stage.useds)
      && w.step.gain == w.output.stage.subbed - c.stage.subbed
      && w.output.stage.subbed + LapsedAmount(r.cheques, c.stage.useds, i.upper.value) == Owed(r)
      && Solvent(r, w.output)
  {
    ShownIsOwed(r, c.stage.useds, i.upper.value);
    RespondTotalIsSubTotal(r.squash.body, r.cheques, c.stage.useds, i.upper.value);
    EvidenceFits(r, c.stage.useds, i.upper.value);
    ClaimIsBacked(r, c.stage.useds, i.upper.value);
  }

  lemma SubDeposits(c: Channel, q: Squash, us: seq<Unlocked>, i: Interval)
    requires Sub(c, q, us, i).Ok?
    ensures var w := Sub(c, q, us, i).value;
      w.WillContinue? && w.output.stage.Opened? && Deposited(w.output) == Deposited(c)
  {}

  lemma ClaimKeeps(j: Joint, i: Interval, crypto: Crypto)
    requires Inv(j)
    ensures Inv(Next(j, Claim(i), crypto))
  {
    var r := j.server.receipt.value;
    if Sub(j.l1, r.squash, Unlockeds(r.cheques), i).Ok? {
      SubDeposits(j.l1, r.squash, Unlockeds(r.cheques), i);
      ClaimUncapped(r, j.l1, i);
    }
  }

  lemma StepKeeps(j: Joint, step: JointStep, crypto: Crypto)
    requires Inv(j) && Allowed(j, step)
    ensures Inv(Next(j, step, crypto))
  {
    match step
    case Commit(l) => CommitKeeps(j, l, crypto);
    case Reveal(s) => RevealKeeps(j, s, crypto);
    case Timeout(now) => TimeoutKeeps(j, now, crypto);
    case Advance(q) => AdvanceKeepsInv(j, q, crypto);
    case Sync => SyncKeeps(j, crypto);
    case AddFunds(amount) =>
    case Claim(i) => ClaimKeeps(j, i, crypto);
    case CloseChannel(i) =>
  }

  lemma SyncKeeps(j: Joint, crypto: Crypto)
    requires Inv(j)
    ensures Inv(Next(j, Sync, crypto))
  {}

  /** Each step moves what it names: what is committed, owed, squashed, deposited, claimed,
      closed or seen. */
  lemma StepActs(j: Joint, step: JointStep, crypto: Crypto)
    requires Inv(j) && Allowed(j, step)
    ensures var k := Next(j, step, crypto);
      var r := j.server.receipt.value;
      && k.server.receipt.Some?
      && var q := k.server.receipt.value;
         match step
         case Commit(l) => AdmitLocked(j.server, l, crypto).Ok? ==>
           LockedCheque(l) in q.cheques && Committed(q) == Committed(r) + l.body.amount
         case Reveal(s) => Owed(q) == Owed(r) + OpenedAmount(r.cheques, crypto.hash(s))
         case Timeout(now) => forall c :: c in q.cheques && c.LockedCheque? ==> c.Timeout() > now
         case Advance(s) => AdmitSquash(j.server, s, crypto).Ok? ==> q.squash == s
         case Sync => j.l1.stage.Opened? ==>
           k.server.retainer == Some(Retainer(j.l1.amount, j.l1.stage.subbed, j.l1.stage.useds))
         case AddFunds(amount) => j.l1.stage.Opened? ==> Deposited(k.l1) == Deposited(j.l1) + amount
         case Claim(i) => Sub(j.l1, r.squash, Unlockeds(r.cheques), i).Ok? ==>
           k.l1.stage.subbed + LapsedAmount(r.cheques, j.l1.stage.useds, i.upper.value) == Owed(r)
         case CloseChannel(i) => j.l1.stage.Opened? && i.upper.Some? ==>
           k.l1.stage.Closed? && k.l1.stage.elapseAt == i.upper.value + j.l1.constants.closePeriod
  {
    var r := j.server.receipt.value;
    match step
    case Commit(l) => if AdmitLocked(j.server, l, crypto).Ok? { AcceptedIsCovered(j.server, l, crypto); AdmittedShape(j.server, l, crypto); }
    case Reveal(s) => SecretActs(r, s, crypto.hash);
    case Timeout(now) => TimeoutMembers(r.cheques, now);
    case Claim(i) => if Sub(j.l1, r.squash, Unlockeds(r.cheques), i).Ok? { ClaimUncapped(r, j.l1, i); }
    case _ =>
  }

  // ---- Runs ----

  function JointRun(j: Joint, steps: seq<JointStep>, crypto: Crypto): Joint {
    if steps == [] then j else Next(JointRun(j, Init(steps), crypto), Last(steps), crypto)
  }

  ghost predicate RunAllowed(j: Joint, steps: seq<JointStep>, crypto: Crypto) {
    steps == [] || (RunAllowed(j, Init(steps), crypto) && Allowed(JointRun(j, Init(steps), crypto), Last(steps)))
  }

  /** Joint solvency: every run from a fresh channel keeps the receipt funded by the
      deposit, the claims backed by the receipt, and at most ten cheques held. */
  lemma {:induction false} RunsStaySolvent(j: Joint, steps: seq<JointStep>, crypto: Crypto)
    requires Start(j) && RunAllowed(j, steps, crypto)
    ensures Inv(JointRun(j, steps, crypto))
  {
    if steps == [] {
      StartHolds(j);
    } else {
      RunsStaySolvent(j, Init(steps), crypto);
      StepKeeps(JointRun(j, Init(steps), crypto), Last(steps), crypto);
    }
  }

  lemma StepStaysAuthentic(j: Joint, step: JointStep, crypto: Crypto)
    requires Authentic(j.server, crypto)
    ensures var k := Next(j, step, crypto);
      Authentic(k.server, crypto) && k.server.key == j.server.key && k.server.tag == j.server.tag
  {
    match step
    case Commit(l) => if AdmitLocked(j.server, l, crypto).Ok? { LockedAuthentic(j.server, l, crypto); }
    case Reveal(s) => if AdmitSecret(j.server, s, crypto).Ok? { SecretAuthentic(j.server, s, crypto); }
    case Timeout(now) => if j.server.receipt.Some? { TimeoutAuthentic(j.server, now, crypto); }
    case Advance(q) => if AdmitSquash(j.server, q, crypto).Ok? { SquashAuthentic(j.server, q, crypto); }
    case _ =>
  }

  /** Whatever the run, allowed or not, the squash and every cheque held stay signed by the
      consumer for this channel. */
  lemma {:induction false} RunsStayAuthentic(j: Joint, steps: seq<JointStep>, crypto: Crypto)
    requires Authentic(j.server, crypto)
    ensures var k := JointRun(j, steps, crypto);
      Authentic(k.server, crypto) && k.server.key == j.server.key && k.server.tag == j.server.tag
  {
    if steps != [] {
      RunsStayAuthentic(j, Init(steps), crypto);
      StepStaysAuthentic(JointRun(j, Init(steps), crypto), Last(steps), crypto);
    }
  }

  /** So whatever a claim or a respond puts on chain is signed. */
  lemma ShownIsAuthentic(j: Joint, steps: seq<JointStep>, i: Interval, crypto: Crypto)
    requires Authentic(j.server, crypto) && JointRun(j, steps, crypto).server.receipt.Some?
    ensures var k := JointRun(j, steps, crypto);
      var r := k.server.receipt.value;
      && crypto.verify(j.server.key, Codec.SquashMessage(j.server.tag, r.squash.body), r.squash.signature)
      && (Sub(k.l1, r.squash, Unlockeds(r.cheques), i).Ok? ==>
            forall u :: u in Sub(k.l1, r.squash, Unlockeds(r.cheques), i).value.step.unlockeds ==>
              SignedCheque(UnlockedCheque(u), j.server.key, j.server.tag, crypto))
      && (Respond(k.l1, r.squash, r.cheques, i).Ok? ==>
            forall c :: c in Respond(k.l1, r.squash, r.cheques, i).value.step.cheques ==>
              SignedCheque(c, j.server.key, j.server.tag, crypto))
  {
    RunsStayAuthentic(j, steps, crypto);
    var k := JointRun(j, steps, crypto);
    var r := k.server.receipt.value;
    if i.upper.Some? && !k.l1.stage.Responded? {
      ActiveUnlockedMembers(Unlockeds(r.cheques), k.l1.stage.useds, i.upper.value);
      ActiveChequeMembers(r.cheques, k.l1.stage.useds, i.upper.value);
      UnlockedsAreHeld(r.cheques);
    }
  }

  /** A revealed cheque is not lost: while it outlives the window and has no used, the next
      accepted sub shows it with its secret, index, amount, timeout and signature. */
  lemma RevealedIsShown(r: Receipt, l: Locked, s: Secret, hash: Secret -> Lock, c: Channel, i: Interval)
    requires LockedCheque(l) in r.cheques && l.body.latch == hash(s)
    requires c.stage.Opened? && i.upper.Some?
    requires l.body.timeout > i.upper.value && l.body.index !in IndexSet(c.stage.useds)
    ensures Receipts.ApplySecret(r, s, hash).Ok?
    ensures var q := Receipts.ApplySecret(r, s, hash).value;
      var o := Sub(c, q.squash, Unlockeds(q.cheques), i);
      o.Ok? ==> Signed(ChequeBody(l.body.index, l.body.amount, l.body.timeout, s), l.signature) in o.value.step.unlockeds
  {
    SecretExactly(r, s, hash);
    var q := Receipts.ApplySecret(r, s, hash).value;
    var k :| 0 <= k < |r.cheques| && r.cheques[k] == LockedCheque(l);
    var u := Signed(ChequeBody(l.body.index, l.body.amount, l.body.timeout, s), l.signature);
    assert q.cheques[k] == UnlockedCheque(u) && q.cheques[k] in q.cheques;
    UnlockedsAreHeld(q.cheques);
    ActiveUnlockedMembers(Unlockeds(q.cheques), c.stage.useds, i.upper.value);
    HasUsedIffIndex(c.stage.useds, u.body.index);
  }

  /** So no total of the run leaves u64 as long as the deposits fit, nor the amount put
      into an output as long as they fit with the buffer. */
  lemma TotalsFit(j: Joint, upper: nat)
    requires Inv(j) && Deposited(j.l1) < U64
    ensures var r := j.server.receipt.value;
      var (_, pendings, total) := PrepRespond(r.squash.body, r.cheques, j.l1.stage.useds, upper);
      && Owed(r) < U64 && Committed(r) < U64
      && r.squash.body.amount + total + PendingTotal(pendings) < U64
      && Owing(r.squash.body, j.l1.stage.useds) < U64
      && j.l1.amount + j.l1.stage.subbed < U64
      && (Deposited(j.l1) + MIN_ADA_BUFFER < U64 ==> BufferedAmount(j.l1) < U64)
  {
    var r := j.server.receipt.value;
    TotalByLock(r.cheques);
    EvidenceFits(r, j.l1.stage.useds, upper);
  }

  /** In a joint run the index the server offers next is the one the receipt accepts,
      whatever the retainer's useds say. */
  lemma NextIndexIsAccepted(j: Joint, l: Locked)
    requires Inv(j) && NextIndex(j.server).Ok?
    ensures Receipts.ApplyLocked(j.server.receipt.value, l).Ok? <==> l.body.index == NextIndex(j.server).value
  {
    var r := j.server.receipt.value;
    var useds := j.server.retainer.value.useds;
    if useds != [] {
      var u := Last(useds);
      assert u in useds;
      BelowMax(r);
      UnlockedMembers(r.cheques);
    }
  }

  /** With an up-to-date retainer, what the server calls uncommitted is exactly the part
      of the deposit the receipt does not claim. */
  lemma UncommittedIsExact(j: Joint)
    requires Inv(j) && j.l1.stage.Opened? && j.server.retainer == Snapshot(j.l1)
    requires Uncommitted(j.server).Ok?
    ensures Uncommitted(j.server).value == Deposited(j.l1) - Committed(j.server.receipt.value)
  {
    EvidenceFits(j.server.receipt.value, j.l1.stage.useds, 0);
  }

  // ---- Closing ----

  /** Responding with the receipt pays the full relative owed, uncapped, and leaves at
      least the sum of all pendings: the state the responded runs start from. */
  lemma RespondUncapped(r: Receipt, c: Channel, i: Interval)
    requires c.stage.Closed? && Solvent(r, c)
    requires Respond(c, r.squash, r.cheques, i).Ok?
    ensures var w := Respond(c, r.squash, r.cheques, i).value;
      && Funded(w.output)
      && w.step.gain + c.stage.subbed
         == r.squash.body.amount + PrepRespond(r.squash.body, r.cheques, c.stage.useds, i.upper.value).2
      && w.step.gain + c.stage.subbed + LapsedAmount(r.cheques, c.stage.useds, i.upper.value) == Owed(r)
      && w.output.amount + w.step.gain == c.amount
  {
    ShownIsOwed(r, c.stage.useds, i.upper.value);
    EvidenceFits(r, c.stage.useds, i.upper.value);
  }

  /** From a fresh channel, through any run, a respond with the receipt's evidence, and
      any later unlocks and expires: the adaptor is paid exactly what it was owed, less
      the unlocked cheques it let lapse unshown, plus the pendings it unlocked; and
      everything else of the deposit is accounted for. */
  lemma EndToEnd(j: Joint, steps: seq<JointStep>, i: Interval, ms: seq<Move>, crypto: Crypto)
    requires Start(j) && RunAllowed(j, steps, crypto)
    requires var k := JointRun(j, steps, crypto);
      k.server.receipt.Some? &&
      Respond(k.l1, k.server.receipt.value.squash, k.server.receipt.value.cheques, i).Ok?
    ensures var k := JointRun(j, steps, crypto);
      var r := k.server.receipt.value;
      var w := Respond(k.l1, r.squash, r.cheques, i).value;
      var (d, ledger) := Settle(w.output, ms, crypto.hash);
      var shown := r.squash.body.amount + PrepRespond(r.squash.body, r.cheques, k.l1.stage.useds, i.upper.value).2;
      && shown == Owed(r) - LapsedAmount(r.cheques, k.l1.stage.useds, i.upper.value)
      && k.l1.stage.subbed + w.step.gain + ledger.gain == shown + PendingTotal(ledger.unlocked)
      && shown + PendingTotal(w.output.stage.pendings) <= Committed(r) <= Deposited(k.l1)
      && Deposited(k.l1) == shown + ledger.gain + ledger.refund + d.amount
      && Balanced(w.output, d, ledger)
  {
    RunsStaySolvent(j, steps, crypto);
    var k := JointRun(j, steps, crypto);
    var r := k.server.receipt.value;
    RespondUncapped(r, k.l1, i);
    EvidenceFits(r, k.l1.stage.useds, i.upper.value);
    SettledAtMostOnce(Respond(k.l1, r.squash, r.cheques, i).value.output, ms, crypto.hash);
  }

  // ---- Own proposals, fresh or delayed, are advances ----

  ghost predicate Awaits(r: Receipt, q: Squash, settled: nat) {
    && WellFormed(r) && Valid(q.body)
    && S(r.squash.body) <= S(q.body)
    && SquashedAmount(r.cheques, q.body) == settled
    && (forall c :: c in r.cheques && c.Index() in S(q.body) ==> c.UnlockedCheque?)
    && q.body.index <= MaxIndex(r)
    && Anchored(r, q.body.index)
  }

  /** The index is settled or is that of an unlocked cheque, so no timeout loses it. */
  ghost predicate Anchored(r: Receipt, index: nat) {
    index in S(r.squash.body) || exists c :: c in r.cheques && c.UnlockedCheque? && c.Index() == index
  }

  lemma ProposalAwaits(r: Receipt, signature: Bytes)
    requires WellFormed(r) && Propose(r).Ok?
    ensures Awaits(r, Squash(Propose(r).value, signature), Total(UnlockedEntries(r.cheques)))
  {
    var b := Propose(r).value;
    ProposeExact(r);
    ProposalSettlesUnlocked(r);
    DropUnlocked(r.cheques, b);
    assert b.index in S(b);
    UnlockedMembers(r.cheques);
    BelowMax(r);
  }

  ghost predicate Quiet(e: Event) {
    e.GotLocked? || e.GotSecret? || e.TimePassed?
  }

  lemma {:induction false} SquashedOfTimeout(cs: seq<Cheque>, b: SquashBody, now: nat)
    requires Valid(b) && forall c :: c in cs && c.Index() in S(b) ==> c.UnlockedCheque?
    ensures SquashedAmount(DropExpired(cs, now), b) == SquashedAmount(cs, b)
  {
    if cs != [] {
      var c, rest := Last(cs), DropExpired(Init(cs), now);
      assert cs == Init(cs) + [c];
      SquashedOfTimeout(Init(cs), b, now);
      SquashedIffInS(b, c.Index());
      assert Init(rest + [c]) == rest && rest + [] == rest;
    }
  }

  lemma AwaitsTimeout(r: Receipt, q: Squash, settled: nat, now: nat)
    requires Awaits(r, q, settled)
    ensures Awaits(ApplyTimeout(r, now), q, settled)
  {
    TimeoutMembers(r.cheques, now);
    SquashedOfTimeout(r.cheques, q.body, now);
    BelowMax(ApplyTimeout(r, now));
  }

  lemma SquashedSnoc(cs: seq<Cheque>, c: Cheque, b: SquashBody)
    requires Valid(b)
    ensures SquashedAmount(cs + [c], b) == SquashedAmount(cs, b) + if c.Index() in S(b) then c.Amount() else 0
  {
    assert Init(cs + [c]) == cs;
    SquashedIffInS(b, c.Index());
  }

  lemma StaysAnchored(r: Receipt, c: Cheque, index: nat)
    requires Anchored(r, index)
    ensures Anchored(r.(cheques := r.cheques + [c]), index)
  {
    if index !in S(r.squash.body) {
      var d :| d in r.cheques && d.UnlockedCheque? && d.Index() == index;
      assert d in r.cheques + [c];
    }
  }

  lemma AwaitsLocked(r: Receipt, q: Squash, settled: nat, l: Locked)
    requires Awaits(r, q, settled) && Receipts.ApplyLocked(r, l).Ok?
    ensures Awaits(Receipts.ApplyLocked(r, l).value, q, settled)
  {
    var c := LockedCheque(l);
    LockedKeeps(r, l);
    SquashedSnoc(r.cheques, c, q.body);
    StaysAnchored(r, c, q.body.index);
    assert c.Index() !in S(q.body);
  }

  lemma AwaitsSecret(r: Receipt, q: Squash, settled: nat, s: Secret, hash: Secret -> Lock)
    requires Awaits(r, q, settled) && Receipts.ApplySecret(r, s, hash).Ok?
    ensures Awaits(Receipts.ApplySecret(r, s, hash).value, q, settled)
  {
    SecretKeeps(r, s, hash);
    UnlockKeepsEntries(r.cheques, s, hash(s));
    SquashedIsInside(r.cheques, q.body);
    SquashedIsInside(UnlockAll(r.cheques, s, hash(s)), q.body);
    UnlockAllMembers(r.cheques, s, hash(s));
    BelowMax(Receipts.ApplySecret(r, s, hash).value);
  }

  lemma {:induction false} UnlockAllMembers(cs: seq<Cheque>, s: Secret, lock: Lock)
    ensures forall c :: c in cs ==> UnlockOne(c, s, lock) in UnlockAll(cs, s, lock)
    ensures forall d :: d in UnlockAll(cs, s, lock) ==> exists c :: c in cs && d == UnlockOne(c, s, lock)
  {
    if cs != [] {
      UnlockAllMembers(Init(cs), s, lock);
      assert cs == Init(cs) + [Last(cs)];
    }
  }

  /** A signed proposal may come back late: after any locked cheques, secrets and
      timeouts, applying it is still an advance of the receipt. */
  lemma {:induction false} DelayedProposalAdvances(r: Receipt, signature: Bytes, es: seq<Event>, hash: Secret -> Lock)
    requires WellFormed(r) && Propose(r).Ok? && forall e :: e in es ==> Quiet(e)
    ensures var q := Squash(Propose(r).value, signature);
      && Awaits(Receipts.Run(r, es, hash), q, Total(UnlockedEntries(r.cheques)))
      && Receipts.Run(r, es, hash).squash == r.squash
      && Advances(Receipts.Run(r, es, hash), q)
  {
    var q := Squash(Propose(r).value, signature);
    var settled := Total(UnlockedEntries(r.cheques));
    ProposalAwaits(r, signature);
    ProposeExact(r);
    if es != [] {
      assert Last(es) in es;
      DelayedProposalAdvances(r, signature, Init(es), hash);
      var m := Receipts.Run(r, Init(es), hash);
      match Last(es)
      case GotLocked(l) => if Receipts.ApplyLocked(m, l).Ok? { AwaitsLocked(m, q, settled, l); }
      case GotSecret(s) => if Receipts.ApplySecret(m, s, hash).Ok? { AwaitsSecret(m, q, settled, s, hash); }
      case TimePassed(now) => AwaitsTimeout(m, q, settled, now);
    }
  }

  // ---- Where solvency is lost ----

  /** The receipt accepts any squash with a large enough amount. The halves stay solvent
      exactly when its excess over the cheques it settles fits the headroom and it
      forgets no used. */
  lemma AcceptedSquashSolvent(r: Receipt, c: Channel, q: Squash)
    requires !c.stage.Responded? && Solvent(r, c)
    requires Valid(q.body) && Receipts.ApplySquash(r, q).Ok?
    ensures Solvent(Receipts.ApplySquash(r, q).value, c) <==>
      && q.body.amount - (r.squash.body.amount + SquashedAmount(r.cheques, q.body)) <= Deposited(c) - Committed(r)
      && Remembers(c.stage.useds, r.squash.body, q.body)
  {
    SquashKeeps(r, q);
    SquashBacks(r, q, c.stage.useds);
    if Remembers(c.stage.useds, r.squash.body, q.body) {
      AdvanceCoversUseds(r, q, c.stage.useds);
    }
  }

  /** Replacing a locked cheque skips the funds check: the halves stay solvent exactly
      when the raise fits the headroom. */
  lemma ReplaceRaise(r: Receipt, c: Channel, l: Locked)
    requires !c.stage.Responded? && Solvent(r, c)
    requires Receipts.ApplyReplace(r, l).Ok?
    ensures var was := r.cheques[Find(r.cheques, l.body.index)];
      Solvent(Receipts.ApplyReplace(r, l).value, c) <==>
      l.body.amount - was.Amount() <= Deposited(c) - Committed(r)
  {
    ReplaceKeeps(r, l);
    ReplaceAt(r.cheques, Find(r.cheques, l.body.index), l);
  }

  /** A squash that forgets a settled index is accepted, yet counts a used a second
      time: where nothing was left to claim, a claim now pays. */
  lemma ShrinkingSquashPaysTwice(sig: Bytes)
    ensures exists r: Receipt, q: Squash, c: Channel, i: Interval ::
      && c.stage.Opened? && Solvent(r, c) && Valid(q.body)
      && Receipts.ApplySquash(r, q).Ok?
      && Sub(c, r.squash, Unlockeds(r.cheques), i) == Err(NoStep)
      && var next := Receipts.ApplySquash(r, q).value;
         Sub(c, next.squash, Unlockeds(next.cheques), i).Ok?
  {
    var r := Receipt(Squash(SquashBody(5, 1, []), sig), []);
    var q := Squash(SquashBody(5, 0, []), sig);
    var c := Channel(None, Constants([], [], [], 0), 10, Opened(5, [Used(1, 5)]));
    var i := Interval(None, Some(0));
    OneUsed(Used(1, 5), r.squash.body, q.body);
    ShrinkingIsAccepted(r, q, c, Used(1, 5));
    NothingElseShown(r.squash.body, [Used(1, 5)]);
    NothingElseShown(q.body, [Used(1, 5)]);
    assert Total([]) == 0;
    assert Sub(c, r.squash, [], i) == Err(NoStep);
    assert Sub(c, q, [], i).Ok?;
  }

  lemma ShrinkingIsAccepted(r: Receipt, q: Squash, c: Channel, u: Used)
    requires r.cheques == [] && Valid(r.squash.body) && Valid(q.body) && !c.stage.Responded?
    requires r.squash.body.amount == q.body.amount && u.index in S(r.squash.body)
    requires c.stage.useds == [u] && c.stage.subbed <= r.squash.body.amount <= Deposited(c)
    ensures Solvent(r, c) && Receipts.ApplySquash(r, q) == Ok(Receipt(q, []))
  {
    assert Total(Outside([u], S(r.squash.body))) >= 0;
  }

  /** Without cheques a sub shows exactly the useds still owed. */
  lemma NothingElseShown(b: SquashBody, useds: seq<Used>)
    requires Ascends(OwedUseds(useds, b))
    ensures Unlockeds([]) == [] && PrepSub(b, [], useds, 0) == ([], OwedUseds(useds, b))
  {
    assert OwedUseds(useds, b) + [] == OwedUseds(useds, b);
    SortOfSorted(OwedUseds(useds, b));
  }

  lemma OneUsed(u: Used, b: SquashBody, c: SquashBody)
    requires IsIndexSquashed(b, u.index) && !IsIndexSquashed(c, u.index)
    ensures OwedUseds([u], b) == [] && OwedUseds([u], c) == [u] && Total([u]) == u.amount
    ensures u.index in S(b) ==> Outside([u], S(b)) == []
  {
    assert Init([u]) == [];
  }
}
