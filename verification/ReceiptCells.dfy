/** The receipt as the object the server mutates, each method proved against the
    functions of module Receipts, whose runs are analysed there. */
module ReceiptCells {
  import opened Types
  import opened Entries
  import opened Squashes
  import opened SquashCells
  import opened Cheques
  import opened Preparation
  import opened Receipts

  class ReceiptMut {
    var squash: Squash
    var cheques: seq<Cheque>

    ghost function State(): Receipt
      reads this
    {
      Receipt(squash, cheques)
    }

    ghost predicate Invariant()
      reads this
    {
      WellFormed(State())
    }

    constructor (squash: Squash)
      requires Valid(squash.body)
      ensures Invariant() && State() == Receipt(squash, [])
    {
      this.squash := squash;
      cheques := [];
    }

    method Committed() returns (total: nat)
      requires Receipts.Committed(State()) < U64
      ensures total == Receipts.Committed(State())
    {
      total := squash.body.amount;
      var i := 0;
      while i < |cheques|
        invariant i <= |cheques| && total == squash.body.amount + Total(EntriesOf(cheques[..i]))
      {
        assert cheques[..i + 1] == cheques[..i] + [cheques[i]];
        EntriesSnoc(cheques[..i], cheques[i]);
        total := total + cheques[i].Amount();
        i := i + 1;
      }
      assert cheques[..i] == cheques;
    }

    method ApplyLocked(l: Locked) returns (r: Result<(), ReceiptError>)
      requires Invariant() && MaxIndex(State()) + 1 < U64
      modifies this
      ensures Invariant()
      ensures r.Ok? ==> Receipts.ApplyLocked(old(State()), l) == Ok(State())
      ensures r.Err? ==> Receipts.ApplyLocked(old(State()), l) == Err(r.error) && State() == old(State())
    {
      if l.body.index != MaxIndex(Receipt(squash, cheques)) + 1 {
        return Err(Input);
      }
      LockedKeeps(State(), l);
      cheques := cheques + [LockedCheque(l)];
      return Ok(());
    }

    /** Every locked cheque under this secret's lock becomes unlocked; an error means
        there was none. */
    method ApplySecret(secret: Secret, hash: Secret -> Lock) returns (r: Result<(), ReceiptError>)
      requires Invariant()
      modifies this
      ensures Invariant()
      ensures r.Ok? ==> Receipts.ApplySecret(old(State()), secret, hash) == Ok(State())
      ensures r.Err? ==> Receipts.ApplySecret(old(State()), secret, hash) == Err(r.error) && State() == old(State())
      ensures r.Ok? ==> forall c :: c in cheques ==> !Opens(c, hash(secret))
    {
      var lock := hash(secret);
      ghost var was := cheques;
      var changed := false;
      var i := 0;
      while i < |cheques|
        invariant i <= |cheques| == |was| && squash == old(squash)
        invariant forall k :: 0 <= k < i ==> cheques[k] == UnlockOne(was[k], secret, lock)
        invariant forall k :: i <= k < |was| ==> cheques[k] == was[k]
        invariant changed <==> exists k :: 0 <= k < i && Opens(was[k], lock)
      {
        if Opens(cheques[i], lock) {
          cheques := cheques[i := UnlockOne(cheques[i], secret, lock)];
          changed := true;
        }
        i := i + 1;
      }
      UnlockAllPointwise(was, cheques, secret, lock);
      SecretFinds(Receipt(squash, was), secret, hash);
      if !changed {
        assert cheques == was;
        return Err(Unchanged);
      }
      return Ok(());
    }

    /** Retains the cheques that are unlocked or not yet timed out. */
    method ApplyTimeout(now: nat)
      requires Invariant()
      modifies this
      ensures Invariant()
      ensures State() == Receipts.ApplyTimeout(old(State()), now)
      ensures forall c :: c in cheques <==> c in old(cheques) && (c.UnlockedCheque? || c.Timeout() > now)
    {
      TimeoutMembers(cheques, now);
      cheques := DropExpired(cheques, now);
    }

    method ApplyReplace(l: Locked) returns (r: Result<(), ReceiptError>)
      requires Invariant()
      modifies this
      ensures Invariant()
      ensures r.Ok? ==> Receipts.ApplyReplace(old(State()), l) == Ok(State())
      ensures r.Err? ==> Receipts.ApplyReplace(old(State()), l) == Err(r.error) && State() == old(State())
    {
      var k := Find(cheques, l.body.index);
      if k == |cheques| {
        return Err(Input);
      }
      if cheques[k].UnlockedCheque? {
        return Err(Other);
      }
      var o := cheques[k].locked;
      if l.body.latch != o.body.latch || l.body.amount <= o.body.amount || l.body.timeout <= o.body.timeout {
        return Err(Input);
      }
      ReplaceKeeps(State(), l);
      cheques := cheques[k := LockedCheque(l)];
      return Ok(());
    }

    method ApplySquash(next: Squash) returns (r: Result<(), ReceiptError>)
      requires Invariant() && Valid(next.body)
      requires Receipts.Committed(State()) < U64
      modifies this
      ensures Invariant()
      ensures r.Ok? ==> Receipts.ApplySquash(old(State()), next) == Ok(State())
      ensures r.Err? ==> Receipts.ApplySquash(old(State()), next) == Err(r.error) && State() == old(State())
    {
      var squashed := SquashedAmount(cheques, next.body);
      if next.body.amount < squash.body.amount + squashed {
        return Err(SquashAmountLess);
      }
      SquashKeeps(State(), next);
      cheques := DropSquashed(cheques, next.body);
      squash := next;
      return Ok(());
    }

    /** Folds the unlocked cheques, in order, into a copy of the squash body. */
    method ProposeSquashBody() returns (r: Result<SquashBody, ReceiptError>)
      requires Invariant()
      requires Owed(State()) < U64
      requires MaxIndex(State()) - squash.body.index + MAX_EXCLUDE_LENGTH <= U64
      ensures r.Ok? <==> Propose(State()).Ok?
      ensures r.Ok? ==> r.value == Propose(State()).value && r.value.amount == Owed(State())
      ensures r.Err? ==> r.error.IncludesCheque? && FirstStuck(State(), r.error.index)
    {
      var us := Unlockeds(cheques);
      var body := new SquashBodyMut(squash.body);
      ghost var self := State();
      UsedsAt(us);
      var i := 0;
      while i < |us|
        invariant i <= |us| == |UsedsOf(us)| && fresh(body) && fresh(body.exclude)
        invariant FoldAll(self.squash.body, UsedsOf(us)[..i]) == Ok(body.Value())
        invariant Valid(body.Value())
      {
        ProposalStep(self, i, body.Value());
        var step := body.Squash(us[i].body.index, us[i].body.amount);
        if step.Err? {
          ProposalStuck(self, i);
          return Err(IncludesCheque(us[i].body.index));
        }
        i := i + 1;
      }
      assert UsedsOf(us)[..i] == UsedsOf(us);
      ProposeExact(self);
      return Ok(SquashBody(body.amount, body.index, body.exclude.items));
    }

    /** The cheques and next used history of a sub step, in one pass over the cheques and
        one over the useds; the tx route gives the same, and the recorded amounts add up
        to the respond total. */
    method PrepSub(useds: seq<Used>, upper: nat) returns (us: seq<Unlocked>, next: seq<Used>)
      ensures (us, next) == Preparation.PrepSub(squash.body, Unlockeds(cheques), useds, upper)
      ensures Total(next) == Preparation.PrepRespond(squash.body, cheques, useds, upper).2
    {
      us := [];
      var i := 0;
      while i < |cheques|
        invariant i <= |cheques|
        invariant us == ActiveUnlockeds(Unlockeds(cheques[..i]), useds, upper)
      {
        var c := cheques[i];
        assert Init(cheques[..i + 1]) == cheques[..i];
        if c.UnlockedCheque? {
          ActiveSnoc(Unlockeds(cheques[..i]), c.unlocked, useds, upper);
          if c.Timeout() > upper && !HasUsed(useds, c.Index()) {
            us := us + [c.unlocked];
          }
        } else {
          assert Unlockeds(cheques[..i + 1]) == Unlockeds(cheques[..i]);
        }
        i := i + 1;
      }
      assert cheques[..i] == cheques;
      next := [];
      i := 0;
      while i < |useds|
        invariant i <= |useds| && next == OwedUseds(useds[..i], squash.body)
      {
        assert Init(useds[..i + 1]) == useds[..i];
        if !IsIndexSquashed(squash.body, useds[i].index) {
          next := next + [useds[i]];
        }
        i := i + 1;
      }
      assert useds[..i] == useds;
      next := SortByIndex(next + UsedsOf(us));
      RespondTotalIsSubTotal(squash.body, cheques, useds, upper);
    }

    /** One accumulating pass over the cheques; the tx route, which filters first and
        sums later, gives the same cheques, pendings and total. */
    method PrepRespond(useds: seq<Used>, upper: nat)
      returns (active: seq<Cheque>, pendings: seq<Pending>, total: nat)
      requires Preparation.PrepRespond(squash.body, cheques, useds, upper).2 < U64
      ensures (active, pendings, total) == Preparation.PrepRespond(squash.body, cheques, useds, upper)
    {
      active, pendings := [], [];
      total := Total(OwedUseds(useds, squash.body));
      var i := 0;
      ActiveTotalGrows(cheques, 0, useds, upper);
      while i < |cheques|
        invariant i <= |cheques|
        invariant active == ActiveCheques(cheques[..i], useds, upper)
        invariant pendings == PendingsOf(active)
        invariant total == Total(OwedUseds(useds, squash.body)) + Total(UnlockedEntries(active)) < U64
      {
        ActiveTotalGrows(cheques, i + 1, useds, upper);
        var c := cheques[i];
        assert Init(cheques[..i + 1]) == cheques[..i];
        if c.Timeout() > upper && !HasUsed(useds, c.Index()) {
          UnlockedEntriesSnoc(active, c);
          assert Init(active + [c]) == active;
          active := active + [c];
          if c.LockedCheque? {
            pendings := pendings + [PendingOf(c.locked)];
          } else {
            total := total + c.Amount();
          }
        }
        i := i + 1;
      }
      assert cheques[..i] == cheques;
    }
  }

  /** The unlocked cheque with this index is the first that cannot be folded. */
  ghost predicate FirstStuck(r: Receipt, index: nat) {
    var es := UnlockedEntries(r.cheques);
    exists i :: 0 <= i < |es| && es[i].index == index
      && FoldAll(r.squash.body, es[..i]).Ok? && FoldAll(r.squash.body, es[..i + 1]).Err?
  }

  // ---- Loop facts ----

  lemma {:induction false} ActiveTotalGrows(cs: seq<Cheque>, i: nat, useds: seq<Used>, upper: nat)
    requires i <= |cs|
    ensures Total(UnlockedEntries(ActiveCheques(cs[..i], useds, upper)))
      <= Total(UnlockedEntries(ActiveCheques(cs, useds, upper)))
  {
    if i == |cs| {
      assert cs[..i] == cs;
    } else {
      ActiveTotalGrows(Init(cs), i, useds, upper);
      assert Init(cs)[..i] == cs[..i];
      var rest := ActiveCheques(Init(cs), useds, upper);
      UnlockedEntriesSnoc(rest, Last(cs));
      assert rest + [] == rest;
    }
  }

  lemma {:induction false} UnlockAllPointwise(cs: seq<Cheque>, ds: seq<Cheque>, secret: Secret, lock: Lock)
    requires |cs| == |ds| && forall k :: 0 <= k < |cs| ==> ds[k] == UnlockOne(cs[k], secret, lock)
    ensures ds == UnlockAll(cs, secret, lock)
  {
    if cs != [] {
      UnlockAllPointwise(Init(cs), Init(ds), secret, lock);
      assert ds == Init(ds) + [Last(ds)];
    }
  }

  lemma {:induction false} OpensNone(cs: seq<Cheque>, secret: Secret, lock: Lock)
    ensures forall c :: c in UnlockAll(cs, secret, lock) ==> !Opens(c, lock)
  {
    if cs != [] {
      OpensNone(Init(cs), secret, lock);
    }
  }

  lemma SecretFinds(r: Receipt, secret: Secret, hash: Secret -> Lock)
    requires WellFormed(r)
    ensures var cs := UnlockAll(r.cheques, secret, hash(secret));
      && WellFormed(r.(cheques := cs))
      && forall c :: c in cs ==> !Opens(c, hash(secret))
  {
    UnlockKeepsEntries(r.cheques, secret, hash(secret));
    SameEntries(r.cheques, UnlockAll(r.cheques, secret, hash(secret)), r.squash.body);
    OpensNone(r.cheques, secret, hash(secret));
  }

  lemma {:induction false} UsedsAt(us: seq<Unlocked>)
    ensures |UsedsOf(us)| == |us|
    ensures forall i :: 0 <= i < |us| ==> UsedsOf(us)[i] == UsedOf(us[i])
  {
    if us != [] {
      UsedsAt(Init(us));
      assert UsedsOf(us) == UsedsOf(Init(us)) + [UsedOf(Last(us))];
      forall i | 0 <= i < |us| ensures UsedsOf(us)[i] == UsedOf(us[i]) {
        if i < |us| - 1 { assert Init(us)[i] == us[i]; }
      }
    }
  }

  lemma {:induction false} FoldStuck(b: SquashBody, es: seq<Used>, i: nat)
    requires i <= |es| && FoldAll(b, es[..i]).Err?
    ensures FoldAll(b, es).Err?
    decreases |es| - i
  {
    if i == |es| {
      assert es[..i] == es;
    } else {
      assert Init(es[..i + 1]) == es[..i];
      FoldStuck(b, es, i + 1);
    }
  }

  lemma ProposalStep(r: Receipt, i: nat, c: SquashBody)
    requires WellFormed(r) && i < |UnlockedEntries(r.cheques)|
    requires FoldAll(r.squash.body, UnlockedEntries(r.cheques)[..i]) == Ok(c)
    ensures var es := UnlockedEntries(r.cheques);
      && FoldAll(r.squash.body, es[..i + 1]) == Fold(c, es[i].index, es[i].amount)
      && c.amount + es[i].amount <= Owed(r)
      && r.squash.body.index <= c.index && es[i].index <= MaxIndex(r)
  {
    var es := UnlockedEntries(r.cheques);
    assert Init(es[..i + 1]) == es[..i] && Last(es[..i + 1]) == es[i];
    FoldAllExact(r.squash.body, es[..i]);
    TopBounds(r.squash.body, es[..i]);
    PartialSums(es, i);
    UnlockedMembers(r.cheques);
    assert es[i] in es;
    BelowMax(r);
  }

  lemma ProposalStuck(r: Receipt, i: nat)
    requires i < |UnlockedEntries(r.cheques)|
    requires FoldAll(r.squash.body, UnlockedEntries(r.cheques)[..i]).Ok?
    requires FoldAll(r.squash.body, UnlockedEntries(r.cheques)[..i + 1]).Err?
    ensures Propose(r).Err? && FirstStuck(r, UnlockedEntries(r.cheques)[i].index)
  {
    FoldStuck(r.squash.body, UnlockedEntries(r.cheques), i + 1);
  }

  lemma PartialSums(es: seq<Used>, i: nat)
    requires i < |es|
    ensures Total(es[..i]) + es[i].amount <= Total(es)
  {
    assert es == es[..i] + [es[i]] + es[i + 1..];
    TotalConcat(es[..i] + [es[i]], es[i + 1..]);
    TotalSnoc(es[..i], es[i]);
  }
}
