/** What a sub or respond step shows: active cheques, the useds still owed, and
    the next used history. */
module Preparation {
  import opened Types
  import opened Entries
  import opened Squashes
  import opened Cheques
  import opened Places

  predicate HasUsed(useds: seq<Used>, index: nat) {
    exists k :: 0 <= k < |useds| && useds[k].index == index
  }

  predicate Active(timeout: nat, index: nat, useds: seq<Used>, upper: nat) {
    timeout > upper && !HasUsed(useds, index)
  }

  function ActiveUnlockeds(us: seq<Unlocked>, useds: seq<Used>, upper: nat): seq<Unlocked> {
    if us == [] then [] else
    ActiveUnlockeds(Init(us), useds, upper)
    + if Active(Last(us).body.timeout, Last(us).body.index, useds, upper) then [Last(us)] else []
  }

  function ActiveCheques(cs: seq<Cheque>, useds: seq<Used>, upper: nat): seq<Cheque> {
    if cs == [] then [] else
    ActiveCheques(Init(cs), useds, upper)
    + if Active(Last(cs).Timeout(), Last(cs).Index(), useds, upper) then [Last(cs)] else []
  }

  function OwedUseds(useds: seq<Used>, b: SquashBody): seq<Used> {
    if useds == [] then []
    else OwedUseds(Init(useds), b) + if IsIndexSquashed(b, Last(useds).index) then [] else [Last(useds)]
  }

  /** The stable sort by index: each element goes after those not above it. */
  function InsertByIndex(us: seq<Used>, u: Used): seq<Used> {
    if us == [] || Last(us).index <= u.index then us + [u]
    else InsertByIndex(Init(us), u) + [Last(us)]
  }

  function SortByIndex(us: seq<Used>): seq<Used> {
    if us == [] then [] else InsertByIndex(SortByIndex(Init(us)), Last(us))
  }

  function PrepSub(b: SquashBody, us: seq<Unlocked>, useds: seq<Used>, upper: nat): (seq<Unlocked>, seq<Used>) {
    var active := ActiveUnlockeds(us, useds, upper);
    (active, SortByIndex(OwedUseds(useds, b) + UsedsOf(active)))
  }

  function PendingOf(l: Locked): Pending {
    Pending(l.body.amount, l.body.timeout, l.body.latch)
  }

  function PendingsOf(cs: seq<Cheque>): seq<Pending> {
    if cs == [] then []
    else PendingsOf(Init(cs)) + if Last(cs).LockedCheque? then [PendingOf(Last(cs).locked)] else []
  }

  function PrepRespond(b: SquashBody, cs: seq<Cheque>, useds: seq<Used>, upper: nat)
    : (seq<Cheque>, seq<Pending>, nat)
  {
    var active := ActiveCheques(cs, useds, upper);
    (active, PendingsOf(active), Total(OwedUseds(useds, b)) + Total(UnlockedEntries(active)))
  }

  function PendingTotal(ps: seq<Pending>): nat {
    if ps == [] then 0 else PendingTotal(Init(ps)) + Last(ps).amount
  }

  // ---- Filters ----

  lemma HasUsedIffIndex(useds: seq<Used>, index: nat)
    ensures HasUsed(useds, index) <==> index in IndexSet(useds)
  {
    if index in IndexSet(useds) {
      var u :| u in useds && u.index == index;
    }
  }

  lemma {:induction false} OwedUsedsIsOutside(useds: seq<Used>, b: SquashBody)
    requires Valid(b)
    ensures OwedUseds(useds, b) == Outside(useds, S(b))
  {
    if useds != [] {
      OwedUsedsIsOutside(Init(useds), b);
      SquashedIffInS(b, Last(useds).index);
    }
  }

  lemma {:induction false} ActiveUnlockedMembers(us: seq<Unlocked>, useds: seq<Used>, upper: nat)
    ensures forall u :: u in ActiveUnlockeds(us, useds, upper) <==>
      u in us && Active(u.body.timeout, u.body.index, useds, upper)
  {
    if us != [] {
      ActiveUnlockedMembers(Init(us), useds, upper);
      assert us == Init(us) + [Last(us)];
    }
  }

  lemma {:induction false} UsedsMembers(us: seq<Unlocked>)
    ensures forall e :: e in UsedsOf(us) <==> exists u :: u in us && e == UsedOf(u)
  {
    if us != [] {
      UsedsMembers(Init(us));
      assert us == Init(us) + [Last(us)];
    }
  }

  lemma {:induction false} ActiveUnlockedDistinct(us: seq<Unlocked>, useds: seq<Used>, upper: nat)
    requires Distinct(UsedsOf(us))
    ensures Distinct(UsedsOf(ActiveUnlockeds(us, useds, upper)))
    ensures forall e :: e in UsedsOf(ActiveUnlockeds(us, useds, upper)) ==> e in UsedsOf(us)
  {
    if us != [] {
      var rest, u := ActiveUnlockeds(Init(us), useds, upper), Last(us);
      assert Init(UsedsOf(us)) == UsedsOf(Init(us));
      DistinctInit(UsedsOf(us));
      ActiveUnlockedDistinct(Init(us), useds, upper);
      UsedsSnoc(rest, u);
      DistinctSnoc(UsedsOf(rest), UsedOf(u));
      assert rest + [] == rest;
    }
  }

  lemma UsedsSnoc(us: seq<Unlocked>, u: Unlocked)
    ensures UsedsOf(us + [u]) == UsedsOf(us) + [UsedOf(u)]
  {
    assert Init(us + [u]) == us;
  }

  // ---- What is shown, in which order ----

  /** Cheque `k` outlives the window and has no used. */
  ghost function ActivePlaces(cs: seq<Cheque>, useds: seq<Used>, upper: nat): nat -> bool {
    (k: nat) => k < |cs| && cs[k].Timeout() > upper && cs[k].Index() !in IndexSet(useds)
  }

  ghost function ActiveUnlockedPlaces(us: seq<Unlocked>, useds: seq<Used>, upper: nat): nat -> bool {
    (k: nat) => k < |us| && us[k].body.timeout > upper && us[k].body.index !in IndexSet(useds)
  }

  ghost function PendingPlaces(cs: seq<Cheque>, useds: seq<Used>, upper: nat): nat -> bool {
    (k: nat) =>
      k < |cs| && cs[k].LockedCheque? && cs[k].Timeout() > upper && cs[k].Index() !in IndexSet(useds)
  }

  lemma {:induction false} ActiveUpTo(cs: seq<Cheque>, n: nat, useds: seq<Used>, upper: nat)
    requires n <= |cs|
    ensures ActiveCheques(cs[..n], useds, upper) == TakeWhere(cs, n, ActivePlaces(cs, useds, upper))
  {
    if n > 0 {
      ActiveUpTo(cs, n - 1, useds, upper);
      HasUsedIffIndex(useds, cs[n - 1].Index());
      assert Init(cs[..n]) == cs[..n - 1] && Last(cs[..n]) == cs[n - 1];
    }
  }

  /** The active cheques are, in order, exactly those that outlive the window and have no
      used. */
  lemma ActiveInOrder(cs: seq<Cheque>, useds: seq<Used>, upper: nat)
    ensures Keeps(ActiveCheques(cs, useds, upper), cs, ActivePlaces(cs, useds, upper))
  {
    ActiveUpTo(cs, |cs|, useds, upper);
    assert cs[..|cs|] == cs;
    TakeWhereKeeps(cs, ActivePlaces(cs, useds, upper));
  }

  lemma {:induction false} ActiveUnlockedUpTo(us: seq<Unlocked>, n: nat, useds: seq<Used>, upper: nat)
    requires n <= |us|
    ensures ActiveUnlockeds(us[..n], useds, upper) == TakeWhere(us, n, ActiveUnlockedPlaces(us, useds, upper))
  {
    if n > 0 {
      ActiveUnlockedUpTo(us, n - 1, useds, upper);
      HasUsedIffIndex(useds, us[n - 1].body.index);
      assert Init(us[..n]) == us[..n - 1] && Last(us[..n]) == us[n - 1];
    }
  }

  lemma ActiveUnlockedInOrder(us: seq<Unlocked>, useds: seq<Used>, upper: nat)
    ensures Keeps(ActiveUnlockeds(us, useds, upper), us, ActiveUnlockedPlaces(us, useds, upper))
  {
    ActiveUnlockedUpTo(us, |us|, useds, upper);
    assert us[..|us|] == us;
    TakeWhereKeeps(us, ActiveUnlockedPlaces(us, useds, upper));
  }

  /** A pending carries its cheque's amount, timeout and lock. */
  ghost predicate Carries(p: Pending, c: Cheque) {
    && c.LockedCheque?
    && p.amount == c.locked.body.amount
    && p.timeout == c.locked.body.timeout
    && p.lock == c.locked.body.latch
  }

  /** Pending `j` is that of the cheque at the `j`-th position. */
  ghost predicate CarriedAt(ps: seq<Pending>, cs: seq<Cheque>, ks: seq<nat>) {
    |ps| == |ks| && forall j :: 0 <= j < |ks| ==> ks[j] < |cs| && Carries(ps[j], cs[ks[j]])
  }

  lemma PendingsStep(cs: seq<Cheque>, n: nat, useds: seq<Used>, upper: nat)
    requires n < |cs|
    ensures PendingsOf(ActiveCheques(cs[..n + 1], useds, upper)) == PendingsOf(ActiveCheques(cs[..n], useds, upper))
      + if PendingPlaces(cs, useds, upper)(n) then [PendingOf(cs[n].locked)] else []
  {
    var active := ActiveCheques(cs[..n], useds, upper);
    HasUsedIffIndex(useds, cs[n].Index());
    assert Init(cs[..n + 1]) == cs[..n] && Last(cs[..n + 1]) == cs[n];
    PendingsSnoc(active, cs[n]);
    AppendNothing(active);
    AppendNothing(PendingsOf(active));
  }

  lemma {:induction false} PendingsUpTo(cs: seq<Cheque>, n: nat, useds: seq<Used>, upper: nat)
    requires n <= |cs|
    ensures CarriedAt(PendingsOf(ActiveCheques(cs[..n], useds, upper)), cs,
      PlacesBelow(n, PendingPlaces(cs, useds, upper)))
  {
    if n > 0 {
      PendingsUpTo(cs, n - 1, useds, upper);
      PendingsStep(cs, n - 1, useds, upper);
    }
  }

  /** The pendings are, in order, those of the locked cheques that outlive the window and
      have no used. */
  lemma PendingsInOrder(cs: seq<Cheque>, useds: seq<Used>, upper: nat)
    ensures CarriedAt(PendingsOf(ActiveCheques(cs, useds, upper)), cs,
      PlacesBelow(|cs|, PendingPlaces(cs, useds, upper)))
  {
    PendingsUpTo(cs, |cs|, useds, upper);
    assert cs[..|cs|] == cs;
  }

  lemma PendingsSnoc(cs: seq<Cheque>, c: Cheque)
    ensures PendingsOf(cs + [c]) == if c.LockedCheque? then PendingsOf(cs) + [PendingOf(c.locked)] else PendingsOf(cs)
  {
    assert Init(cs + [c]) == cs;
  }

  /** The sort is stable: entries with one index keep their order. */
  function WithIndex(us: seq<Used>, index: nat): seq<Used> {
    if us == [] then []
    else WithIndex(Init(us), index) + if Last(us).index == index then [Last(us)] else []
  }

  lemma WithIndexSnoc(us: seq<Used>, u: Used, index: nat)
    ensures WithIndex(us + [u], index) == WithIndex(us, index) + if u.index == index then [u] else []
  {
    assert Init(us + [u]) == us;
  }

  lemma {:induction false} InsertStable(us: seq<Used>, u: Used, index: nat)
    ensures WithIndex(InsertByIndex(us, u), index) == WithIndex(us, index) + if u.index == index then [u] else []
  {
    if us == [] || Last(us).index <= u.index {
      WithIndexSnoc(us, u, index);
    } else {
      InsertStable(Init(us), u, index);
      WithIndexSnoc(InsertByIndex(Init(us), u), Last(us), index);
      AppendNothing(WithIndex(Init(us), index));
    }
  }

  lemma {:induction false} SortStable(us: seq<Used>, index: nat)
    ensures WithIndex(SortByIndex(us), index) == WithIndex(us, index)
  {
    if us != [] {
      SortStable(Init(us), index);
      InsertStable(SortByIndex(Init(us)), Last(us), index);
    }
  }

  // ---- The two preparation routes agree ----

  /** Filtering the cheques then keeping the unlocked ones is keeping the unlocked
      ones then filtering. */
  lemma {:induction false} ActiveCommutes(cs: seq<Cheque>, useds: seq<Used>, upper: nat)
    ensures Unlockeds(ActiveCheques(cs, useds, upper)) == ActiveUnlockeds(Unlockeds(cs), useds, upper)
  {
    if cs != [] {
      ActiveCommutes(Init(cs), useds, upper);
      UnlockedsSnoc(ActiveCheques(Init(cs), useds, upper), Last(cs));
      if Last(cs).UnlockedCheque? {
        ActiveSnoc(Unlockeds(Init(cs)), Last(cs).unlocked, useds, upper);
      } else {
        assert Unlockeds(cs) == Unlockeds(Init(cs));
      }
      AppendNothing(ActiveCheques(Init(cs), useds, upper));
      AppendNothing(Unlockeds(ActiveCheques(Init(cs), useds, upper)));
    }
  }

  lemma ActiveSnoc(us: seq<Unlocked>, u: Unlocked, useds: seq<Used>, upper: nat)
    ensures ActiveUnlockeds(us + [u], useds, upper) == ActiveUnlockeds(us, useds, upper)
      + if Active(u.body.timeout, u.body.index, useds, upper) then [u] else []
  {
    assert Init(us + [u]) == us;
  }

  lemma AppendNothing<T>(s: seq<T>)
    ensures s + [] == s
  {}

  // ---- The sort ----

  lemma {:induction false} InsertKeeps(us: seq<Used>, u: Used)
    ensures multiset(InsertByIndex(us, u)) == multiset(us + [u])
  {
    if us != [] && Last(us).index > u.index {
      InsertKeeps(Init(us), u);
      assert us == Init(us) + [Last(us)];
    }
  }

  lemma {:induction false} SortKeeps(us: seq<Used>)
    ensures multiset(SortByIndex(us)) == multiset(us)
    ensures Total(SortByIndex(us)) == Total(us)
  {
    if us != [] {
      SortKeeps(Init(us));
      InsertKeeps(SortByIndex(Init(us)), Last(us));
      assert us == Init(us) + [Last(us)];
    }
    TotalPermutation(SortByIndex(us), us);
  }

  lemma {:induction false} InsertAscends(us: seq<Used>, u: Used)
    requires Ascends(us) && u.index !in IndexSet(us)
    ensures Ascends(InsertByIndex(us, u))
    ensures forall e :: e in InsertByIndex(us, u) <==> e in us || e == u
  {
    if us == [] {
    } else if Last(us).index <= u.index {
      AscendsInit(us);
      assert Last(us).index in IndexSet(us);
      AscendsSnoc(us, u);
    } else {
      AscendsInit(us);
      assert forall e :: e in Init(us) ==> e.index in IndexSet(us);
      InsertAscends(Init(us), u);
      AscendsSnoc(InsertByIndex(Init(us), u), Last(us));
    }
  }

  lemma {:induction false} SortAscends(us: seq<Used>)
    requires Distinct(us)
    ensures Ascends(SortByIndex(us))
    ensures forall e :: e in SortByIndex(us) <==> e in us
  {
    if us != [] {
      SortAscends(Init(us));
      assert us == Init(us) + [Last(us)];
      assert Last(us).index !in IndexSet(SortByIndex(Init(us))) by {
        forall e | e in SortByIndex(Init(us)) ensures e.index != Last(us).index {
          assert e in Init(us);
        }
      }
      InsertAscends(SortByIndex(Init(us)), Last(us));
    }
  }

  lemma {:induction false} SortOfSorted(us: seq<Used>)
    requires Ascends(us)
    ensures SortByIndex(us) == us
  {
    if us != [] { SortOfSorted(Init(us)); }
  }

  lemma SubTotal(b: SquashBody, us: seq<Unlocked>, useds: seq<Used>, upper: nat)
    ensures Total(PrepSub(b, us, useds, upper).1)
      == Total(OwedUseds(useds, b)) + Total(UsedsOf(ActiveUnlockeds(us, useds, upper)))
  {
    var active := UsedsOf(ActiveUnlockeds(us, useds, upper));
    SortKeeps(OwedUseds(useds, b) + active);
    TotalConcat(OwedUseds(useds, b), active);
  }

  /** The respond total is the sum of the used amounts a sub would record for the
      unlocked cheques. */
  lemma RespondTotalIsSubTotal(b: SquashBody, cs: seq<Cheque>, useds: seq<Used>, upper: nat)
    ensures PrepRespond(b, cs, useds, upper).2 == Total(PrepSub(b, Unlockeds(cs), useds, upper).1)
  {
    ActiveCommutes(cs, useds, upper);
    SubTotal(b, Unlockeds(cs), useds, upper);
  }
}
