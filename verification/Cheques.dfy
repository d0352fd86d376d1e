/** Lists of cheques: who is locked, who is unlocked, and what they add up to. */
module Cheques {
  import opened Types
  import opened Entries
  import opened Squashes

  function UsedOf(u: Unlocked): Used {
    Used(u.body.index, u.body.amount)
  }

  function UsedsOf(us: seq<Unlocked>): seq<Used> {
    if us == [] then [] else UsedsOf(Init(us)) + [UsedOf(Last(us))]
  }

  function EntryOf(c: Cheque): Used {
    Used(c.Index(), c.Amount())
  }

  function EntriesOf(cs: seq<Cheque>): seq<Used> {
    if cs == [] then [] else EntriesOf(Init(cs)) + [EntryOf(Last(cs))]
  }

  function Unlockeds(cs: seq<Cheque>): seq<Unlocked> {
    if cs == [] then []
    else Unlockeds(Init(cs)) + if Last(cs).UnlockedCheque? then [Last(cs).unlocked] else []
  }

  function Lockeds(cs: seq<Cheque>): seq<Cheque> {
    if cs == [] then []
    else Lockeds(Init(cs)) + if Last(cs).LockedCheque? then [Last(cs)] else []
  }

  /** The index and amount of every unlocked cheque. */
  function UnlockedEntries(cs: seq<Cheque>): seq<Used> {
    UsedsOf(Unlockeds(cs))
  }

  ghost predicate ChequesAscend(cs: seq<Cheque>) {
    forall i, j :: 0 <= i < j < |cs| ==> cs[i].Index() < cs[j].Index()
  }

  /** No held cheque is settled by the squash. */
  ghost predicate NoneSettled(cs: seq<Cheque>, b: SquashBody) {
    forall c :: c in cs ==> c.Index() !in S(b)
  }

  lemma UnlockedsSnoc(cs: seq<Cheque>, c: Cheque)
    ensures Unlockeds(cs + [c]) == Unlockeds(cs) + if c.UnlockedCheque? then [c.unlocked] else []
  {
    assert Init(cs + [c]) == cs;
  }

  lemma UnlockedStep(cs: seq<Cheque>)
    requires cs != []
    ensures UnlockedEntries(cs) ==
      UnlockedEntries(Init(cs)) + if Last(cs).UnlockedCheque? then [EntryOf(Last(cs))] else []
  {
    if Last(cs).UnlockedCheque? {
      assert Init(Unlockeds(cs)) == Unlockeds(Init(cs));
    } else {
      assert Unlockeds(cs) == Unlockeds(Init(cs));
    }
  }

  lemma UnlockedEntriesSnoc(cs: seq<Cheque>, c: Cheque)
    ensures UnlockedEntries(cs + [c]) == UnlockedEntries(cs) + if c.UnlockedCheque? then [EntryOf(c)] else []
    ensures Total(UnlockedEntries(cs + [c])) ==
      Total(UnlockedEntries(cs)) + if c.UnlockedCheque? then c.Amount() else 0
  {
    assert Init(cs + [c]) == cs;
    UnlockedStep(cs + [c]);
    TotalSnoc(UnlockedEntries(cs), EntryOf(c));
    assert UnlockedEntries(cs) + [] == UnlockedEntries(cs);
  }

  lemma EntriesSnoc(cs: seq<Cheque>, c: Cheque)
    ensures EntriesOf(cs + [c]) == EntriesOf(cs) + [EntryOf(c)]
    ensures Total(EntriesOf(cs + [c])) == Total(EntriesOf(cs)) + c.Amount()
    ensures cs + [] == cs
  {
    assert Init(cs + [c]) == cs;
    TotalSnoc(EntriesOf(cs), EntryOf(c));
  }

  lemma {:induction false} EntriesAt(cs: seq<Cheque>)
    ensures |EntriesOf(cs)| == |cs|
    ensures forall i :: 0 <= i < |cs| ==> EntriesOf(cs)[i] == EntryOf(cs[i])
  {
    if cs != [] { EntriesAt(Init(cs)); }
  }

  lemma EntriesAscend(cs: seq<Cheque>)
    requires ChequesAscend(cs)
    ensures Ascends(EntriesOf(cs))
    ensures forall e :: e in EntriesOf(cs) <==> exists c :: c in cs && e == EntryOf(c)
  {
    EntriesAt(cs);
    forall c | c in cs ensures EntryOf(c) in EntriesOf(cs) {
      var i :| 0 <= i < |cs| && cs[i] == c;
      assert EntriesOf(cs)[i] == EntryOf(c);
    }
  }

  lemma {:induction false} UnlockedMembers(cs: seq<Cheque>)
    ensures forall e :: e in UnlockedEntries(cs) <==>
      exists c :: c in cs && c.UnlockedCheque? && e == EntryOf(c)
  {
    if cs != [] {
      UnlockedMembers(Init(cs));
      UnlockedStep(cs);
      assert cs == Init(cs) + [Last(cs)];
    }
  }

  /** Exactly the unlocked cheques, whole. */
  lemma {:induction false} UnlockedsAreHeld(cs: seq<Cheque>)
    ensures forall u :: u in Unlockeds(cs) <==> UnlockedCheque(u) in cs
  {
    if cs != [] {
      UnlockedsAreHeld(Init(cs));
      assert cs == Init(cs) + [Last(cs)];
    }
  }

  lemma ChequesInit(cs: seq<Cheque>)
    requires ChequesAscend(cs) && cs != []
    ensures ChequesAscend(Init(cs))
    ensures forall c :: c in Init(cs) ==> c.Index() < Last(cs).Index()
    ensures forall c :: c in cs <==> c in Init(cs) || c == Last(cs)
  {
    assert cs == Init(cs) + [Last(cs)];
  }

  lemma ChequesSnoc(cs: seq<Cheque>, c: Cheque)
    requires ChequesAscend(cs) && forall d :: d in cs ==> d.Index() < c.Index()
    ensures ChequesAscend(cs + [c])
  {
    assert forall k :: 0 <= k < |cs| ==> cs[k] in cs;
  }

  lemma {:induction false} UnlockedAscend(cs: seq<Cheque>)
    requires ChequesAscend(cs)
    ensures Ascends(UnlockedEntries(cs))
  {
    if cs != [] {
      ChequesInit(cs);
      UnlockedAscend(Init(cs));
      UnlockedStep(cs);
      UnlockedMembers(Init(cs));
      if Last(cs).UnlockedCheque? {
        AscendsSnoc(UnlockedEntries(Init(cs)), EntryOf(Last(cs)));
      }
    }
  }

  lemma {:induction false} LockedMembers(cs: seq<Cheque>)
    ensures forall c :: c in Lockeds(cs) <==> c in cs && c.LockedCheque?
  {
    if cs != [] {
      LockedMembers(Init(cs));
      assert cs == Init(cs) + [Last(cs)];
    }
  }

  /** Every cheque is unlocked or locked, and counted once. */
  lemma {:induction false} TotalByLock(cs: seq<Cheque>)
    ensures Total(EntriesOf(cs)) == Total(UnlockedEntries(cs)) + Total(EntriesOf(Lockeds(cs)))
  {
    if cs != [] {
      var c := Last(cs);
      TotalByLock(Init(cs));
      assert cs == Init(cs) + [c];
      EntriesSnoc(Init(cs), c);
      UnlockedEntriesSnoc(Init(cs), c);
      if c.LockedCheque? {
        EntriesSnoc(Lockeds(Init(cs)), c);
      } else {
        assert Lockeds(cs) == Lockeds(Init(cs));
      }
    }
  }
}
