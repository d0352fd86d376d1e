/** Lists of (index, amount) pairs: the common shadow of cheques and useds. */
module Entries {
  import opened Types

  function Total(us: seq<Used>): nat {
    if us == [] then 0 else Total(Init(us)) + Last(us).amount
  }

  ghost function IndexSet(us: seq<Used>): set<nat> {
    set u | u in us :: u.index
  }

  ghost predicate Ascends(us: seq<Used>) {
    forall i, j :: 0 <= i < j < |us| ==> us[i].index < us[j].index
  }

  ghost predicate Distinct(us: seq<Used>) {
    forall i, j :: 0 <= i < j < |us| ==> us[i].index != us[j].index
  }

  function Inside(us: seq<Used>, x: set<nat>): seq<Used> {
    if us == [] then []
    else Inside(Init(us), x) + if Last(us).index in x then [Last(us)] else []
  }

  function Outside(us: seq<Used>, x: set<nat>): seq<Used> {
    if us == [] then []
    else Outside(Init(us), x) + if Last(us).index in x then [] else [Last(us)]
  }

  lemma {:induction false} MembersInside(us: seq<Used>, x: set<nat>)
    ensures forall u :: u in Inside(us, x) <==> u in us && u.index in x
  {
    if us != [] {
      MembersInside(Init(us), x);
      assert us == Init(us) + [Last(us)];
    }
  }

  lemma {:induction false} MembersOutside(us: seq<Used>, x: set<nat>)
    ensures forall u :: u in Outside(us, x) <==> u in us && u.index !in x
  {
    if us != [] {
      MembersOutside(Init(us), x);
      assert us == Init(us) + [Last(us)];
    }
  }

  lemma {:induction false} AscendsOutside(us: seq<Used>, x: set<nat>)
    requires Ascends(us)
    ensures Ascends(Outside(us, x))
  {
    if us != [] {
      AscendsOutside(Init(us), x);
      MembersOutside(Init(us), x);
    }
  }

  lemma {:induction false} AscendsInside(us: seq<Used>, x: set<nat>)
    requires Ascends(us)
    ensures Ascends(Inside(us, x))
  {
    if us != [] {
      AscendsInside(Init(us), x);
      MembersInside(Init(us), x);
    }
  }

  lemma {:induction false} TotalSplit(us: seq<Used>, x: set<nat>)
    ensures Total(Inside(us, x)) + Total(Outside(us, x)) == Total(us)
  {
    if us != [] {
      TotalSplit(Init(us), x);
      TotalSnoc(Inside(Init(us), x), Last(us));
      TotalSnoc(Outside(Init(us), x), Last(us));
      assert Inside(Init(us), x) + [] == Inside(Init(us), x);
      assert Outside(Init(us), x) + [] == Outside(Init(us), x);
    }
  }

  lemma AscendsSnoc(us: seq<Used>, u: Used)
    requires Ascends(us) && forall e :: e in us ==> e.index < u.index
    ensures Ascends(us + [u])
  {
    assert forall k :: 0 <= k < |us| ==> us[k] in us;
  }

  lemma AscendsInit(us: seq<Used>)
    requires Ascends(us) && us != []
    ensures Ascends(Init(us))
    ensures forall e :: e in Init(us) ==> e.index < Last(us).index
    ensures forall e :: e in us <==> e in Init(us) || e == Last(us)
  {
    assert us == Init(us) + [Last(us)];
  }

  lemma DistinctSnoc(us: seq<Used>, u: Used)
    requires Distinct(us) && forall e :: e in us ==> e.index != u.index
    ensures Distinct(us + [u])
  {
    assert forall k :: 0 <= k < |us| ==> us[k] in us;
  }

  lemma DistinctInit(us: seq<Used>)
    requires Distinct(us) && us != []
    ensures Distinct(Init(us))
    ensures forall e :: e in Init(us) ==> e.index != Last(us).index
    ensures forall e :: e in us <==> e in Init(us) || e == Last(us)
  {
    assert us == Init(us) + [Last(us)];
  }

  lemma DistinctConcat(us: seq<Used>, vs: seq<Used>)
    requires Distinct(us) && Distinct(vs)
    requires forall u, v :: u in us && v in vs ==> u.index != v.index
    ensures Distinct(us + vs)
  {
    assert forall k :: 0 <= k < |us| ==> us[k] in us;
    assert forall k :: 0 <= k < |vs| ==> vs[k] in vs;
  }

  lemma TotalSnoc(us: seq<Used>, u: Used)
    ensures Total(us + [u]) == Total(us) + u.amount
  {
    assert Init(us + [u]) == us;
  }

  lemma {:induction false} TotalConcat(us: seq<Used>, vs: seq<Used>)
    ensures Total(us + vs) == Total(us) + Total(vs)
  {
    if vs == [] {
      assert us + vs == us;
    } else {
      TotalConcat(us, Init(vs));
      assert us + vs == us + Init(vs) + [Last(vs)];
      TotalSnoc(us + Init(vs), Last(vs));
    }
  }

  /** Filtering by a set only looks at the indexes that occur. */
  lemma {:induction false} OutsideAgrees(us: seq<Used>, x: set<nat>, y: set<nat>)
    requires forall u :: u in us ==> (u.index in x <==> u.index in y)
    ensures Outside(us, x) == Outside(us, y)
  {
    if us != [] {
      OutsideAgrees(Init(us), x, y);
    }
  }

  lemma {:induction false} OutsideNothing(us: seq<Used>, x: set<nat>)
    requires forall u :: u in us ==> u.index !in x
    ensures Outside(us, x) == us
  {
    if us != [] {
      assert us == Init(us) + [Last(us)] && Last(us) in us;
      OutsideNothing(Init(us), x);
    }
  }

  /** An ascending list drawn from another ascending list is what that list
      keeps of its indexes. */
  lemma {:induction false} DrawnFrom(us: seq<Used>, es: seq<Used>)
    requires Ascends(us) && Ascends(es)
    requires forall u :: u in us ==> u in es
    ensures Inside(es, IndexSet(us)) == us
  {
    if us == [] {
      InsideEmpty(es, IndexSet(us));
    } else {
      assert Last(us) in es;
      if Last(us) == Last(es) {
        DrawnWithLast(us, es);
        DrawnFrom(Init(us), Init(es));
        InsideAgrees(Init(es), IndexSet(us), IndexSet(Init(us)), Last(es).index);
        assert us == Init(us) + [Last(es)];
      } else {
        DrawnWithoutLast(us, es);
        DrawnFrom(us, Init(es));
      }
    }
  }

  lemma DrawnWithLast(us: seq<Used>, es: seq<Used>)
    requires Ascends(us) && Ascends(es) && us != [] && es != [] && Last(us) == Last(es)
    requires forall u :: u in us ==> u in es
    ensures Ascends(Init(us)) && Ascends(Init(es)) && forall u :: u in Init(us) ==> u in Init(es)
    ensures Last(es).index in IndexSet(us) && forall e :: e in Init(es) ==> e.index < Last(es).index
    ensures forall i :: i < Last(es).index ==> (i in IndexSet(us) <==> i in IndexSet(Init(us)))
  {
    AscendsInit(us);
    AscendsInit(es);
    assert Last(us) in us;
  }

  lemma DrawnWithoutLast(us: seq<Used>, es: seq<Used>)
    requires Ascends(us) && Ascends(es) && us != [] && Last(us) in es && Last(us) != Last(es)
    requires forall u :: u in us ==> u in es
    ensures Ascends(Init(es)) && forall u :: u in us ==> u in Init(es)
    ensures Last(es).index !in IndexSet(us)
  {
    AscendsInit(us);
    AscendsInit(es);
    assert forall u :: u in us ==> u.index <= Last(us).index;
  }

  lemma {:induction false} InsideEmpty(es: seq<Used>, x: set<nat>)
    requires x == {}
    ensures Inside(es, x) == []
  {
    if es != [] { InsideEmpty(Init(es), x); }
  }

  lemma {:induction false} InsideAgrees(es: seq<Used>, x: set<nat>, y: set<nat>, top: nat)
    requires forall e :: e in es ==> e.index < top
    requires forall i :: i < top ==> (i in x <==> i in y)
    ensures Inside(es, x) == Inside(es, y)
  {
    if es != [] { InsideAgrees(Init(es), x, y, top); }
  }

  lemma {:induction false} TotalPermutation(us: seq<Used>, vs: seq<Used>)
    requires multiset(us) == multiset(vs)
    ensures Total(us) == Total(vs)
    decreases |us|
  {
    if us == [] {
      assert |multiset(us)| == |us| && |multiset(vs)| == |vs|;
    } else {
      var u := Last(us);
      assert us == Init(us) + [u];
      assert u in multiset(vs);
      var k :| 0 <= k < |vs| && vs[k] == u;
      assert vs == vs[..k] + [u] + vs[k + 1..];
      TotalConcat(vs[..k] + [u], vs[k + 1..]);
      TotalSnoc(vs[..k], u);
      TotalConcat(vs[..k], vs[k + 1..]);
      assert multiset(vs[..k] + vs[k + 1..]) == multiset(vs) - multiset{u};
      assert multiset(Init(us)) == multiset(us) - multiset{u};
      TotalPermutation(Init(us), vs[..k] + vs[k + 1..]);
    }
  }
}
