/** The positions of a list that a test accepts, and what filtering by it keeps. */
module Places {
  import opened Types
  import opened Squashes

  /** The positions below `n` that hold, rising. */
  ghost function PlacesBelow(n: nat, holds: nat -> bool): seq<nat> {
    if n == 0 then [] else PlacesBelow(n - 1, holds) + if holds(n - 1) then [n - 1] else []
  }

  lemma {:induction false} PlacesAre(n: nat, holds: nat -> bool)
    ensures Ascending(PlacesBelow(n, holds))
    ensures forall k: nat :: k in PlacesBelow(n, holds) <==> k < n && holds(k)
  {
    if n > 0 {
      PlacesAre(n - 1, holds);
      AscendingSnoc(PlacesBelow(n - 1, holds), n - 1);
    }
  }

  ghost function TakeWhere<T>(all: seq<T>, n: nat, holds: nat -> bool): seq<T>
    requires n <= |all|
  {
    if n == 0 then [] else TakeWhere(all, n - 1, holds) + if holds(n - 1) then [all[n - 1]] else []
  }

  /** `kept` is, in order, exactly the elements of `all` whose positions hold. */
  ghost predicate Keeps<T(!new)>(kept: seq<T>, all: seq<T>, holds: nat -> bool) {
    var ks := PlacesBelow(|all|, holds);
    |kept| == |ks| && forall j :: 0 <= j < |ks| ==> ks[j] < |all| && kept[j] == all[ks[j]]
  }

  lemma {:induction false} TakeWhereAt<T>(all: seq<T>, n: nat, holds: nat -> bool)
    requires n <= |all|
    ensures var kept, ks := TakeWhere(all, n, holds), PlacesBelow(n, holds);
      |kept| == |ks| && forall j :: 0 <= j < |ks| ==> ks[j] < n && kept[j] == all[ks[j]]
  {
    if n > 0 { TakeWhereAt(all, n - 1, holds); }
  }

  lemma TakeWhereKeeps<T(!new)>(all: seq<T>, holds: nat -> bool)
    ensures Keeps(TakeWhere(all, |all|, holds), all, holds)
  {
    TakeWhereAt(all, |all|, holds);
  }
}
