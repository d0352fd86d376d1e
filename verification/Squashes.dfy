/** The squash algebra: a squash body stands for the set of settled indexes
    S(body) = { i | i <= index and i not in exclude }. */
module Squashes {
  import opened Types
  import opened Entries

  datatype IndexesError = Length | LessThanLast | Order | Duplicate | NoIndex
  datatype SquashError = DuplicateIndex | Exclude(error: IndexesError) | IndexNotGreaterThanExcludes

  ghost predicate Ascending(s: seq<nat>) {
    forall i, j :: 0 <= i < j < |s| ==> s[i] < s[j]
  }

  ghost function Elems(s: seq<nat>): set<nat> {
    set i | i in s
  }

  ghost predicate ValidIndexes(s: seq<nat>) {
    Ascending(s) && |s| <= MAX_EXCLUDE_LENGTH
  }

  ghost predicate Valid(b: SquashBody) {
    ValidIndexes(b.exclude) && forall i :: i in b.exclude ==> i < b.index
  }

  ghost function S(b: SquashBody): set<nat> {
    set i: nat | i <= b.index && i !in b.exclude
  }

  const ZERO: SquashBody := SquashBody(0, 0, [])

  // ---- Indexes ----

  function Removed(s: seq<nat>, item: nat): seq<nat>
    requires item in s
  {
    if Last(s) == item then Init(s) else Removed(Init(s), item) + [Last(s)]
  }

  function Range(from: nat, until: nat): seq<nat>
    requires from <= until
  {
    seq(until - from, k requires 0 <= k => from + k)
  }

  function Extended(s: seq<nat>, from: nat, until: nat): Result<seq<nat>, IndexesError> {
    if until < from then Err(Order)
    else if until == from then Ok(s)
    else if |s| + (until - from) > MAX_EXCLUDE_LENGTH then Err(Length)
    else if s != [] && Last(s) >= from then Err(LessThanLast)
    else Ok(s + Range(from, until))
  }

  /** When a range can be appended, and which check refuses it first. */
  lemma ExtendedExactly(s: seq<nat>, from: nat, until: nat)
    ensures var r := Extended(s, from, until);
      && (r == Err(Order) <==> until < from)
      && (r == Err(Length) <==> from < until && until - from > MAX_EXCLUDE_LENGTH - |s|)
      && (r == Err(LessThanLast) <==>
            from < until && |s| + (until - from) <= MAX_EXCLUDE_LENGTH && s != [] && from <= Last(s))
      && (r.Ok? ==>
            && |r.value| == |s| + (until - from) && s <= r.value
            && forall i :: |s| <= i < |r.value| ==> r.value[i] == from + (i - |s|))
      && (r.Err? ==> r.error in {Order, Length, LessThanLast})
  {}

  lemma AscendingInit(s: seq<nat>)
    requires Ascending(s) && s != []
    ensures Ascending(Init(s))
    ensures forall i :: i in s <==> i in Init(s) || i == Last(s)
    ensures forall i :: i in Init(s) ==> i < Last(s)
  {
    assert s == Init(s) + [Last(s)];
  }

  lemma AscendingSnoc(s: seq<nat>, x: nat)
    requires Ascending(s) && forall i :: i in s ==> i < x
    ensures Ascending(s + [x])
  {
    assert forall k :: 0 <= k < |s| ==> s[k] in s;
  }

  lemma ExtendAscends(s: seq<nat>, from: nat, until: nat)
    requires Ascending(s) && from <= until && forall i :: i in s ==> i < from
    ensures Ascending(s + Range(from, until))
    ensures forall i :: i in Range(from, until) <==> from <= i < until
  {
    assert forall k :: 0 <= k < |s| ==> s[k] in s;
    forall i | from <= i < until ensures i in Range(from, until) {
      assert Range(from, until)[i - from] == i;
    }
  }

  lemma {:induction false} RemovedIsRemoval(s: seq<nat>, item: nat)
    requires Ascending(s) && item in s
    ensures Ascending(Removed(s, item)) && |Removed(s, item)| == |s| - 1
    ensures forall i :: i in Removed(s, item) <==> i in s && i != item
  {
    AscendingInit(s);
    if Last(s) != item {
      RemovedIsRemoval(Init(s), item);
      AscendingSnoc(Removed(Init(s), item), Last(s));
    }
  }

  lemma SameLast(s: seq<nat>, t: seq<nat>)
    requires Ascending(s) && Ascending(t) && s != []
    requires forall i :: i in s <==> i in t
    ensures t != [] && Last(s) == Last(t)
    ensures forall i :: i in Init(s) <==> i in Init(t)
  {
    assert Last(s) in s;
    assert Last(t) in t;
    AscendingInit(s);
    AscendingInit(t);
  }

  /** Two ascending lists with the same members are the same list. */
  lemma {:induction false} AscendingUnique(s: seq<nat>, t: seq<nat>)
    requires Ascending(s) && Ascending(t)
    requires forall i :: i in s <==> i in t
    ensures s == t
  {
    assert t != [] ==> t[0] in t;
    if s != [] {
      SameLast(s, t);
      AscendingInit(s);
      AscendingInit(t);
      AscendingUnique(Init(s), Init(t));
      assert s == Init(s) + [Last(s)] && t == Init(t) + [Last(t)];
    }
  }

  lemma {:induction false} AscendingCard(s: seq<nat>)
    requires Ascending(s)
    ensures |Elems(s)| == |s|
  {
    if s != [] {
      AscendingInit(s);
      AscendingCard(Init(s));
      assert Elems(s) == Elems(Init(s)) + {Last(s)};
      assert Last(s) !in Elems(Init(s));
    }
  }

  lemma SubsetCard<T>(a: set<T>, b: set<T>)
    requires a <= b
    ensures |a| <= |b|
  {
    assert b == a + (b - a);
  }

  // ---- Squashing ----

  function IsIndexSquashed(b: SquashBody, index: nat): bool {
    if b.index < index then false
    else if b.index == index then true
    else index !in b.exclude
  }

  lemma SquashedIffInS(b: SquashBody, index: nat)
    requires Valid(b)
    ensures IsIndexSquashed(b, index) <==> index in S(b)
  {}

  function Fold(b: SquashBody, index: nat, amount: nat): Result<SquashBody, SquashError> {
    if index in b.exclude then
      Ok(SquashBody(b.amount + amount, b.index, Removed(b.exclude, index)))
    else if b.index >= index then Err(DuplicateIndex)
    else match Extended(b.exclude, b.index + 1, index)
      case Err(e) => Err(Exclude(e))
      case Ok(x) => Ok(SquashBody(b.amount + amount, index, x))
  }

  lemma FoldExcluded(b: SquashBody, index: nat, amount: nat)
    requires Valid(b) && index in b.exclude
    ensures var c := SquashBody(b.amount + amount, b.index, Removed(b.exclude, index));
      Fold(b, index, amount) == Ok(c) && Valid(c) && index !in S(b) && S(c) == S(b) + {index}
  {
    RemovedIsRemoval(b.exclude, index);
  }

  lemma FoldBeyond(b: SquashBody, index: nat, amount: nat)
    requires Valid(b) && b.index < index
    requires |b.exclude| + (index - b.index - 1) <= MAX_EXCLUDE_LENGTH
    ensures var c := SquashBody(b.amount + amount, index, b.exclude + Range(b.index + 1, index));
      Fold(b, index, amount) == Ok(c) && Valid(c) && index !in S(b) && S(c) == S(b) + {index}
  {
    ExtendAscends(b.exclude, b.index + 1, index);
    assert b.exclude != [] ==> Last(b.exclude) in b.exclude;
    assert b.exclude + [] == b.exclude;
  }

  /** Folding one cheque adds exactly its index to S and its amount to the total;
      it fails exactly on a settled index or when the exclude list would outgrow
      its cap. */
  lemma FoldExact(b: SquashBody, index: nat, amount: nat)
    requires Valid(b)
    ensures Fold(b, index, amount).Ok? ==>
      var c := Fold(b, index, amount).value;
      && Valid(c)
      && index !in S(b) && S(c) == S(b) + {index}
      && c.amount == b.amount + amount
      && c.index == Max(b.index, index)
    ensures Fold(b, index, amount) == Err(DuplicateIndex) <==> index in S(b)
    ensures Fold(b, index, amount).Err? ==> Fold(b, index, amount).error in {DuplicateIndex, Exclude(Length)}
    ensures Fold(b, index, amount).Err? <==>
      index in S(b) || (index > b.index && |b.exclude| + (index - b.index - 1) > MAX_EXCLUDE_LENGTH)
  {
    if index in b.exclude {
      FoldExcluded(b, index, amount);
    } else if b.index < index {
      if |b.exclude| + (index - b.index - 1) <= MAX_EXCLUDE_LENGTH {
        FoldBeyond(b, index, amount);
      }
    }
  }

  /** A valid body is determined by its amount and its set. */
  lemma Canonical(a: SquashBody, b: SquashBody)
    requires Valid(a) && Valid(b)
    requires a.amount == b.amount && S(a) == S(b)
    ensures a == b
  {
    assert a.index in S(a) && b.index in S(b);
    forall i: nat ensures i in a.exclude <==> i in b.exclude {
      assert i in S(a) <==> i <= a.index && i !in a.exclude;
      assert i in S(b) <==> i <= b.index && i !in b.exclude;
    }
    AscendingUnique(a.exclude, b.exclude);
  }

  // ---- Folding a list of cheques ----

  function FoldAll(b: SquashBody, es: seq<Used>): Result<SquashBody, SquashError> {
    if es == [] then Ok(b)
    else match FoldAll(b, Init(es))
      case Err(e) => Err(e)
      case Ok(c) => Fold(c, Last(es).index, Last(es).amount)
  }

  function Top(b: SquashBody, es: seq<Used>): nat {
    if es == [] then b.index else Max(Top(b, Init(es)), Last(es).index)
  }

  /** Indexes below the new top that folding `es` would leave unsettled. */
  ghost function Unsettled(b: SquashBody, es: seq<Used>): set<nat> {
    set i: nat | i < Top(b, es) && i !in S(b) && i !in IndexSet(es)
  }

  lemma IndexSetSnoc(es: seq<Used>)
    requires es != []
    ensures IndexSet(es) == IndexSet(Init(es)) + {Last(es).index}
  {
    assert es == Init(es) + [Last(es)];
  }

  lemma NewIsDistinct(es: seq<Used>)
    requires es != [] && Distinct(Init(es)) && Last(es).index !in IndexSet(Init(es))
    ensures Distinct(es)
  {
    forall e | e in Init(es) ensures e.index != Last(es).index {
      assert e.index in IndexSet(Init(es));
    }
    DistinctSnoc(Init(es), Last(es));
    assert es == Init(es) + [Last(es)];
  }

  lemma {:induction false} FoldAllExact(b: SquashBody, es: seq<Used>)
    requires Valid(b)
    ensures FoldAll(b, es).Ok? ==>
      var c := FoldAll(b, es).value;
      && Valid(c)
      && S(c) == S(b) + IndexSet(es)
      && IndexSet(es) !! S(b) && Distinct(es)
      && c.amount == b.amount + Total(es)
      && c.index == Top(b, es)
  {
    if es != [] {
      FoldAllExact(b, Init(es));
      IndexSetSnoc(es);
      if FoldAll(b, Init(es)).Ok? {
        var c := FoldAll(b, Init(es)).value;
        FoldExact(c, Last(es).index, Last(es).amount);
        if FoldAll(b, es).Ok? {
          assert Last(es).index !in IndexSet(Init(es));
          NewIsDistinct(es);
        }
      }
    }
  }

  lemma UnsettledIsExclude(b: SquashBody, es: seq<Used>)
    requires Valid(b) && FoldAll(b, es).Ok?
    ensures Unsettled(b, es) == Elems(FoldAll(b, es).value.exclude)
    ensures |Unsettled(b, es)| == |FoldAll(b, es).value.exclude|
  {
    FoldAllExact(b, es);
    var c := FoldAll(b, es).value;
    forall i: nat ensures i in Unsettled(b, es) <==> i in c.exclude {
      assert i in S(c) <==> i in S(b) || i in IndexSet(es);
    }
    assert Unsettled(b, es) == Elems(c.exclude);
    AscendingCard(c.exclude);
  }

  lemma {:induction false} TopOfAscending(b: SquashBody, es: seq<Used>)
    requires Ascends(es) && es != []
    ensures Top(b, es) == Max(b.index, Last(es).index)
  {
    if |es| > 1 { TopOfAscending(b, Init(es)); }
  }

  /** Folding distinct unsettled indexes in ascending order succeeds exactly when
      at most ten indexes below the new top stay unsettled. */
  lemma {:induction false} AscendingFoldSucceeds(b: SquashBody, es: seq<Used>)
    requires Valid(b) && Ascends(es) && IndexSet(es) !! S(b)
    ensures FoldAll(b, es).Ok? <==> |Unsettled(b, es)| <= MAX_EXCLUDE_LENGTH
  {
    if FoldAll(b, es).Ok? {
      UnsettledIsExclude(b, es);
      FoldAllExact(b, es);
    }
    if |Unsettled(b, es)| <= MAX_EXCLUDE_LENGTH && es != [] {
      IndexSetSnoc(es);
      TopOfAscending(b, es);
      PrefixFits(b, es);
      AscendingFoldSucceeds(b, Init(es));
      LastFolds(b, es);
    }
  }

  lemma PrefixFits(b: SquashBody, es: seq<Used>)
    requires Valid(b) && Ascends(es) && es != [] && IndexSet(es) !! S(b)
    requires |Unsettled(b, es)| <= MAX_EXCLUDE_LENGTH
    ensures |Unsettled(b, Init(es))| <= MAX_EXCLUDE_LENGTH
  {
    var x := Last(es).index;
    IndexSetSnoc(es);
    TopOfAscending(b, es);
    if |es| > 1 { TopOfAscending(b, Init(es)); }
    assert x in IndexSet(es);
    if x < b.index {
      assert Top(b, Init(es)) == b.index;
      AscendingCard(b.exclude);
      assert Unsettled(b, Init(es)) <= Elems(b.exclude);
      SubsetCard(Unsettled(b, Init(es)), Elems(b.exclude));
    } else {
      SubsetCard(Unsettled(b, Init(es)), Unsettled(b, es));
    }
  }

  lemma LastFolds(b: SquashBody, es: seq<Used>)
    requires Valid(b) && Ascends(es) && es != [] && IndexSet(es) !! S(b)
    requires |Unsettled(b, es)| <= MAX_EXCLUDE_LENGTH
    requires FoldAll(b, Init(es)).Ok?
    ensures FoldAll(b, es).Ok?
  {
    var c := FoldAll(b, Init(es)).value;
    var x := Last(es).index;
    FoldAllExact(b, Init(es));
    IndexSetSnoc(es);
    TopOfAscending(b, es);
    assert x in IndexSet(es);
    assert forall u :: u in Init(es) ==> u.index < x;
    FoldExact(c, x, Last(es).amount);
    if x > c.index {
      assert Top(b, es) == x;
      GapFits(c, x, Unsettled(b, es));
    }
  }

  /** If everything a fold would leave out lies in a set of at most ten, it fits. */
  lemma GapFits(c: SquashBody, x: nat, open: set<nat>)
    requires Valid(c) && c.index < x
    requires forall i: nat :: i < x && i !in S(c) ==> i in open
    ensures |c.exclude| + (x - c.index - 1) <= |open|
  {
    var r := c.exclude + Range(c.index + 1, x);
    ExtendAscends(c.exclude, c.index + 1, x);
    AscendingCard(r);
    SubsetCard(Elems(r), open);
  }

  /** If any order of folding succeeds then so does the ascending one, with the
      identical body. */
  lemma OrderIndependent(b: SquashBody, es: seq<Used>, sorted: seq<Used>)
    requires Valid(b) && FoldAll(b, es).Ok?
    requires multiset(sorted) == multiset(es) && Ascends(sorted)
    ensures FoldAll(b, sorted) == FoldAll(b, es)
  {
    FoldAllExact(b, es);
    assert forall u :: u in sorted <==> u in multiset(sorted);
    assert forall u :: u in es <==> u in multiset(es);
    assert IndexSet(sorted) == IndexSet(es);
    TopDependsOnSet(b, es, sorted);
    UnsettledIsExclude(b, es);
    assert Unsettled(b, es) == Unsettled(b, sorted);
    AscendingFoldSucceeds(b, sorted);
    FoldAllExact(b, sorted);
    TotalPermutation(es, sorted);
    Canonical(FoldAll(b, es).value, FoldAll(b, sorted).value);
  }

  lemma {:induction false} TopBounds(b: SquashBody, es: seq<Used>)
    ensures Top(b, es) >= b.index && forall u :: u in es ==> u.index <= Top(b, es)
    ensures Top(b, es) == b.index || exists u :: u in es && u.index == Top(b, es)
  {
    if es != [] {
      TopBounds(b, Init(es));
      assert es == Init(es) + [Last(es)];
      assert Last(es) in es;
    }
  }

  lemma TopDependsOnSet(b: SquashBody, es: seq<Used>, fs: seq<Used>)
    requires forall u :: u in es <==> u in fs
    ensures Top(b, es) == Top(b, fs)
  {
    TopBounds(b, es);
    TopBounds(b, fs);
  }

  /** A list in any order folds exactly when its indexes are distinct and unsettled, and
      every prefix leaves at most ten indexes unsettled below its own top. */
  lemma {:induction false} AnyOrderFoldSucceeds(b: SquashBody, es: seq<Used>)
    requires Valid(b)
    ensures FoldAll(b, es).Ok? <==>
      && Distinct(es) && IndexSet(es) !! S(b)
      && forall k :: 0 <= k <= |es| ==> |Unsettled(b, es[..k])| <= MAX_EXCLUDE_LENGTH
  {
    assert es[..|es|] == es;
    if es == [] {
      UnsettledIsExclude(b, es);
    } else {
      var init := Init(es);
      AnyOrderFoldSucceeds(b, init);
      assert forall k :: 0 <= k < |es| ==> es[..k] == init[..k];
      IndexSetSnoc(es);
      if FoldAll(b, es).Ok? {
        FoldAllExact(b, es);
        UnsettledIsExclude(b, es);
      } else if FoldAll(b, init).Ok? {
        FoldBreaks(b, es);
      }
    }
  }

  /** If the last index is the one that cannot be folded, it is settled, repeated, or
      leaves too many indexes unsettled. */
  lemma FoldBreaks(b: SquashBody, es: seq<Used>)
    requires Valid(b) && es != [] && FoldAll(b, Init(es)).Ok? && FoldAll(b, es).Err?
    ensures !Distinct(es) || !(IndexSet(es) !! S(b)) || |Unsettled(b, es)| > MAX_EXCLUDE_LENGTH
  {
    var c, x := FoldAll(b, Init(es)).value, Last(es).index;
    FoldAllExact(b, Init(es));
    IndexSetSnoc(es);
    FoldExact(c, x, Last(es).amount);
    if x in IndexSet(Init(es)) {
      var e :| e in Init(es) && e.index == x;
      var k :| 0 <= k < |es| - 1 && es[k] == e;
      assert es[k].index == es[|es| - 1].index;
    } else if x !in S(b) {
      GapFits(c, x, Unsettled(b, es));
    }
  }

  /** The order matters: settling a far index first leaves out what lies below it. */
  lemma OrderMatters()
    ensures var near := seq(11, k requires 0 <= k => Used(k + 1, 1));
      && FoldAll(ZERO, near + [Used(12, 1)]).Ok?
      && FoldAll(ZERO, [Used(12, 1)] + near).Err?
  {
    var near := seq(11, k requires 0 <= k => Used(k + 1, 1));
    var es, far := near + [Used(12, 1)], [Used(12, 1)] + near;
    forall i: nat | i < 12 && i != 0 ensures i in IndexSet(es) {
      assert es[i - 1] == Used(i, 1) && es[i - 1] in es;
    }
    TopOfAscending(ZERO, es);
    assert Unsettled(ZERO, es) == {};
    assert IndexSet(es) !! S(ZERO);
    AscendingFoldSucceeds(ZERO, es);
    assert far[..1] == [Used(12, 1)] && Init([Used(12, 1)]) == [];
    ExtendAscends([], 1, 12);
    AscendingCard([] + Range(1, 12));
    SubsetCard(Elems([] + Range(1, 12)), Unsettled(ZERO, far[..1]));
    AnyOrderFoldSucceeds(ZERO, far);
  }

  // ---- Neutrality ----

  /** What a squash and a used history still owe: the squashed amount plus the
      useds not yet in S. */
  ghost function Owing(b: SquashBody, useds: seq<Used>): nat {
    b.amount + Total(Outside(useds, S(b)))
  }

  /** Folding a used into the squash moves its amount from one side to the other. */
  lemma {:induction false} FoldNeutral(b: SquashBody, useds: seq<Used>, u: Used)
    requires Valid(b) && Distinct(useds) && u in useds
    requires Fold(b, u.index, u.amount).Ok?
    ensures Owing(Fold(b, u.index, u.amount).value, useds) == Owing(b, useds)
  {
    FoldExact(b, u.index, u.amount);
    OutsideOneLess(useds, S(b), u);
  }

  lemma {:induction false} OutsideOneLess(us: seq<Used>, x: set<nat>, u: Used)
    requires Distinct(us) && u in us && u.index !in x
    ensures Total(Outside(us, x)) == Total(Outside(us, x + {u.index})) + u.amount
  {
    var l, y := Last(us), x + {u.index};
    DistinctInit(us);
    if l == u {
      OutsideAgrees(Init(us), x, y);
      TotalSnoc(Outside(Init(us), x), u);
      assert Outside(us, y) == Outside(Init(us), y);
    } else {
      OutsideOneLess(Init(us), x, u);
      OutsideLast(us, x);
      OutsideLast(us, y);
    }
  }

  lemma OutsideLast(us: seq<Used>, x: set<nat>)
    requires us != []
    ensures Total(Outside(us, x)) ==
      Total(Outside(Init(us), x)) + if Last(us).index in x then 0 else Last(us).amount
  {
    TotalSnoc(Outside(Init(us), x), Last(us));
    assert Outside(Init(us), x) + [] == Outside(Init(us), x);
  }

  /** No sequence of such squashes changes what the useds can still claim. */
  lemma {:induction false} FoldAllNeutral(b: SquashBody, useds: seq<Used>, es: seq<Used>)
    requires Valid(b) && Distinct(useds) && (forall e :: e in es ==> e in useds)
    requires FoldAll(b, es).Ok?
    ensures Owing(FoldAll(b, es).value, useds) == Owing(b, useds)
  {
    if es != [] {
      assert es == Init(es) + [Last(es)];
      FoldAllNeutral(b, useds, Init(es));
      FoldAllExact(b, Init(es));
      FoldNeutral(FoldAll(b, Init(es)).value, useds, Last(es));
    }
  }

  // ---- The order on bodies ----

  datatype Ordering = Less | Equal | Greater

  function NoRiskierThan(a: SquashBody, b: SquashBody): bool {
    && a.amount <= b.amount
    && a.index >= b.index
    && forall i :: i in a.exclude && i <= b.index ==> i in b.exclude
  }

  function Compare(a: SquashBody, b: SquashBody): Option<Ordering> {
    match (NoRiskierThan(a, b), NoRiskierThan(b, a))
    case (true, true) => Some(Equal)
    case (true, false) => Some(Less)
    case (false, true) => Some(Greater)
    case (false, false) => None
  }

  /** `a <= b` means: a claims no more and settles every index b settles. */
  lemma OrderIsIntended(a: SquashBody, b: SquashBody)
    requires Valid(a) && Valid(b)
    ensures Compare(a, b) in {Some(Less), Some(Equal)} <==> a.amount <= b.amount && S(b) <= S(a)
    ensures Compare(a, b) == Some(Equal) <==> a == b
    ensures Compare(a, b) == Some(Less) <==> Compare(b, a) == Some(Greater)
  {
    NoRiskierMeans(a, b);
    NoRiskierMeans(b, a);
    if a.amount == b.amount && S(a) == S(b) { Canonical(a, b); }
  }

  lemma NoRiskierMeans(a: SquashBody, b: SquashBody)
    requires Valid(a) && Valid(b)
    ensures NoRiskierThan(a, b) <==> a.amount <= b.amount && S(b) <= S(a)
  {
    assert b.index in S(b);
    if NoRiskierThan(a, b) {
      assert S(b) <= S(a);
    }
    if S(b) <= S(a) {
      forall i | i in a.exclude && i <= b.index ensures i in b.exclude {
        assert i !in S(a);
        assert i !in S(b);
      }
    }
  }

  lemma OrderTransitive(a: SquashBody, b: SquashBody, c: SquashBody)
    requires Valid(a) && Valid(b) && Valid(c)
    requires Compare(a, b) in {Some(Less), Some(Equal)} && Compare(b, c) in {Some(Less), Some(Equal)}
    ensures Compare(a, c) in {Some(Less), Some(Equal)}
  {
    OrderIsIntended(a, b);
    OrderIsIntended(b, c);
    OrderIsIntended(a, c);
  }

  /** The consumer is told to check that a new body is greater than the current one in
      this order; an advance never is: it is incomparable, or smaller when it is free. */
  lemma AdvanceIsNeverGreater(b: SquashBody, es: seq<Used>)
    requires Valid(b) && es != [] && FoldAll(b, es).Ok?
    ensures Compare(FoldAll(b, es).value, b) == if Total(es) == 0 then Some(Less) else None
  {
    var c := FoldAll(b, es).value;
    FoldAllExact(b, es);
    assert Last(es).index in IndexSet(es);
    NoRiskierMeans(c, b);
    NoRiskierMeans(b, c);
  }
}
