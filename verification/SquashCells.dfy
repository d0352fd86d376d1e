/** The in-place edits of the exclude list and of the squash body, each proved
    against the algebra of module Squashes. */
module SquashCells {
  import opened Types
  import opened Squashes

  /** The library search the edits rely on: where `item` is, or where it would go. */
  method BinarySearch(items: seq<nat>, item: nat) returns (found: bool, at: nat)
    requires Ascending(items)
    ensures at <= |items|
    ensures found <==> item in items
    ensures found ==> at < |items| && items[at] == item
    ensures !found ==> forall k :: 0 <= k < at ==> items[k] < item
    ensures !found ==> forall k :: at <= k < |items| ==> item < items[k]
  {
    var low, high := 0, |items|;
    while low < high
      invariant 0 <= low <= high <= |items|
      invariant forall k :: 0 <= k < low ==> items[k] < item
      invariant forall k :: high <= k < |items| ==> item < items[k]
    {
      var mid := low + (high - low) / 2;
      if items[mid] < item {
        low := mid + 1;
      } else if item < items[mid] {
        high := mid;
      } else {
        return true, mid;
      }
    }
    return false, low;
  }

  /** Accepts exactly the bounded, strictly ascending lists. */
  method CheckIndexes(items: seq<nat>) returns (r: Result<seq<nat>, IndexesError>)
    ensures r.Ok? <==> ValidIndexes(items)
    ensures r.Ok? ==> r.value == items
    ensures r.Err? ==> r.error == if |items| > MAX_EXCLUDE_LENGTH then Length else Order
  {
    if |items| > MAX_EXCLUDE_LENGTH {
      return Err(Length);
    }
    var k := 0;
    while k + 1 < |items|
      invariant items != [] ==> k < |items|
      invariant forall i, j :: 0 <= i < j <= k < |items| ==> items[i] < items[j]
    {
      if items[k] >= items[k + 1] {
        assert !Ascending(items);
        return Err(Order);
      }
      k := k + 1;
    }
    return Ok(items);
  }

  /** The peeking scan decides inclusion of ascending lists. */
  method IsSupersetOf(a: seq<nat>, b: seq<nat>) returns (superset: bool)
    requires Ascending(a) && Ascending(b)
    ensures superset <==> Elems(b) <= Elems(a)
  {
    var i, j := 0, 0;
    while i < |a|
      invariant 0 <= i <= |a| && 0 <= j <= |b|
      invariant forall k :: 0 <= k < j ==> b[k] in a
      invariant i > 0 && j < |b| ==> a[i - 1] < b[j]
    {
      if j == |b| {
        assert forall x :: x in b ==> x in a;
        return true;
      }
      if a[i] == b[j] {
        j := j + 1;
      } else if a[i] > b[j] {
        assert b[j] !in a by {
          assert forall k :: 0 <= k < i ==> a[k] < b[j];
          assert forall k :: i <= k < |a| ==> b[j] < a[k];
        }
        assert b[j] in Elems(b) && b[j] !in Elems(a);
        return false;
      }
      i := i + 1;
    }
    if j < |b| {
      assert b[j] !in a;
      assert b[j] in Elems(b) && b[j] !in Elems(a);
    } else {
      assert forall x :: x in b ==> x in a;
    }
    return j == |b|;
  }

  /** The order on index lists: a superset is smaller, equality is of the lists. */
  method CompareIndexes(a: seq<nat>, b: seq<nat>) returns (o: Option<Ordering>)
    requires Ascending(a) && Ascending(b)
    ensures o == Some(Equal) <==> a == b
    ensures o == Some(Less) <==> Elems(b) < Elems(a)
    ensures o == Some(Greater) <==> Elems(a) < Elems(b)
  {
    var ab := IsSupersetOf(a, b);
    var ba := IsSupersetOf(b, a);
    if ab && ba {
      assert forall i :: i in a <==> i in Elems(a);
      assert forall i :: i in b <==> i in Elems(b);
      AscendingUnique(a, b);
    }
    o := match (ab, ba)
      case (true, true) => Some(Equal)
      case (true, false) => Some(Less)
      case (false, true) => Some(Greater)
      case (false, false) => None;
  }

  lemma {:induction false} RemoveAtIs(s: seq<nat>, at: nat)
    requires Ascending(s) && at < |s|
    ensures s[..at] + s[at + 1..] == Removed(s, s[at])
  {
    if at == |s| - 1 {
      assert s[..at] + s[at + 1..] == Init(s);
    } else {
      RemoveAtIs(Init(s), at);
      assert s[..at] + s[at + 1..] == Init(s)[..at] + Init(s)[at + 1..] + [Last(s)];
    }
  }

  class IndexesMut {
    var items: seq<nat>

    constructor (items: seq<nat>)
      ensures this.items == items
    {
      this.items := items;
    }

    method Extend(from: nat, until: nat) returns (r: Result<(), IndexesError>)
      requires |items| + SaturatingSub(until, from) < U64
      modifies this
      ensures match Extended(old(items), from, until)
        case Ok(s) => r == Ok(()) && items == s
        case Err(e) => r == Err(e) && items == old(items)
    {
      if until < from {
        return Err(Order);
      } else if until == from {
        return Ok(());
      }
      if |items| + (until - from) > MAX_EXCLUDE_LENGTH {
        return Err(Length);
      }
      if items != [] && !(Last(items) < from) {
        return Err(LessThanLast);
      }
      items := items + Range(from, until);
      return Ok(());
    }

    method Insert(item: nat) returns (r: Result<(), IndexesError>)
      requires ValidIndexes(items)
      modifies this
      ensures ValidIndexes(items)
      ensures Elems(items) == if r.Ok? then Elems(old(items)) + {item} else Elems(old(items))
      ensures r.Ok? ==> item !in old(items)
      ensures r.Err? ==> items == old(items)
      ensures r.Err? ==> r.error == if |items| >= MAX_EXCLUDE_LENGTH then Length else Duplicate
      ensures r == Err(Duplicate) ==> item in items
    {
      if |items| >= MAX_EXCLUDE_LENGTH {
        return Err(Length);
      }
      var found, at := BinarySearch(items, item);
      if found {
        return Err(Duplicate);
      }
      ghost var was := items;
      assert was == was[..at] + was[at..];
      items := items[..at] + [item] + items[at..];
      assert Ascending(items);
      return Ok(());
    }

    method Remove(item: nat) returns (r: Result<(), IndexesError>)
      requires Ascending(items)
      modifies this
      ensures r == if item in old(items) then Ok(()) else Err(NoIndex)
      ensures items == if item in old(items) then Removed(old(items), item) else old(items)
    {
      var found, at := BinarySearch(items, item);
      if !found {
        return Err(NoIndex);
      }
      RemoveAtIs(items, at);
      items := items[..at] + items[at + 1..];
      return Ok(());
    }

    method Has(item: nat) returns (b: bool)
      requires Ascending(items)
      ensures b <==> item in items
    {
      var found, at := BinarySearch(items, item);
      return found;
    }
  }

  class SquashBodyMut {
    var amount: nat
    var index: nat
    const exclude: IndexesMut

    ghost function Value(): SquashBody
      reads this, exclude
    {
      SquashBody(amount, index, exclude.items)
    }

    constructor (b: SquashBody)
      ensures Value() == b && fresh(exclude)
    {
      amount, index := b.amount, b.index;
      exclude := new IndexesMut(b.exclude);
    }

    /** On success the body settles exactly one index more; on failure it is unchanged. */
    method Squash(index: nat, amount: nat) returns (r: Result<(), SquashError>)
      requires Valid(Value())
      requires Fold(Value(), index, amount).Ok? ==> this.amount + amount < U64
      requires this.index < index ==> |exclude.items| + (index - this.index - 1) < U64
      modifies this, exclude
      ensures r.Ok? <==> Fold(old(Value()), index, amount).Ok?
      ensures r.Ok? ==> Value() == Fold(old(Value()), index, amount).value
      ensures r.Ok? ==> S(Value()) == S(old(Value())) + {index} && index !in S(old(Value()))
      ensures r.Err? ==> Value() == old(Value()) && r.error == Fold(Value(), index, amount).error
      ensures Valid(Value())
    {
      FoldExact(Value(), index, amount);
      var removed := exclude.Remove(index);
      if removed.Ok? {
        this.amount := this.amount + amount;
        return Ok(());
      }
      if this.index >= index {
        return Err(DuplicateIndex);
      }
      var extended := exclude.Extend(this.index + 1, index);
      if extended.Err? {
        return Err(Exclude(extended.error));
      }
      this.amount := this.amount + amount;
      this.index := index;
      return Ok(());
    }

    method IsSquashed(index: nat) returns (b: bool)
      requires Valid(Value())
      ensures b <==> index in S(Value())
    {
      if this.index < index {
        return false;
      } else if this.index == index {
        return true;
      }
      var has := exclude.Has(index);
      return !has;
    }
  }
}
