/** Fuel selection: the greedy multi-asset selector and the older sort-and-take-prefix
    one, as functions with their loops proved against them. */
module Fuel {
  import opened Types
  import opened Values

  /** A transaction input: the id of a past transaction and an output position. */
  datatype Input = Input(txId: nat, index: nat)

  datatype Utxo = Utxo(input: Input, value: Value)

  type Selection = Result<seq<Utxo>, Value>

  // ---- Scoring ----

  /** Needed assets the candidate holds some of. */
  ghost function Hits(c: Value, r: Value): set<(Bytes, Bytes)> {
    set p, n | p in r.assets && n in r.assets[p] && r.assets[p][n] > 0 && Get(Inner(c, p), n) > 0 :: (p, n)
  }

  ghost function HitCount(c: Value, r: Value): nat {
    |Hits(c, r)|
  }

  datatype Score = Score(hits: nat, ada: nat)

  ghost function ScoreOf(c: Value, r: Value): Score {
    Score(HitCount(c, r), Min(c.lovelace, r.lovelace))
  }

  /** Lexicographic: asset hits first, then the lovelace contributed. */
  predicate AtMost(a: Score, b: Score) {
    a.hits < b.hits || (a.hits == b.hits && a.ada <= b.ada)
  }

  ghost function ScoresOf(us: seq<Utxo>, r: Value): (ss: seq<Score>)
    ensures |ss| == |us| && forall i :: 0 <= i < |us| ==> ss[i] == ScoreOf(us[i].value, r)
  {
    if us == [] then [] else ScoresOf(Init(us), r) + [ScoreOf(Last(us).value, r)]
  }

  /** Position of the last of the greatest scores. */
  ghost function BestOf(ss: seq<Score>): (k: nat)
    requires ss != []
    ensures k < |ss|
    ensures forall i :: 0 <= i < |ss| ==> AtMost(ss[i], ss[k])
    ensures forall i :: k < i < |ss| ==> !AtMost(ss[k], ss[i])
  {
    if |ss| == 1 then 0
    else
      var k := BestOf(Init(ss));
      if AtMost(ss[k], Last(ss)) then |ss| - 1 else k
  }

  lemma BestOfStep(ss: seq<Score>, i: nat)
    requires 0 < i < |ss|
    ensures var k := BestOf(ss[..i]);
      BestOf(ss[..i + 1]) == if AtMost(ss[k], ss[i]) then i else k
  {
    assert Init(ss[..i + 1]) == ss[..i] && Last(ss[..i + 1]) == ss[i];
  }

  ghost function Best(us: seq<Utxo>, r: Value): (k: nat)
    requires us != []
    ensures k < |us|
    ensures forall i :: 0 <= i < |us| ==> AtMost(ScoreOf(us[i].value, r), ScoreOf(us[k].value, r))
  {
    BestOf(ScoresOf(us, r))
  }

  function SwapRemove(us: seq<Utxo>, k: nat): seq<Utxo>
    requires k < |us|
  {
    Init(us[k := Last(us)])
  }

  // ---- The greedy selector ----

  ghost function Select(available: seq<Utxo>, remaining: Value): Selection
    decreases |available|
  {
    if IsEmpty(remaining) then Ok([])
    else if available == [] then Err(remaining)
    else
      var k := Best(available, remaining);
      Prepend([available[k]], Select(SwapRemove(available, k), SubValue(remaining, available[k].value)))
  }

  ghost function Prepend(picks: seq<Utxo>, s: Selection): Selection {
    match s
    case Ok(rest) => Ok(picks + rest)
    case Err(short) => Err(short)
  }

  function Inputs(us: seq<Utxo>): seq<Input> {
    if us == [] then [] else Inputs(Init(us)) + [Last(us).input]
  }

  /** Input `i` of a selection is that of its `i`-th utxo. */
  lemma {:induction false} InputsAt(us: seq<Utxo>)
    ensures |Inputs(us)| == |us| && forall i :: 0 <= i < |us| ==> Inputs(us)[i] == us[i].input
  {
    if us != [] { InputsAt(Init(us)); }
  }

  /** The last element takes the place of the one removed; all others stay. */
  lemma SwapRemoveAt(us: seq<Utxo>, k: nat)
    requires k < |us|
    ensures |SwapRemove(us, k)| == |us| - 1
    ensures forall i :: 0 <= i < |us| - 1 ==> SwapRemove(us, k)[i] == if i == k then us[|us| - 1] else us[i]
  {}

  method CountNames(need: Quantities, held: Quantities, policy: Bytes, ghost c: Value, ghost r: Value)
    returns (hits: nat)
    requires policy in r.assets && need == r.assets[policy] && held == Inner(c, policy)
    ensures hits == |HitsOf(c, r, {policy})|
  {
    hits := 0;
    var names := need.Keys;
    ghost var seen: set<(Bytes, Bytes)> := {};
    while names != {}
      invariant names <= need.Keys
      invariant seen == set h | h in HitsOf(c, r, {policy}) && h.1 !in names
      invariant hits == |seen|
      decreases names
    {
      var n :| n in names;
      names := names - {n};
      if need[n] > 0 && n in held && held[n] > 0 {
        assert (policy, n) in HitsOf(c, r, {policy});
        seen := seen + {(policy, n)};
        hits := hits + 1;
      }
    }
    assert seen == HitsOf(c, r, {policy});
  }

  /** The hits within some policies. */
  ghost function HitsOf(c: Value, r: Value, policies: set<Bytes>): set<(Bytes, Bytes)> {
    set h | h in Hits(c, r) && h.0 in policies
  }

  method Coverage(c: Value, r: Value) returns (hits: nat, ada: nat)
    ensures hits == HitCount(c, r) && ada == Min(c.lovelace, r.lovelace)
  {
    hits := 0;
    var todo := r.assets.Keys;
    ghost var done: set<Bytes> := {};
    HitsEnds(c, r);
    while todo != {}
      invariant done == r.assets.Keys - todo && todo <= r.assets.Keys
      invariant hits == |HitsOf(c, r, done)|
      decreases todo
    {
      var p :| p in todo;
      HitsSplit(c, r, done, p);
      if p in c.assets {
        var more := CountNames(r.assets[p], c.assets[p], p, c, r);
        hits := hits + more;
      } else {
        HitsNone(c, r, p);
      }
      todo := todo - {p};
      done := done + {p};
    }
    assert done == r.assets.Keys;
    ada := Min(c.lovelace, r.lovelace);
  }

  lemma HitsEnds(c: Value, r: Value)
    ensures HitsOf(c, r, {}) == {} && HitsOf(c, r, r.assets.Keys) == Hits(c, r)
  {}

  lemma HitsNone(c: Value, r: Value, p: Bytes)
    requires p !in c.assets
    ensures HitsOf(c, r, {p}) == {}
  {}

  lemma HitsSplit(c: Value, r: Value, done: set<Bytes>, p: Bytes)
    requires p !in done
    ensures |HitsOf(c, r, done + {p})| == |HitsOf(c, r, done)| + |HitsOf(c, r, {p})|
  {
    assert HitsOf(c, r, done + {p}) == HitsOf(c, r, done) + HitsOf(c, r, {p});
    assert HitsOf(c, r, done) !! HitsOf(c, r, {p});
  }

  /** Scans for the best-scoring candidate; among equals the last wins. */
  method BestIndex(us: seq<Utxo>, r: Value) returns (k: nat)
    requires us != []
    ensures k == Best(us, r)
  {
    k := 0;
    ghost var ss := ScoresOf(us, r);
    var hits, ada := Coverage(us[0].value, r);
    assert Score(hits, ada) == ss[0];
    var i := 1;
    assert ss[..1] == [ss[0]];
    while i < |us|
      invariant 1 <= i <= |us|
      invariant k == BestOf(ss[..i])
      invariant Score(hits, ada) == ss[k]
    {
      BestOfStep(ss, i);
      var h, a := Coverage(us[i].value, r);
      assert Score(h, a) == ss[i];
      if AtMost(Score(hits, ada), Score(h, a)) {
        k, hits, ada := i, h, a;
      }
      i := i + 1;
    }
    assert ss[..i] == ss;
  }

  /** Repeatedly takes the best utxo until nothing remains, or reports what does. */
  method SelectFuel(utxos: seq<Utxo>, target: Value) returns (r: Result<seq<Input>, Value>)
    requires Normal(target)
    ensures r == match Select(utxos, target)
      case Ok(picks) => Ok(Inputs(picks))
      case Err(short) => Err(short)
  {
    var remaining := target;
    var available := utxos;
    var selected := [];
    ghost var picks: seq<Utxo> := [];
    PrependNothing(Select(utxos, target));
    while !IsEmpty(remaining)
      invariant Normal(remaining) && selected == Inputs(picks)
      invariant Select(utxos, target) == Prepend(picks, Select(available, remaining))
      decreases |available|
    {
      if available == [] {
        return Err(remaining);
      }
      var k := BestIndex(available, remaining);
      var best := available[k];
      ghost var rest := Select(SwapRemove(available, k), SubValue(remaining, best.value));
      PrependTwice(picks, [best], rest);
      assert Init(picks + [best]) == picks;
      available := SwapRemove(available, k);
      SubAmounts(remaining, best.value);
      remaining := SaturatingSubValue(remaining, best.value);
      selected := selected + [best.input];
      picks := picks + [best];
    }
    assert picks + [] == picks;
    return Ok(selected);
  }

  lemma PrependNothing(s: Selection)
    ensures Prepend([], s) == s
  {
    if s.Ok? { assert [] + s.value == s.value; }
  }

  lemma PrependTwice(a: seq<Utxo>, b: seq<Utxo>, s: Selection)
    ensures Prepend(a, Prepend(b, s)) == Prepend(a + b, s)
  {
    if s.Ok? {
      assert a + (b + s.value) == a + b + s.value;
    }
  }

  // ---- Totals ----

  function TotalOf(us: seq<Utxo>, id: AssetId): nat {
    if us == [] then 0 else TotalOf(Init(us), id) + Amount(Last(us).value, id)
  }

  lemma TotalOfSnoc(us: seq<Utxo>, u: Utxo, id: AssetId)
    ensures TotalOf(us + [u], id) == TotalOf(us, id) + Amount(u.value, id)
  {
    assert Init(us + [u]) == us;
  }

  lemma {:induction false} TotalOfConcat(us: seq<Utxo>, vs: seq<Utxo>, id: AssetId)
    ensures TotalOf(us + vs, id) == TotalOf(us, id) + TotalOf(vs, id)
  {
    if vs == [] {
      assert us + vs == us;
    } else {
      TotalOfConcat(us, Init(vs), id);
      assert us + vs == us + Init(vs) + [Last(vs)];
      TotalOfSnoc(us + Init(vs), Last(vs), id);
    }
  }

  lemma TotalOfOne(u: Utxo, us: seq<Utxo>, id: AssetId)
    ensures TotalOf([u] + us, id) == Amount(u.value, id) + TotalOf(us, id)
  {
    TotalOfConcat([u], us, id);
    assert [] + [u] == [u];
    TotalOfSnoc([], u, id);
  }

  function RemoveAt(us: seq<Utxo>, k: nat): seq<Utxo>
    requires k < |us|
  {
    us[..k] + us[k + 1..]
  }

  lemma RemoveAtTotals(us: seq<Utxo>, k: nat, id: AssetId)
    requires k < |us|
    ensures TotalOf(us, id) == TotalOf(RemoveAt(us, k), id) + Amount(us[k].value, id)
    ensures multiset(us) == multiset(RemoveAt(us, k)) + multiset{us[k]}
  {
    assert us == us[..k] + [us[k]] + us[k + 1..];
    TotalOfConcat(us[..k] + [us[k]], us[k + 1..], id);
    TotalOfSnoc(us[..k], us[k], id);
    TotalOfConcat(us[..k], us[k + 1..], id);
  }

  /** Taking an element out by swapping in the last one is, up to order, removing it. */
  lemma SwapRemoveParts(us: seq<Utxo>, k: nat)
    requires k < |us| - 1
    ensures RemoveAt(us, k) == us[..k] + us[k + 1..|us| - 1] + [Last(us)]
    ensures SwapRemove(us, k) == us[..k] + [Last(us)] + us[k + 1..|us| - 1]
  {}

  lemma SamePartsTotal(us: seq<Utxo>, vs: seq<Utxo>, w: seq<Utxo>, id: AssetId)
    ensures TotalOf(us + vs + w, id) == TotalOf(us + w + vs, id)
    ensures multiset(us + vs + w) == multiset(us + w + vs)
  {
    TotalOfConcat(us + vs, w, id);
    TotalOfConcat(us, vs, id);
    TotalOfConcat(us + w, vs, id);
    TotalOfConcat(us, w, id);
  }

  lemma SwapRemoveTotals(us: seq<Utxo>, k: nat, id: AssetId)
    requires k < |us|
    ensures TotalOf(us, id) == TotalOf(SwapRemove(us, k), id) + Amount(us[k].value, id)
    ensures multiset(us) == multiset(SwapRemove(us, k)) + multiset{us[k]}
  {
    RemoveAtTotals(us, k, id);
    if k == |us| - 1 {
      assert SwapRemove(us, k) == RemoveAt(us, k);
    } else {
      SwapRemoveParts(us, k);
      SamePartsTotal(us[..k], us[k + 1..|us| - 1], [Last(us)], id);
    }
  }

  lemma CancelOne<T>(a: multiset<T>, b: multiset<T>, x: T)
    requires a + multiset{x} <= b + multiset{x}
    ensures a <= b
  {
    forall y ensures a[y] <= b[y] {
      assert (a + multiset{x})[y] <= (b + multiset{x})[y];
    }
  }

  // ---- Soundness and completeness ----

  lemma PickSound(available: seq<Utxo>, k: nat, remaining: Value, picks: seq<Utxo>)
    requires k < |available|
    requires multiset(picks) <= multiset(SwapRemove(available, k))
    requires forall id :: TotalOf(picks, id) >= Amount(SubValue(remaining, available[k].value), id)
    ensures multiset([available[k]] + picks) <= multiset(available)
    ensures forall id :: TotalOf([available[k]] + picks, id) >= Amount(remaining, id)
  {
    SwapRemoveTotals(available, k, Ada);
    SubAmounts(remaining, available[k].value);
    forall id ensures TotalOf([available[k]] + picks, id) >= Amount(remaining, id) {
      TotalOfOne(available[k], picks, id);
    }
  }

  /** An accepted selection is part of the wallet and covers the target in every asset. */
  lemma {:induction false} SelectSound(available: seq<Utxo>, remaining: Value)
    requires Normal(remaining)
    ensures Select(available, remaining).Ok? ==>
      var picks := Select(available, remaining).value;
      && multiset(picks) <= multiset(available)
      && forall id :: TotalOf(picks, id) >= Amount(remaining, id)
    decreases |available|
  {
    if IsEmpty(remaining) {
      EmptyIsNothing(remaining);
    } else if available != [] {
      var k := Best(available, remaining);
      var rest := SwapRemove(available, k);
      var less := SubValue(remaining, available[k].value);
      SubAmounts(remaining, available[k].value);
      SelectSound(rest, less);
      if Select(rest, less).Ok? {
        PickSound(available, k, remaining, Select(rest, less).value);
      }
    }
  }

  /** A refusal carries exactly what the whole wallet lacks. */
  lemma {:induction false} SelectShortfall(available: seq<Utxo>, remaining: Value)
    requires Normal(remaining)
    ensures Select(available, remaining).Err? ==>
      var short := Select(available, remaining).error;
      && Normal(short) && !IsEmpty(short)
      && forall id :: Amount(short, id) == SaturatingSub(Amount(remaining, id), TotalOf(available, id))
    decreases |available|
  {
    if !IsEmpty(remaining) && available != [] {
      var k := Best(available, remaining);
      var rest := SwapRemove(available, k);
      var less := SubValue(remaining, available[k].value);
      SubAmounts(remaining, available[k].value);
      SelectShortfall(rest, less);
      if Select(rest, less).Err? {
        forall id ensures Amount(Select(rest, less).error, id)
            == SaturatingSub(Amount(remaining, id), TotalOf(available, id)) {
          SwapRemoveTotals(available, k, id);
        }
      }
    }
  }

  lemma {:induction false} PartTotals(part: seq<Utxo>, us: seq<Utxo>, id: AssetId)
    requires multiset(part) <= multiset(us)
    ensures TotalOf(part, id) <= TotalOf(us, id) && |part| <= |us|
    decreases |part|
  {
    assert |multiset(us)| == |us|;
    if part != [] {
      assert part == Init(part) + [Last(part)];
      assert Last(part) in multiset(us);
      var k :| 0 <= k < |us| && us[k] == Last(part);
      RemoveAtTotals(us, k, id);
      assert multiset(part) == multiset(Init(part)) + multiset{Last(part)};
      CancelOne(multiset(Init(part)), multiset(RemoveAt(us, k)), us[k]);
      PartTotals(Init(part), RemoveAt(us, k), id);
    }
  }

  /** Selection fails exactly when the whole wallet cannot cover the target. */
  lemma SelectComplete(wallet: seq<Utxo>, target: Value)
    requires Normal(target)
    ensures Select(wallet, target).Ok? <==> forall id :: TotalOf(wallet, id) >= Amount(target, id)
  {
    SelectSound(wallet, target);
    SelectShortfall(wallet, target);
    var s := Select(wallet, target);
    if s.Ok? {
      forall id ensures TotalOf(wallet, id) >= Amount(target, id) { PartTotals(s.value, wallet, id); }
    } else {
      EmptyIsNothing(s.error);
    }
  }

  ghost predicate DistinctInputs(us: seq<Utxo>) {
    forall i, j :: 0 <= i < j < |us| ==> us[i].input != us[j].input
  }

  lemma RemoveAtDistinct(us: seq<Utxo>, k: nat)
    requires DistinctInputs(us) && k < |us|
    ensures DistinctInputs(RemoveAt(us, k))
    ensures forall v :: v in RemoveAt(us, k) ==> v.input != us[k].input
  {
    var rest := RemoveAt(us, k);
    assert forall m :: 0 <= m < |rest| ==> rest[m] == us[if m < k then m else m + 1];
  }

  /** Part of a wallet with distinct inputs has distinct inputs. */
  lemma {:induction false} PartDistinct(part: seq<Utxo>, us: seq<Utxo>)
    requires DistinctInputs(us) && multiset(part) <= multiset(us)
    ensures DistinctInputs(part)
    decreases |part|
  {
    if part != [] {
      var l := Last(part);
      assert part == Init(part) + [l];
      assert l in multiset(us);
      var k :| 0 <= k < |us| && us[k] == l;
      RemoveAtTotals(us, k, Ada);
      RemoveAtDistinct(us, k);
      assert multiset(part) == multiset(Init(part)) + multiset{l};
      CancelOne(multiset(Init(part)), multiset(RemoveAt(us, k)), l);
      PartDistinct(Init(part), RemoveAt(us, k));
      InputsDiffer(Init(part), RemoveAt(us, k), l.input);
    }
  }

  lemma InputsDiffer(part: seq<Utxo>, us: seq<Utxo>, input: Input)
    requires multiset(part) <= multiset(us) && forall v :: v in us ==> v.input != input
    ensures forall i :: 0 <= i < |part| ==> part[i].input != input
  {
    forall i | 0 <= i < |part| ensures part[i].input != input {
      assert part[i] in multiset(part);
      assert part[i] in multiset(us);
    }
  }

  // ---- Fewest inputs ----

  /** Input `i` of a part gives way to the wallet's `k`: that one itself, or one that
      adds no more towards the need. What is left still covers what remains. */
  lemma TakeOut(part: seq<Utxo>, i: nat, us: seq<Utxo>, k: nat, need: nat) returns (rest: seq<Utxo>)
    requires k < |us| && i < |part| && multiset(part) <= multiset(us)
    requires part[i] == us[k]
      || (us[k] !in part && Min(part[i].value.lovelace, need) <= Min(us[k].value.lovelace, need))
    requires TotalOf(part, Ada) >= need
    ensures multiset(rest) + multiset{us[k]} <= multiset(us) && |rest| == |part| - 1
    ensures TotalOf(rest, Ada) >= SaturatingSub(need, us[k].value.lovelace)
  {
    rest := RemoveAt(part, i);
    RemoveAtTotals(part, i, Ada);
    assert part[i] in multiset(part);
    if part[i] != us[k] {
      assert multiset(part)[us[k]] == 0;
      assert us[k] in multiset(us);
    }
  }

  /** In place of any covering part, one with the best element taken out still covers
      what remains, with one input less. */
  lemma Exchange(part: seq<Utxo>, us: seq<Utxo>, k: nat, need: nat) returns (rest: seq<Utxo>)
    requires k < |us| && multiset(part) <= multiset(us)
    requires forall u :: u in us ==> Min(u.value.lovelace, need) <= Min(us[k].value.lovelace, need)
    requires TotalOf(part, Ada) >= need > 0
    ensures multiset(rest) + multiset{us[k]} <= multiset(us) && |rest| == |part| - 1
    ensures TotalOf(rest, Ada) >= SaturatingSub(need, us[k].value.lovelace)
  {
    assert part != [];
    var i: nat := |part| - 1;
    if us[k] in part {
      i :| 0 <= i < |part| && part[i] == us[k];
    }
    assert part[i] in multiset(part) && part[i] in multiset(us);
    rest := TakeOut(part, i, us, k, need);
  }

  /** On a lovelace-only need, the greedy selection is no longer than any covering part. */
  lemma {:induction false} GreedyIsFewest(available: seq<Utxo>, remaining: Value, part: seq<Utxo>)
    requires remaining.assets == map[]
    requires multiset(part) <= multiset(available) && TotalOf(part, Ada) >= remaining.lovelace
    ensures Select(available, remaining).Ok? && |Select(available, remaining).value| <= |part|
    decreases |available|
  {
    if !IsEmpty(remaining) {
      assert part != [] && Last(part) in multiset(part) && Last(part) in multiset(available);
      var k := Best(available, remaining);
      var rest := SwapRemove(available, k);
      var less := SubValue(remaining, available[k].value);
      forall u | u in available
        ensures Min(u.value.lovelace, remaining.lovelace) <= Min(available[k].value.lovelace, remaining.lovelace)
      {
        NoHits(u.value, remaining);
        NoHits(available[k].value, remaining);
      }
      var fewer := Exchange(part, available, k, remaining.lovelace);
      SwapRemoveTotals(available, k, Ada);
      assert less.assets == map[];
      CancelOne(multiset(fewer), multiset(rest), available[k]);
      GreedyIsFewest(rest, less, fewer);
    }
  }

  lemma NoHits(c: Value, r: Value)
    requires r.assets == map[]
    ensures HitCount(c, r) == 0
  {
    assert Hits(c, r) == {};
  }

  // ---- The sort-and-take-prefix selector ----

  /** Stable, largest lovelace first. */
  function InsertLarge(us: seq<Utxo>, u: Utxo): seq<Utxo> {
    if us == [] || Last(us).value.lovelace >= u.value.lovelace then us + [u]
    else InsertLarge(Init(us), u) + [Last(us)]
  }

  function SortLarge(us: seq<Utxo>): seq<Utxo> {
    if us == [] then [] else InsertLarge(SortLarge(Init(us)), Last(us))
  }

  ghost predicate Descends(us: seq<Utxo>) {
    forall i, j :: 0 <= i < j < |us| ==> us[i].value.lovelace >= us[j].value.lovelace
  }

  lemma {:induction false} InsertLargeKeeps(us: seq<Utxo>, u: Utxo)
    ensures multiset(InsertLarge(us, u)) == multiset(us) + multiset{u}
    ensures forall v :: v in InsertLarge(us, u) <==> v in us || v == u
  {
    if us != [] && Last(us).value.lovelace < u.value.lovelace {
      InsertLargeKeeps(Init(us), u);
      assert us == Init(us) + [Last(us)];
    }
  }

  lemma DescendsSnoc(us: seq<Utxo>, u: Utxo)
    requires Descends(us) && forall v :: v in us ==> v.value.lovelace >= u.value.lovelace
    ensures Descends(us + [u])
  {
    assert forall i :: 0 <= i < |us| ==> us[i] in us;
  }

  lemma DescendsInit(us: seq<Utxo>)
    requires Descends(us) && us != []
    ensures Descends(Init(us)) && forall v :: v in us ==> v.value.lovelace >= Last(us).value.lovelace
  {}

  lemma {:induction false} InsertLargeSorts(us: seq<Utxo>, u: Utxo)
    requires Descends(us)
    ensures Descends(InsertLarge(us, u))
  {
    if us == [] {
    } else {
      DescendsInit(us);
      if Last(us).value.lovelace >= u.value.lovelace {
        DescendsSnoc(us, u);
      } else {
        InsertLargeSorts(Init(us), u);
        InsertLargeKeeps(Init(us), u);
        DescendsSnoc(InsertLarge(Init(us), u), Last(us));
      }
    }
  }

  lemma {:induction false} SortLargeSorts(us: seq<Utxo>)
    ensures Descends(SortLarge(us)) && multiset(SortLarge(us)) == multiset(us)
  {
    if us != [] {
      SortLargeSorts(Init(us));
      InsertLargeSorts(SortLarge(Init(us)), Last(us));
      InsertLargeKeeps(SortLarge(Init(us)), Last(us));
      SnocMultiset(us);
    }
  }

  lemma SnocMultiset(us: seq<Utxo>)
    requires us != []
    ensures multiset(us) == multiset(Init(us)) + multiset{Last(us)}
  {
    assert us == Init(us) + [Last(us)];
  }

  /** The sort is stable: utxos of one amount keep their order. */
  function WithLovelace(us: seq<Utxo>, n: nat): seq<Utxo> {
    if us == [] then []
    else WithLovelace(Init(us), n) + if Last(us).value.lovelace == n then [Last(us)] else []
  }

  lemma WithLovelaceSnoc(us: seq<Utxo>, u: Utxo, n: nat)
    ensures WithLovelace(us + [u], n) == WithLovelace(us, n) + if u.value.lovelace == n then [u] else []
    ensures WithLovelace(us, n) + [] == WithLovelace(us, n)
  {
    assert Init(us + [u]) == us;
  }

  lemma {:induction false} InsertLargeStable(us: seq<Utxo>, u: Utxo, n: nat)
    ensures WithLovelace(InsertLarge(us, u), n) == WithLovelace(us, n) + if u.value.lovelace == n then [u] else []
  {
    if us == [] || Last(us).value.lovelace >= u.value.lovelace {
      WithLovelaceSnoc(us, u, n);
    } else {
      InsertLargeStable(Init(us), u, n);
      WithLovelaceSnoc(InsertLarge(Init(us), u), Last(us), n);
      WithLovelaceSnoc(Init(us), Last(us), n);
    }
  }

  lemma {:induction false} SortLargeStable(us: seq<Utxo>, n: nat)
    ensures WithLovelace(SortLarge(us), n) == WithLovelace(us, n)
  {
    if us != [] {
      SortLargeStable(Init(us), n);
      InsertLargeStable(SortLarge(Init(us)), Last(us), n);
    }
  }

  function TakePrefix(us: seq<Utxo>, need: nat): Result<seq<Utxo>, ()> {
    if need == 0 then Ok([])
    else if us == [] then Err(())
    else match TakePrefix(us[1..], SaturatingSub(need, us[0].value.lovelace))
      case Ok(rest) => Ok([us[0]] + rest)
      case Err(e) => Err(e)
  }

  lemma {:induction false} PrefixSound(us: seq<Utxo>, need: nat)
    ensures TakePrefix(us, need).Ok? ==>
      multiset(TakePrefix(us, need).value) <= multiset(us) && TotalOf(TakePrefix(us, need).value, Ada) >= need
  {
    if need != 0 && us != [] {
      var less := SaturatingSub(need, us[0].value.lovelace);
      PrefixSound(us[1..], less);
      if TakePrefix(us[1..], less).Ok? {
        TotalOfOne(us[0], TakePrefix(us[1..], less).value, Ada);
        assert us == [us[0]] + us[1..];
      }
    }
  }

  /** What is taken is a prefix, in order, and no shorter one covers. */
  lemma {:induction false} TakesPrefix(us: seq<Utxo>, need: nat)
    ensures TakePrefix(us, need).Ok? ==>
      var n := |TakePrefix(us, need).value|;
      && n <= |us| && TakePrefix(us, need).value == us[..n]
      && forall k :: 0 <= k < n ==> TotalOf(us[..k], Ada) < need
  {
    if need != 0 && us != [] {
      var less := SaturatingSub(need, us[0].value.lovelace);
      TakesPrefix(us[1..], less);
      if TakePrefix(us, need).Ok? {
        var n := |TakePrefix(us, need).value|;
        assert us[..n] == [us[0]] + us[1..][..n - 1];
        forall k | 0 <= k < n ensures TotalOf(us[..k], Ada) < need {
          if k > 0 {
            assert us[..k] == [us[0]] + us[1..][..k - 1];
            TotalOfOne(us[0], us[1..][..k - 1], Ada);
          }
        }
      }
    }
  }

  lemma FirstIsLargest(us: seq<Utxo>)
    requires Descends(us) && us != []
    ensures Descends(us[1..]) && forall u :: u in us ==> u.value.lovelace <= us[0].value.lovelace
  {}

  lemma {:induction false} PrefixIsFewest(us: seq<Utxo>, need: nat, part: seq<Utxo>)
    requires Descends(us) && multiset(part) <= multiset(us) && TotalOf(part, Ada) >= need
    ensures TakePrefix(us, need).Ok? && |TakePrefix(us, need).value| <= |part|
  {
    if need != 0 {
      assert part != [] && Last(part) in multiset(part) && Last(part) in multiset(us);
      FirstIsLargest(us);
      var fewer := Exchange(part, us, 0, need);
      assert us == [us[0]] + us[1..];
      assert multiset(us) == multiset(us[1..]) + multiset{us[0]};
      CancelOne(multiset(fewer), multiset(us[1..]), us[0]);
      PrefixIsFewest(us[1..], SaturatingSub(need, us[0].value.lovelace), fewer);
    }
  }

  /** For a lovelace amount both selectors succeed on the same wallets and take the same
      number of inputs, the fewest of any covering part. */
  lemma SelectorsAgree(wallet: seq<Utxo>, amount: nat)
    ensures var greedy := Select(wallet, Value(amount, map[]));
      var prefix := TakePrefix(SortLarge(wallet), amount);
      && (greedy.Ok? <==> TotalOf(wallet, Ada) >= amount)
      && (prefix.Ok? <==> greedy.Ok?)
      && (greedy.Ok? ==> |prefix.value| == |greedy.value|)
      && (greedy.Ok? ==> forall part :: multiset(part) <= multiset(wallet) && TotalOf(part, Ada) >= amount ==>
            |greedy.value| <= |part|)
  {
    var target := Value(amount, map[]);
    var sorted := SortLarge(wallet);
    SortLargeSorts(wallet);
    SelectSound(wallet, target);
    PrefixSound(sorted, amount);
    if Select(wallet, target).Ok? {
      var picks := Select(wallet, target).value;
      assert TotalOf(picks, Ada) >= Amount(target, Ada);
      PartTotals(picks, wallet, Ada);
      PrefixIsFewest(sorted, amount, picks);
    }
    if TakePrefix(sorted, amount).Ok? {
      GreedyIsFewest(wallet, target, TakePrefix(sorted, amount).value);
    }
    if TotalOf(wallet, Ada) >= amount {
      GreedyIsFewest(wallet, target, wallet);
    }
    forall part | multiset(part) <= multiset(wallet) && TotalOf(part, Ada) >= amount
      ensures Select(wallet, target).Ok? && |Select(wallet, target).value| <= |part|
    {
      GreedyIsFewest(wallet, target, part);
    }
  }

  /** The loop of the older selector; the saturating total never hides a shortfall. */
  method SelectPrefix(utxos: seq<Utxo>, amount: nat) returns (r: Result<seq<Input>, ()>)
    requires amount < U64
    ensures r == match TakePrefix(SortLarge(utxos), amount)
      case Ok(picks) => Ok(Inputs(picks))
      case Err(e) => Err(e)
  {
    if amount == 0 {
      return Ok([]);
    }
    var sorted := SortLarge(utxos);
    var selected := [];
    var total: nat := 0;
    var i := 0;
    assert sorted[..0] == [] && sorted[0..] == sorted;
    PrefixFromNothing(TakePrefix(sorted, amount));
    while i < |sorted| && total < amount
      invariant i <= |sorted| && total < U64
      invariant selected == Inputs(sorted[..i])
      invariant PrefixFrom(sorted[..i], TakePrefix(sorted[i..], SaturatingSub(amount, total)))
        == TakePrefix(sorted, amount)
    {
      PrefixStep(sorted, i, SaturatingSub(amount, total));
      assert Init(sorted[..i + 1]) == sorted[..i];
      selected := selected + [sorted[i].input];
      total := Min(total + sorted[i].value.lovelace, U64 - 1);
      i := i + 1;
    }
    if total < amount {
      assert sorted[i..] == [];
      return Err(());
    }
    assert sorted[..i] + [] == sorted[..i];
    return Ok(selected);
  }

  ghost function PrefixFrom(picks: seq<Utxo>, r: Result<seq<Utxo>, ()>): Result<seq<Utxo>, ()> {
    match r
    case Ok(rest) => Ok(picks + rest)
    case Err(e) => Err(e)
  }

  lemma PrefixFromNothing(r: Result<seq<Utxo>, ()>)
    ensures PrefixFrom([], r) == r
  {
    if r.Ok? { assert [] + r.value == r.value; }
  }

  lemma PrefixStep(us: seq<Utxo>, i: nat, need: nat)
    requires i < |us| && need > 0
    ensures PrefixFrom(us[..i], TakePrefix(us[i..], need)) ==
      PrefixFrom(us[..i + 1], TakePrefix(us[i + 1..], SaturatingSub(need, us[i].value.lovelace)))
  {
    assert us[i..][1..] == us[i + 1..];
    var r := TakePrefix(us[i + 1..], SaturatingSub(need, us[i].value.lovelace));
    if r.Ok? {
      assert us[..i] + ([us[i]] + r.value) == us[..i + 1] + r.value;
    }
  }
}
