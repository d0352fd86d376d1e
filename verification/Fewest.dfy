/** For which targets the greedy selector always takes the fewest inputs: a candidate is
    scored by the kinds of asset it holds, not by how much, and that is enough exactly
    when the target is lovelace, lovelace and one single token, or very small. */
module Fewest {
  import opened Types
  import opened Values
  import opened Fuel

  type TokenId = (Bytes, Bytes)

  ghost function Tokens(v: Value): set<TokenId> {
    set p, n | p in v.assets && n in v.assets[p] && v.assets[p][n] > 0 :: (p, n)
  }

  ghost function Quantity(v: Value, t: TokenId): nat {
    Amount(v, Token(t.0, t.1))
  }

  ghost predicate Singles(v: Value) {
    forall t :: t in Tokens(v) ==> Quantity(v, t) == 1
  }

  /** No token; or every token once, and either just one of them or at most three units
      to find in all. */
  ghost predicate Easy(v: Value) {
    || Tokens(v) == {}
    || (Singles(v) && (|Tokens(v)| == 1 || |Tokens(v)| + v.lovelace <= 3))
  }

  ghost predicate Covering(us: seq<Utxo>, target: Value) {
    forall id :: TotalOf(us, id) >= Amount(target, id)
  }

  /** On this wallet no covering part is shorter than the greedy selection. */
  ghost predicate FewestOn(wallet: seq<Utxo>, target: Value) {
    forall part :: multiset(part) <= multiset(wallet) && Covering(part, target) ==>
      Select(wallet, target).Ok? && |Select(wallet, target).value| <= |part|
  }

  // ---- Tokens and hits ----

  lemma TokensAreHeld(v: Value)
    ensures forall t :: t in Tokens(v) <==> Quantity(v, t) > 0
  {}

  lemma HitsAreTokens(c: Value, r: Value)
    ensures forall t :: t in Hits(c, r) <==> t in Tokens(r) && Quantity(c, t) > 0
    ensures Hits(c, r) <= Tokens(r) && HitCount(c, r) <= |Tokens(r)|
  {
    Subset(Hits(c, r), Tokens(r));
  }

  lemma Subset<T>(a: set<T>, b: set<T>)
    requires a <= b
    ensures |a| <= |b| && |b - a| == |b| - |a|
  {
    assert b == a + (b - a);
  }

  lemma NoTokensNoAssets(v: Value)
    requires Normal(v)
    ensures Tokens(v) == {} <==> v.assets == map[]
  {
    if v.assets != map[] {
      var p :| p in v.assets;
      var n :| n in v.assets[p];
      assert (p, n) in Tokens(v);
    }
  }

  lemma TotalOfTwo(x: Utxo, y: Utxo, id: AssetId)
    ensures TotalOf([x, y], id) == Amount(x.value, id) + Amount(y.value, id)
  {
    TotalOfOne(x, [y], id);
    TotalOfOne(y, [], id);
    assert [x] + [y] == [x, y] && [y] + [] == [y];
  }

  /** Some input of a part holds whatever the part holds in total. */
  lemma {:induction false} SomeHolds(us: seq<Utxo>, id: AssetId) returns (i: nat)
    requires TotalOf(us, id) > 0
    ensures i < |us| && Amount(us[i].value, id) > 0
  {
    if Amount(Last(us).value, id) > 0 {
      i := |us| - 1;
    } else {
      i := SomeHolds(Init(us), id);
    }
  }

  // ---- Targets of single tokens ----

  /** Units still to find. */
  ghost function Need(r: Value): nat {
    |Tokens(r)| + r.lovelace
  }

  ghost function Gain(s: Score): nat {
    s.hits + s.ada
  }

  lemma LessQuantities(r: Value, c: Value)
    ensures forall t :: Quantity(SubValue(r, c), t) == SaturatingSub(Quantity(r, t), Quantity(c, t))
    ensures Normal(SubValue(r, c))
  {
    SubAmounts(r, c);
  }

  lemma LessTokens(r: Value, c: Value, less: Value)
    requires Singles(r)
    requires forall t :: Quantity(less, t) == SaturatingSub(Quantity(r, t), Quantity(c, t))
    ensures Singles(less) && Tokens(less) == Tokens(r) - Hits(c, r)
  {
    HitsAreTokens(c, r);
    TokensAreHeld(r);
    TokensAreHeld(less);
    forall t ensures t in Tokens(less) <==> t in Tokens(r) - Hits(c, r) {
      assert t in Tokens(less) <==> SaturatingSub(Quantity(r, t), Quantity(c, t)) > 0;
    }
  }

  /** When every token is needed once, a pick settles exactly what it scores. */
  lemma PickLowers(r: Value, c: Value)
    requires Singles(r)
    ensures var less := SubValue(r, c);
      && Normal(less) && Singles(less)
      && |Tokens(less)| == |Tokens(r)| - HitCount(c, r)
      && Need(less) == Need(r) - Gain(ScoreOf(c, r))
  {
    LessQuantities(r, c);
    LessTokens(r, c, SubValue(r, c));
    HitsAreTokens(c, r);
    Subset(Hits(c, r), Tokens(r));
  }

  lemma HoldingGains(c: Value, r: Value, id: AssetId)
    requires Amount(c, id) > 0 && Amount(r, id) > 0
    ensures Gain(ScoreOf(c, r)) > 0
  {
    HitsAreTokens(c, r);
    TokensAreHeld(r);
    if id.Token? {
      var t := (id.policy, id.name);
      assert Quantity(r, t) > 0 && Quantity(c, t) > 0;
      assert t in Hits(c, r);
      Subset({t}, Hits(c, r));
    } else {
      assert c.lovelace > 0 && r.lovelace > 0;
    }
  }

  /** A wallet that covers a need has a candidate that adds to it, so the best does. */
  lemma BestGains(available: seq<Utxo>, r: Value)
    requires Normal(r) && !IsEmpty(r) && Covering(available, r)
    ensures available != [] && Gain(ScoreOf(available[Best(available, r)].value, r)) > 0
  {
    EmptyIsNothing(r);
    var id :| Amount(r, id) > 0;
    assert TotalOf(available, id) >= Amount(r, id);
    var i := SomeHolds(available, id);
    HoldingGains(available[i].value, r, id);
  }

  lemma CoveringRest(available: seq<Utxo>, k: nat, r: Value)
    requires k < |available| && Covering(available, r)
    ensures Covering(SwapRemove(available, k), SubValue(r, available[k].value))
  {
    SubAmounts(r, available[k].value);
    forall id ensures TotalOf(SwapRemove(available, k), id) >= Amount(SubValue(r, available[k].value), id) {
      SwapRemoveTotals(available, k, id);
    }
  }

  /** The greedy loop never takes more inputs than there are units to find. */
  lemma {:induction false} GreedyWithinNeed(available: seq<Utxo>, r: Value)
    requires Normal(r) && Singles(r) && Covering(available, r)
    ensures Select(available, r).Ok? && |Select(available, r).value| <= Need(r)
    decreases |available|
  {
    if !IsEmpty(r) {
      BestGains(available, r);
      GreedyAfterPick(available, r);
    }
  }

  lemma {:induction false} GreedyAfterPick(available: seq<Utxo>, r: Value)
    requires Normal(r) && Singles(r) && Covering(available, r) && !IsEmpty(r)
    ensures available != [] && Select(available, r).Ok?
    ensures |Select(available, r).value|
      <= 1 + Need(r) - Gain(ScoreOf(available[Best(available, r)].value, r))
    decreases |available|, 0
  {
    BestGains(available, r);
    var k := Best(available, r);
    PickLowers(r, available[k].value);
    CoveringRest(available, k, r);
    GreedyWithinNeed(SwapRemove(available, k), SubValue(r, available[k].value));
  }

  /** With at most three units to find, two tokens or more among them, the greedy
      selection is as short as any. */
  lemma SmallNeedFewest(available: seq<Utxo>, r: Value, part: seq<Utxo>)
    requires Normal(r) && Singles(r) && |Tokens(r)| >= 2 && Need(r) <= 3
    requires multiset(part) <= multiset(available) && Covering(part, r)
    ensures Select(available, r).Ok? && |Select(available, r).value| <= |part|
  {
    forall id ensures TotalOf(available, id) >= Amount(r, id) { PartTotals(part, available, id); }
    NoTokensNoAssets(r);
    GreedyWithinNeed(available, r);
    GreedyAfterPick(available, r);
    var best := ScoreOf(available[Best(available, r)].value, r);
    forall u | u in part ensures AtMost(ScoreOf(u.value, r), best) {
      assert u in multiset(part) && u in multiset(available);
    }
    HitsAreTokens(available[Best(available, r)].value, r);
    ShortPart(part, r, best);
  }

  /** A covering part of one or two inputs holds one that scores enough. */
  lemma ShortPart(part: seq<Utxo>, r: Value, best: Score)
    requires Normal(r) && |Tokens(r)| >= 2 && Need(r) <= 3 && Covering(part, r)
    requires best.hits <= |Tokens(r)| && forall u :: u in part ==> AtMost(ScoreOf(u.value, r), best)
    ensures |part| >= Need(r) || |part| >= 1 + Need(r) - Gain(best)
  {
    if |part| == 0 {
      NothingCovers(r);
    } else if |part| == 1 {
      assert part == [part[0]] + [];
      WholeScore(part[0], r);
      assert part[0] in part;
    } else if |part| == 2 {
      assert part == [part[0], part[1]];
      HalvesScore(part[0], part[1], r);
      assert part[0] in part && part[1] in part;
    }
  }

  lemma NothingCovers(r: Value)
    requires Covering([], r)
    ensures Tokens(r) == {}
  {
    TokensAreHeld(r);
    forall t ensures Quantity(r, t) == 0 {
      assert TotalOf([], Token(t.0, t.1)) >= Amount(r, Token(t.0, t.1));
    }
  }

  lemma WholeScore(u: Utxo, r: Value)
    requires Normal(r) && Covering([u] + [], r)
    ensures ScoreOf(u.value, r) == Score(|Tokens(r)|, r.lovelace)
  {
    forall id ensures Amount(u.value, id) >= Amount(r, id) { TotalOfOne(u, [], id); }
    HitsAreTokens(u.value, r);
    TokensAreHeld(r);
    forall t | t in Tokens(r) ensures t in Hits(u.value, r) {
      assert Quantity(u.value, t) >= Quantity(r, t);
    }
    assert Hits(u.value, r) == Tokens(r);
    assert Amount(u.value, Ada) >= Amount(r, Ada);
  }

  lemma HalvesScore(u: Utxo, v: Utxo, r: Value)
    requires Normal(r) && Covering([u, v], r)
    ensures Gain(ScoreOf(u.value, r)) + Gain(ScoreOf(v.value, r)) >= Need(r)
  {
    HitsAreTokens(u.value, r);
    HitsAreTokens(v.value, r);
    forall t | t in Tokens(r) ensures t in Hits(u.value, r) + Hits(v.value, r) {
      TotalOfTwo(u, v, Token(t.0, t.1));
    }
    Subset(Tokens(r), Hits(u.value, r) + Hits(v.value, r));
    TotalOfTwo(u, v, Ada);
    assert TotalOf([u, v], Ada) >= Amount(r, Ada);
  }

  /** One token is needed, and a covering part holds it: so does the best candidate, and of
      those holding it, it adds the most lovelace. */
  lemma BestHoldsToken(available: seq<Utxo>, r: Value, part: seq<Utxo>) returns (i: nat)
    requires Singles(r) && |Tokens(r)| == 1
    requires multiset(part) <= multiset(available) && Covering(part, r)
    ensures available != [] && i < |part|
    ensures var best := available[Best(available, r)].value;
      && HitCount(best, r) == 1
      && Min(part[i].value.lovelace, r.lovelace) <= Min(best.lovelace, r.lovelace)
  {
    var t :| t in Tokens(r);
    assert Quantity(r, t) == 1 && TotalOf(part, Token(t.0, t.1)) >= Quantity(r, t);
    i := SomeHolds(part, Token(t.0, t.1));
    assert part[i] in multiset(part) && part[i] in multiset(available);
    TokenIsHit(part[i].value, r, t);
    HitsAreTokens(available[Best(available, r)].value, r);
    assert AtMost(ScoreOf(part[i].value, r), ScoreOf(available[Best(available, r)].value, r));
  }

  lemma TokenIsHit(c: Value, r: Value, t: TokenId)
    requires t in Tokens(r) && Quantity(c, t) > 0 && |Tokens(r)| == 1
    ensures HitCount(c, r) == 1
  {
    HitsAreTokens(c, r);
    Subset({t}, Hits(c, r));
  }

  lemma SpentTokenLeavesLovelace(r: Value, c: Value)
    requires Singles(r) && HitCount(c, r) == |Tokens(r)|
    ensures SubValue(r, c) == Value(SaturatingSub(r.lovelace, c.lovelace), map[])
  {
    PickLowers(r, c);
    NoTokensNoAssets(SubValue(r, c));
  }

  /** Lovelace and one single token: the best candidate holds the token, so one exchange
      leaves a lovelace need. */
  lemma OneTokenFewest(available: seq<Utxo>, r: Value, part: seq<Utxo>)
    requires Normal(r) && Singles(r) && |Tokens(r)| == 1
    requires multiset(part) <= multiset(available) && Covering(part, r)
    ensures Select(available, r).Ok? && |Select(available, r).value| <= |part|
  {
    NoTokensNoAssets(r);
    var i := BestHoldsToken(available, r, part);
    var k := Best(available, r);
    var b := available[k];
    if b in part {
      i :| 0 <= i < |part| && part[i] == b;
    }
    assert TotalOf(part, Ada) >= Amount(r, Ada);
    var fewer := TakeOut(part, i, available, k, r.lovelace);
    SpentTokenLeavesLovelace(r, b.value);
    SwapRemoveTotals(available, k, Ada);
    CancelOne(multiset(fewer), multiset(SwapRemove(available, k)), b);
    GreedyIsFewest(SwapRemove(available, k), SubValue(r, b.value), fewer);
  }

  lemma EasyFewest(wallet: seq<Utxo>, target: Value)
    requires Normal(target) && Easy(target)
    ensures FewestOn(wallet, target)
  {
    NoTokensNoAssets(target);
    forall part | multiset(part) <= multiset(wallet) && Covering(part, target)
      ensures Select(wallet, target).Ok? && |Select(wallet, target).value| <= |part|
    {
      if Tokens(target) == {} {
        assert TotalOf(part, Ada) >= Amount(target, Ada);
        GreedyIsFewest(wallet, target, part);
      } else if |Tokens(target)| == 1 {
        OneTokenFewest(wallet, target, part);
      } else {
        Subset({}, Tokens(target));
        SmallNeedFewest(wallet, target, part);
      }
    }
  }

  // ---- Wallets that mislead the greedy choice ----

  /** Some lovelace and one of each token. */
  ghost function Holding(lovelace: nat, ts: set<TokenId>): Value {
    Value(lovelace, map p | p in Policies(ts) :: OneEach(Names(ts, p)))
  }

  ghost function Policies(ts: set<TokenId>): set<Bytes> {
    set t | t in ts :: t.0
  }

  ghost function Names(ts: set<TokenId>, policy: Bytes): set<Bytes> {
    set t | t in ts && t.0 == policy :: t.1
  }

  ghost function OneEach(names: set<Bytes>): Quantities {
    map n | n in names :: 1
  }

  lemma HoldingQuantity(lovelace: nat, ts: set<TokenId>, t: TokenId)
    ensures Quantity(Holding(lovelace, ts), t) == if t in ts then 1 else 0
  {
    if t in ts { assert t.0 in Policies(ts) && t.1 in Names(ts, t.0); }
  }

  lemma HoldingScores(lovelace: nat, ts: set<TokenId>, r: Value)
    requires ts <= Tokens(r)
    ensures Holding(lovelace, ts).lovelace == lovelace
    ensures forall t :: Quantity(Holding(lovelace, ts), t) == if t in ts then 1 else 0
    ensures ScoreOf(Holding(lovelace, ts), r) == Score(|ts|, Min(lovelace, r.lovelace))
  {
    var v := Holding(lovelace, ts);
    forall t ensures Quantity(v, t) == if t in ts then 1 else 0 { HoldingQuantity(lovelace, ts, t); }
    HitsAreTokens(v, r);
    assert Hits(v, r) == ts;
  }

  lemma LastWins(us: seq<Utxo>, r: Value)
    requires us != []
    requires forall i :: 0 <= i < |us| ==> AtMost(ScoreOf(us[i].value, r), ScoreOf(Last(us).value, r))
    ensures Best(us, r) == |us| - 1
  {
    var ss := ScoresOf(us, r);
    assert AtMost(ss[BestOf(ss)], ss[|us| - 1]);
  }

  lemma NotEmpty(target: Value, us: seq<Utxo>)
    requires Normal(target) && !Covering(us, target)
    ensures !IsEmpty(target)
  {
    EmptyIsNothing(target);
  }

  lemma FirstPick(wallet: seq<Utxo>, target: Value)
    requires wallet != [] && !IsEmpty(target) && Select(wallet, target).Ok?
    ensures var k := Best(wallet, target);
      var rest := Select(SwapRemove(wallet, k), SubValue(target, wallet[k].value));
      rest.Ok? && Select(wallet, target).value == [wallet[k]] + rest.value
  {}

  lemma OnePickCovers(picks: seq<Utxo>, z: Utxo, target: Value)
    requires picks != [] && picks[0] == z && Covering(picks, target)
    ensures |picks| <= 1 ==> Covering([z], target)
  {
    assert |picks| == 1 ==> picks == [z];
  }

  lemma TwoPicksCover(picks: seq<Utxo>, rest: seq<Utxo>, x: Utxo, y: Utxo, z: Utxo, target: Value)
    requires picks == [z] + rest && multiset(rest) <= multiset([x, y]) && Covering(picks, target)
    ensures |picks| <= 2 ==> Covering([z, x], target) || Covering([z, y], target)
  {
    if rest == [] {
      forall id ensures TotalOf([z, x], id) >= TotalOf(picks, id) {
        TotalOfTwo(z, x, id);
        TotalOfOne(z, rest, id);
      }
    } else if |rest| == 1 {
      assert rest[0] in multiset(rest) && rest[0] in multiset([x, y]);
      assert picks == [z, rest[0]];
    }
  }

  /** The last of a tie is taken first, and the wallet's covering input is still needed. */
  lemma TwoForOne(x: Utxo, z: Utxo, target: Value)
    requires Normal(target) && Covering([x], target) && !Covering([z], target)
    requires AtMost(ScoreOf(x.value, target), ScoreOf(z.value, target))
    ensures !FewestOn([x, z], target)
  {
    var wallet := [x, z];
    NotEmpty(target, [z]);
    LastWins(wallet, target);
    assert multiset([x]) <= multiset(wallet);
    SelectSound(wallet, target);
    if Select(wallet, target).Ok? {
      FirstPick(wallet, target);
      OnePickCovers(Select(wallet, target).value, z, target);
    }
  }

  lemma ThirdIsTaken(x: Utxo, y: Utxo, z: Utxo, target: Value)
    requires AtMost(ScoreOf(x.value, target), ScoreOf(z.value, target))
    requires AtMost(ScoreOf(y.value, target), ScoreOf(z.value, target))
    ensures Best([x, y, z], target) == 2 && SwapRemove([x, y, z], 2) == [x, y]
    ensures multiset([x, y]) <= multiset([x, y, z])
  {
    LastWins([x, y, z], target);
  }

  /** The last of a tie is taken first, and helps neither of two that cover together. */
  lemma ThreeForTwo(x: Utxo, y: Utxo, z: Utxo, target: Value)
    requires Normal(target)
    requires Covering([x, y], target) && !Covering([z, x], target) && !Covering([z, y], target)
    requires AtMost(ScoreOf(x.value, target), ScoreOf(z.value, target))
    requires AtMost(ScoreOf(y.value, target), ScoreOf(z.value, target))
    ensures !FewestOn([x, y, z], target)
  {
    var wallet, less := [x, y, z], SubValue(target, z.value);
    NotEmpty(target, [z, x]);
    ThirdIsTaken(x, y, z, target);
    SelectSound(wallet, target);
    LessQuantities(target, z.value);
    SelectSound([x, y], less);
    if Select(wallet, target).Ok? {
      FirstPick(wallet, target);
      TwoPicksCover(Select(wallet, target).value, Select([x, y], less).value, x, y, z, target);
    }
  }

  lemma CoveringTwo(x: Utxo, y: Utxo, target: Value)
    requires Normal(target)
    requires x.value.lovelace + y.value.lovelace >= target.lovelace
    requires forall t :: t in Tokens(target) ==> Quantity(x.value, t) + Quantity(y.value, t) >= Quantity(target, t)
    ensures Covering([x, y], target)
  {
    TokensAreHeld(target);
    forall id ensures TotalOf([x, y], id) >= Amount(target, id) {
      TotalOfTwo(x, y, id);
      if id.Token? {
        var t := (id.policy, id.name);
        assert Quantity(target, t) == Amount(target, id);
        assert Quantity(x.value, t) == Amount(x.value, id) && Quantity(y.value, t) == Amount(y.value, id);
      }
    }
  }

  lemma MissesToken(us: seq<Utxo>, target: Value, t: TokenId)
    requires TotalOf(us, Token(t.0, t.1)) < Quantity(target, t)
    ensures !Covering(us, target)
  {}

  lemma WholeCovers(x: Utxo, target: Value)
    requires x.value == target
    ensures Covering([x], target)
  {
    forall id ensures TotalOf([x], id) >= Amount(target, id) {
      TotalOfOne(x, [], id);
      assert [x] + [] == [x];
    }
  }

  lemma OneMisses(z: Utxo, target: Value, t: TokenId)
    requires Quantity(z.value, t) < Quantity(target, t)
    ensures !Covering([z], target)
  {
    TotalOfOne(z, [], Token(t.0, t.1));
    assert [z] + [] == [z];
    MissesToken([z], target, t);
  }

  /** A token needed more than once: one of each scores as much as the whole target. */
  lemma ManyOfOne(target: Value, t: TokenId, x: Utxo, z: Utxo)
    requires Normal(target) && t in Tokens(target) && Quantity(target, t) > 1
    requires x.value == target && z.value == Holding(target.lovelace, Tokens(target))
    ensures !FewestOn([x, z], target)
  {
    HoldingScores(target.lovelace, Tokens(target), target);
    WholeCovers(x, target);
    assert [x] + [] == [x];
    WholeScore(x, target);
    OneMisses(z, target, t);
    TwoForOne(x, z, target);
  }

  /** Some lovelace and some single tokens. */
  datatype Lot = Lot(lovelace: nat, tokens: set<TokenId>)

  ghost function Holder(i: nat, lot: Lot): Utxo {
    Utxo(Input(0, i), Holding(lot.lovelace, lot.tokens))
  }

  /** Together the lots hold every token and the lovelace. */
  ghost predicate Enough(a: Lot, b: Lot, all: set<TokenId>, l: nat) {
    a.lovelace + b.lovelace >= l && a.tokens + b.tokens == all
  }

  ghost predicate NoLess(a: Lot, b: Lot, l: nat) {
    AtMost(Score(|b.tokens|, Min(b.lovelace, l)), Score(|a.tokens|, Min(a.lovelace, l)))
  }

  /** Two lots are enough; a third, scoring no less, is no help to either. */
  ghost predicate Misleading(a: Lot, b: Lot, c: Lot, all: set<TokenId>, l: nat) {
    && a.tokens <= all && b.tokens <= all && c.tokens <= all
    && Enough(a, b, all, l) && !Enough(c, a, all, l) && !Enough(c, b, all, l)
    && NoLess(c, a, l) && NoLess(c, b, l)
  }

  lemma EnoughTogether(x: Utxo, y: Utxo, a: Lot, b: Lot, target: Value)
    requires Normal(target) && Singles(target) && a.tokens <= Tokens(target) && b.tokens <= Tokens(target)
    requires x.value == Holding(a.lovelace, a.tokens) && y.value == Holding(b.lovelace, b.tokens)
    requires Enough(a, b, Tokens(target), target.lovelace)
    ensures Covering([x, y], target)
  {
    HoldingScores(a.lovelace, a.tokens, target);
    HoldingScores(b.lovelace, b.tokens, target);
    CoveringTwo(x, y, target);
  }

  lemma ShortOfLovelace(x: Utxo, y: Utxo, target: Value)
    requires x.value.lovelace + y.value.lovelace < target.lovelace
    ensures !Covering([x, y], target)
  {
    TotalOfTwo(x, y, Ada);
    assert TotalOf([x, y], Ada) < Amount(target, Ada);
  }

  lemma ShortOfToken(x: Utxo, y: Utxo, t: TokenId, target: Value)
    requires t in Tokens(target) && Quantity(x.value, t) == 0 && Quantity(y.value, t) == 0
    ensures !Covering([x, y], target)
  {
    TotalOfTwo(x, y, Token(t.0, t.1));
    TokensAreHeld(target);
    MissesToken([x, y], target, t);
  }

  lemma NotEnough(x: Utxo, y: Utxo, a: Lot, b: Lot, target: Value)
    requires a.tokens <= Tokens(target) && b.tokens <= Tokens(target)
    requires x.value == Holding(a.lovelace, a.tokens) && y.value == Holding(b.lovelace, b.tokens)
    requires !Enough(a, b, Tokens(target), target.lovelace)
    ensures !Covering([x, y], target)
  {
    if a.lovelace + b.lovelace < target.lovelace {
      ShortOfLovelace(x, y, target);
    } else {
      var t :| t in Tokens(target) && t !in a.tokens + b.tokens;
      HoldingQuantity(a.lovelace, a.tokens, t);
      HoldingQuantity(b.lovelace, b.tokens, t);
      ShortOfToken(x, y, t, target);
    }
  }

  lemma LotsMislead(target: Value, a: Lot, b: Lot, c: Lot, x: Utxo, y: Utxo, z: Utxo)
    requires Normal(target) && Singles(target)
    requires Misleading(a, b, c, Tokens(target), target.lovelace)
    requires x == Holder(0, a) && y == Holder(1, b) && z == Holder(2, c)
    ensures !FewestOn([x, y, z], target)
  {
    EnoughTogether(x, y, a, b, target);
    NotEnough(z, x, c, a, target);
    NotEnough(z, y, c, b, target);
    HoldingScores(a.lovelace, a.tokens, target);
    HoldingScores(b.lovelace, b.tokens, target);
    HoldingScores(c.lovelace, c.tokens, target);
    ThreeForTwo(x, y, z, target);
  }

  lemma Misleads(target: Value, a: Lot, b: Lot, c: Lot)
    requires Normal(target) && Singles(target)
    requires Misleading(a, b, c, Tokens(target), target.lovelace)
    ensures Misled(target)
  {
    var x, y, z := Holder(0, a), Holder(1, b), Holder(2, c);
    LotsMislead(target, a, b, c, x, y, z);
    ThreeDistinct(x, y, z);
    SomeWallet([x, y, z], target);
  }

  /** On some wallet the greedy selection takes more inputs than another covering part. */
  ghost predicate Misled(target: Value) {
    exists wallet :: DistinctInputs(wallet) && !FewestOn(wallet, target)
  }

  lemma SomeWallet(wallet: seq<Utxo>, target: Value)
    requires DistinctInputs(wallet) && !FewestOn(wallet, target)
    ensures Misled(target)
  {}

  lemma ThreeDistinct(x: Utxo, y: Utxo, z: Utxo)
    requires x.input != y.input && x.input != z.input && y.input != z.input
    ensures DistinctInputs([x, y, z])
  {}

  lemma TwoTokens(all: set<TokenId>, l: nat) returns (a: Lot, b: Lot, c: Lot)
    requires |all| == 2 && l >= 2
    ensures Misleading(a, b, c, all, l)
  {
    var t :| t in all;
    Subset({t}, all);
    a, b, c := Lot(1, {t}), Lot(l - 1, all - {t}), Lot(0, all);
    assert a.tokens + b.tokens == all;
  }

  lemma ThreeTokens(all: set<TokenId>, l: nat) returns (a: Lot, b: Lot, c: Lot)
    requires |all| == 3 && l >= 1
    ensures Misleading(a, b, c, all, l)
  {
    var t :| t in all;
    Subset({t}, all);
    var u :| u in all - {t};
    Subset({u}, all);
    a, b, c := Lot(0, all - {t}), Lot(l, {t}), Lot(0, all - {u});
    assert a.tokens + b.tokens == all;
    assert u !in c.tokens + b.tokens;
  }

  lemma FourTokens(all: set<TokenId>, l: nat) returns (a: Lot, b: Lot, c: Lot)
    requires |all| >= 4
    ensures Misleading(a, b, c, all, l)
  {
    var t :| t in all;
    Subset({t}, all);
    var u :| u in all - {t};
    Subset({t, u}, all);
    var v :| v in all - {t, u};
    Subset({u, v}, all);
    a, b, c := Lot(l, all - {t, u}), Lot(l, {t, u}), Lot(l, all - {u, v});
    assert a.tokens + b.tokens == all;
    assert u !in c.tokens + a.tokens && v !in c.tokens + b.tokens;
  }

  lemma HardLots(all: set<TokenId>, l: nat) returns (a: Lot, b: Lot, c: Lot)
    requires |all| >= 2 && |all| + l > 3
    ensures Misleading(a, b, c, all, l)
  {
    if |all| == 2 {
      a, b, c := TwoTokens(all, l);
    } else if |all| == 3 {
      a, b, c := ThreeTokens(all, l);
    } else {
      a, b, c := FourTokens(all, l);
    }
  }

  lemma ManyMislead(target: Value)
    requires Normal(target) && !Singles(target)
    ensures Misled(target)
  {
    TokensAreHeld(target);
    var t :| t in Tokens(target) && Quantity(target, t) != 1;
    var x, z := Utxo(Input(0, 0), target), Utxo(Input(0, 1), Holding(target.lovelace, Tokens(target)));
    ManyOfOne(target, t, x, z);
    SomeWallet([x, z], target);
  }

  lemma HardMisleads(target: Value)
    requires Normal(target) && !Easy(target)
    ensures Misled(target)
  {
    if !Singles(target) {
      ManyMislead(target);
    } else {
      Subset({}, Tokens(target));
      var a, b, c := HardLots(Tokens(target), target.lovelace);
      Misleads(target, a, b, c);
    }
  }

  /** The greedy selection is the fewest on every wallet exactly for the easy targets. */
  lemma GreedyFewestExactly(target: Value)
    requires Normal(target)
    ensures (forall wallet | DistinctInputs(wallet) :: FewestOn(wallet, target)) <==> Easy(target)
    ensures Easy(target) ==> forall wallet :: FewestOn(wallet, target)
  {
    if Easy(target) {
      forall wallet ensures FewestOn(wallet, target) { EasyFewest(wallet, target); }
    } else {
      HardMisleads(target);
    }
  }
}
