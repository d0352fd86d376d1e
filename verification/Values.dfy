/** Multi-asset values: lovelace plus quantities by policy and asset name. */
module Values {
  import opened Types

  type Quantities = map<Bytes, nat>

  datatype Value = Value(lovelace: nat, assets: map<Bytes, Quantities>)

  datatype AssetId = Ada | Token(policy: Bytes, name: Bytes)

  function Get(q: Quantities, name: Bytes): nat {
    if name in q then q[name] else 0
  }

  function Inner(v: Value, policy: Bytes): Quantities {
    if policy in v.assets then v.assets[policy] else map[]
  }

  function Amount(v: Value, id: AssetId): nat {
    match id
    case Ada => v.lovelace
    case Token(policy, name) => Get(Inner(v, policy), name)
  }

  /** Normal form: no zero quantities, no empty policies. */
  ghost predicate Normal(v: Value) {
    forall p :: p in v.assets ==>
      v.assets[p] != map[] && forall n :: n in v.assets[p] ==> v.assets[p][n] > 0
  }

  predicate IsEmpty(v: Value) {
    v.lovelace == 0 && v.assets == map[]
  }

  lemma EmptyIsNothing(v: Value)
    requires Normal(v)
    ensures IsEmpty(v) <==> forall id :: Amount(v, id) == 0
  {
    if !IsEmpty(v) && v.lovelace == 0 {
      var p :| p in v.assets;
      var n :| n in v.assets[p];
      assert Amount(v, Token(p, n)) > 0;
    }
    assert Amount(v, Ada) == v.lovelace;
  }

  // ---- Addition ----

  function AddQuantities(a: Quantities, b: Quantities): Quantities {
    map n | n in a.Keys + b.Keys && Get(a, n) + Get(b, n) > 0 :: Get(a, n) + Get(b, n)
  }

  /** Sum of two values, pruned to normal form. */
  function AddValue(a: Value, b: Value): Value {
    Value(a.lovelace + b.lovelace,
          map p | p in a.assets.Keys + b.assets.Keys && AddQuantities(Inner(a, p), Inner(b, p)) != map[] ::
            AddQuantities(Inner(a, p), Inner(b, p)))
  }

  lemma AddAmounts(a: Value, b: Value)
    ensures Normal(AddValue(a, b))
    ensures forall id :: Amount(AddValue(a, b), id) == Amount(a, id) + Amount(b, id)
  {
    forall id ensures Amount(AddValue(a, b), id) == Amount(a, id) + Amount(b, id) {
      if id.Token? {
        var q := AddQuantities(Inner(a, id.policy), Inner(b, id.policy));
        assert Get(q, id.name) == Get(Inner(a, id.policy), id.name) + Get(Inner(b, id.policy), id.name);
      }
    }
  }

  // ---- Saturating subtraction ----

  function LeftOver(a: Quantities, b: Quantities): Quantities {
    map n | n in a && a[n] > Get(b, n) :: a[n] - Get(b, n)
  }

  function SubValue(a: Value, b: Value): Value {
    Value(SaturatingSub(a.lovelace, b.lovelace),
          map p | p in a.assets && LeftOver(a.assets[p], Inner(b, p)) != map[] ::
            LeftOver(a.assets[p], Inner(b, p)))
  }

  lemma SubAmounts(a: Value, b: Value)
    ensures Normal(SubValue(a, b))
    ensures forall id :: Amount(SubValue(a, b), id) == SaturatingSub(Amount(a, id), Amount(b, id))
  {
    forall id ensures Amount(SubValue(a, b), id) == SaturatingSub(Amount(a, id), Amount(b, id)) {
      if id.Token? && id.policy in a.assets {
        var q := LeftOver(a.assets[id.policy], Inner(b, id.policy));
        assert Get(q, id.name) == SaturatingSub(Get(a.assets[id.policy], id.name), Get(Inner(b, id.policy), id.name));
      }
    }
  }

  /** Nothing of policy `p` changes when `b` holds none of it. */
  lemma LeftOverNothing(a: Quantities)
    requires forall n :: n in a ==> a[n] > 0
    ensures LeftOver(a, map[]) == a
  {}

  /** One policy, edited name by name: subtract, and drop what reaches zero. */
  method SubtractNames(a: Quantities, b: Quantities) returns (r: Quantities)
    requires forall n :: n in a ==> a[n] > 0
    ensures r == LeftOver(a, b)
  {
    r := a;
    var names := b.Keys;
    while names != {}
      invariant names <= b.Keys
      invariant r == map n | n in a && (n in names || a[n] > Get(b, n)) ::
        if n in names then a[n] else a[n] - Get(b, n)
      decreases names
    {
      var n :| n in names;
      names := names - {n};
      if n in r {
        r := r[n := SaturatingSub(r[n], b[n])];
        if r[n] == 0 {
          r := r - {n};
        }
      }
    }
  }

  ghost function Part(a: Value, b: Value, todo: set<Bytes>, p: Bytes): Quantities
    requires p in a.assets
  {
    if p in todo then a.assets[p] else LeftOver(a.assets[p], Inner(b, p))
  }

  /** The assets once all policies but `todo` have been subtracted. */
  ghost function Partly(a: Value, b: Value, todo: set<Bytes>): map<Bytes, Quantities> {
    map p | p in a.assets && Part(a, b, todo, p) != map[] :: Part(a, b, todo, p)
  }

  lemma PartlyStart(a: Value, b: Value)
    requires Normal(a)
    ensures Partly(a, b, b.assets.Keys) == a.assets
  {
    forall p | p in a.assets && p !in b.assets ensures LeftOver(a.assets[p], Inner(b, p)) == a.assets[p] {
      LeftOverNothing(a.assets[p]);
    }
  }

  lemma PartlyOther(a: Value, b: Value, todo: set<Bytes>, p: Bytes, q: Bytes)
    requires p != q
    ensures q in Partly(a, b, todo - {p}) <==> q in Partly(a, b, todo)
    ensures q in Partly(a, b, todo) ==> Partly(a, b, todo - {p})[q] == Partly(a, b, todo)[q]
  {
    if q in a.assets {
      assert Part(a, b, todo - {p}, q) == Part(a, b, todo, q);
    }
  }

  ghost function Edited(m: map<Bytes, Quantities>, p: Bytes, left: Quantities): map<Bytes, Quantities> {
    if left == map[] then m - {p} else m[p := left]
  }

  lemma PartlyStep(a: Value, b: Value, todo: set<Bytes>, p: Bytes)
    requires Normal(a) && p in todo && p in b.assets
    ensures p !in a.assets ==> Partly(a, b, todo - {p}) == Partly(a, b, todo)
    ensures p in a.assets ==>
      Partly(a, b, todo - {p}) == Edited(Partly(a, b, todo), p, LeftOver(a.assets[p], b.assets[p]))
  {
    var before, after := Partly(a, b, todo), Partly(a, b, todo - {p});
    forall q | q != p
      ensures (q in after <==> q in before) && (q in before ==> after[q] == before[q])
    {
      PartlyOther(a, b, todo, p, q);
    }
    if p in a.assets {
      PartlyHere(a, b, todo, p);
      SamePoints(after, Edited(before, p, LeftOver(a.assets[p], b.assets[p])));
    } else {
      SamePoints(after, before);
    }
  }

  lemma SamePoints(x: map<Bytes, Quantities>, y: map<Bytes, Quantities>)
    requires forall q :: (q in x <==> q in y) && (q in x ==> x[q] == y[q])
    ensures x == y
  {}

  lemma PartlyUntouched(a: Value, b: Value, todo: set<Bytes>, p: Bytes)
    requires Normal(a) && p in todo
    ensures p in Partly(a, b, todo) <==> p in a.assets
    ensures p in a.assets ==> Partly(a, b, todo)[p] == a.assets[p]
  {}

  lemma PartlyHere(a: Value, b: Value, todo: set<Bytes>, p: Bytes)
    requires p in a.assets && p in todo && p in b.assets
    ensures var left := LeftOver(a.assets[p], b.assets[p]);
      var after := Partly(a, b, todo - {p});
      (p in after <==> left != map[]) && (p in after ==> after[p] == left)
  {
    assert Part(a, b, todo - {p}, p) == LeftOver(a.assets[p], b.assets[p]);
  }

  lemma PartlyEnd(a: Value, b: Value)
    ensures Partly(a, b, {}) == SubValue(a, b).assets
  {
    forall p | p in a.assets ensures Part(a, b, {}, p) == LeftOver(a.assets[p], Inner(b, p)) {}
  }

  /** One policy: subtract, and drop it if left empty. */
  method SubtractPolicy(a: Value, b: Value, assets: map<Bytes, Quantities>, p: Bytes, ghost todo: set<Bytes>)
    returns (r: map<Bytes, Quantities>)
    requires Normal(a) && p in todo && p in b.assets && assets == Partly(a, b, todo)
    ensures r == Partly(a, b, todo - {p})
  {
    PartlyUntouched(a, b, todo, p);
    PartlyStep(a, b, todo, p);
    r := assets;
    if p in r {
      var left := SubtractNames(r[p], b.assets[p]);
      r := r[p := left];
      if left == map[] {
        r := r - {p};
      }
    }
  }

  /** Policy by policy, the saturating difference. */
  method SaturatingSubValue(a: Value, b: Value) returns (r: Value)
    requires Normal(a)
    ensures r == SubValue(a, b)
  {
    var remaining := a.assets;
    var policies := b.assets.Keys;
    PartlyStart(a, b);
    while policies != {}
      invariant policies <= b.assets.Keys
      invariant remaining == Partly(a, b, policies)
      decreases policies
    {
      var p :| p in policies;
      remaining := SubtractPolicy(a, b, remaining, p, policies);
      policies := policies - {p};
    }
    PartlyEnd(a, b);
    r := Value(SaturatingSub(a.lovelace, b.lovelace), remaining);
  }
}
