/** Staging: intents per input become aligned inputs, steps and outputs, and the value
    that fuel must add. */
module Staging {
  import opened Types
  import opened Values
  import opened Fuel
  import opened Fewest
  import opened Channels

  const FEE_BUFFER: nat := 4_000_000

  datatype BuildError = MissingReference | MissingUtxo | NotCovered(short: Value) | Balancing

  datatype StageError = MissingInput | InStep(error: StepError)

  /** What is handed to the transaction builder. */
  datatype Parts = Parts(inputs: seq<(Input, Redeemer)>, fuel: seq<Input>, outputs: seq<Channel>)

  // ---- Inputs in order ----

  predicate Before(a: Input, b: Input) {
    a.txId < b.txId || (a.txId == b.txId && a.index < b.index)
  }

  predicate IsGreatest(m: Input, keys: set<Input>) {
    m in keys && forall k :: k in keys ==> k == m || Before(k, m)
  }

  lemma {:induction false} Greatest(keys: set<Input>) returns (m: Input)
    requires keys != {}
    ensures IsGreatest(m, keys)
    decreases |keys|
  {
    var k :| k in keys;
    var rest := keys - {k};
    if rest == {} {
      m := k;
    } else {
      var g := Greatest(rest);
      m := if Before(g, k) then k else g;
    }
    forall x | x in keys ensures x == m || Before(x, m) {
      assert x == k || x in rest;
    }
  }

  lemma GreatestExists(keys: set<Input>)
    requires keys != {}
    ensures exists m :: IsGreatest(m, keys)
  {
    var m := Greatest(keys);
  }

  /** The keys of an ordered map, in iteration order. */
  function Sorted(keys: set<Input>): (s: seq<Input>)
    ensures forall k :: k in s <==> k in keys
    ensures |s| == |keys|
    ensures forall i, j :: 0 <= i < j < |s| ==> Before(s[i], s[j])
    decreases |keys|
  {
    if keys == {} then []
    else
      GreatestExists(keys);
      var m :| IsGreatest(m, keys);
      Sorted(keys - {m}) + [m]
  }

  // ---- Views of the wills ----

  type Wills = map<Input, Will>

  function StepsOf(wills: Wills, keys: seq<Input>): (steps: seq<Step>)
    requires forall k :: k in keys ==> k in wills
    ensures |steps| == |keys|
    ensures forall i :: 0 <= i < |keys| ==> steps[i] == ToStep(wills[keys[i]])
  {
    seq(|keys|, i requires 0 <= i < |keys| => ToStep(wills[keys[i]]))
  }

  function Steps(wills: Wills): seq<Step> {
    StepsOf(wills, Sorted(wills.Keys))
  }

  function RedeemerAt(wills: Wills, i: nat): Redeemer {
    if i == 0 then Main(Steps(wills)) else Defer
  }

  function InputsOf(wills: Wills): (inputs: seq<(Input, Redeemer)>)
    ensures |inputs| == |wills.Keys|
    ensures forall i :: 0 <= i < |inputs| ==> inputs[i] == (Sorted(wills.Keys)[i], RedeemerAt(wills, i))
  {
    seq(|wills.Keys|, i requires 0 <= i < |wills.Keys| => (Sorted(wills.Keys)[i], RedeemerAt(wills, i)))
  }

  /** The channels that continue, in input order. */
  function Continuing(wills: Wills, keys: seq<Input>): seq<Channel>
    requires forall k :: k in keys ==> k in wills
  {
    if keys == [] then []
    else
      var w := wills[Last(keys)];
      Continuing(wills, Init(keys)) + if w.WillContinue? then [w.output] else []
  }

  function Outputs(wills: Wills, opens: seq<Channel>): seq<Channel> {
    Continuing(wills, Sorted(wills.Keys)) + opens
  }

  /** Steps and inputs align; only the first input carries them. */
  lemma InputsAlign(wills: Wills)
    ensures var inputs, steps := InputsOf(wills), Steps(wills);
      && |inputs| == |steps| == |wills|
      && (forall k :: 0 <= k < |inputs| ==> inputs[k].0 in wills && steps[k] == ToStep(wills[inputs[k].0]))
      && (forall i, j :: 0 <= i < j < |inputs| ==> Before(inputs[i].0, inputs[j].0))
      && (forall k :: 0 <= k < |inputs| ==> inputs[k].1 == if k == 0 then Main(steps) else Defer)
  {
    assert |wills.Keys| == |wills|;
  }

  function ContSteps(steps: seq<Step>): nat {
    if steps == [] then 0 else ContSteps(Init(steps)) + if Last(steps).StepCont? then 1 else 0
  }

  lemma {:induction false} ContinuingCounts(wills: Wills, keys: seq<Input>)
    requires forall k :: k in keys ==> k in wills
    ensures |Continuing(wills, keys)| == ContSteps(StepsOf(wills, keys))
  {
    if keys != [] {
      ContinuingCounts(wills, Init(keys));
      assert Init(StepsOf(wills, keys)) == StepsOf(wills, Init(keys));
    }
  }

  /** The continuing outputs follow the continuing steps: the output of step `k` stands
      after exactly as many outputs as there are continuing steps before `k`. */
  lemma {:induction false} OutputsAlign(wills: Wills, keys: seq<Input>, k: nat)
    requires k < |keys| && forall x :: x in keys ==> x in wills
    requires wills[keys[k]].WillContinue?
    ensures var at := ContSteps(StepsOf(wills, keys)[..k]);
      at < |Continuing(wills, keys)| && Continuing(wills, keys)[at] == wills[keys[k]].output
    decreases |keys|
  {
    var steps := StepsOf(wills, keys);
    assert Init(steps) == StepsOf(wills, Init(keys));
    ContinuingCounts(wills, Init(keys));
    if k == |keys| - 1 {
      assert steps[..k] == Init(steps);
    } else {
      OutputsAlign(wills, Init(keys), k);
      assert steps[..k] == Init(steps)[..k];
    }
  }

  /** All outputs: first one for each continuing step, in step order, then the opens in the
      order they were added. */
  ghost predicate OutputsFollow(outputs: seq<Channel>, wills: Wills, opens: seq<Channel>) {
    var keys, steps := Sorted(wills.Keys), Steps(wills);
    && |outputs| == ContSteps(steps) + |opens|
    && outputs[ContSteps(steps)..] == opens
    && forall k :: 0 <= k < |keys| && wills[keys[k]].WillContinue? ==>
         var at := ContSteps(steps[..k]);
         at < ContSteps(steps) && outputs[at] == wills[keys[k]].output
  }

  lemma OpensComeLast(wills: Wills, opens: seq<Channel>)
    ensures OutputsFollow(Outputs(wills, opens), wills, opens)
  {
    var keys, steps := Sorted(wills.Keys), Steps(wills);
    ContinuingCounts(wills, keys);
    forall k | 0 <= k < |keys| && wills[keys[k]].WillContinue?
      ensures var at := ContSteps(steps[..k]);
        at < ContSteps(steps) && Outputs(wills, opens)[at] == wills[keys[k]].output
    {
      OutputsAlign(wills, keys, k);
      LeadsConcat(Continuing(wills, keys), opens, ContSteps(steps[..k]));
    }
  }

  lemma LeadsConcat<T>(xs: seq<T>, ys: seq<T>, k: nat)
    requires k < |xs|
    ensures (xs + ys)[k] == xs[k]
  {}

  // ---- The balance ----

  type Utxos = map<Input, Value>

  /** The channels are those parsed from the outputs: their amount is what exceeds the
      ada buffer. */
  ghost predicate ParsedFrom(channels: map<Input, Channel>, utxos: Utxos) {
    forall i :: i in channels && i in utxos ==>
      channels[i].amount == SaturatingSub(utxos[i].lovelace, MIN_ADA_BUFFER)
  }

  /** What a will leaves in the channel. */
  function AmountAfter(w: Will): nat {
    match w
    case WillContinue(c, _) => c.amount
    case WillFinish(_) => 0
  }

  /** The gain of the wills: what leaves the channels. */
  function GainOf(channels: map<Input, Channel>, wills: Wills, keys: seq<Input>): int
    requires forall k :: k in keys ==> k in wills && k in channels
  {
    if keys == [] then 0
    else GainOf(channels, wills, Init(keys)) + channels[Last(keys)].amount - AmountAfter(wills[Last(keys)])
  }

  function Ended(wills: Wills, keys: seq<Input>): nat
    requires forall k :: k in keys ==> k in wills
  {
    if keys == [] then 0
    else Ended(wills, Init(keys)) + if wills[Last(keys)].WillFinish? then 1 else 0
  }

  function SpentLovelace(utxos: Utxos, keys: seq<Input>): nat
    requires forall k :: k in keys ==> k in utxos
  {
    if keys == [] then 0 else SpentLovelace(utxos, Init(keys)) + utxos[Last(keys)].lovelace
  }

  function ProducedLovelace(cs: seq<Channel>): nat {
    if cs == [] then 0 else ProducedLovelace(Init(cs)) + BufferedAmount(Last(cs))
  }

  /** How far the spent outputs fall short of one ada buffer each. */
  function Unbuffered(utxos: Utxos, keys: seq<Input>): nat
    requires forall k :: k in keys ==> k in utxos
  {
    if keys == [] then 0
    else Unbuffered(utxos, Init(keys)) + SaturatingSub(MIN_ADA_BUFFER, utxos[Last(keys)].lovelace)
  }

  lemma {:induction false} ProducedConcat(cs: seq<Channel>, ds: seq<Channel>)
    ensures ProducedLovelace(cs + ds) == ProducedLovelace(cs) + ProducedLovelace(ds)
  {
    if ds == [] {
      assert cs + ds == cs;
    } else {
      ProducedConcat(cs, Init(ds));
      assert Init(cs + ds) == cs + Init(ds);
    }
  }

  lemma {:induction false} KeysBalance(channels: map<Input, Channel>, wills: Wills, utxos: Utxos, keys: seq<Input>)
    requires forall k :: k in keys ==> k in wills && k in channels && k in utxos
    requires ParsedFrom(channels, utxos)
    ensures SpentLovelace(utxos, keys) - ProducedLovelace(Continuing(wills, keys)) + Unbuffered(utxos, keys)
      == GainOf(channels, wills, keys) + MIN_ADA_BUFFER * Ended(wills, keys)
  {
    if keys != [] {
      KeysBalance(channels, wills, utxos, Init(keys));
      KeyBalances(channels[Last(keys)], wills[Last(keys)], utxos[Last(keys)]);
      ContinuingLast(wills, keys);
      EndedLast(wills, keys);
    }
  }

  /** One input: what it spends less what its will puts back. */
  lemma KeyBalances(c: Channel, w: Will, v: Value)
    requires c.amount == SaturatingSub(v.lovelace, MIN_ADA_BUFFER)
    ensures v.lovelace - (if w.WillContinue? then BufferedAmount(w.output) else 0) + SaturatingSub(MIN_ADA_BUFFER, v.lovelace)
      == c.amount - AmountAfter(w) + if w.WillFinish? then MIN_ADA_BUFFER else 0
  {}

  lemma ContinuingLast(wills: Wills, keys: seq<Input>)
    requires keys != [] && forall k :: k in keys ==> k in wills
    ensures ProducedLovelace(Continuing(wills, keys)) == ProducedLovelace(Continuing(wills, Init(keys)))
      + if wills[Last(keys)].WillContinue? then BufferedAmount(wills[Last(keys)].output) else 0
  {
    var w, rest := wills[Last(keys)], Continuing(wills, Init(keys));
    if w.WillContinue? {
      assert Init(rest + [w.output]) == rest;
    } else {
      assert rest + [] == rest;
    }
  }

  lemma EndedLast(wills: Wills, keys: seq<Input>)
    requires keys != [] && forall k :: k in keys ==> k in wills
    ensures MIN_ADA_BUFFER * Ended(wills, keys) == MIN_ADA_BUFFER * Ended(wills, Init(keys))
      + if wills[Last(keys)].WillFinish? then MIN_ADA_BUFFER else 0
  {}

  lemma {:induction false} UnbufferedIsNothing(utxos: Utxos, keys: seq<Input>)
    requires forall k :: k in keys ==> k in utxos
    ensures Unbuffered(utxos, keys) == 0 <==> forall k :: k in keys ==> utxos[k].lovelace >= MIN_ADA_BUFFER
  {
    if keys != [] {
      UnbufferedIsNothing(utxos, Init(keys));
      assert keys == Init(keys) + [Last(keys)];
    }
  }

  /** Spent minus produced is the gain plus one buffer per ended channel minus the
      buffered opens, exactly when every spent channel output held its buffer. */
  lemma StagedBalance(channels: map<Input, Channel>, wills: Wills, utxos: Utxos, opens: seq<Channel>)
    requires wills.Keys <= channels.Keys && wills.Keys <= utxos.Keys && ParsedFrom(channels, utxos)
    ensures var keys := Sorted(wills.Keys);
      SpentLovelace(utxos, keys) - ProducedLovelace(Outputs(wills, opens))
        == GainOf(channels, wills, keys) + MIN_ADA_BUFFER * Ended(wills, keys) - ProducedLovelace(opens)
      <==> forall k :: k in wills ==> utxos[k].lovelace >= MIN_ADA_BUFFER
  {
    var keys := Sorted(wills.Keys);
    KeysBalance(channels, wills, utxos, keys);
    ProducedConcat(Continuing(wills, keys), opens);
    UnbufferedIsNothing(utxos, keys);
  }

  // ---- Values ----

  function SpentValue(utxos: Utxos, keys: seq<Input>): Value
    requires forall k :: k in keys ==> k in utxos
  {
    if keys == [] then Value(0, map[]) else AddValue(SpentValue(utxos, Init(keys)), utxos[Last(keys)])
  }

  function ProducedValue(cs: seq<Channel>): Value {
    if cs == [] then Value(0, map[])
    else AddValue(ProducedValue(Init(cs)), Value(BufferedAmount(Last(cs)), map[]))
  }

  function SpentAmount(utxos: Utxos, keys: seq<Input>, id: AssetId): nat
    requires forall k :: k in keys ==> k in utxos
  {
    if keys == [] then 0 else SpentAmount(utxos, Init(keys), id) + Amount(utxos[Last(keys)], id)
  }

  /** The spent value holds, in every asset, the sum over the spent outputs. */
  lemma {:induction false} SpentAmounts(utxos: Utxos, keys: seq<Input>)
    requires forall k :: k in keys ==> k in utxos
    ensures forall id :: Amount(SpentValue(utxos, keys), id) == SpentAmount(utxos, keys, id)
    ensures SpentAmount(utxos, keys, Ada) == SpentLovelace(utxos, keys)
  {
    if keys != [] {
      SpentAmounts(utxos, Init(keys));
      AddAmounts(SpentValue(utxos, Init(keys)), utxos[Last(keys)]);
      assert Amount(utxos[Last(keys)], Ada) == utxos[Last(keys)].lovelace;
    }
  }

  lemma {:induction false} ProducedIsLovelace(cs: seq<Channel>)
    ensures Amount(ProducedValue(cs), Ada) == ProducedLovelace(cs)
    ensures forall p, n :: Amount(ProducedValue(cs), Token(p, n)) == 0
  {
    if cs != [] {
      var v := Value(BufferedAmount(Last(cs)), map[]);
      ProducedIsLovelace(Init(cs));
      AddAmounts(ProducedValue(Init(cs)), v);
      assert Amount(v, Ada) == BufferedAmount(Last(cs));
      assert forall p, n :: Amount(v, Token(p, n)) == 0;
    }
  }

  /** The balance of `StagedBalance`, read off the values that are handed on. */
  ghost predicate ValuesBalance(
    channels: map<Input, Channel>, wills: Wills, utxos: Utxos, opens: seq<Channel>, spent: Value, produced: Value)
    requires wills.Keys <= channels.Keys && wills.Keys <= utxos.Keys
  {
    var keys := Sorted(wills.Keys);
    Amount(spent, Ada) - Amount(produced, Ada)
      == GainOf(channels, wills, keys) + MIN_ADA_BUFFER * Ended(wills, keys) - ProducedLovelace(opens)
  }

  lemma SpentBalances(channels: map<Input, Channel>, wills: Wills, utxos: Utxos, opens: seq<Channel>)
    requires wills.Keys <= channels.Keys && wills.Keys <= utxos.Keys && ParsedFrom(channels, utxos)
    ensures var spent, produced := SpentValue(utxos, Sorted(wills.Keys)), ProducedValue(Outputs(wills, opens));
      ValuesBalance(channels, wills, utxos, opens, spent, produced)
      <==> forall k :: k in wills ==> utxos[k].lovelace >= MIN_ADA_BUFFER
  {
    SpentAmounts(utxos, Sorted(wills.Keys));
    ProducedIsLovelace(Outputs(wills, opens));
    StagedBalance(channels, wills, utxos, opens);
  }

  function Target(spent: Value, produced: Value): Value {
    var short := SubValue(produced, spent);
    short.(lovelace := short.lovelace + FEE_BUFFER)
  }

  /** Channels hold lovelace only, so fuel is only ever needed in lovelace. */
  lemma TargetHasNoTokens(spent: Value, cs: seq<Channel>)
    ensures Tokens(Target(spent, ProducedValue(cs))) == {}
  {
    var target := Target(spent, ProducedValue(cs));
    ProducedIsLovelace(cs);
    SubAmounts(ProducedValue(cs), spent);
    TokensAreHeld(target);
    forall t: TokenId ensures Quantity(target, t) == 0 {
      assert Amount(SubValue(ProducedValue(cs), spent), Token(t.0, t.1)) == 0;
    }
  }

  function Fee(id: AssetId): nat {
    if id.Ada? then FEE_BUFFER else 0
  }

  /** Any fuel that covers the target makes spent plus fuel cover produced plus the fee
      buffer, in every asset. */
  lemma TargetIsEnough(spent: Value, produced: Value, picks: seq<Utxo>)
    requires forall id :: TotalOf(picks, id) >= Amount(Target(spent, produced), id)
    ensures forall id :: Amount(spent, id) + TotalOf(picks, id) >= Amount(produced, id) + Fee(id)
    ensures Normal(Target(spent, produced))
  {
    var short := SubValue(produced, spent);
    SubAmounts(produced, spent);
    forall id ensures Amount(spent, id) + TotalOf(picks, id) >= Amount(produced, id) + Fee(id) {
      assert Amount(Target(spent, produced), id) == Amount(short, id) + Fee(id);
    }
  }

  /** The target is exactly what is missing, and the fee buffer on top. */
  lemma TargetAmounts(spent: Value, produced: Value)
    ensures forall id ::
      Amount(Target(spent, produced), id) == SaturatingSub(Amount(produced, id), Amount(spent, id)) + Fee(id)
  {
    var short := SubValue(produced, spent);
    SubAmounts(produced, spent);
    forall id ensures Amount(Target(spent, produced), id) == Amount(short, id) + Fee(id) {}
  }

  lemma TargetIsNormal(spent: Value, produced: Value)
    ensures Normal(Target(spent, produced))
  {
    SubAmounts(produced, spent);
  }

  lemma SpentStep(utxos: Utxos, keys: seq<Input>, i: nat)
    requires i < |keys| && keys[i] in utxos && forall k :: k in keys[..i] ==> k in utxos
    ensures forall k :: k in keys[..i + 1] ==> k in utxos
    ensures SpentValue(utxos, keys[..i + 1]) == AddValue(SpentValue(utxos, keys[..i]), utxos[keys[i]])
  {
    assert Init(keys[..i + 1]) == keys[..i] && Last(keys[..i + 1]) == keys[i];
  }

  /** No part of the fuel that covers the target is shorter. */
  ghost predicate Shortest(n: nat, fuel: seq<Utxo>, target: Value) {
    forall part :: multiset(part) <= multiset(fuel) && Covering(part, target) ==> n <= |part|
  }

  /** Fuel for a transaction that spends and produces these values. */
  method FundTarget(spent: Value, produced: Value, fuel: seq<Utxo>)
    returns (r: Result<seq<Input>, Value>, ghost picks: seq<Utxo>)
    ensures r.Ok? ==> |r.value| == |picks| && multiset(picks) <= multiset(fuel)
    ensures r.Ok? ==> forall k :: 0 <= k < |picks| ==> r.value[k] == picks[k].input
    ensures r.Ok? ==> forall id :: Amount(spent, id) + TotalOf(picks, id) >= Amount(produced, id) + Fee(id)
    ensures r.Ok? && Easy(Target(spent, produced)) ==> Shortest(|r.value|, fuel, Target(spent, produced))
    ensures r.Ok? <==> Covering(fuel, Target(spent, produced))
    ensures r.Err? ==> forall id ::
      Amount(r.error, id) == SaturatingSub(Amount(Target(spent, produced), id), TotalOf(fuel, id))
  {
    var target := Target(spent, produced);
    TargetIsNormal(spent, produced);
    r := SelectFuel(fuel, target);
    picks := if r.Ok? then Select(fuel, target).value else [];
    SelectSound(fuel, target);
    SelectComplete(fuel, target);
    SelectShortfall(fuel, target);
    if r.Ok? {
      TargetIsEnough(spent, produced, picks);
      InputsAt(picks);
      if Easy(target) { EasyFewest(fuel, target); }
    }
  }

  method TotalSpent(utxos: Utxos, keys: seq<Input>) returns (r: Option<Value>)
    ensures r.Some? <==> forall k :: k in keys ==> k in utxos
    ensures r.Some? ==> r.value == SpentValue(utxos, keys)
  {
    var spent := Value(0, map[]);
    var i := 0;
    while i < |keys|
      invariant i <= |keys| && forall k :: k in keys[..i] ==> k in utxos
      invariant spent == SpentValue(utxos, keys[..i])
    {
      if keys[i] !in utxos {
        return None;
      }
      SpentStep(utxos, keys, i);
      spent := AddValue(spent, utxos[keys[i]]);
      i := i + 1;
    }
    assert keys[..i] == keys;
    return Some(spent);
  }

  method TotalProduced(outputs: seq<Channel>) returns (produced: Value)
    ensures produced == ProducedValue(outputs)
  {
    produced := Value(0, map[]);
    var i := 0;
    while i < |outputs|
      invariant i <= |outputs|
      invariant produced == ProducedValue(outputs[..i])
    {
      assert Init(outputs[..i + 1]) == outputs[..i] && Last(outputs[..i + 1]) == outputs[i];
      produced := AddValue(produced, Value(BufferedAmount(outputs[i]), map[]));
      i := i + 1;
    }
    assert outputs[..i] == outputs;
  }

  // ---- The staged transaction ----

  class StagedTx {
    const interval: Interval
    const channels: map<Input, Channel>
    const hash: Secret -> Lock
    var wills: Wills
    var opens: seq<Channel>

    /** Every will is what some want resolves to on its channel. */
    ghost predicate Invariant()
      reads this
    {
      && wills.Keys <= channels.Keys
      && (forall i :: i in wills ==> exists w :: Resolve(channels[i], w, interval, hash) == Ok(wills[i]))
      && forall i, j :: 0 <= i < j < |opens| ==> opens[i] != opens[j]
    }

    constructor (interval: Interval, channels: map<Input, Channel>, hash: Secret -> Lock)
      ensures Invariant() && wills == map[] && opens == []
      ensures this.interval == interval && this.channels == channels && this.hash == hash
    {
      this.interval, this.channels, this.hash := interval, channels, hash;
      wills, opens := map[], [];
    }

    /** Registers an intent, replacing any earlier one for the same input. */
    method Want(input: Input, want: Channels.Want) returns (r: Result<(), StageError>)
      requires Invariant()
      modifies this
      ensures Invariant() && opens == old(opens)
      ensures r.Ok? ==>
        && input in channels
        && Resolve(channels[input], want, interval, hash).Ok?
        && wills == old(wills)[input := Resolve(channels[input], want, interval, hash).value]
      ensures r.Err? ==> wills == old(wills)
      ensures r == Err(MissingInput) <==> input !in channels
      ensures r.Err? && input in channels ==>
        r.error.InStep? && Resolve(channels[input], want, interval, hash) == Err(r.error.error)
    {
      if input !in channels {
        return Err(MissingInput);
      }
      match Resolve(channels[input], want, interval, hash) {
        case Err(e) =>
          return Err(InStep(e));
        case Ok(will) =>
          wills := wills[input := will];
          return Ok(());
      }
    }

    method DropIntent(input: Input) returns (dropped: Option<Will>)
      requires Invariant()
      modifies this
      ensures Invariant() && opens == old(opens)
      ensures wills == old(wills) - {input}
      ensures dropped == if input in old(wills) then Some(old(wills)[input]) else None
    {
      dropped := if input in wills then Some(wills[input]) else None;
      wills := wills - {input};
    }

    method DropAllIntents()
      requires Invariant()
      modifies this
      ensures Invariant() && wills == map[] && opens == old(opens)
    {
      wills := map[];
    }

    method AddOpen(c: Channel) returns (added: bool)
      requires Invariant()
      modifies this
      ensures Invariant() && wills == old(wills)
      ensures added <==> c !in old(opens)
      ensures opens == if added then old(opens) + [c] else old(opens)
    {
      added := c !in opens;
      if added {
        opens := opens + [c];
      }
    }

    /** Spent and produced values, the fuel that bridges them, and the parts in order.
        `balances` is the answer of the external transaction builder. */
    method Build(utxos: Utxos, fuel: seq<Utxo>, hasReference: bool, balances: bool)
      returns (r: Result<Parts, BuildError>, ghost picks: seq<Utxo>)
      requires Invariant()
      modifies this
      ensures Invariant()
      ensures r.Err? ==> wills == old(wills) && opens == old(opens)
      ensures r == Err(MissingReference) <==> old(wills) != map[] && !hasReference
      ensures r == Err(MissingUtxo) <==> !(old(wills) != map[] && !hasReference) && !(old(wills).Keys <= utxos.Keys)
      ensures (old(wills) == map[] || hasReference) && old(wills).Keys <= utxos.Keys ==>
        var spent := SpentValue(utxos, Sorted(old(wills).Keys));
        var produced := ProducedValue(Outputs(old(wills), old(opens)));
        r.Ok? <==> Covering(fuel, Target(spent, produced)) && balances
      ensures r.Ok? ==>
        && wills == map[] && opens == []
        && old(wills).Keys <= utxos.Keys
        && r.value.inputs == InputsOf(old(wills))
        && OutputsFollow(r.value.outputs, old(wills), old(opens))
        && r.value.outputs == Outputs(old(wills), old(opens))
        && |r.value.fuel| == |picks|
        && (forall k :: 0 <= k < |picks| ==> r.value.fuel[k] == picks[k].input)
        && multiset(picks) <= multiset(fuel)
        && forall id ::
             Amount(SpentValue(utxos, Sorted(old(wills).Keys)), id) + TotalOf(picks, id)
             >= Amount(ProducedValue(Outputs(old(wills), old(opens))), id) + Fee(id)
      ensures r.Ok? ==>
        var spent := SpentValue(utxos, Sorted(old(wills).Keys));
        var produced := ProducedValue(Outputs(old(wills), old(opens)));
        && Shortest(|r.value.fuel|, fuel, Target(spent, produced))
        && (ParsedFrom(channels, utxos) ==>
              (ValuesBalance(channels, old(wills), utxos, old(opens), spent, produced)
               <==> forall k :: k in old(wills) ==> utxos[k].lovelace >= MIN_ADA_BUFFER))
    {
      picks := [];
      if wills != map[] && !hasReference {
        return Err(MissingReference), picks;
      }
      var keys := Sorted(wills.Keys);
      var total := TotalSpent(utxos, keys);
      if total.None? {
        return Err(MissingUtxo), picks;
      }
      var spent := total.value;
      var outputs := Outputs(wills, opens);
      var produced := TotalProduced(outputs);
      var chosen;
      chosen, picks := FundTarget(spent, produced, fuel);
      if chosen.Err? {
        return Err(NotCovered(chosen.error)), picks;
      }
      if !balances {
        return Err(Balancing), picks;
      }
      TargetHasNoTokens(spent, outputs);
      OpensComeLast(wills, opens);
      if ParsedFrom(channels, utxos) { SpentBalances(channels, wills, utxos, opens); }
      r := Ok(Parts(InputsOf(wills), chosen.value, outputs));
      wills, opens := map[], [];
    }
  }
}
