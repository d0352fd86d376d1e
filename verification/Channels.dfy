/** The L1 channel and its single transition entry point, `Resolve`: which step a
    want becomes, on which stage, within which validity interval. */
module Channels {
  import opened Types
  import opened Entries
  import opened Squashes
  import opened Cheques
  import opened Preparation

  const MIN_ADA_BUFFER: nat := 2_000_000

  /** Time bounds of the transaction a step goes into. */
  datatype Interval = Interval(lower: Option<nat>, upper: Option<nat>)

  datatype Channel = Channel(delegation: Option<Bytes>, constants: Constants, amount: nat, stage: Stage)

  datatype Want =
    | WantAdd(amount: nat)
    | WantSub(squash: Squash, unlockeds: seq<Unlocked>)
    | WantClose
    | WantRespond(squash: Squash, cheques: seq<Cheque>)
    | WantEnd
    | WantElapse
    | WantUnlock(secrets: seq<Secret>)
    | WantExpire

  datatype WillCont =
    | WillAdd(amount: nat)
    | WillSub(squash: Squash, unlockeds: seq<Unlocked>, gain: nat)
    | WillClose
    | WillRespond(squash: Squash, cheques: seq<Cheque>, gain: nat)
    | WillUnlock(unpends: seq<Unpend>, gain: nat)
    | WillExpire(unpends: seq<Unpend>)

  datatype WillEol = WillEnd | WillElapse(lower: nat)

  datatype Will = WillContinue(output: Channel, step: WillCont) | WillFinish(eol: WillEol)

  datatype BoundError =
    | NoUpper
    | NoLower
    | NotBeforeElapse
    | NotAfterElapse
    | PendingNotTimedOut

  datatype StepError = Pair(from: Stage, to: Want) | NoStep | Bound(reason: BoundError)

  type Resolution = Result<Will, StepError>

  function BufferedAmount(c: Channel): nat {
    c.amount + MIN_ADA_BUFFER
  }

  function Stepped(c: Channel, amount: nat, stage: Stage): Channel {
    c.(amount := amount, stage := stage)
  }

  // ---- The eight wants ----

  function Add(c: Channel, amount: nat): Resolution {
    if !c.stage.Opened? then Err(Pair(c.stage, WantAdd(amount)))
    else if amount == 0 then Err(NoStep)
    else Ok(WillContinue(Stepped(c, c.amount + amount, c.stage), WillAdd(amount)))
  }

  function Sub(c: Channel, squash: Squash, us: seq<Unlocked>, interval: Interval): Resolution {
    if !c.stage.Opened? then Err(Pair(c.stage, WantSub(squash, us)))
    else if interval.upper.None? then Err(Bound(NoUpper))
    else
      var (active, useds) := PrepSub(squash.body, us, c.stage.useds, interval.upper.value);
      var absoluteOwed := squash.body.amount + Total(useds);
      var relativeOwed := SaturatingSub(absoluteOwed, c.stage.subbed);
      var gain := Min(relativeOwed, c.amount);
      if gain == 0 then Err(NoStep)
      else Ok(WillContinue(
        Stepped(c, c.amount - gain, Opened(c.stage.subbed + gain, useds)),
        WillSub(squash, active, gain)))
  }

  function Close(c: Channel, interval: Interval): Resolution {
    if !c.stage.Opened? then Err(Pair(c.stage, WantClose))
    else if interval.upper.None? then Err(Bound(NoUpper))
    else
      var elapseAt := interval.upper.value + c.constants.closePeriod;
      Ok(WillContinue(Stepped(c, c.amount, Closed(c.stage.subbed, c.stage.useds, elapseAt)), WillClose))
  }

  function Respond(c: Channel, squash: Squash, cs: seq<Cheque>, interval: Interval): Resolution {
    if !c.stage.Closed? then Err(Pair(c.stage, WantRespond(squash, cs)))
    else if interval.upper.None? then Err(Bound(NoUpper))
    else if interval.upper.value >= c.stage.elapseAt then Err(Bound(NotBeforeElapse))
    else
      var (active, pendings, usedsAmount) := PrepRespond(squash.body, cs, c.stage.useds, interval.upper.value);
      var absoluteOwed := squash.body.amount + usedsAmount;
      var relativeOwed := SaturatingSub(absoluteOwed, c.stage.subbed);
      var gain := Min(relativeOwed, c.amount);
      Ok(WillContinue(
        Stepped(c, c.amount - gain, Responded(PendingTotal(pendings), pendings)),
        WillRespond(squash, active, gain)))
  }

  function Elapse(c: Channel, interval: Interval): Resolution {
    if !c.stage.Closed? then Err(Pair(c.stage, WantElapse))
    else if interval.lower.None? then Err(Bound(NoLower))
    else if interval.lower.value <= c.stage.elapseAt then Err(Bound(NotAfterElapse))
    else Ok(WillFinish(WillElapse(interval.lower.value)))
  }

  function End(c: Channel, interval: Interval): Resolution {
    if !c.stage.Responded? then Err(Pair(c.stage, WantEnd))
    else if c.stage.pendings == [] then Ok(WillFinish(WillEnd))
    else if interval.lower.None? then Err(Bound(NoLower))
    else if exists p :: p in c.stage.pendings && p.timeout >= interval.lower.value
    then Err(Bound(PendingNotTimedOut))
    else Ok(WillFinish(WillEnd))
  }

  /** The secret a lookup by lock finds: the last one given for that lock. */
  function Lookup(secrets: seq<Secret>, lock: Lock, hash: Secret -> Lock): Option<Secret> {
    if secrets == [] then None
    else if hash(Last(secrets)) == lock then Some(Last(secrets))
    else Lookup(Init(secrets), lock, hash)
  }

  /** A pending resolves by secret only once its own timeout is before `upper`. */
  function UnpendBySecret(p: Pending, secrets: seq<Secret>, upper: nat, hash: Secret -> Lock): Unpend {
    if p.timeout >= upper then Continue
    else match Lookup(secrets, p.lock, hash)
      case None => Continue
      case Some(s) => Unlock(s)
  }

  function UnpendByTime(p: Pending, lower: nat): Unpend {
    if p.timeout < lower then Expire else Continue
  }

  function UnlockUnpends(ps: seq<Pending>, secrets: seq<Secret>, upper: nat, hash: Secret -> Lock)
    : (us: seq<Unpend>)
    ensures |us| == |ps|
  {
    if ps == [] then []
    else UnlockUnpends(Init(ps), secrets, upper, hash) + [UnpendBySecret(Last(ps), secrets, upper, hash)]
  }

  function ExpireUnpends(ps: seq<Pending>, lower: nat): (us: seq<Unpend>)
    ensures |us| == |ps|
  {
    if ps == [] then [] else ExpireUnpends(Init(ps), lower) + [UnpendByTime(Last(ps), lower)]
  }

  function Remaining(ps: seq<Pending>, us: seq<Unpend>): seq<Pending>
    requires |ps| == |us|
  {
    if ps == [] then []
    else Remaining(Init(ps), Init(us)) + if Last(us).Continue? then [Last(ps)] else []
  }

  function Resolved(ps: seq<Pending>, us: seq<Unpend>): seq<Pending>
    requires |ps| == |us|
  {
    if ps == [] then []
    else Resolved(Init(ps), Init(us)) + if Last(us).Continue? then [] else [Last(ps)]
  }

  function UnlockPendings(c: Channel, secrets: seq<Secret>, interval: Interval, hash: Secret -> Lock): Resolution {
    if !c.stage.Responded? then Err(Pair(c.stage, WantUnlock(secrets)))
    else if interval.upper.None? then Err(Bound(NoUpper))
    else
      var ps := c.stage.pendings;
      var unpends := UnlockUnpends(ps, secrets, interval.upper.value, hash);
      var gain := PendingTotal(Resolved(ps, unpends));
      var remaining := Remaining(ps, unpends);
      Ok(WillContinue(
        Stepped(c, SaturatingSub(c.amount, gain), Responded(PendingTotal(remaining), remaining)),
        WillUnlock(unpends, gain)))
  }

  function ExpirePendings(c: Channel, interval: Interval): Resolution {
    if !c.stage.Responded? then Err(Pair(c.stage, WantExpire))
    else if interval.lower.None? then Err(Bound(NoLower))
    else
      var ps := c.stage.pendings;
      var unpends := ExpireUnpends(ps, interval.lower.value);
      if forall u :: u in unpends ==> u.Continue? then Err(NoStep)
      else
        var remaining := Remaining(ps, unpends);
        Ok(WillContinue(
          Stepped(c, PendingTotal(remaining), Responded(PendingTotal(remaining), remaining)),
          WillExpire(unpends)))
  }

  function Resolve(c: Channel, want: Want, interval: Interval, hash: Secret -> Lock): Resolution {
    match want
    case WantAdd(amount) => Add(c, amount)
    case WantSub(squash, us) => Sub(c, squash, us, interval)
    case WantClose => Close(c, interval)
    case WantRespond(squash, cs) => Respond(c, squash, cs, interval)
    case WantEnd => End(c, interval)
    case WantElapse => Elapse(c, interval)
    case WantUnlock(secrets) => UnlockPendings(c, secrets, interval, hash)
    case WantExpire => ExpirePendings(c, interval)
  }

  /** The want a batch claim becomes on the channel's current stage. */
  function FromClaim(stage: Stage, squash: Squash, cs: seq<Cheque>): Want {
    match stage
    case Opened(_, _) => WantSub(squash, Unlockeds(cs))
    case Closed(_, _, _) => WantRespond(squash, cs)
    case Responded(_, _) => WantUnlock(SecretsOf(Unlockeds(cs)))
  }

  function SecretsOf(us: seq<Unlocked>): seq<Secret> {
    if us == [] then [] else SecretsOf(Init(us)) + [Last(us).body.latch]
  }

  function ToStep(w: Will): Step {
    match w
    case WillContinue(_, s) => StepCont(match s
      case WillAdd(_) => ContAdd
      case WillSub(squash, us, _) => ContSub(squash, us)
      case WillClose => ContClose
      case WillRespond(squash, cs, _) => ContRespond(squash, cs)
      case WillUnlock(unpends, _) => ContUnlock(unpends)
      case WillExpire(unpends) => ContExpire(unpends))
    case WillFinish(e) => StepEol(match e
      case WillEnd => EolEnd
      case WillElapse(_) => EolElapse)
  }

  // ---- The loop of the source ----

  /** Filters, then splits the active cheques into pendings and an unlocked amount. */
  method PrepareRespond(b: SquashBody, cs: seq<Cheque>, useds: seq<Used>, upper: nat)
    returns (active: seq<Cheque>, pendings: seq<Pending>, total: nat)
    ensures (active, pendings, total) == PrepRespond(b, cs, useds, upper)
  {
    active := ActiveCheques(cs, useds, upper);
    pendings := [];
    var unlockedAmount := 0;
    var i := 0;
    while i < |active|
      invariant i <= |active|
      invariant pendings == PendingsOf(active[..i])
      invariant unlockedAmount == Total(UnlockedEntries(active[..i]))
    {
      assert active[..i + 1] == active[..i] + [active[i]];
      UnlockedEntriesSnoc(active[..i], active[i]);
      PendingsSnoc(active[..i], active[i]);
      match active[i] {
        case LockedCheque(l) => pendings := pendings + [PendingOf(l)];
        case UnlockedCheque(u) => unlockedAmount := unlockedAmount + u.body.amount;
      }
      i := i + 1;
    }
    assert active[..i] == active;
    total := Total(OwedUseds(useds, b)) + unlockedAmount;
  }

  // ---- What one step conserves ----

  /** Running total of an open or closed channel: what it holds plus what it paid. */
  function Deposited(c: Channel): nat {
    match c.stage
    case Opened(subbed, _) => c.amount + subbed
    case Closed(subbed, _, _) => c.amount + subbed
    case Responded(_, _) => c.amount
  }

  lemma StepConserves(c: Channel, want: Want, interval: Interval, hash: Secret -> Lock)
    requires want.WantAdd? || want.WantSub? || want.WantClose?
    requires Resolve(c, want, interval, hash).Ok?
    ensures var w := Resolve(c, want, interval, hash).value;
      && w.WillContinue? && !w.output.stage.Responded?
      && w.output.constants == c.constants && w.output.delegation == c.delegation
      && Deposited(w.output) == Deposited(c) + (if want.WantAdd? then want.amount else 0)
      && (want.WantSub? ==>
            w.output.stage.subbed <= want.squash.body.amount + Total(w.output.stage.useds))
  {}

  /** The lookup finds the last secret given for the lock. */
  lemma {:induction false} LookupOpens(secrets: seq<Secret>, lock: Lock, hash: Secret -> Lock)
    ensures match Lookup(secrets, lock, hash)
      case None => forall s :: s in secrets ==> hash(s) != lock
      case Some(s) =>
        && s in secrets && hash(s) == lock
        && exists k :: 0 <= k < |secrets| && secrets[k] == s
             && forall j :: k < j < |secrets| ==> hash(secrets[j]) != lock
  {
    if secrets != [] {
      LookupOpens(Init(secrets), lock, hash);
      assert secrets == Init(secrets) + [Last(secrets)];
      if hash(Last(secrets)) == lock {
        assert secrets[|secrets| - 1] == Last(secrets);
      } else if Lookup(secrets, lock, hash).Some? {
        var k :| 0 <= k < |Init(secrets)| && Init(secrets)[k] == Lookup(secrets, lock, hash).value
          && forall j :: k < j < |Init(secrets)| ==> hash(Init(secrets)[j]) != lock;
        assert secrets[k] == Init(secrets)[k];
      }
    }
  }

  /** A secret of the pending was given and its timeout lies before `upper`. */
  ghost predicate Openable(p: Pending, secrets: seq<Secret>, upper: nat, hash: Secret -> Lock) {
    p.timeout < upper && exists s :: s in secrets && hash(s) == p.lock
  }

  ghost function OpenableTotal(ps: seq<Pending>, secrets: seq<Secret>, upper: nat, hash: Secret -> Lock): nat {
    if ps == [] then 0 else
    OpenableTotal(Init(ps), secrets, upper, hash)
    + if Openable(Last(ps), secrets, upper, hash) then Last(ps).amount else 0
  }

  /** Each unpend shows a given secret of its pending exactly when that can be opened. */
  ghost predicate ShowsSecrets(
    us: seq<Unpend>, ps: seq<Pending>, secrets: seq<Secret>, upper: nat, hash: Secret -> Lock)
  {
    && |us| == |ps|
    && forall k :: 0 <= k < |ps| ==>
         match us[k]
         case Unlock(s) => Openable(ps[k], secrets, upper, hash) && s in secrets && hash(s) == ps[k].lock
         case Continue => !Openable(ps[k], secrets, upper, hash)
         case Expire => false
  }

  ghost predicate ShowsTimeouts(us: seq<Unpend>, ps: seq<Pending>, lower: nat) {
    && |us| == |ps|
    && forall k :: 0 <= k < |ps| ==> us[k] == if ps[k].timeout < lower then Expire else Continue
  }

  /** An unlock settles exactly the pendings before `upper` whose secret was given, and
      shows that secret. */
  lemma {:induction false} UnlockShowsSecrets(ps: seq<Pending>, secrets: seq<Secret>, upper: nat, hash: Secret -> Lock)
    ensures ShowsSecrets(UnlockUnpends(ps, secrets, upper, hash), ps, secrets, upper, hash)
  {
    if ps != [] {
      UnlockShowsSecrets(Init(ps), secrets, upper, hash);
      LookupOpens(secrets, Last(ps).lock, hash);
    }
  }

  lemma {:induction false} ExpireShowsTimeouts(ps: seq<Pending>, lower: nat)
    ensures ShowsTimeouts(ExpireUnpends(ps, lower), ps, lower)
  {
    if ps != [] { ExpireShowsTimeouts(Init(ps), lower); }
  }

  lemma {:induction false} OpenableIsGain(ps: seq<Pending>, secrets: seq<Secret>, upper: nat, hash: Secret -> Lock)
    ensures PendingTotal(Resolved(ps, UnlockUnpends(ps, secrets, upper, hash)))
      == OpenableTotal(ps, secrets, upper, hash)
  {
    if ps != [] {
      var us := UnlockUnpends(ps, secrets, upper, hash);
      var gone := Resolved(Init(ps), Init(us));
      assert Init(us) == UnlockUnpends(Init(ps), secrets, upper, hash);
      OpenableIsGain(Init(ps), secrets, upper, hash);
      LookupOpens(secrets, Last(ps).lock, hash);
      assert Init(gone + [Last(ps)]) == gone && gone + [] == gone;
    }
  }

  /** An unlock states as gain the pendings that can be opened; that is what leaves the
      channel exactly while they fit its amount. */
  lemma UnlockGain(c: Channel, secrets: seq<Secret>, interval: Interval, hash: Secret -> Lock)
    requires UnlockPendings(c, secrets, interval, hash).Ok?
    ensures var w := UnlockPendings(c, secrets, interval, hash).value;
      var openable := OpenableTotal(c.stage.pendings, secrets, interval.upper.value, hash);
      && w.step.gain == openable
      && (c.amount - w.output.amount == w.step.gain <==> openable <= c.amount)
  {
    OpenableIsGain(c.stage.pendings, secrets, interval.upper.value, hash);
  }

  /** The gain a step states is what leaves the channel; an unlock's exactly while the
      channel can pay every pending it opens. */
  lemma StatedGain(c: Channel, want: Want, interval: Interval, hash: Secret -> Lock)
    requires Resolve(c, want, interval, hash).Ok?
    requires want.WantSub? || want.WantRespond? || want.WantUnlock?
    ensures var w := Resolve(c, want, interval, hash).value;
      c.amount - w.output.amount == w.step.gain <==>
      (want.WantUnlock? ==>
        OpenableTotal(c.stage.pendings, want.secrets, interval.upper.value, hash) <= c.amount)
  {
    if want.WantUnlock? { UnlockGain(c, want.secrets, interval, hash); }
  }

  function UsedsIn(s: Stage): seq<Used> {
    match s
    case Responded(_, _) => []
    case _ => s.useds
  }

  function PendingsIn(s: Stage): seq<Pending> {
    match s
    case Responded(_, ps) => ps
    case _ => []
  }

  /** The step is the one asked for. It shows, of what was offered, exactly what outlives
      the window and has no used; and one unpend for each pending. */
  ghost predicate Says(want: Want, step: Step, stage: Stage, interval: Interval, hash: Secret -> Lock) {
    match want
    case WantAdd(_) => step == StepCont(ContAdd)
    case WantSub(q, us) =>
      step.StepCont? && step.cont.ContSub? && step.cont.squash == q && interval.upper.Some?
      && forall u :: u in step.cont.unlockeds <==>
           u in us && u.body.timeout > interval.upper.value && u.body.index !in IndexSet(UsedsIn(stage))
    case WantClose => step == StepCont(ContClose)
    case WantRespond(q, cs) =>
      step.StepCont? && step.cont.ContRespond? && step.cont.squash == q && interval.upper.Some?
      && forall c :: c in step.cont.cheques <==>
           c in cs && c.Timeout() > interval.upper.value && c.Index() !in IndexSet(UsedsIn(stage))
    case WantEnd => step == StepEol(EolEnd)
    case WantElapse => step == StepEol(EolElapse)
    case WantUnlock(secrets) =>
      step.StepCont? && step.cont.ContUnlock? && interval.upper.Some?
      && ShowsSecrets(step.cont.unpends, PendingsIn(stage), secrets, interval.upper.value, hash)
    case WantExpire =>
      step.StepCont? && step.cont.ContExpire? && interval.lower.Some?
      && ShowsTimeouts(step.cont.unpends, PendingsIn(stage), interval.lower.value)
  }

  lemma SubSays(c: Channel, q: Squash, us: seq<Unlocked>, i: Interval, hash: Secret -> Lock)
    requires Sub(c, q, us, i).Ok?
    ensures Says(WantSub(q, us), ToStep(Sub(c, q, us, i).value), c.stage, i, hash)
  {
    ActiveUnlockedMembers(us, c.stage.useds, i.upper.value);
    forall u | u in us
      ensures HasUsed(c.stage.useds, u.body.index) <==> u.body.index in IndexSet(c.stage.useds)
    {
      HasUsedIffIndex(c.stage.useds, u.body.index);
    }
  }

  lemma RespondSays(c: Channel, q: Squash, cs: seq<Cheque>, i: Interval, hash: Secret -> Lock)
    requires Respond(c, q, cs, i).Ok?
    ensures Says(WantRespond(q, cs), ToStep(Respond(c, q, cs, i).value), c.stage, i, hash)
  {
    ActiveChequeMembers(cs, c.stage.useds, i.upper.value);
    forall d | d in cs
      ensures HasUsed(c.stage.useds, d.Index()) <==> d.Index() in IndexSet(c.stage.useds)
    {
      HasUsedIffIndex(c.stage.useds, d.Index());
    }
  }

  lemma UnlockSays(c: Channel, secrets: seq<Secret>, i: Interval, hash: Secret -> Lock)
    requires UnlockPendings(c, secrets, i, hash).Ok?
    ensures Says(WantUnlock(secrets), ToStep(UnlockPendings(c, secrets, i, hash).value), c.stage, i, hash)
  {
    UnlockShowsSecrets(c.stage.pendings, secrets, i.upper.value, hash);
  }

  lemma ExpireSays(c: Channel, i: Interval, hash: Secret -> Lock)
    requires ExpirePendings(c, i).Ok?
    ensures Says(WantExpire, ToStep(ExpirePendings(c, i).value), c.stage, i, hash)
  {
    ExpireShowsTimeouts(c.stage.pendings, i.lower.value);
  }

  /** The step put on chain says what was wanted. */
  lemma StepSaysWant(c: Channel, want: Want, interval: Interval, hash: Secret -> Lock)
    requires Resolve(c, want, interval, hash).Ok?
    ensures Says(want, ToStep(Resolve(c, want, interval, hash).value), c.stage, interval, hash)
  {
    match want
    case WantSub(q, us) => SubSays(c, q, us, interval, hash);
    case WantRespond(q, cs) => RespondSays(c, q, cs, interval, hash);
    case WantUnlock(secrets) => UnlockSays(c, secrets, interval, hash);
    case WantExpire => ExpireSays(c, interval, hash);
    case _ =>
  }

  // ---- When a step is accepted, and what it leaves ----

  /** What each want needs of the stage, the window and the amounts. */
  ghost predicate Acceptable(c: Channel, want: Want, i: Interval) {
    match want
    case WantAdd(amount) => c.stage.Opened? && amount > 0
    case WantSub(q, us) =>
      c.stage.Opened? && i.upper.Some? && c.amount > 0
      && q.body.amount + Total(OwedUseds(c.stage.useds, q.body))
         + Total(UsedsOf(ActiveUnlockeds(us, c.stage.useds, i.upper.value))) > c.stage.subbed
    case WantClose => c.stage.Opened? && i.upper.Some?
    case WantRespond(_, _) => c.stage.Closed? && i.upper.Some? && i.upper.value < c.stage.elapseAt
    case WantEnd =>
      c.stage.Responded?
      && (c.stage.pendings == [] || (i.lower.Some? && forall p :: p in c.stage.pendings ==> p.timeout < i.lower.value))
    case WantElapse => c.stage.Closed? && i.lower.Some? && i.lower.value > c.stage.elapseAt
    case WantUnlock(_) => c.stage.Responded? && i.upper.Some?
    case WantExpire =>
      c.stage.Responded? && i.lower.Some? && exists p :: p in c.stage.pendings && p.timeout < i.lower.value
  }

  /** The stage each want belongs to. */
  ghost predicate OnStage(stage: Stage, want: Want) {
    match want
    case WantAdd(_) => stage.Opened?
    case WantSub(_, _) => stage.Opened?
    case WantClose => stage.Opened?
    case WantRespond(_, _) => stage.Closed?
    case WantElapse => stage.Closed?
    case WantEnd => stage.Responded?
    case WantUnlock(_) => stage.Responded?
    case WantExpire => stage.Responded?
  }

  lemma SomeExpire(ps: seq<Pending>, lower: nat)
    ensures (exists u :: u in ExpireUnpends(ps, lower) && !u.Continue?) <==> exists p :: p in ps && p.timeout < lower
  {
    var us := ExpireUnpends(ps, lower);
    ExpireShowsTimeouts(ps, lower);
    if u :| u in us && !u.Continue? {
      var k :| 0 <= k < |us| && us[k] == u;
      assert ps[k] in ps;
    }
    if p :| p in ps && p.timeout < lower {
      var k :| 0 <= k < |ps| && ps[k] == p;
      assert us[k] in us;
    }
  }

  /** A want is accepted exactly when its stage, window and amounts allow it, and is a
      wrong pair exactly when it does not belong to the stage. */
  lemma AcceptedExactly(c: Channel, want: Want, i: Interval, hash: Secret -> Lock)
    ensures Resolve(c, want, i, hash).Ok? <==> Acceptable(c, want, i)
    ensures !OnStage(c.stage, want) <==> Resolve(c, want, i, hash) == Err(Pair(c.stage, want))
    ensures OnStage(c.stage, want) && Resolve(c, want, i, hash).Err? ==> !Resolve(c, want, i, hash).error.Pair?
  {
    match want
    case WantSub(q, us) => if c.stage.Opened? && i.upper.Some? { SubTotal(q.body, us, c.stage.useds, i.upper.value); }
    case WantExpire => if c.stage.Responded? && i.lower.Some? { SomeExpire(c.stage.pendings, i.lower.value); }
    case _ =>
  }

  /** The paid total rises to what is owed, or as far as the amount goes. */
  ghost predicate Pays(owed: nat, subbed: nat, amount: nat, gain: nat) {
    && gain <= amount
    && (if owed <= subbed then gain == 0 else subbed + gain <= owed)
    && (owed > subbed + gain ==> gain == amount)
  }

  /** Whom a step moves from which stage to which: the amounts, the stage, and nothing of
      the channel's terms. */
  lemma StepLeaves(c: Channel, want: Want, i: Interval, hash: Secret -> Lock)
    requires Resolve(c, want, i, hash).Ok?
    ensures match Resolve(c, want, i, hash).value
      case WillFinish(eol) =>
        (want.WantEnd? && eol == WillEnd) || (want.WantElapse? && eol == WillElapse(i.lower.value))
      case WillContinue(d, step) =>
        && d.constants == c.constants && d.delegation == c.delegation
        && match want
           case WantAdd(amount) =>
             step == WillAdd(amount) && d.amount == c.amount + amount && d.stage == c.stage
           case WantSub(q, us) =>
             && d.stage.Opened? && d.amount == c.amount - step.gain
             && d.stage.subbed == c.stage.subbed + step.gain
             && Pays(q.body.amount + Total(d.stage.useds), c.stage.subbed, c.amount, step.gain)
           case WantClose =>
             && d.amount == c.amount
             && d.stage == Closed(c.stage.subbed, c.stage.useds, i.upper.value + c.constants.closePeriod)
           case WantRespond(q, cs) =>
             && d.stage.Responded? && d.amount == c.amount - step.gain
             && d.stage.pendingsAmount == PendingTotal(d.stage.pendings)
             && Pays(q.body.amount + Total(OwedUseds(c.stage.useds, q.body))
                     + Total(UnlockedEntries(ActiveCheques(cs, c.stage.useds, i.upper.value))),
                     c.stage.subbed, c.amount, step.gain)
           case WantUnlock(secrets) =>
             && d.stage.Responded? && d.stage.pendingsAmount == PendingTotal(d.stage.pendings)
             && step.gain == OpenableTotal(c.stage.pendings, secrets, i.upper.value, hash)
             && d.amount == SaturatingSub(c.amount, step.gain)
           case WantExpire => d.stage == Responded(d.amount, PendingsIn(d.stage)) && d.amount == PendingTotal(PendingsIn(d.stage))
           case _ => false
  {
    if want.WantUnlock? { OpenableIsGain(c.stage.pendings, want.secrets, i.upper.value, hash); }
  }

  lemma {:induction false} ActiveChequeMembers(cs: seq<Cheque>, useds: seq<Used>, upper: nat)
    ensures forall c :: c in ActiveCheques(cs, useds, upper) <==>
      c in cs && Active(c.Timeout(), c.Index(), useds, upper)
  {
    if cs != [] {
      ActiveChequeMembers(Init(cs), useds, upper);
      assert cs == Init(cs) + [Last(cs)];
    }
  }

  lemma {:induction false} SecretsMembers(us: seq<Unlocked>)
    ensures forall s :: s in SecretsOf(us) <==> exists u :: u in us && u.body.latch == s
  {
    if us != [] {
      SecretsMembers(Init(us));
      assert us == Init(us) + [Last(us)];
    }
  }

  /** A batch claim is never the wrong step for the stage it was made from, and carries
      everything the stage can use of the batch: the unlocked cheques, the whole of it, or
      the secrets. */
  lemma ClaimFitsStage(c: Channel, squash: Squash, cs: seq<Cheque>, interval: Interval, hash: Secret -> Lock)
    ensures match Resolve(c, FromClaim(c.stage, squash, cs), interval, hash)
      case Err(Pair(_, _)) => false
      case _ => true
    ensures match FromClaim(c.stage, squash, cs)
      case WantSub(q, us) => c.stage.Opened? && q == squash && forall u :: u in us <==> UnlockedCheque(u) in cs
      case WantRespond(q, ds) => c.stage.Closed? && q == squash && ds == cs
      case WantUnlock(secrets) => c.stage.Responded? &&
        forall s :: s in secrets <==> exists u :: UnlockedCheque(u) in cs && u.body.latch == s
      case _ => false
  {
    UnlockedsAreHeld(cs);
    SecretsMembers(Unlockeds(cs));
  }

  datatype Move = Move(want: Want, interval: Interval)

  /** State after a list of moves; a refused move changes nothing, a final one ends it. */
  function Run(c: Channel, ms: seq<Move>, hash: Secret -> Lock): Option<Channel> {
    if ms == [] then Some(c)
    else match Run(c, Init(ms), hash)
      case None => None
      case Some(d) => After(d, Last(ms), hash)
  }

  function After(c: Channel, m: Move, hash: Secret -> Lock): Option<Channel> {
    match Resolve(c, m.want, m.interval, hash)
    case Err(_) => Some(c)
    case Ok(WillContinue(d, _)) => Some(d)
    case Ok(WillFinish(_)) => None
  }

  function Accepted(c: Channel, ms: seq<Move>, hash: Secret -> Lock, k: nat): bool
    requires k < |ms|
  {
    match Run(c, ms[..k], hash)
    case None => false
    case Some(d) => Resolve(d, ms[k].want, ms[k].interval, hash).Ok?
  }

  /** Sum of the accepted adds of a run. */
  function Adds(c: Channel, ms: seq<Move>, hash: Secret -> Lock): nat {
    if ms == [] then 0 else
    Adds(c, Init(ms), hash) +
    match Run(c, Init(ms), hash)
    case None => 0
    case Some(d) =>
      if Last(ms).want.WantAdd? && Resolve(d, Last(ms).want, Last(ms).interval, hash).Ok?
      then Last(ms).want.amount else 0
  }

  ghost predicate Funding(m: Move) {
    m.want.WantAdd? || m.want.WantSub? || m.want.WantClose?
  }

  /** Over any adds, subs and closes the channel holds, or has paid out, exactly what
      was put in. */
  lemma {:induction false} RunConserves(c: Channel, ms: seq<Move>, hash: Secret -> Lock)
    requires !c.stage.Responded? && forall m :: m in ms ==> Funding(m)
    ensures Run(c, ms, hash).Some?
    ensures var d := Run(c, ms, hash).value;
      !d.stage.Responded? && Deposited(d) == Deposited(c) + Adds(c, ms, hash)
  {
    if ms != [] {
      assert Last(ms) in ms;
      RunConserves(c, Init(ms), hash);
      var d := Run(c, Init(ms), hash).value;
      if Resolve(d, Last(ms).want, Last(ms).interval, hash).Ok? {
        StepConserves(d, Last(ms).want, Last(ms).interval, hash);
      }
    }
  }

  // ---- Termination ----

  function Rank(s: Stage): nat {
    match s
    case Opened(_, _) => 2
    case Closed(_, _, _) => 1
    case Responded(_, _) => 0
  }

  /** Lexicographic: stage rank, then the amount while opened, then the pendings left. */
  ghost predicate Falls(c: Channel, d: Channel) {
    || Rank(d.stage) < Rank(c.stage)
    || (c.stage.Opened? && d.stage.Opened? && d.amount < c.amount)
    || (c.stage.Responded? && d.stage.Responded? && |d.stage.pendings| < |c.stage.pendings|)
  }

  ghost predicate Stutters(w: Will) {
    w.WillContinue? &&
    (w.step.WillAdd? || (w.step.WillUnlock? && forall u :: u in w.step.unpends ==> u.Continue?))
  }

  lemma {:induction false} RemainingShrinks(ps: seq<Pending>, us: seq<Unpend>)
    requires |ps| == |us|
    ensures |Remaining(ps, us)| <= |ps|
    ensures (exists u :: u in us && !u.Continue?) ==> |Remaining(ps, us)| < |ps|
  {
    if ps != [] {
      RemainingShrinks(Init(ps), Init(us));
      assert us == Init(us) + [Last(us)];
    }
  }

  /** Every continuing step except an add and an unlock that opens nothing strictly
      falls in the measure. */
  lemma StepFalls(c: Channel, want: Want, interval: Interval, hash: Secret -> Lock)
    requires Resolve(c, want, interval, hash).Ok?
    requires Resolve(c, want, interval, hash).value.WillContinue?
    requires !Stutters(Resolve(c, want, interval, hash).value)
    ensures Falls(c, Resolve(c, want, interval, hash).value.output)
  {
    if want.WantUnlock? {
      RemainingShrinks(c.stage.pendings,
        UnlockUnpends(c.stage.pendings, want.secrets, interval.upper.value, hash));
    } else if want.WantExpire? {
      RemainingShrinks(c.stage.pendings, ExpireUnpends(c.stage.pendings, interval.lower.value));
    }
  }

  /** The accepted steps of a run that do not stutter. */
  ghost function Progress(c: Channel, ms: seq<Move>, hash: Secret -> Lock): nat {
    if ms == [] then 0 else
    Progress(c, Init(ms), hash) +
    match Run(c, Init(ms), hash)
    case None => 0
    case Some(d) =>
      match Resolve(d, Last(ms).want, Last(ms).interval, hash)
      case Err(_) => 0
      case Ok(w) => if Stutters(w) then 0 else 1
  }

  /** The cheques offered in the accepted respond of a run, if there is one. */
  function Offered(c: Channel, ms: seq<Move>, hash: Secret -> Lock): nat {
    if ms == [] then 0 else
    Offered(c, Init(ms), hash) +
    match Run(c, Init(ms), hash)
    case None => 0
    case Some(d) =>
      if Last(ms).want.WantRespond? && Resolve(d, Last(ms).want, Last(ms).interval, hash).Ok?
      then |Last(ms).want.cheques| else 0
  }

  /** How many steps a channel has left before its funds, stages and pendings run out. */
  function StepsLeft(c: Option<Channel>): nat {
    match c
    case None => 0
    case Some(d) =>
      match d.stage
      case Opened(_, _) => d.amount + 3
      case Closed(_, _, _) => 2
      case Responded(_, ps) => |ps| + 1
  }

  lemma {:induction false} FewPendings(cs: seq<Cheque>, useds: seq<Used>, upper: nat)
    ensures |PendingsOf(ActiveCheques(cs, useds, upper))| <= |cs|
  {
    if cs != [] {
      FewPendings(Init(cs), useds, upper);
      var rest := ActiveCheques(Init(cs), useds, upper);
      assert Init(rest + [Last(cs)]) == rest && rest + [] == rest;
    }
  }

  lemma ProgressStep(c: Channel, m: Move, hash: Secret -> Lock)
    requires Resolve(c, m.want, m.interval, hash).Ok?
    ensures var w := Resolve(c, m.want, m.interval, hash).value;
      (if Stutters(w) then 0 else 1) + StepsLeft(After(c, m, hash)) <= StepsLeft(Some(c))
        + (if m.want.WantAdd? then m.want.amount else 0)
        + (if m.want.WantRespond? then |m.want.cheques| else 0)
  {
    match m.want
    case WantRespond(q, cs) => FewPendings(cs, c.stage.useds, m.interval.upper.value);
    case WantUnlock(secrets) => UnlockProgress(c, secrets, m.interval, hash);
    case WantExpire => ExpireProgress(c, m.interval);
    case _ =>
  }

  lemma UnlockProgress(c: Channel, secrets: seq<Secret>, i: Interval, hash: Secret -> Lock)
    requires UnlockPendings(c, secrets, i, hash).Ok?
    ensures var w := UnlockPendings(c, secrets, i, hash).value;
      (if Stutters(w) then 0 else 1) + StepsLeft(Some(w.output)) <= StepsLeft(Some(c))
  {
    RemainingShrinks(c.stage.pendings, UnlockUnpends(c.stage.pendings, secrets, i.upper.value, hash));
  }

  lemma ExpireProgress(c: Channel, i: Interval)
    requires ExpirePendings(c, i).Ok?
    ensures var w := ExpirePendings(c, i).value;
      (if Stutters(w) then 0 else 1) + StepsLeft(Some(w.output)) <= StepsLeft(Some(c))
  {
    RemainingShrinks(c.stage.pendings, ExpireUnpends(c.stage.pendings, i.lower.value));
  }

  /** So every run makes only finitely many such steps: at most its initial allowance,
      plus what was added, plus one for each cheque offered in the respond. */
  lemma {:induction false} ProgressBounded(c: Channel, ms: seq<Move>, hash: Secret -> Lock)
    ensures Progress(c, ms, hash) + StepsLeft(Run(c, ms, hash))
      <= StepsLeft(Some(c)) + Adds(c, ms, hash) + Offered(c, ms, hash)
  {
    if ms != [] {
      ProgressBounded(c, Init(ms), hash);
      match Run(c, Init(ms), hash)
      case None =>
      case Some(d) =>
        if Resolve(d, Last(ms).want, Last(ms).interval, hash).Ok? { ProgressStep(d, Last(ms), hash); }
    }
  }

  // ---- Timing ----

  /** A closed channel only moves by responding before `elapseAt`. */
  lemma {:induction false} ClosedWaits(c: Channel, ms: seq<Move>, hash: Secret -> Lock)
    requires c.stage.Closed?
    ensures match Run(c, ms, hash)
      case None => true
      case Some(d) => d == c || d.stage.Responded?
  {
    if ms != [] {
      ClosedWaits(c, Init(ms), hash);
    }
  }

  lemma {:induction false} RunSplit(c: Channel, ms: seq<Move>, i: nat, j: nat, hash: Secret -> Lock)
    requires i <= j <= |ms|
    requires Run(c, ms[..i], hash).Some?
    ensures Run(c, ms[..j], hash) == Run(Run(c, ms[..i], hash).value, ms[i..j], hash)
    decreases j
  {
    if i < j {
      RunSplit(c, ms, i, j - 1, hash);
      assert Init(ms[..j]) == ms[..j - 1];
      assert Init(ms[i..j]) == ms[i..j - 1];
    } else {
      assert ms[i..j] == [];
    }
  }

  /** In every run an elapse starts more than the close period after the close's window
      ended, and a respond's window ends before the elapse time. */
  lemma CloseThenLater(c: Channel, ms: seq<Move>, i: nat, j: nat, hash: Secret -> Lock)
    requires i < j < |ms|
    requires ms[i].want.WantClose? && Accepted(c, ms, hash, i)
    requires ms[j].want.WantElapse? || ms[j].want.WantRespond?
    requires Accepted(c, ms, hash, j)
    ensures ms[i].interval.upper.Some?
    ensures var elapseAt := ms[i].interval.upper.value + c.constants.closePeriod;
      && (ms[j].want.WantElapse? ==>
            ms[j].interval.lower.Some? && ms[j].interval.lower.value > elapseAt)
      && (ms[j].want.WantRespond? ==>
            ms[j].interval.upper.Some? && ms[j].interval.upper.value < elapseAt)
  {
    var d := Run(c, ms[..i], hash).value;
    RunKeepsConstants(c, ms[..i], hash);
    assert Init(ms[..i + 1]) == ms[..i];
    var closed := Run(c, ms[..i + 1], hash).value;
    RunSplit(c, ms, i + 1, j, hash);
    ClosedWaits(closed, ms[i + 1..j], hash);
  }

  lemma {:induction false} RunKeepsConstants(c: Channel, ms: seq<Move>, hash: Secret -> Lock)
    ensures Run(c, ms, hash).Some? ==> Run(c, ms, hash).value.constants == c.constants
  {
    if ms != [] { RunKeepsConstants(c, Init(ms), hash); }
  }

  // ---- Squashing between claims ----

  lemma FoldedOwes(b: SquashBody, es: seq<Used>, useds: seq<Used>)
    requires Valid(b) && Distinct(useds)
    requires (forall e :: e in es ==> e in useds) && FoldAll(b, es).Ok?
    ensures var a := FoldAll(b, es).value;
      a.amount + Total(OwedUseds(useds, a)) == b.amount + Total(OwedUseds(useds, b))
  {
    FoldAllNeutral(b, useds, es);
    FoldAllExact(b, es);
    OwedUsedsIsOutside(useds, b);
    OwedUsedsIsOutside(useds, FoldAll(b, es).value);
  }

  /** Useds folded into the squash change nothing of what a later sub pays: the same
      cheques are shown for the same gain, or there is no step either way. */
  lemma FoldedSubPaysTheSame(c: Channel, q: Squash, es: seq<Used>, sig: Bytes, us: seq<Unlocked>, i: Interval)
    requires c.stage.Opened? && Valid(q.body) && Distinct(c.stage.useds)
    requires (forall e :: e in es ==> e in c.stage.useds) && FoldAll(q.body, es).Ok?
    ensures var before, after := Sub(c, q, us, i), Sub(c, Squash(FoldAll(q.body, es).value, sig), us, i);
      && (after.Ok? <==> before.Ok?)
      && (after.Err? ==> after.error == before.error)
      && (after.Ok? ==>
            && after.value.step.gain == before.value.step.gain
            && after.value.step.unlockeds == before.value.step.unlockeds
            && after.value.output.amount == before.value.output.amount
            && after.value.output.stage.subbed == before.value.output.stage.subbed)
  {
    FoldedOwes(q.body, es, c.stage.useds);
    if i.upper.Some? {
      SubTotal(q.body, us, c.stage.useds, i.upper.value);
      SubTotal(FoldAll(q.body, es).value, us, c.stage.useds, i.upper.value);
    }
  }

  /** And a later respond leaves the very same channel. */
  lemma FoldedRespondPaysTheSame(c: Channel, q: Squash, es: seq<Used>, sig: Bytes, cs: seq<Cheque>, i: Interval)
    requires c.stage.Closed? && Valid(q.body) && Distinct(c.stage.useds)
    requires (forall e :: e in es ==> e in c.stage.useds) && FoldAll(q.body, es).Ok?
    ensures var before, after := Respond(c, q, cs, i), Respond(c, Squash(FoldAll(q.body, es).value, sig), cs, i);
      && (after.Ok? <==> before.Ok?)
      && (after.Err? ==> after.error == before.error)
      && (after.Ok? ==>
            && after.value.output == before.value.output
            && after.value.step.gain == before.value.step.gain
            && after.value.step.cheques == before.value.step.cheques)
  {
    FoldedOwes(q.body, es, c.stage.useds);
  }

  // ---- Claiming twice ----

  ghost predicate SoundEvidence(b: SquashBody, us: seq<Unlocked>) {
    && Valid(b)
    && Distinct(UsedsOf(us))
    && forall u :: u in us ==> u.body.index !in S(b)
  }

  lemma SubLeavesUseds(b: SquashBody, us: seq<Unlocked>, useds: seq<Used>, upper: nat)
    requires SoundEvidence(b, us) && Distinct(useds)
    ensures var (active, next) := PrepSub(b, us, useds, upper);
      && Ascends(next)
      && (forall e :: e in next ==> e.index !in S(b))
      && (forall e :: e in next <==> (e in useds && e.index !in S(b)) || e in UsedsOf(active))
  {
    var active := ActiveUnlockeds(us, useds, upper);
    var owed := OwedUseds(useds, b);
    OwedUsedsIsOutside(useds, b);
    MembersOutside(useds, S(b));
    DistinctOutside(useds, S(b));
    ActiveUnlockedDistinct(us, useds, upper);
    ActiveUnlockedMembers(us, useds, upper);
    UsedsMembers(active);
    forall e, f | e in owed && f in UsedsOf(active) ensures e.index != f.index {
      HasUsedIffIndex(useds, f.index);
    }
    DistinctConcat(owed, UsedsOf(active));
    SortAscends(owed + UsedsOf(active));
  }

  lemma {:induction false} DistinctOutside(us: seq<Used>, x: set<nat>)
    requires Distinct(us)
    ensures Distinct(Outside(us, x))
  {
    if us != [] {
      DistinctInit(us);
      DistinctOutside(Init(us), x);
      MembersOutside(Init(us), x);
      DistinctSnoc(Outside(Init(us), x), Last(us));
      AppendNothing(Outside(Init(us), x));
    }
  }

  lemma {:induction false} NoneActive(us: seq<Unlocked>, useds: seq<Used>, upper: nat)
    requires forall u :: u in us ==> !Active(u.body.timeout, u.body.index, useds, upper)
    ensures ActiveUnlockeds(us, useds, upper) == []
  {
    if us != [] { NoneActive(Init(us), useds, upper); }
  }

  /** After a sub, the same evidence shown again at the same or a later bound claims
      nothing, even when the first claim drained the channel. */
  lemma SubIsIdempotent(c: Channel, squash: Squash, us: seq<Unlocked>, first: Interval, again: Interval)
    requires c.stage.Opened? && Distinct(c.stage.useds) && SoundEvidence(squash.body, us)
    requires Sub(c, squash, us, first).Ok?
    requires again.upper.Some? && again.upper.value >= first.upper.value
    ensures var d := Sub(c, squash, us, first).value.output;
      && Ascends(d.stage.useds)
      && (forall e :: e in d.stage.useds ==> e.index !in S(squash.body))
      && Sub(d, squash, us, again) == Err(NoStep)
  {
    var b := squash.body;
    var (active, next) := PrepSub(b, us, c.stage.useds, first.upper.value);
    SubLeavesUseds(b, us, c.stage.useds, first.upper.value);
    ActiveUnlockedMembers(us, c.stage.useds, first.upper.value);
    UsedsMembers(active);
    forall u | u in us ensures !Active(u.body.timeout, u.body.index, next, again.upper.value) {
      if u.body.timeout > again.upper.value {
        AlreadyRecorded(c.stage.useds, b, active, next, u, first.upper.value);
      }
    }
    NoneActive(us, next, again.upper.value);
    OwedUsedsIsOutside(next, b);
    OutsideNothing(next, S(b));
    assert next + UsedsOf([]) == next;
    SortOfSorted(next);
  }

  lemma AlreadyRecorded(useds: seq<Used>, b: SquashBody, active: seq<Unlocked>, next: seq<Used>, u: Unlocked, upper: nat)
    requires u.body.timeout > upper && u.body.index !in S(b)
    requires Active(u.body.timeout, u.body.index, useds, upper) ==> u in active
    requires forall e :: e in next <==> (e in useds && e.index !in S(b)) || e in UsedsOf(active)
    ensures HasUsed(next, u.body.index)
  {
    HasUsedIffIndex(useds, u.body.index);
    HasUsedIffIndex(next, u.body.index);
    UsedsMembers(active);
    if u in active {
      assert UsedOf(u) in next;
    } else {
      var e :| e in useds && e.index == u.body.index;
      assert e in next;
    }
  }
}
