/** What happens to the pendings after a respond: each is settled at most once. */
module RespondedRuns {
  import opened Types
  import opened Squashes
  import opened Cheques
  import opened Places
  import opened Preparation
  import opened Channels

  /** The stored total is the sum of the pendings and the amount covers it. */
  ghost predicate Funded(c: Channel) {
    && c.stage.Responded?
    && c.stage.pendingsAmount == PendingTotal(c.stage.pendings)
    && c.amount >= PendingTotal(c.stage.pendings)
  }

  /** What a run has settled so far, what it paid the adaptor and what it returned. */
  datatype Ledger = Ledger(unlocked: seq<Pending>, expired: seq<Pending>, gain: nat, refund: nat)

  function Book(c: Channel, w: Will, l: Ledger): Ledger {
    if c.stage.Responded? && w.WillContinue? then
      match w.step
      case WillUnlock(us, gain) =>
        if |us| != |c.stage.pendings| then l
        else l.(unlocked := l.unlocked + Resolved(c.stage.pendings, us), gain := l.gain + gain)
      case WillExpire(us) =>
        if |us| != |c.stage.pendings| then l
        else l.(expired := l.expired + Resolved(c.stage.pendings, us),
                refund := l.refund + SaturatingSub(c.amount, w.output.amount))
      case _ => l
    else l
  }

  function SettleMove(d: Channel, l: Ledger, m: Move, hash: Secret -> Lock): (Channel, Ledger) {
    match Resolve(d, m.want, m.interval, hash)
    case Err(_) => (d, l)
    case Ok(WillFinish(_)) => (d, l)
    case Ok(WillContinue(next, step)) => (next, Book(d, WillContinue(next, step), l))
  }

  function Settle(c: Channel, ms: seq<Move>, hash: Secret -> Lock): (Channel, Ledger) {
    if ms == [] then (c, Ledger([], [], 0, 0))
    else
      var (d, l) := Settle(c, Init(ms), hash);
      SettleMove(d, l, Last(ms), hash)
  }

  lemma PendingSnoc(ps: seq<Pending>, p: Pending)
    ensures PendingTotal(ps + [p]) == PendingTotal(ps) + p.amount
    ensures PendingTotal(ps + []) == PendingTotal(ps)
  {
    assert Init(ps + [p]) == ps;
    assert ps + [] == ps;
  }

  lemma {:induction false} PendingConcat(ps: seq<Pending>, qs: seq<Pending>)
    ensures PendingTotal(ps + qs) == PendingTotal(ps) + PendingTotal(qs)
  {
    if qs == [] {
      assert ps + qs == ps;
    } else {
      PendingConcat(ps, Init(qs));
      assert ps + qs == ps + Init(qs) + [Last(qs)];
      PendingSnoc(ps + Init(qs), Last(qs));
    }
  }

  /** Unpends partition the pendings. */
  lemma {:induction false} UnpendsPartition(ps: seq<Pending>, us: seq<Unpend>)
    requires |ps| == |us|
    ensures multiset(ps) == multiset(Resolved(ps, us)) + multiset(Remaining(ps, us))
  {
    if ps != [] {
      UnpendsPartition(Init(ps), Init(us));
      assert ps == Init(ps) + [Last(ps)];
      if Last(us).Continue? {
        assert Resolved(ps, us) == Resolved(Init(ps), Init(us));
      } else {
        assert Remaining(ps, us) == Remaining(Init(ps), Init(us));
      }
    }
  }

  lemma {:induction false} UnpendsTotals(ps: seq<Pending>, us: seq<Unpend>)
    requires |ps| == |us|
    ensures PendingTotal(ps) == PendingTotal(Resolved(ps, us)) + PendingTotal(Remaining(ps, us))
  {
    if ps != [] {
      UnpendsTotals(Init(ps), Init(us));
      PendingSnoc(Resolved(Init(ps), Init(us)), Last(ps));
      PendingSnoc(Remaining(Init(ps), Init(us)), Last(ps));
    }
  }

  /** An expire drops exactly the pendings timed out before `lower`. */
  lemma {:induction false} ExpireExact(ps: seq<Pending>, lower: nat)
    ensures forall p :: p in Remaining(ps, ExpireUnpends(ps, lower)) <==> p in ps && p.timeout >= lower
    ensures forall p :: p in Resolved(ps, ExpireUnpends(ps, lower)) <==> p in ps && p.timeout < lower
  {
    if ps != [] {
      ExpireExact(Init(ps), lower);
      assert ps == Init(ps) + [Last(ps)];
      assert Init(ExpireUnpends(ps, lower)) == ExpireUnpends(Init(ps), lower);
    }
  }

  lemma {:induction false} ContinueKeeps(ps: seq<Pending>, us: seq<Unpend>)
    requires |ps| == |us| && forall u :: u in us ==> u.Continue?
    ensures Remaining(ps, us) == ps
  {
    if ps != [] {
      assert us == Init(us) + [Last(us)] && ps == Init(ps) + [Last(ps)];
      assert Last(us) in us;
      ContinueKeeps(Init(ps), Init(us));
    }
  }

  lemma ExpireClears(ps: seq<Pending>, lower: nat)
    requires ps != []
    ensures (exists p :: p in ps && p.timeout >= lower) <==> Remaining(ps, ExpireUnpends(ps, lower)) != []
    ensures (forall u :: u in ExpireUnpends(ps, lower) ==> u.Continue?) ==>
      Remaining(ps, ExpireUnpends(ps, lower)) != []
  {
    var left := Remaining(ps, ExpireUnpends(ps, lower));
    ExpireExact(ps, lower);
    assert left != [] ==> left[0] in left;
    if forall u :: u in ExpireUnpends(ps, lower) ==> u.Continue? {
      ContinueKeeps(ps, ExpireUnpends(ps, lower));
    }
  }

  /** A channel with pendings can end exactly when an expire in the same window would
      clear them all. */
  lemma EndIffExpireClears(c: Channel, i: Interval)
    requires c.stage.Responded? && c.stage.pendings != []
    ensures End(c, i).Ok? <==> ExpirePendings(c, i).Ok? && ExpirePendings(c, i).value.output.stage.pendings == []
  {
    if i.lower.Some? {
      ExpireClears(c.stage.pendings, i.lower.value);
    }
  }

  ghost predicate Balanced(entry: Channel, d: Channel, l: Ledger)
    requires entry.stage.Responded?
  {
    && Funded(d)
    && multiset(entry.stage.pendings)
       == multiset(l.unlocked) + multiset(l.expired) + multiset(d.stage.pendings)
    && l.gain == PendingTotal(l.unlocked)
    && d.amount + l.gain + l.refund == entry.amount
    && (l.expired != [] ==> d.amount == PendingTotal(d.stage.pendings))
  }

  /** Settling moves pendings from the remaining to the unlocked or the expired. */
  lemma Moved(unlocked: seq<Pending>, expired: seq<Pending>, ps: seq<Pending>, us: seq<Unpend>)
    requires |ps| == |us|
    ensures var all := multiset(unlocked) + multiset(expired) + multiset(ps);
      var gone, kept := Resolved(ps, us), Remaining(ps, us);
      && all == multiset(unlocked + gone) + multiset(expired) + multiset(kept)
      && all == multiset(unlocked) + multiset(expired + gone) + multiset(kept)
  {
    UnpendsPartition(ps, us);
  }

  lemma UnlockBalances(entry: Channel, d: Channel, l: Ledger, secrets: seq<Secret>, i: Interval, hash: Secret -> Lock)
    requires Funded(entry) && Balanced(entry, d, l)
    requires UnlockPendings(d, secrets, i, hash).Ok?
    ensures var w := UnlockPendings(d, secrets, i, hash).value;
      Balanced(entry, w.output, Book(d, w, l))
  {
    var us := UnlockUnpends(d.stage.pendings, secrets, i.upper.value, hash);
    UnlockBooks(d, l, secrets, i, hash);
    UnlockedBalances(entry, d, l, us);
  }

  /** The channel and ledger after unlocking as `us` says. */
  function UnlockedChannel(d: Channel, us: seq<Unpend>): Channel
    requires d.stage.Responded? && |us| == |d.stage.pendings|
  {
    var left := Remaining(d.stage.pendings, us);
    Stepped(d, SaturatingSub(d.amount, PendingTotal(Resolved(d.stage.pendings, us))),
      Responded(PendingTotal(left), left))
  }

  function UnlockedLedger(d: Channel, l: Ledger, us: seq<Unpend>): Ledger
    requires d.stage.Responded? && |us| == |d.stage.pendings|
  {
    l.(unlocked := l.unlocked + Resolved(d.stage.pendings, us),
       gain := l.gain + PendingTotal(Resolved(d.stage.pendings, us)))
  }

  lemma UnlockBooks(d: Channel, l: Ledger, secrets: seq<Secret>, i: Interval, hash: Secret -> Lock)
    requires UnlockPendings(d, secrets, i, hash).Ok?
    ensures var w := UnlockPendings(d, secrets, i, hash).value;
      var us := UnlockUnpends(d.stage.pendings, secrets, i.upper.value, hash);
      w.output == UnlockedChannel(d, us) && Book(d, w, l) == UnlockedLedger(d, l, us)
  {}

  lemma UnlockedBalances(entry: Channel, d: Channel, l: Ledger, us: seq<Unpend>)
    requires Funded(entry) && Balanced(entry, d, l) && |us| == |d.stage.pendings|
    ensures Balanced(entry, UnlockedChannel(d, us), UnlockedLedger(d, l, us))
  {
    UnpendsTotals(d.stage.pendings, us);
    PendingConcat(l.unlocked, Resolved(d.stage.pendings, us));
    Moved(l.unlocked, l.expired, d.stage.pendings, us);
  }

  lemma ExpireBalances(entry: Channel, d: Channel, l: Ledger, i: Interval)
    requires Funded(entry) && Balanced(entry, d, l)
    requires ExpirePendings(d, i).Ok?
    ensures var w := ExpirePendings(d, i).value;
      Balanced(entry, w.output, Book(d, w, l))
  {
    var us := ExpireUnpends(d.stage.pendings, i.lower.value);
    ExpireBooks(d, l, i);
    ExpiredBalances(entry, d, l, us);
  }

  /** The channel and ledger after expiring as `us` says. */
  function ExpiredChannel(d: Channel, us: seq<Unpend>): Channel
    requires d.stage.Responded? && |us| == |d.stage.pendings|
  {
    var left := Remaining(d.stage.pendings, us);
    Stepped(d, PendingTotal(left), Responded(PendingTotal(left), left))
  }

  function ExpiredLedger(d: Channel, l: Ledger, us: seq<Unpend>): Ledger
    requires d.stage.Responded? && |us| == |d.stage.pendings|
  {
    l.(expired := l.expired + Resolved(d.stage.pendings, us),
       refund := l.refund + SaturatingSub(d.amount, PendingTotal(Remaining(d.stage.pendings, us))))
  }

  lemma ExpireBooks(d: Channel, l: Ledger, i: Interval)
    requires ExpirePendings(d, i).Ok?
    ensures var w := ExpirePendings(d, i).value;
      var us := ExpireUnpends(d.stage.pendings, i.lower.value);
      w.output == ExpiredChannel(d, us) && Book(d, w, l) == ExpiredLedger(d, l, us)
  {}

  lemma ExpiredBalances(entry: Channel, d: Channel, l: Ledger, us: seq<Unpend>)
    requires Funded(entry) && Balanced(entry, d, l) && |us| == |d.stage.pendings|
    ensures Balanced(entry, ExpiredChannel(d, us), ExpiredLedger(d, l, us))
  {
    UnpendsTotals(d.stage.pendings, us);
    Moved(l.unlocked, l.expired, d.stage.pendings, us);
  }

  lemma MoveBalances(entry: Channel, d: Channel, l: Ledger, m: Move, hash: Secret -> Lock)
    requires Funded(entry) && Balanced(entry, d, l)
    ensures var (e, k) := SettleMove(d, l, m, hash); Balanced(entry, e, k)
  {
    if Resolve(d, m.want, m.interval, hash).Ok? {
      if m.want.WantUnlock? {
        UnlockBalances(entry, d, l, m.want.secrets, m.interval, hash);
      } else if m.want.WantExpire? {
        ExpireBalances(entry, d, l, m.interval);
      }
    }
  }

  /** Over any run from a funded state the entry pendings split into unlocked, expired
      and remaining; the stored total is always the sum of the remaining; the adaptor's
      gain is exactly the unlocked sum; and what left the channel is that gain plus what
      the expires returned. */
  lemma {:induction false} SettledAtMostOnce(c: Channel, ms: seq<Move>, hash: Secret -> Lock)
    requires Funded(c)
    ensures var (d, l) := Settle(c, ms, hash); Balanced(c, d, l)
  {
    if ms != [] {
      SettledAtMostOnce(c, Init(ms), hash);
      var (d, l) := Settle(c, Init(ms), hash);
      MoveBalances(c, d, l, Last(ms), hash);
    }
  }

  /** A respond leaves one pending for each locked cheque offered that outlives the window
      and has no used, in order, with that cheque's amount, timeout and lock. */
  lemma RespondLeaves(c: Channel, q: Squash, cs: seq<Cheque>, i: Interval)
    requires Respond(c, q, cs, i).Ok?
    ensures var d := Respond(c, q, cs, i).value.output;
      d.stage.Responded?
      && CarriedAt(d.stage.pendings, cs, PlacesBelow(|cs|, PendingPlaces(cs, c.stage.useds, i.upper.value)))
  {
    PendingsInOrder(cs, c.stage.useds, i.upper.value);
  }

  lemma SomePending(ps: seq<Pending>, cs: seq<Cheque>, holds: nat -> bool, k: nat)
    requires CarriedAt(ps, cs, PlacesBelow(|cs|, holds)) && k < |cs| && holds(k)
    ensures exists p :: p in ps && Carries(p, cs[k])
  {
    var ks := PlacesBelow(|cs|, holds);
    PlacesAre(|cs|, holds);
    var j :| 0 <= j < |ks| && ks[j] == k;
    assert ps[j] in ps && Carries(ps[j], cs[ks[j]]);
  }

  /** The channel cannot end before every cheque responded with has timed out. */
  lemma EndAfterTimeouts(c: Channel, q: Squash, cs: seq<Cheque>, i: Interval, later: Interval, k: nat)
    requires Respond(c, q, cs, i).Ok? && End(Respond(c, q, cs, i).value.output, later).Ok?
    requires k < |cs| && PendingPlaces(cs, c.stage.useds, i.upper.value)(k)
    ensures later.lower.Some? && cs[k].Timeout() < later.lower.value
  {
    var ps := Respond(c, q, cs, i).value.output.stage.pendings;
    RespondLeaves(c, q, cs, i);
    SomePending(ps, cs, PendingPlaces(cs, c.stage.useds, i.upper.value), k);
    var p :| p in ps && Carries(p, cs[k]);
  }

  /** And an expire drops exactly the pendings whose cheque has timed out. */
  lemma ExpireAfterTimeouts(c: Channel, q: Squash, cs: seq<Cheque>, i: Interval, later: Interval)
    requires Respond(c, q, cs, i).Ok? && ExpirePendings(Respond(c, q, cs, i).value.output, later).Ok?
    ensures var ks := PlacesBelow(|cs|, PendingPlaces(cs, c.stage.useds, i.upper.value));
      var us := ExpirePendings(Respond(c, q, cs, i).value.output, later).value.step.unpends;
      && |us| == |ks| && later.lower.Some?
      && forall j :: 0 <= j < |ks| ==>
           ks[j] < |cs| && us[j] == if cs[ks[j]].Timeout() < later.lower.value then Expire else Continue
  {
    RespondLeaves(c, q, cs, i);
    ExpireShowsTimeouts(Respond(c, q, cs, i).value.output.stage.pendings, later.lower.value);
  }

  ghost function Continues(us: seq<Unpend>): nat -> bool {
    (k: nat) => k < |us| && us[k].Continue?
  }

  lemma {:induction false} RemainingUpTo(ps: seq<Pending>, us: seq<Unpend>, n: nat)
    requires n <= |ps| == |us|
    ensures Remaining(ps[..n], us[..n]) == TakeWhere(ps, n, Continues(us))
  {
    if n > 0 {
      RemainingUpTo(ps, us, n - 1);
      assert Init(ps[..n]) == ps[..n - 1] && Init(us[..n]) == us[..n - 1];
    }
  }

  /** What remains is, in order, exactly the pendings whose unpend continues. */
  lemma RemainingInOrder(ps: seq<Pending>, us: seq<Unpend>)
    requires |ps| == |us|
    ensures Keeps(Remaining(ps, us), ps, Continues(us))
  {
    RemainingUpTo(ps, us, |ps|);
    assert ps[..|ps|] == ps && us[..|ps|] == us;
    TakeWhereKeeps(ps, Continues(us));
  }

  /** A respond leaves the pendings funded exactly when there are none, or when what is
      owed and what stays pending both fit the amount. */
  lemma RespondFunds(c: Channel, squash: Squash, cs: seq<Cheque>, i: Interval)
    requires Respond(c, squash, cs, i).Ok?
    ensures var (_, pendings, total) := PrepRespond(squash.body, cs, c.stage.useds, i.upper.value);
      Funded(Respond(c, squash, cs, i).value.output) <==>
      || PendingTotal(pendings) == 0
      || SaturatingSub(squash.body.amount + total, c.stage.subbed) + PendingTotal(pendings) <= c.amount
  {}

  /** An underfunded respond is where it goes wrong: the saturating unlock then pays the
      adaptor less than the pendings it opened. */
  lemma UnfundedUnlockLosesGain(hash: Secret -> Lock, s: Secret, sig: Bytes)
    ensures exists c: Channel, squash: Squash, cs: seq<Cheque>, i: Interval, j: Interval ::
      && c.stage.Closed? && Respond(c, squash, cs, i).Ok?
      && var d := Respond(c, squash, cs, i).value.output;
         var r := UnlockPendings(d, [s], j, hash);
         !Funded(d) && r.Ok? && d.amount - r.value.output.amount < r.value.step.gain
  {
    var l := Signed(ChequeBody(1, 5, 1, hash(s)), sig);
    var p := PendingOf(l);
    var c := Channel(None, Constants([], [], [], 0), 3, Closed(0, [], 9));
    var squash, cs := Squash(ZERO, sig), [LockedCheque(l)];
    var i, j := Interval(None, Some(0)), Interval(None, Some(2));
    OneLockedCheque(l);
    var d := Stepped(c, 3, Responded(5, [p]));
    assert Respond(c, squash, cs, i).Ok? && Respond(c, squash, cs, i).value.output == d;
    OnePending(p, s, hash);
    UnlockGain(d, [s], j, hash);
    assert UnlockPendings(d, [s], j, hash).Ok?;
  }

  lemma OneLockedCheque(l: Locked)
    requires l.body.timeout > 0
    ensures PrepRespond(ZERO, [LockedCheque(l)], [], 0) == ([LockedCheque(l)], [PendingOf(l)], 0)
    ensures PendingTotal([PendingOf(l)]) == l.body.amount
  {
    var cs, ps := [LockedCheque(l)], [PendingOf(l)];
    assert Init(cs) == [] && [] + cs == cs && Init(ps) == [] && [] + ps == ps;
    assert ActiveCheques(cs, [], 0) == cs;
    assert PendingsOf(cs) == ps;
    assert Unlockeds(cs) == Unlockeds([]) + [] == [];
    assert OwedUseds([], ZERO) == [];
  }

  lemma OnePending(p: Pending, s: Secret, hash: Secret -> Lock)
    requires p.timeout < 2 && hash(s) == p.lock
    ensures OpenableTotal([p], [s], 2, hash) == p.amount
  {
    assert Init([p]) == [] && s in [s];
  }
}
