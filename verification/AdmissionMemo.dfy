/** The fast path of `refresh` is exact: an account that skips recomputation while its cached
    deadline lies ahead goes through the same states as one that recomputes every time. */
module AdmissionMemo {
  import opened Common
  import opened Admission

  /** The account without the fast path. */
  function ApplyAlways(a: Account, op: Op): Account {
    match RefreshTime(a, op)
    case None => Changed(a, op)
    case Some(nowNs) => Recompute(Changed(a, op), nowNs)
  }

  function RunAlways(a: Account, ops: seq<Op>): Account
    decreases |ops|
  {
    if ops == [] then a else RunAlways(ApplyAlways(a, ops[0]), ops[1..])
  }

  /** A clean account holds exactly what recomputing at its own time would give it. */
  predicate Coherent(a: Account) {
    !a.dirty ==> Recompute(a, a.admission.observedAtNs) == a
  }

  // ------------------------------------------------------------------ no deadline is crossed

  /** Before the deadline computed at `was`, nothing time-dependent about the lane changes. */
  lemma LaneStable(lane: Lane, stale: nat, was: nat, now: nat, bound: nat)
    requires was <= now < LaneDeadline(lane, stale, was, bound) || was == now
    ensures LaneDeadline(lane, stale, now, bound) == LaneDeadline(lane, stale, was, bound)
    ensures LaneDeadline(lane, stale, was, bound) <= bound
    ensures bound <= U64_MAX ==> lane.Fresh(now, stale) == lane.Fresh(was, stale)
    ensures bound <= U64_MAX ==> lane.CancelProbeEligible(now) == lane.CancelProbeEligible(was)
  {}

  lemma {:induction false} DeadlineBelow(lanes: seq<Lane>, stale: nat, was: nat, bound: nat)
    ensures LanesDeadline(lanes, stale, was, bound) <= bound
  {
    if lanes != [] {
      DeadlineBelow(lanes[1..], stale, was, LaneDeadline(lanes[0], stale, was, bound));
    }
  }

  predicate Stable(lane: Lane, stale: nat, was: nat, now: nat) {
    && lane.Fresh(now, stale) == lane.Fresh(was, stale)
    && lane.CancelProbeEligible(now) == lane.CancelProbeEligible(was)
  }

  lemma {:induction false} LanesStable(lanes: seq<Lane>, stale: nat, was: nat, now: nat, bound: nat)
    requires was <= now < LanesDeadline(lanes, stale, was, bound) || was == now
    requires bound <= U64_MAX
    ensures LanesDeadline(lanes, stale, now, bound) == LanesDeadline(lanes, stale, was, bound)
    ensures forall i | 0 <= i < |lanes| :: Stable(lanes[i], stale, was, now)
  {
    if lanes != [] {
      var next := LaneDeadline(lanes[0], stale, was, bound);
      DeadlineBelow(lanes[1..], stale, was, next);
      LaneStable(lanes[0], stale, was, now, bound);
      LanesStable(lanes[1..], stale, was, now, next);
      forall i | 0 <= i < |lanes| ensures Stable(lanes[i], stale, was, now) {
        if i > 0 { assert lanes[i] == lanes[1..][i - 1]; }
      }
    }
  }

  lemma {:induction false} CountStable(lanes: seq<Lane>, test: Test, stale: nat, was: nat, now: nat)
    requires forall i | 0 <= i < |lanes| :: Stable(lanes[i], stale, was, now)
    ensures Count(lanes, test, now, stale) == Count(lanes, test, was, stale)
  {
    if lanes != [] {
      assert Stable(lanes[0], stale, was, now);
      forall i | 0 <= i < |lanes[1..]| ensures Stable(lanes[1..][i], stale, was, now) {
        assert lanes[1..][i] == lanes[i + 1];
      }
      CountStable(lanes[1..], test, stale, was, now);
    }
  }

  lemma {:induction false} AllFreshStable(lanes: seq<Lane>, stale: nat, was: nat, now: nat)
    requires forall i | 0 <= i < |lanes| :: Stable(lanes[i], stale, was, now)
    ensures AllFresh(lanes, now, stale) == AllFresh(lanes, was, stale)
  {
    forall i | 0 <= i < |lanes| ensures lanes[i].Fresh(now, stale) == lanes[i].Fresh(was, stale) {
      assert Stable(lanes[i], stale, was, now);
    }
  }

  lemma {:induction false} CensusStable(fast: seq<Lane>, cancel: seq<Lane>, stale: nat, was: nat, now: nat)
    requires forall i | 0 <= i < |fast| :: Stable(fast[i], stale, was, now)
    requires forall i | 0 <= i < |cancel| :: Stable(cancel[i], stale, was, now)
    ensures TakeCensus(fast, cancel, stale, now) == TakeCensus(fast, cancel, stale, was)
  {
    AllFreshStable(fast, stale, was, now);
    AllFreshStable(cancel, stale, was, now);
    CountStable(fast, IsReady, stale, was, now);
    CountStable(cancel, IsReadyCancel, stale, was, now);
    CountStable(cancel, IsEligibleCancel, stale, was, now);
    CountStable(cancel, IsOrdinaryCancel, stale, was, now);
    CountStable(fast, IsBusy, stale, was, now);
    CountStable(fast, OnProbation, stale, was, now);
    CountStable(fast, IsFree, stale, was, now);
    CountStable(fast, IsVerifiedFree, stale, was, now);
  }

  /** Nothing the decision reads changes between `was` and `now`. */
  lemma NothingChanges(a: Account, was: nat, now: nat)
    requires was <= now < NextChange(a, was) || was == now
    ensures CensusAt(a, now) == CensusAt(a, was)
    ensures NextChange(a, now) == NextChange(a, was)
    ensures now < a.pauseUntilNs <==> was < a.pauseUntilNs
  {
    var stale := a.config.staleAfterNs;
    var fastOnly := LanesDeadline(a.fast, stale, was, U64_MAX);
    DeadlineBelow(a.fast, stale, was, U64_MAX);
    DeadlineBelow(a.cancel, stale, was, fastOnly);
    LanesStable(a.fast, stale, was, now, U64_MAX);
    LanesStable(a.cancel, stale, was, now, fastOnly);
    CensusStable(a.fast, a.cancel, stale, was, now);
  }

  lemma {:induction false} DeadlineAfter(lanes: seq<Lane>, stale: nat, now: nat, bound: nat)
    requires bound > now
    ensures LanesDeadline(lanes, stale, now, bound) > now
  {
    if lanes != [] { DeadlineAfter(lanes[1..], stale, now, LaneDeadline(lanes[0], stale, now, bound)); }
  }

  /** The fast path is really taken: a recomputed decision can be reused for some time. */
  lemma CacheLasts(a: Account, now: nat)
    requires now < U64_MAX
    ensures Cached(Recompute(a, now), now)
  {
    DeadlineAfter(a.fast, a.config.staleAfterNs, now, U64_MAX);
    DeadlineAfter(a.cancel, a.config.staleAfterNs, now, LanesDeadline(a.fast, a.config.staleAfterNs, now, U64_MAX));
  }

  // ------------------------------------------------------------------ one refresh

  /** Recomputing again, before the deadline, changes only the time of the decision. */
  lemma RecomputeAgain(a: Account, was: nat, now: nat)
    requires was <= now < NextChange(a, was) || was == now
    ensures var b := Recompute(a, was);
            Recompute(b, now) == b.(admission := b.admission.(observedAtNs := now))
  {
    NothingChanges(a, was, now);
    var b := Recompute(a, was);
    assert CensusAt(b, now) == CensusAt(a, now);
    assert NextChange(b, now) == NextChange(a, now);
  }

  /** On a coherent account the fast path and the recomputation agree, field by field. */
  lemma RefreshIsRecompute(a: Account, now: nat)
    requires Coherent(a)
    ensures Refresh(a, now) == Recompute(a, now)
    ensures Coherent(Refresh(a, now))
  {
    if Cached(a, now) {
      RecomputeAgain(a, a.admission.observedAtNs, now);
    }
    RecomputeAgain(a, now, now);
  }

  lemma TakeResetCoherent(a: Account)
    requires Coherent(a)
    ensures Coherent(Changed(a, TakeReset))
  {
    var b := Changed(a, TakeReset);
    var at := a.admission.observedAtNs;
    assert CensusAt(b, at) == CensusAt(a, at) && NextChange(b, at) == NextChange(a, at);
  }

  lemma OtherwiseDirty(a: Account, op: Op)
    requires !op.Observe? && !op.Check? && !op.TakeReset?
    ensures Changed(a, op).dirty
  {}

  /** Every change either marks the account dirty or leaves what refresh reads alone. */
  lemma ChangedCoherent(a: Account, op: Op)
    requires Coherent(a)
    ensures Coherent(Changed(a, op))
  {
    match op
    case TakeReset => TakeResetCoherent(a);
    case Observe(_, _, _, _) =>
    case Check(_) =>
    case _ => OtherwiseDirty(a, op);
  }

  lemma ApplyCoherent(a: Account, op: Op)
    requires Coherent(a)
    ensures Apply(a, op) == ApplyAlways(a, op)
    ensures Coherent(Apply(a, op))
  {
    ChangedCoherent(a, op);
    match RefreshTime(a, op)
    case None =>
    case Some(now) => RefreshIsRecompute(Changed(a, op), now);
  }

  // ------------------------------------------------------------------ whole runs

  /** Memo transparency: skipping recomputation is invisible in every run from a new account,
      at every clock reading, including ones that go back. */
  lemma {:induction false} RunIsRunAlways(a: Account, ops: seq<Op>)
    requires Coherent(a)
    ensures Run(a, ops) == RunAlways(a, ops)
    ensures Coherent(Run(a, ops))
    decreases |ops|
  {
    if ops != [] {
      ApplyCoherent(a, ops[0]);
      RunIsRunAlways(Apply(a, ops[0]), ops[1..]);
    }
  }

  lemma {:induction false} CachingIsInvisible(config: Config, fastSlots: nat, cancelSlots: nat, nowNs: nat,
                                              ops: seq<Op>)
    ensures var a := New(config, fastSlots, cancelSlots, nowNs);
            Run(a, ops) == RunAlways(a, ops)
  {
    RunIsRunAlways(New(config, fastSlots, cancelSlots, nowNs), ops);
  }
}
