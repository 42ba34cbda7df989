/** The place budget is exact: it is how many places the router can send right now, one per
    lane, and a lane that was sent one is not sent another before its owner reports. */
module AdmissionBudget {
  import opened Common
  import opened Admission
  import opened AdmissionLanes
  import opened AdmissionMemo

  /** The account as a caller of `lane_place_allowed` sees it at `nowNs`. */
  predicate Refreshed(b: Account, nowNs: nat) {
    Recompute(b, nowNs) == b
  }

  lemma RefreshRefreshes(a: Account, nowNs: nat)
    requires Coherent(a)
    ensures Refreshed(Refresh(a, nowNs), nowNs)
  {
    RefreshIsRecompute(a, nowNs);
    RecomputeAgain(a, nowNs, nowNs);
  }

  /** The budget before it is capped to the u16 that is announced. */
  function Budget(b: Account, nowNs: nat): nat {
    var c := CensusAt(b, nowNs);
    Decide(c, |b.fast|, MustPause(c, b.pauseUntilNs, nowNs), b.recoveryRequired, b.probe.Some?).1
  }

  lemma BudgetAnnounced(b: Account, nowNs: nat)
    requires Refreshed(b, nowNs)
    ensures b.admission.slots == Min(Budget(b, nowNs), U16_MAX)
    ensures AllowsPlace(b.admission) <==> Budget(b, nowNs) > 0
  {}

  // ------------------------------------------------------------------ one dispatch

  /** What sending on a free lane does to the census. */
  lemma DispatchCensus(b: Account, slot: nat, nowNs: nat)
    requires slot < |b.fast| && Holds(IsFree, b.fast[slot], nowNs, b.config.staleAfterNs)
    ensures var c, d := CensusAt(b, nowNs), CensusAt(Dispatched(b, slot, nowNs), nowNs);
            && c.freeFast > 0 && d.freeFast == c.freeFast - 1
            && (b.fast[slot].verified ==> c.verifiedFree > 0)
            && d == c.(busyFast := c.busyFast + 1,
                       freeFast := c.freeFast - 1,
                       probationBusy := c.probationBusy + (if b.fast[slot].verified then 0 else 1),
                       verifiedFree := if b.fast[slot].verified then c.verifiedFree - 1 else c.verifiedFree)
  {
    var stale := b.config.staleAfterNs;
    var lane := b.fast[slot].(busy := true, dispatchedAtNs := Some(nowNs));
    SentIsBusy(b.fast, slot, lane, nowNs, stale);
    SentIsNotFree(b.fast, slot, lane, nowNs, stale);
    LanesAlike(b.fast, slot, lane, nowNs, stale);
  }

  lemma SentIsBusy(lanes: seq<Lane>, i: nat, lane: Lane, nowNs: nat, stale: nat)
    requires i < |lanes| && Holds(IsFree, lanes[i], nowNs, stale)
    requires lane == lanes[i].(busy := true, dispatchedAtNs := Some(nowNs))
    ensures var after := lanes[i := lane];
            && Count(after, IsReady, nowNs, stale) == Count(lanes, IsReady, nowNs, stale)
            && Count(after, IsBusy, nowNs, stale) == Count(lanes, IsBusy, nowNs, stale) + 1
            && Count(after, OnProbation, nowNs, stale) ==
               Count(lanes, OnProbation, nowNs, stale) + (if lane.verified then 0 else 1)
  {
    CountUpdate(lanes, i, lane, IsReady, nowNs, stale);
    CountUpdate(lanes, i, lane, IsBusy, nowNs, stale);
    CountUpdate(lanes, i, lane, OnProbation, nowNs, stale);
  }

  lemma SentIsNotFree(lanes: seq<Lane>, i: nat, lane: Lane, nowNs: nat, stale: nat)
    requires i < |lanes| && Holds(IsFree, lanes[i], nowNs, stale)
    requires lane == lanes[i].(busy := true, dispatchedAtNs := Some(nowNs))
    ensures var after := lanes[i := lane];
            && Count(after, IsFree, nowNs, stale) == Count(lanes, IsFree, nowNs, stale) - 1
            && Count(after, IsVerifiedFree, nowNs, stale) ==
               Count(lanes, IsVerifiedFree, nowNs, stale) - (if lane.verified then 1 else 0)
  {
    CountUpdate(lanes, i, lane, IsFree, nowNs, stale);
    CountUpdate(lanes, i, lane, IsVerifiedFree, nowNs, stale);
  }

  lemma {:induction false} LanesAlike(lanes: seq<Lane>, i: nat, lane: Lane, nowNs: nat, stale: nat)
    requires i < |lanes| && lane.verified == lanes[i].verified
    requires lane.Fresh(nowNs, stale) == lanes[i].Fresh(nowNs, stale)
    ensures AllFresh(lanes[i := lane], nowNs, stale) == AllFresh(lanes, nowNs, stale)
    ensures AllVerified(lanes[i := lane]) == AllVerified(lanes)
  {
    var after := lanes[i := lane];
    assert forall j | 0 <= j < |lanes| ::
      lanes[j].Fresh(nowNs, stale) == after[j].Fresh(nowNs, stale) && lanes[j].verified == after[j].verified;
  }

  /** A free lane outside probation is worth exactly one place. */
  lemma FreeLaneCounts(b: Account, slot: nat, nowNs: nat)
    requires slot < |b.fast| && Holds(IsFree, b.fast[slot], nowNs, b.config.staleAfterNs)
    requires !b.fast[slot].verified
    ensures CensusAt(b, nowNs).freeFast > CensusAt(b, nowNs).verifiedFree
  {
    var stale := b.config.staleAfterNs;
    var gone := b.fast[slot].(busy := true);
    CountUpdate(b.fast, slot, gone, IsFree, nowNs, stale);
    CountUpdate(b.fast, slot, gone, IsVerifiedFree, nowNs, stale);
    VerifiedFreeIsFree(b.fast[slot := gone], nowNs, stale);
  }

  /** The census after a dispatch on a lane that is verified or not. */
  function Spent(c: Census, verified: bool): Census
    requires c.freeFast > 0 && (verified ==> c.verifiedFree > 0)
  {
    c.(busyFast := c.busyFast + 1, freeFast := c.freeFast - 1,
       probationBusy := c.probationBusy + (if verified then 0 else 1),
       verifiedFree := if verified then c.verifiedFree - 1 else c.verifiedFree)
  }

  /** The decision on counts alone: same state, one place fewer. */
  lemma DecideSpendsOne(c: Census, fastLanes: nat, paused: bool, recovery: bool, verified: bool)
    requires c.freeFast > 0 && (verified ==> c.verifiedFree > 0)
    requires !verified ==> c.freeFast > c.verifiedFree && !c.allVerified && (recovery || c.probationBusy == 0)
    requires Decide(c, fastLanes, paused, recovery, false).1 > 0
    ensures var was := Decide(c, fastLanes, paused, recovery, false);
            var now := Decide(Spent(c, verified), fastLanes, paused, recovery, recovery);
            now.0 == was.0 && now.1 == was.1 - 1
  {}

  lemma DispatchedCensus(b: Account, slot: nat, nowNs: nat)
    requires Refreshed(b, nowNs) && LaneAllowed(b, slot, nowNs)
    ensures var c, verified := CensusAt(b, nowNs), b.fast[slot].verified;
            && c.freeFast > 0 && (verified ==> c.verifiedFree > 0)
            && (!verified ==>
                  && c.freeFast > c.verifiedFree && !c.allVerified
                  && (b.recoveryRequired || c.probationBusy == 0))
            && CensusAt(Dispatched(b, slot, nowNs), nowNs) == Spent(c, verified)
  {
    DispatchCensus(b, slot, nowNs);
    if !b.fast[slot].verified { FreeLaneCounts(b, slot, nowNs); }
  }

  /** The state and budget that the account's own fields decide. */
  function Decided(b: Account, nowNs: nat): (Gate, nat) {
    var c := CensusAt(b, nowNs);
    Decide(c, |b.fast|, MustPause(c, b.pauseUntilNs, nowNs), b.recoveryRequired, b.probe.Some?)
  }

  /** Nothing forces a pause or a recovery that the account does not know of. */
  predicate Settled(b: Account, nowNs: nat) {
    && !MustPause(CensusAt(b, nowNs), b.pauseUntilNs, nowNs)
    && (b.recoveryRequired || CensusAt(b, nowNs).readyCancel > 0)
  }

  lemma RefreshedDecides(b: Account, nowNs: nat)
    requires Refreshed(b, nowNs)
    ensures b.admission.gate == Decided(b, nowNs).0 && Budget(b, nowNs) == Decided(b, nowNs).1
    ensures AllowsPlace(b.admission) ==> Settled(b, nowNs) && Decided(b, nowNs).1 > 0
  {}

  lemma RecomputeDecides(d: Account, nowNs: nat)
    requires Settled(d, nowNs)
    ensures var c := Recompute(d, nowNs);
            c.admission.gate == Decided(d, nowNs).0 && Budget(c, nowNs) == Decided(d, nowNs).1
  {
    assert CensusAt(Recompute(d, nowNs), nowNs) == CensusAt(d, nowNs);
  }

  lemma DispatchedDecides(b: Account, slot: nat, nowNs: nat)
    requires Refreshed(b, nowNs) && LaneAllowed(b, slot, nowNs)
    ensures var d := Dispatched(b, slot, nowNs);
            && Settled(d, nowNs) && Decided(d, nowNs) == (Decided(b, nowNs).0, Decided(b, nowNs).1 - 1)
  {
    RefreshedDecides(b, nowNs);
    DispatchedCensus(b, slot, nowNs);
    var c := CensusAt(b, nowNs);
    DecideSpendsOne(c, |b.fast|, false, b.recoveryRequired, b.fast[slot].verified);
  }

  /** One allowed dispatch costs exactly one place, changes no state, and closes its lane. */
  lemma DispatchSpendsOne(b: Account, slot: nat, nowNs: nat)
    requires Refreshed(b, nowNs) && LaneAllowed(b, slot, nowNs)
    ensures var c := Apply(b, Dispatch(slot, nowNs));
            && Refreshed(c, nowNs)
            && c.admission.gate == b.admission.gate
            && Budget(c, nowNs) == Budget(b, nowNs) - 1
            && !LaneAllowed(c, slot, nowNs)
  {
    var d := Dispatched(b, slot, nowNs);
    RefreshedDecides(b, nowNs);
    DispatchedDecides(b, slot, nowNs);
    RecomputeDecides(d, nowNs);
    RefreshRefreshes(d, nowNs);
  }

  /** An account whose lanes a u16 can count announces its whole budget. */
  lemma SlotsAreBudget(b: Account, nowNs: nat)
    requires Refreshed(b, nowNs) && |b.fast| <= U16_MAX
    ensures b.admission.slots == Budget(b, nowNs)
  {
    BudgetAnnounced(b, nowNs);
    VerifiedFreeIsFree(b.fast, nowNs, b.config.staleAfterNs);
  }

  /** What is announced after an allowed dispatch: the same state and one slot fewer, and its lane
      is closed. */
  lemma DispatchSpendsSlot(b: Account, slot: nat, nowNs: nat)
    requires Refreshed(b, nowNs) && LaneAllowed(b, slot, nowNs) && |b.fast| <= U16_MAX
    ensures var c := Apply(b, Dispatch(slot, nowNs));
            && c.admission.gate == b.admission.gate
            && c.admission.slots == b.admission.slots - 1
            && !LaneAllowed(c, slot, nowNs)
  {
    var c := Apply(b, Dispatch(slot, nowNs));
    DispatchSpendsOne(b, slot, nowNs);
    ApplyKeepsLanes(b, Dispatch(slot, nowNs));
    SlotsAreBudget(b, nowNs);
    SlotsAreBudget(c, nowNs);
  }

  /** Recovery sends on an idle account only, and a trial of an unverified lane goes alone. */
  lemma TrialsGoAlone(b: Account, slot: nat, nowNs: nat)
    requires Refreshed(b, nowNs) && LaneAllowed(b, slot, nowNs)
    ensures b.admission.gate == Recovering ==>
              b.probe.None? && forall i | 0 <= i < |b.fast| :: !Holds(IsBusy, b.fast[i], nowNs, b.config.staleAfterNs)
    ensures b.admission.gate == Degraded && !b.fast[slot].verified ==>
              forall i | 0 <= i < |b.fast| :: !Holds(OnProbation, b.fast[i], nowNs, b.config.staleAfterNs)
  {
    CountPositive(b.fast, IsBusy, nowNs, b.config.staleAfterNs);
    CountPositive(b.fast, OnProbation, nowNs, b.config.staleAfterNs);
  }

  // ------------------------------------------------------------------ bursts

  /** There is a lane to send on exactly while the budget is positive. */
  lemma BudgetIsUsable(b: Account, nowNs: nat)
    requires Refreshed(b, nowNs)
    ensures (exists slot: nat :: LaneAllowed(b, slot, nowNs)) <==> b.admission.slots > 0
  {
    BudgetAnnounced(b, nowNs);
    var c := CensusAt(b, nowNs);
    var stale := b.config.staleAfterNs;
    CountPositive(b.fast, IsFree, nowNs, stale);
    CountPositive(b.fast, IsVerifiedFree, nowNs, stale);
    if b.admission.slots > 0 {
      if b.admission.gate == Open {
        var slot :| 0 <= slot < |b.fast| && Holds(IsFree, b.fast[slot], nowNs, stale);
        assert b.fast[slot].verified;
        assert LaneAllowed(b, slot, nowNs);
      } else if c.verifiedFree > 0 {
        var slot :| 0 <= slot < |b.fast| && Holds(IsVerifiedFree, b.fast[slot], nowNs, stale);
        assert LaneAllowed(b, slot, nowNs);
      } else {
        var slot :| 0 <= slot < |b.fast| && Holds(IsFree, b.fast[slot], nowNs, stale);
        assert LaneAllowed(b, slot, nowNs);
      }
    }
  }

  /** Places sent one after another at the same time, each on a lane that was allowed then. */
  predicate Burst(b: Account, slots: seq<nat>, nowNs: nat)
    decreases |slots|
  {
    slots == [] || (LaneAllowed(b, slots[0], nowNs) && Burst(Apply(b, Dispatch(slots[0], nowNs)), slots[1..], nowNs))
  }

  function Sent(b: Account, slots: seq<nat>, nowNs: nat): Account
    decreases |slots|
  {
    if slots == [] then b else Sent(Apply(b, Dispatch(slots[0], nowNs)), slots[1..], nowNs)
  }

  /** The budget is the length of every burst that cannot go on, whichever lanes it picked, and
      it is never overdrawn. */
  lemma {:induction false} BurstSpendsBudget(b: Account, slots: seq<nat>, nowNs: nat)
    requires Refreshed(b, nowNs) && Burst(b, slots, nowNs)
    ensures |slots| <= Budget(b, nowNs)
    ensures Budget(Sent(b, slots, nowNs), nowNs) == Budget(b, nowNs) - |slots|
    ensures Sent(b, slots, nowNs).admission.gate == b.admission.gate
    ensures |slots| == Budget(b, nowNs) <==> forall slot: nat :: !LaneAllowed(Sent(b, slots, nowNs), slot, nowNs)
    decreases |slots|
  {
    if slots == [] {
      BudgetAnnounced(b, nowNs);
      BudgetIsUsable(b, nowNs);
    } else {
      DispatchSpendsOne(b, slots[0], nowNs);
      BurstSpendsBudget(Apply(b, Dispatch(slots[0], nowNs)), slots[1..], nowNs);
    }
  }

  lemma {:induction false} SentKeepsLanes(b: Account, slots: seq<nat>, nowNs: nat)
    requires Refreshed(b, nowNs) && Burst(b, slots, nowNs)
    ensures Refreshed(Sent(b, slots, nowNs), nowNs) && |Sent(b, slots, nowNs).fast| == |b.fast|
    decreases |slots|
  {
    if slots != [] {
      DispatchSpendsOne(b, slots[0], nowNs);
      ApplyKeepsLanes(b, Dispatch(slots[0], nowNs));
      SentKeepsLanes(Apply(b, Dispatch(slots[0], nowNs)), slots[1..], nowNs);
    }
  }

  /** The announced slots are how many places go out in a row: no burst is longer, each place
      takes one slot, and a burst is stuck if and only if it has used every slot announced,
      whichever lanes it picked. */
  lemma {:induction false} BurstSpendsSlots(b: Account, slots: seq<nat>, nowNs: nat)
    requires Refreshed(b, nowNs) && Burst(b, slots, nowNs) && |b.fast| <= U16_MAX
    ensures |slots| <= b.admission.slots
    ensures Sent(b, slots, nowNs).admission.slots == b.admission.slots - |slots|
    ensures Sent(b, slots, nowNs).admission.gate == b.admission.gate
    ensures |slots| == b.admission.slots <==> forall slot: nat :: !LaneAllowed(Sent(b, slots, nowNs), slot, nowNs)
  {
    BurstSpendsBudget(b, slots, nowNs);
    SentKeepsLanes(b, slots, nowNs);
    SlotsAreBudget(b, nowNs);
    SlotsAreBudget(Sent(b, slots, nowNs), nowNs);
  }

  // ------------------------------------------------------------------ no second dispatch

  /** What ends a dispatch made at `since`: an accepted report of its owner from then on that the
      lane is free, or the router learning that it never left. */
  predicate Releases(a: Account, op: Op, slot: nat, since: nat) {
    match op
    case Observe(role, s, o, nowNs) =>
      role == Fast && s == slot && Accepts(a, Fast, slot, o, nowNs) && o.observedAtNs >= since && !o.busy
    case NotSentAt(s, _) => s == slot
    case _ => false
  }

  predicate InFlight(a: Account, slot: nat, since: nat) {
    slot < |a.fast| && a.fast[slot].busy && a.fast[slot].dispatchedAtNs == Some(since)
  }

  /** The lane was open when the router asked. */
  predicate Asked(a: Account, slot: nat, askNs: nat) {
    LaneAllowed(Refresh(a, askNs), slot, askNs)
  }

  /** The router asks before it sends, at some reading of the clock; the dispatch itself is
      stamped with a later reading. */
  ghost predicate Disciplined(a: Account, ops: seq<Op>)
    decreases |ops|
  {
    ops == [] || (
      && (ops[0].Dispatch? ==> exists askNs :: Asked(a, ops[0].slot, askNs))
      && Disciplined(Apply(a, ops[0]), ops[1..]))
  }

  lemma ReportKeepsInFlight(a: Account, o: Observation, nowNs: nat, slot: nat, since: nat)
    requires InFlight(a, slot, since) && !Releases(a, Observe(Fast, slot, o, nowNs), slot, since)
    requires Accepts(a, Fast, slot, o, nowNs)
    ensures InFlight(Absorbed(a, Fast, slot, o, nowNs), slot, since)
  {
    AbsorbedLane(a, Fast, slot, o, nowNs, Fast, slot);
  }

  lemma OtherwiseInFlight(a: Account, op: Op, slot: nat, since: nat)
    requires InFlight(a, slot, since) && !Releases(a, op, slot, since)
    requires !op.Observe? && !(op.Dispatch? && op.slot == slot)
    ensures InFlight(Changed(a, op), slot, since)
  {}

  lemma RefusedInFlight(a: Account, role: Role, s: nat, o: Observation, nowNs: nat, slot: nat, since: nat)
    requires InFlight(a, slot, since) && !(role == Fast && s == slot && Accepts(a, Fast, slot, o, nowNs))
    ensures InFlight(Observed(a, role, s, o, nowNs), slot, since)
  {
    if Accepts(a, role, s, o, nowNs) {
      AbsorbedLane(a, role, s, o, nowNs, Fast, slot);
    } else {
      FaultedInFlight(a, role, s, slot, since);
    }
  }

  lemma FaultedInFlight(a: Account, role: Role, s: nat, slot: nat, since: nat)
    requires InFlight(a, slot, since)
    ensures InFlight(Faulted(a, role, s), slot, since)
  {}

  lemma StaysInFlight(a: Account, op: Op, slot: nat, since: nat)
    requires InFlight(a, slot, since) && !Releases(a, op, slot, since)
    requires !(op.Dispatch? && op.slot == slot)
    ensures InFlight(Apply(a, op), slot, since)
  {
    ApplyKeepsLanes(a, op);
    if !op.Observe? {
      OtherwiseInFlight(a, op, slot, since);
    } else if op.role == Fast && op.slot == slot && Accepts(a, Fast, slot, op.o, op.nowNs) {
      ReportKeepsInFlight(a, op.o, op.nowNs, slot, since);
    } else {
      RefusedInFlight(a, op.role, op.slot, op.o, op.nowNs, slot, since);
    }
  }

  /** A lane in flight was not open, at whatever time the router asked. */
  lemma InFlightIsNotAsked(a: Account, slot: nat, since: nat, askNs: nat)
    requires InFlight(a, slot, since)
    ensures !Asked(a, slot, askNs)
  {
    RefreshKeepsLanes(a, askNs);
  }

  lemma NotDispatched(a: Account, op: Op, slot: nat, since: nat)
    requires InFlight(a, slot, since) && (op.Dispatch? ==> exists askNs :: Asked(a, op.slot, askNs))
    ensures !(op.Dispatch? && op.slot == slot)
  {
    if op.Dispatch? && op.slot == slot {
      var askNs :| Asked(a, slot, askNs);
      InFlightIsNotAsked(a, slot, since, askNs);
    }
  }

  /** Something before operation `j` of the run released the lane. */
  ghost predicate ReleasedBefore(b: Account, ops: seq<Op>, slot: nat, since: nat, j: nat)
    requires j <= |ops|
  {
    exists i :: 0 <= i < j && Releases(Run(b, ops[..i]), ops[i], slot, since)
  }

  lemma ReleasedFirst(b: Account, ops: seq<Op>, slot: nat, since: nat, j: nat)
    requires 0 < j <= |ops| && Releases(b, ops[0], slot, since)
    ensures ReleasedBefore(b, ops, slot, since, j)
  {
    assert ops[..0] == [] && Run(b, ops[..0]) == b;
  }

  lemma ReleasedLater(b: Account, ops: seq<Op>, slot: nat, since: nat, j: nat)
    requires 0 < j <= |ops| && ReleasedBefore(Apply(b, ops[0]), ops[1..], slot, since, j - 1)
    ensures ReleasedBefore(b, ops, slot, since, j)
  {
    var i :| 0 <= i < j - 1 && Releases(Run(Apply(b, ops[0]), ops[1..][..i]), ops[1..][i], slot, since);
    assert ops[..i + 1][1..] == ops[1..][..i] && ops[..i + 1][0] == ops[0] && ops[1..][i] == ops[i + 1];
    assert Run(b, ops[..i + 1]) == Run(Apply(b, ops[0]), ops[1..][..i]);
  }

  /** In a disciplined run, a lane in flight is dispatched again only once it was released. */
  lemma {:induction false} NoSecondDispatch(b: Account, ops: seq<Op>, slot: nat, since: nat, j: nat)
    requires InFlight(b, slot, since) && Disciplined(b, ops)
    requires j < |ops| && ops[j].Dispatch? && ops[j].slot == slot
    ensures ReleasedBefore(b, ops, slot, since, j)
    decreases j
  {
    NotDispatched(b, ops[0], slot, since);
    if Releases(b, ops[0], slot, since) {
      ReleasedFirst(b, ops, slot, since, j);
    } else {
      StaysInFlight(b, ops[0], slot, since);
      NoSecondDispatch(Apply(b, ops[0]), ops[1..], slot, since, j - 1);
      ReleasedLater(b, ops, slot, since, j);
    }
  }

  lemma DispatchStarts(a: Account, slot: nat, nowNs: nat)
    requires slot < |a.fast|
    ensures InFlight(Apply(a, Dispatch(slot, nowNs)), slot, nowNs)
  {
    ApplyKeepsLanes(a, Dispatch(slot, nowNs));
  }

  /** One place per lane: after a dispatch, a router that asks before it sends dispatches the
      same lane again only after it has accepted a report of that lane's owner, no earlier than
      the dispatch, that the lane is free, or has taken the dispatch back. */
  lemma {:induction false} OnePlacePerLane(a: Account, slot: nat, nowNs: nat, ops: seq<Op>)
    requires slot < |a.fast| && Disciplined(Apply(a, Dispatch(slot, nowNs)), ops)
    ensures var b := Apply(a, Dispatch(slot, nowNs));
            forall j | 0 <= j < |ops| && ops[j].Dispatch? && ops[j].slot == slot ::
              ReleasedBefore(b, ops, slot, nowNs, j)
  {
    var b := Apply(a, Dispatch(slot, nowNs));
    DispatchStarts(a, slot, nowNs);
    forall j | 0 <= j < |ops| && ops[j].Dispatch? && ops[j].slot == slot
      ensures ReleasedBefore(b, ops, slot, nowNs, j)
    {
      NoSecondDispatch(b, ops, slot, nowNs, j);
    }
  }
}
