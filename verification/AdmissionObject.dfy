/** The router's admission object. Every method updates it in place and is proved to make
    exactly the change that `Admission` defines, so what is proved of every run of that model
    holds of every sequence of calls on the object. */
module AdmissionObject {
  import opened Common
  import opened Admission

  lemma {:induction false} LanesDeadlinePush(lanes: seq<Lane>, lane: Lane, stale: nat, nowNs: nat, bound: nat)
    ensures LanesDeadline(lanes + [lane], stale, nowNs, bound) ==
            LaneDeadline(lane, stale, nowNs, LanesDeadline(lanes, stale, nowNs, bound))
  {
    if lanes != [] {
      assert (lanes + [lane])[1..] == lanes[1..] + [lane];
      LanesDeadlinePush(lanes[1..], lane, stale, nowNs, LaneDeadline(lanes[0], stale, nowNs, bound));
    } else {
      assert lanes + [lane] == [lane];
    }
  }

  /** The lease and backoff deadlines of one role's lanes that still lie ahead. */
  method NextDeadline(lanes: seq<Lane>, stale: nat, nowNs: nat, bound: nat) returns (next: nat)
    ensures next == LanesDeadline(lanes, stale, nowNs, bound)
  {
    next := bound;
    for i := 0 to |lanes|
      invariant next == LanesDeadline(lanes[..i], stale, nowNs, bound)
    {
      var lane := lanes[i];
      LanesDeadlinePush(lanes[..i], lane, stale, nowNs, bound);
      assert lanes[..i + 1] == lanes[..i] + [lane];
      if lane.observedAtNs > nowNs { next := Min(next, lane.observedAtNs); }
      var lease := SatAdd(SatAdd(lane.observedAtNs, stale), 1);
      if lease > nowNs { next := Min(next, lease); }
      if lane.failureEligibleAfterNs > nowNs { next := Min(next, lane.failureEligibleAfterNs); }
    }
    assert lanes[..|lanes|] == lanes;
  }

  method RetireLanes(lanes: seq<Lane>) returns (retired: seq<Lane>)
    ensures |retired| == |lanes|
    ensures forall i :: 0 <= i < |lanes| ==>
              retired[i] == lanes[i].(retiredGeneration := Some(lanes[i].generation), verified := false)
  {
    retired := lanes;
    for i := 0 to |lanes|
      invariant |retired| == |lanes|
      invariant forall j :: 0 <= j < i ==>
                  retired[j] == lanes[j].(retiredGeneration := Some(lanes[j].generation), verified := false)
      invariant forall j :: i <= j < |lanes| ==> retired[j] == lanes[j]
    {
      retired := retired[i := retired[i].(retiredGeneration := Some(retired[i].generation), verified := false)];
    }
  }

  class AccountExecutionAdmission {
    const config: Config
    var fast: seq<Lane>
    var cancel: seq<Lane>
    var admission: Decision
    var dirty: bool
    var nextChangeNs: nat
    var probationBusy: bool
    var recoveryRequired: bool
    var recoverySuccesses: nat
    var probe: Option<Probe>
    var pauseUntilNs: nat
    var failureStreak: nat
    var failureWindow: nat
    var failureWindowStartedNs: nat
    var failureWindowLanes: nat
    var transportResetPending: bool
    var transportResetPeer: Option<nat>
    var noResponseResets: nat

    ghost function View(): Account
      reads this
    {
      Account(config, fast, cancel, admission, dirty, nextChangeNs, probationBusy, recoveryRequired, recoverySuccesses,
              probe, pauseUntilNs, failureStreak, failureWindow, failureWindowStartedNs, failureWindowLanes,
              transportResetPending, transportResetPeer, noResponseResets)
    }

    constructor (config: Config, fastSlots: nat, cancelSlots: nat, nowNs: nat)
      ensures View() == New(config, fastSlots, cancelSlots, nowNs)
    {
      this.config := config;
      fast := seq(fastSlots, _ => NEW_LANE);
      cancel := seq(cancelSlots, _ => NEW_LANE);
      admission := Decision(0, Paused, 0, nowNs);
      dirty, nextChangeNs, probationBusy := true, 0, false;
      recoveryRequired, recoverySuccesses, probe := true, 0, None;
      pauseUntilNs, failureStreak := 0, 0;
      failureWindow, failureWindowStartedNs, failureWindowLanes := 0, 0, 0;
      transportResetPending, transportResetPeer, noResponseResets := false, None, 0;
    }

    method Refresh(nowNs: nat) returns (decision: Decision)
      modifies this
      ensures View() == Admission.Refresh(old(View()), nowNs)
      ensures decision == admission
    {
      if !dirty && nowNs >= admission.observedAtNs && nowNs < nextChangeNs {
        admission := admission.(observedAtNs := nowNs);
      } else {
        RecomputeNow(nowNs);
      }
      decision := admission;
    }

    method RecomputeNow(nowNs: nat)
      modifies this
      ensures View() == Recompute(old(View()), nowNs)
    {
      var next := DeadlineAhead(nowNs);
      var c := TakeCensus(fast, cancel, config.staleAfterNs, nowNs);
      Commit(c, next, nowNs);
    }

    method Commit(c: Census, next: nat, nowNs: nat)
      modifies this
      ensures View() == Chosen(old(View()), c, next, nowNs)
    {
      var gate, slots := Choose(c, nowNs);
      admission := Announce(admission, gate, Min(slots, U16_MAX), nowNs);
      MarkClean(next, c.probationBusy > 0);
    }

    method MarkClean(next: nat, probation: bool)
      modifies this`dirty, this`nextChangeNs, this`probationBusy
      ensures !dirty && nextChangeNs == next && probationBusy == probation
    {
      dirty, nextChangeNs, probationBusy := false, next, probation;
    }

    /** No cached decision may cross a lease, backoff or pause boundary. */
    method DeadlineAhead(nowNs: nat) returns (next: nat)
      ensures next == NextChange(View(), nowNs)
    {
      next := NextDeadline(fast, config.staleAfterNs, nowNs, U64_MAX);
      next := NextDeadline(cancel, config.staleAfterNs, nowNs, next);
      if pauseUntilNs > nowNs { next := Min(next, pauseUntilNs); }
    }

    /** The state and budget for a census, noting that recovery is required where it is. */
    method Choose(c: Census, nowNs: nat) returns (gate: Gate, slots: nat)
      modifies this`recoveryRequired, this`recoverySuccesses, this`probe
      ensures recoveryRequired == (old(recoveryRequired) || c.readyCancel == 0 || MustPause(c, pauseUntilNs, nowNs))
      ensures recoverySuccesses == if MustPause(c, pauseUntilNs, nowNs) then 0 else old(recoverySuccesses)
      ensures probe == if MustPause(c, pauseUntilNs, nowNs) then None else old(probe)
      ensures (gate, slots) == Decide(c, |fast|, MustPause(c, pauseUntilNs, nowNs), recoveryRequired, probe.Some?)
    {
      if c.readyCancel == 0 { recoveryRequired := true; }
      if c.readyFast == 0 || c.eligibleCancel == 0 || nowNs < pauseUntilNs {
        recoveryRequired, recoverySuccesses, probe := true, 0, None;
        gate, slots := Paused, 0;
      } else if recoveryRequired {
        gate, slots := Recovering, if c.busyFast == 0 && probe.None? && c.freeFast > 0 then 1 else 0;
      } else if c.allFresh && c.readyFast == |fast| && c.readyCancel == c.ordinaryCancel && c.allVerified {
        gate, slots := Open, c.freeFast;
      } else {
        var probationFree := SatSub(c.freeFast, c.verifiedFree);
        gate, slots := Degraded, c.verifiedFree + if c.probationBusy == 0 && probationFree > 0 then 1 else 0;
      }
    }

    method PauseForRecovery(nowNs: nat)
      modifies this
      ensures View() == Admission.PauseForRecovery(old(View()), nowNs)
    {
      dirty := true;
      var duration := Backoff(config, failureStreak);
      failureStreak := Min(failureStreak + 1, U32_MAX);
      pauseUntilNs := SatAdd(nowNs, duration);
      recoveryRequired, recoverySuccesses, probe := true, 0, None;
    }

    method RetireTransportGenerations(nowNs: nat)
      modifies this
      ensures View() == RetireTransport(old(View()), nowNs)
    {
      dirty := true;
      transportResetPeer := None;
      fast := RetireLanes(fast);
      cancel := RetireLanes(cancel);
      assert fast == RetireAll(old(fast)) && cancel == RetireAll(old(cancel));
      transportResetPending := true;
      assert View() == old(View()).(dirty := true, fast := RetireAll(old(fast)), cancel := RetireAll(old(cancel)),
                                    transportResetPeer := None, transportResetPending := true);
      // The pause also forgets the probe and the successes.
      PauseForRecovery(nowNs);
    }

    method RetireTransportGenerationsAvoiding(nowNs: nat, peer: Option<nat>)
      modifies this
      ensures View() == Apply(old(View()), RetireAvoiding(nowNs, peer))
    {
      RetireTransportGenerations(nowNs);
      transportResetPeer := peer;
    }

    method TakeTransportReset() returns (pending: bool)
      modifies this`transportResetPending
      ensures View() == Apply(old(View()), TakeReset) && pending == old(transportResetPending)
    {
      pending := transportResetPending;
      transportResetPending := false;
    }

    method SetReserved(slot: nat)
      modifies this`dirty, this`cancel
      ensures View() == Reserved(old(View()), slot)
    {
      dirty := true;
      if slot < |cancel| { cancel := cancel[slot := cancel[slot].(reservedCancel := true)]; }
    }

    method ReserveCancelSlot(slot: nat)
      modifies this
      ensures View() == Apply(old(View()), Reserve(slot))
    {
      SetReserved(slot);
      var _ := Refresh(admission.observedAtNs);
    }

    method SetLane(role: Role, slot: nat, lane: Lane)
      requires HasLane(View(), role, slot)
      modifies this`dirty, this`fast, this`cancel
      ensures View() == WithLane(old(View()), role, slot, lane)
    {
      dirty := true;
      if role == Fast { fast := fast[slot := lane]; } else { cancel := cancel[slot := lane]; }
    }

    method SetFault(role: Role, slot: nat)
      modifies this`dirty, this`fast, this`cancel
      ensures View() == Faulted(old(View()), role, slot)
    {
      dirty := true;
      if role == Fast && slot < |fast| {
        fast := fast[slot := fast[slot].(deliveryFault := true)];
      } else if role == Cancel && slot < |cancel| {
        cancel := cancel[slot := cancel[slot].(deliveryFault := true)];
      }
    }

    method MarkDeliveryFault(role: Role, slot: nat, nowNs: nat) returns (decision: Decision)
      modifies this
      ensures View() == Apply(old(View()), MarkFault(role, slot, nowNs)) && decision == admission
    {
      SetFault(role, slot);
      decision := Refresh(nowNs);
    }

    method OpenFailureWindow(nowNs: nat)
      modifies this`failureWindow, this`failureWindowStartedNs, this`failureWindowLanes
      ensures View() == OpenWindow(old(View()), nowNs)
    {
      if failureWindow == 0 || SatSub(nowNs, failureWindowStartedNs) > config.failureClusterWindowNs {
        failureWindow := SatAdd(failureWindow, 1);
        failureWindowStartedNs := nowNs;
        failureWindowLanes := 0;
      }
    }

    method MarkFailureWindow(role: Role, slot: nat)
      requires HasLane(View(), role, slot)
      modifies this`dirty, this`fast, this`cancel, this`failureWindowLanes
      ensures View() == MarkWindow(old(View()), role, slot)
    {
      var lane := if role == Fast then fast[slot] else cancel[slot];
      if lane.failureWindow != failureWindow {
        SetLane(role, slot, lane.(failureWindow := failureWindow));
        failureWindowLanes := failureWindowLanes + 1;
      } else {
        dirty := true;
      }
    }

    method NoteFailure(role: Role, slot: nat, nowNs: nat)
      requires HasLane(View(), role, slot)
      modifies this
      ensures View() == Admission.NoteFailure(old(View()), role, slot, nowNs)
    {
      OpenFailureWindow(nowNs);
      MarkFailureWindow(role, slot);
      if failureWindowLanes == 2 {
        failureWindowLanes := failureWindowLanes + 1;
        PauseForRecovery(nowNs);
      }
    }

    method SetDispatched(slot: nat, nowNs: nat)
      modifies this`dirty, this`fast, this`probe
      ensures View() == Dispatched(old(View()), slot, nowNs)
    {
      dirty := true;
      if slot < |fast| {
        var lane := fast[slot];
        if recoveryRequired && probe.None? {
          probe := Some(Probe(slot, lane.generation, lane.businessAttempt, nowNs));
        }
        fast := fast[slot := lane.(busy := true, dispatchedAtNs := Some(nowNs))];
      }
    }

    method PlaceDispatched(slot: nat, nowNs: nat)
      modifies this
      ensures View() == Apply(old(View()), Dispatch(slot, nowNs))
    {
      SetDispatched(slot, nowNs);
      var _ := Refresh(nowNs);
    }

    method ClearDispatch(slot: nat)
      modifies this`dirty, this`fast, this`probe
      ensures View() == NotSent(old(View()), slot)
    {
      dirty := true;
      if slot < |fast| { fast := fast[slot := fast[slot].(busy := false, dispatchedAtNs := None)]; }
      if probe.Some? && probe.value.slot == slot { probe := None; }
    }

    method PlaceNotSent(slot: nat, nowNs: nat)
      modifies this
      ensures View() == Apply(old(View()), NotSentAt(slot, nowNs))
    {
      ClearDispatch(slot);
      var _ := Refresh(nowNs);
    }

    method LanePlaceAllowed(slot: nat, nowNs: nat) returns (allowed: bool)
      modifies this
      ensures View() == Apply(old(View()), Check(nowNs))
      ensures allowed == LaneAllowed(View(), slot, nowNs)
    {
      var decision := Refresh(nowNs);
      allowed := false;
      if AllowsPlace(decision) && slot < |fast| {
        var lane := fast[slot];
        allowed := lane.Fresh(nowNs, config.staleAfterNs) && lane.Ready() && !lane.busy
                   && (recoveryRequired || lane.verified || !probationBusy);
      }
    }

    // ---------------------------------------------------------------- observe

    /** Writes the snapshot into its lane. */
    method Record(role: Role, slot: nat, o: Observation, n: News, nowNs: nat)
      requires HasLane(View(), role, slot) && n == NewsOf(LaneOf(View(), role, slot), o)
      modifies this`dirty, this`fast, this`cancel
      ensures View() == Recording(old(View()), role, slot, o, nowNs)
    {
      var previous := if role == Fast then fast[slot] else cancel[slot];
      var lane := Store(previous, o);
      lane := Judge(previous, lane, o, n, nowNs);
      SetLane(role, slot, lane);
    }

    method Store(previous: Lane, o: Observation) returns (lane: Lane)
      ensures lane == Recorded(previous, o)
    {
      var verified, attempt := previous.verified, previous.businessAttempt;
      if o.poolGeneration != previous.generation { verified := false; }
      if o.business.Some? { attempt := Max(attempt, o.business.value.attemptId); }
      var busy, dispatched := previous.busy, previous.dispatchedAtNs;
      if dispatched.None? || o.observedAtNs >= dispatched.value {
        busy := o.busy;
        if !o.busy { dispatched := None; }
      }
      lane := previous.(verified := verified, sequence := o.sequence, observedAtNs := o.observedAtNs,
                        generation := o.poolGeneration, quarantined := o.quarantined, failures := o.failures,
                        slow := o.slow, noResponse := o.noResponse, slowRetired := o.slowRetired,
                        deliveryFault := false, businessAttempt := attempt, busy := busy, dispatchedAtNs := dispatched);
    }

    method Score(recorded: Lane, n: News, nowNs: nat) returns (lane: Lane)
      ensures lane == Scored(config, recorded, n, nowNs)
    {
      lane := recorded;
      if n.failure || n.slow || n.businessSlow {
        var pause := Backoff(config, lane.failureStreak);
        lane := lane.(verified := false, businessFailed := true, failureStreak := Min(lane.failureStreak + 1, U32_MAX),
                      failureEligibleAfterNs := SatAdd(nowNs, pause));
      }
      if n.healthy && !n.slow && lane.retiredGeneration != Some(lane.generation) {
        lane := lane.(businessFailed := false, failureStreak := 0, failureEligibleAfterNs := 0);
      }
    }

    method Judge(previous: Lane, recorded: Lane, o: Observation, n: News, nowNs: nat) returns (lane: Lane)
      ensures lane == Judged(config, previous, recorded, o, n, nowNs)
    {
      lane := Score(recorded, n, nowNs);
      if (n.business.Some? && n.business.value.outcome == SlowRetired)
         || (o.slowRetired > previous.slowRetired && o.slowRetiredGeneration == lane.generation) {
        lane := lane.(retiredGeneration := Some(lane.generation));
      } else if n.healthy && !n.failure && !n.slow && lane.Ready() {
        lane := lane.(verified := true);
      }
    }

    method Reset(o: Observation, n: News, nowNs: nat)
      requires dirty
      modifies this
      ensures View() == Resetting(old(View()), o, n, nowNs)
    {
      if n.transportReset {
        noResponseResets := SatAdd(noResponseResets, 1);
        RetireTransportGenerations(nowNs);
        transportResetPeer := o.noResponsePeer;
      }
    }

    method Fail(role: Role, slot: nat, n: News, reported: bool, nowNs: nat)
      requires dirty && HasLane(View(), role, slot)
      modifies this
      ensures View() == Failing(old(View()), role, slot, n, reported, nowNs)
    {
      if n.failure { NoteFailure(role, slot, nowNs); }
      if n.failure && reported && nowNs >= pauseUntilNs { PauseForRecovery(nowNs); }
      if n.failure || n.slow || n.businessSlow { recoverySuccesses, probe := 0, None; }
    }

    method Settle(role: Role, slot: nat, o: Observation, n: News)
      requires dirty
      modifies this`probe, this`recoverySuccesses
      ensures View() == SettleProbe(old(View()), role, slot, o, n)
    {
      if probe.Some? {
        var p := probe.value;
        if role == Fast && slot == p.slot && o.observedAtNs >= p.dispatchedAtNs && !o.busy {
          probe := None;
          if n.healthy && !n.failure && !n.slow && o.poolGeneration == p.generation
             && n.business.Some? && n.business.value.attemptId > p.afterAttempt {
            recoverySuccesses := Min(recoverySuccesses + 1, 255);
          }
        }
      }
    }

    method Conclude(nowNs: nat)
      requires dirty
      modifies this`recoveryRequired, this`failureStreak
      ensures View() == Concluding(old(View()), nowNs)
    {
      if recoverySuccesses >= Max(config.recoverySuccesses, 1) {
        var ready := false;
        for i := 0 to |cancel|
          invariant ready <==> exists j :: 0 <= j < i && Holds(IsReadyCancel, cancel[j], nowNs, config.staleAfterNs)
        {
          if Holds(IsReadyCancel, cancel[i], nowNs, config.staleAfterNs) { ready := true; }
        }
        if ready { recoveryRequired, failureStreak := false, 0; }
      }
    }

    method Observe(role: Role, slot: nat, o: Observation, nowNs: nat) returns (decision: Decision)
      modifies this
      ensures View() == Apply(old(View()), Op.Observe(role, slot, o, nowNs))
      ensures decision == admission
    {
      if !((role == Fast && slot < |fast|) || (role == Cancel && slot < |cancel|)) {
        decision := Refresh(nowNs);
        return;
      }
      decision := ObserveLane(role, slot, o, nowNs);
    }

    method ObserveLane(role: Role, slot: nat, o: Observation, nowNs: nat) returns (decision: Decision)
      requires HasLane(View(), role, slot)
      modifies this
      ensures View() == Admission.Refresh(Observed(old(View()), role, slot, o, nowNs), nowNs)
      ensures decision == admission
    {
      var previous := if role == Fast then fast[slot] else cancel[slot];
      if o.sequence <= previous.sequence || o.poolGeneration < previous.generation {
        decision := Refresh(nowNs);
        return;
      }
      if Faulty(previous, o, nowNs) {
        decision := MarkDeliveryFault(role, slot, nowNs);
        return;
      }
      Absorb(role, slot, previous, o, nowNs);
      decision := Refresh(nowNs);
    }

    method Absorb(role: Role, slot: nat, previous: Lane, o: Observation, nowNs: nat)
      requires HasLane(View(), role, slot) && previous == LaneOf(View(), role, slot)
      modifies this
      ensures View() == Absorbed(old(View()), role, slot, o, nowNs)
    {
      var n := NewsOf(previous, o);
      var reported := Reports(probe, role, slot, o);
      Record(role, slot, o, n, nowNs);
      Reset(o, n, nowNs);
      Fail(role, slot, n, reported, nowNs);
      Settle(role, slot, o, n);
      Conclude(nowNs);
    }
  }
}
