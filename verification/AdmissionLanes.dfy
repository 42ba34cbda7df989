/** How one operation moves one lane, and how a census follows one lane. */
module AdmissionLanes {
  import opened Common
  import opened Admission

  // ------------------------------------------------------------------ one lane

  predicate SameButWindow(before: Lane, after: Lane) {
    after == before.(failureWindow := after.failureWindow)
  }

  lemma SameLane(lane: Lane)
    ensures SameButWindow(lane, lane)
  {}

  lemma MarkWindowLane(a: Account, role: Role, slot: nat, r: Role, s: nat)
    requires HasLane(a, r, s)
    ensures var b := MarkWindow(a, role, slot);
            && HasLane(b, r, s)
            && SameButWindow(LaneOf(a, r, s), LaneOf(b, r, s))
  {
    SameLane(LaneOf(a, r, s));
    if HasLane(a, role, slot) && LaneOf(a, role, slot).failureWindow != a.failureWindow {
      var lane := LaneOf(a, role, slot).(failureWindow := a.failureWindow);
      assert SameButWindow(LaneOf(a, role, slot), lane);
      var b := WithLane(a, role, slot, lane);
      assert LaneOf(MarkWindow(a, role, slot), r, s) == LaneOf(b, r, s);
    }
  }

  lemma NoteFailureLane(a: Account, role: Role, slot: nat, nowNs: nat, r: Role, s: nat)
    requires HasLane(a, r, s)
    ensures var b := NoteFailure(a, role, slot, nowNs);
            && HasLane(b, r, s)
            && SameButWindow(LaneOf(a, r, s), LaneOf(b, r, s))
  {
    var windowed := OpenWindow(a, nowNs);
    assert windowed.fast == a.fast && windowed.cancel == a.cancel;
    MarkWindowLane(windowed, role, slot, r, s);
  }

  lemma RetireTransportLane(a: Account, nowNs: nat, r: Role, s: nat)
    requires HasLane(a, r, s)
    ensures var b := RetireTransport(a, nowNs);
            HasLane(b, r, s) && LaneOf(b, r, s) == Retire(LaneOf(a, r, s))
  {}

  lemma RecordingLane(a: Account, role: Role, slot: nat, o: Observation, nowNs: nat, r: Role, s: nat)
    requires HasLane(a, role, slot) && HasLane(a, r, s)
    ensures var b := Recording(a, role, slot, o, nowNs);
            && HasLane(b, r, s)
            && LaneOf(b, r, s) ==
               if (r, s) == (role, slot)
               then
                 var lane := LaneOf(a, r, s);
                 Judged(a.config, lane, Recorded(lane, o), o, NewsOf(lane, o), nowNs)
               else LaneOf(a, r, s)
  {}

  lemma ResettingLane(a: Account, o: Observation, n: News, nowNs: nat, r: Role, s: nat)
    requires a.dirty && HasLane(a, r, s)
    ensures var b := Resetting(a, o, n, nowNs);
            HasLane(b, r, s) && LaneOf(b, r, s) == if n.transportReset then Retire(LaneOf(a, r, s)) else LaneOf(a, r, s)
  {
    RetireTransportLane(a.(noResponseResets := SatAdd(a.noResponseResets, 1)), nowNs, r, s);
  }

  lemma FailingLane(a: Account, role: Role, slot: nat, n: News, reported: bool, nowNs: nat, r: Role, s: nat)
    requires a.dirty && HasLane(a, r, s)
    ensures var b := Failing(a, role, slot, n, reported, nowNs);
            && HasLane(b, r, s)
            && SameButWindow(LaneOf(a, r, s), LaneOf(b, r, s))
  {
    NoteFailureLane(a, role, slot, nowNs, r, s);
  }

  /** The lane after the snapshot was recorded and judged, and the transport reset if it said so. */
  function Landed(a: Account, role: Role, slot: nat, o: Observation, nowNs: nat, r: Role, s: nat): Lane
    requires HasLane(a, role, slot) && HasLane(a, r, s)
  {
    var n := NewsOf(LaneOf(a, role, slot), o);
    var lane :=
      if (r, s) == (role, slot) then Judged(a.config, LaneOf(a, r, s), Recorded(LaneOf(a, r, s), o), o, n, nowNs)
      else LaneOf(a, r, s);
    if n.transportReset then Retire(lane) else lane
  }

  /** What an accepted snapshot does to any lane: only the failure-window mark is left open. */
  lemma AbsorbedLane(a: Account, role: Role, slot: nat, o: Observation, nowNs: nat, r: Role, s: nat)
    requires HasLane(a, role, slot) && HasLane(a, r, s)
    ensures var b := Absorbed(a, role, slot, o, nowNs);
            && HasLane(b, r, s)
            && SameButWindow(Landed(a, role, slot, o, nowNs, r, s), LaneOf(b, r, s))
  {
    var n := NewsOf(LaneOf(a, role, slot), o);
    RecordingLane(a, role, slot, o, nowNs, r, s);
    var recorded := Recording(a, role, slot, o, nowNs);
    ResettingLane(recorded, o, n, nowNs, r, s);
    var reset := Resetting(recorded, o, n, nowNs);
    FailingLane(reset, role, slot, n, Reports(a.probe, role, slot, o), nowNs, r, s);
    var failed := Failing(reset, role, slot, n, Reports(a.probe, role, slot, o), nowNs);
    var settled := SettleProbe(failed, role, slot, o, n);
    assert settled.fast == failed.fast && settled.cancel == failed.cancel;
  }

  /** What the other operations may do to a lane. */
  predicate Touched(before: Lane, after: Lane) {
    || after == before
    || after == Retire(before)
    || after == before.(deliveryFault := true)
    || after == before.(reservedCancel := true)
    || after == before.(busy := after.busy, dispatchedAtNs := after.dispatchedAtNs)
  }

  lemma FaultedLane(a: Account, role: Role, slot: nat, r: Role, s: nat)
    requires HasLane(a, r, s)
    ensures HasLane(Faulted(a, role, slot), r, s) && Touched(LaneOf(a, r, s), LaneOf(Faulted(a, role, slot), r, s))
  {}

  lemma OtherwiseLane(a: Account, op: Op, r: Role, s: nat)
    requires !op.Observe? && HasLane(a, r, s)
    ensures HasLane(Changed(a, op), r, s) && Touched(LaneOf(a, r, s), LaneOf(Changed(a, op), r, s))
  {
    var lane := LaneOf(a, r, s);
    match op
    case MarkFault(role, slot, _) => FaultedLane(a, role, slot, r, s);
    case Dispatch(slot, nowNs) =>
      assert Touched(lane, lane.(busy := true, dispatchedAtNs := Some(nowNs)));
    case NotSentAt(slot, _) =>
      assert Touched(lane, lane.(busy := false, dispatchedAtNs := None));
    case RetireAt(nowNs) => RetireTransportLane(a, nowNs, r, s);
    case RetireAvoiding(nowNs, _) => RetireTransportLane(a, nowNs, r, s);
    case _ =>
  }

  /** A snapshot that is not accepted does no more than mark its lane faulty. */
  lemma RefusedLane(a: Account, role: Role, slot: nat, o: Observation, nowNs: nat, r: Role, s: nat)
    requires HasLane(a, r, s) && !Accepts(a, role, slot, o, nowNs)
    ensures var b := Observed(a, role, slot, o, nowNs);
            HasLane(b, r, s) && Touched(LaneOf(a, r, s), LaneOf(b, r, s))
  {
    FaultedLane(a, role, slot, r, s);
  }

  lemma RefreshKeepsLanes(a: Account, nowNs: nat)
    ensures Refresh(a, nowNs).fast == a.fast && Refresh(a, nowNs).cancel == a.cancel
  {}

  /** An operation moves lanes only through its change, never through its refresh. */
  lemma ApplyKeepsLanes(a: Account, op: Op)
    ensures Apply(a, op).fast == Changed(a, op).fast && Apply(a, op).cancel == Changed(a, op).cancel
    ensures Apply(a, op).config == Changed(a, op).config
  {}

  lemma ChangedRegistry(a: Account, op: Op)
    ensures SameRegistry(a, Changed(a, op))
  {}

  /** What an operation may do to a lane it does not report on: nothing to what was reported,
      nothing to what is retired but retire the current generation, and never verify it. */
  predicate Brushed(before: Lane, after: Lane) {
    && after.sequence == before.sequence && after.observedAtNs == before.observedAtNs
    && after.generation == before.generation && after.businessAttempt == before.businessAttempt
    && after.failures == before.failures && after.slow == before.slow
    && after.noResponse == before.noResponse && after.slowRetired == before.slowRetired
    && (after.retiredGeneration == before.retiredGeneration || after.retiredGeneration == Some(before.generation))
    && (after.verified ==> before.verified)
  }

  lemma TouchedBrushes(before: Lane, after: Lane)
    requires Touched(before, after)
    ensures Brushed(before, after)
  {}

  lemma WindowBrushes(before: Lane, mid: Lane, after: Lane)
    requires Brushed(before, mid) && SameButWindow(mid, after)
    ensures Brushed(before, after)
  {}

  lemma AbsorbedBrushes(a: Account, role: Role, slot: nat, o: Observation, nowNs: nat, r: Role, s: nat)
    requires Accepts(a, role, slot, o, nowNs) && HasLane(a, r, s) && !(role == r && slot == s)
    ensures var b := Absorbed(a, role, slot, o, nowNs);
            HasLane(b, r, s) && Brushed(LaneOf(a, r, s), LaneOf(b, r, s))
  {
    AbsorbedLane(a, role, slot, o, nowNs, r, s);
    var mid := Landed(a, role, slot, o, nowNs, r, s);
    TouchedBrushes(LaneOf(a, r, s), mid);
    WindowBrushes(LaneOf(a, r, s), mid, LaneOf(Absorbed(a, role, slot, o, nowNs), r, s));
  }

  lemma ChangedBrushes(a: Account, op: Op, r: Role, s: nat)
    requires HasLane(a, r, s)
    requires !(op.Observe? && op.role == r && op.slot == s && Accepts(a, r, s, op.o, op.nowNs))
    ensures HasLane(Changed(a, op), r, s) && Brushed(LaneOf(a, r, s), LaneOf(Changed(a, op), r, s))
  {
    if op.Observe? && Accepts(a, op.role, op.slot, op.o, op.nowNs) {
      AbsorbedBrushes(a, op.role, op.slot, op.o, op.nowNs, r, s);
    } else {
      if op.Observe? { RefusedLane(a, op.role, op.slot, op.o, op.nowNs, r, s); } else { OtherwiseLane(a, op, r, s); }
      TouchedBrushes(LaneOf(a, r, s), LaneOf(Changed(a, op), r, s));
    }
  }

  /** Only an accepted report of the lane itself does more. */
  lemma ApplyBrushes(a: Account, op: Op, r: Role, s: nat)
    requires HasLane(a, r, s)
    requires !(op.Observe? && op.role == r && op.slot == s && Accepts(a, r, s, op.o, op.nowNs))
    ensures HasLane(Apply(a, op), r, s) && Brushed(LaneOf(a, r, s), LaneOf(Apply(a, op), r, s))
  {
    ApplyKeepsLanes(a, op);
    ChangedBrushes(a, op, r, s);
  }

  // ------------------------------------------------------------------ counting

  lemma {:induction false} CountUpdate(lanes: seq<Lane>, i: nat, lane: Lane, test: Test, nowNs: nat, stale: nat)
    requires i < |lanes|
    ensures Count(lanes[i := lane], test, nowNs, stale) ==
            Count(lanes, test, nowNs, stale)
            - (if Holds(test, lanes[i], nowNs, stale) then 1 else 0)
            + (if Holds(test, lane, nowNs, stale) then 1 else 0)
  {
    if i == 0 {
      assert lanes[i := lane][1..] == lanes[1..];
    } else {
      assert lanes[i := lane][1..] == lanes[1..][i - 1 := lane];
      CountUpdate(lanes[1..], i - 1, lane, test, nowNs, stale);
    }
  }

  lemma {:induction false} CountPositive(lanes: seq<Lane>, test: Test, nowNs: nat, stale: nat)
    ensures Count(lanes, test, nowNs, stale) > 0 <==>
            exists i :: 0 <= i < |lanes| && Holds(test, lanes[i], nowNs, stale)
  {
    if lanes != [] {
      CountPositive(lanes[1..], test, nowNs, stale);
      forall i | 0 <= i < |lanes| && Holds(test, lanes[i], nowNs, stale)
        ensures Count(lanes, test, nowNs, stale) > 0
      {
        if i > 0 { assert lanes[1..][i - 1] == lanes[i]; }
      }
      if Count(lanes, test, nowNs, stale) > 0 && !Holds(test, lanes[0], nowNs, stale) {
        var i :| 0 <= i < |lanes[1..]| && Holds(test, lanes[1..][i], nowNs, stale);
        assert lanes[1..][i] == lanes[i + 1];
      }
    }
  }

  lemma {:induction false} VerifiedFreeIsFree(lanes: seq<Lane>, nowNs: nat, stale: nat)
    ensures Count(lanes, IsVerifiedFree, nowNs, stale) <= Count(lanes, IsFree, nowNs, stale)
  {
    if lanes != [] { VerifiedFreeIsFree(lanes[1..], nowNs, stale); }
  }
}
