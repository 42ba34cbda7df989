/** Failure clusters: the account pauses when a second distinct lane fails inside one window,
    once per window, and one noisy lane never passes for two. */
module AdmissionCluster {
  import opened Common
  import opened Admission
  import opened AdmissionLanes

  /** How many lanes have failed in the window. */
  function Marked(lanes: seq<Lane>, window: nat): nat {
    if lanes == [] then 0 else (if lanes[0].failureWindow == window then 1 else 0) + Marked(lanes[1..], window)
  }

  function FailedLanes(a: Account): nat {
    Marked(a.fast, a.failureWindow) + Marked(a.cancel, a.failureWindow)
  }

  predicate Within(lanes: seq<Lane>, window: nat) {
    forall i :: 0 <= i < |lanes| ==> lanes[i].failureWindow <= window
  }

  /** The account's counter is the number of lanes that failed in the window, one more once
      the window has paused it. */
  predicate Inv(a: Account) {
    && Within(a.fast, a.failureWindow) && Within(a.cancel, a.failureWindow)
    && (a.failureWindow > 0 ==> a.failureWindowLanes == FailedLanes(a) + (if FailedLanes(a) >= 2 then 1 else 0))
  }

  lemma {:induction false} MarkedUpdate(lanes: seq<Lane>, i: nat, lane: Lane, window: nat)
    requires i < |lanes|
    ensures Marked(lanes[i := lane], window) ==
            Marked(lanes, window) - (if lanes[i].failureWindow == window then 1 else 0)
            + (if lane.failureWindow == window then 1 else 0)
  {
    if i == 0 {
      assert lanes[i := lane][1..] == lanes[1..];
    } else {
      assert lanes[i := lane][1..] == lanes[1..][i - 1 := lane];
      MarkedUpdate(lanes[1..], i - 1, lane, window);
    }
  }

  lemma {:induction false} MarkedSame(x: seq<Lane>, y: seq<Lane>, window: nat)
    requires |x| == |y| && forall i :: 0 <= i < |x| ==> x[i].failureWindow == y[i].failureWindow
    ensures Marked(x, window) == Marked(y, window)
  {
    if x != [] {
      assert forall i :: 0 <= i < |x[1..]| ==> x[1..][i] == x[i + 1] && y[1..][i] == y[i + 1];
      MarkedSame(x[1..], y[1..], window);
    }
  }

  lemma {:induction false} NoneMarked(lanes: seq<Lane>, window: nat)
    requires forall i :: 0 <= i < |lanes| ==> lanes[i].failureWindow < window
    ensures Marked(lanes, window) == 0
  {
    if lanes != [] { NoneMarked(lanes[1..], window); }
  }

  // ------------------------------------------------------------------ one failure

  predicate WindowOver(a: Account, nowNs: nat) {
    a.failureWindow == 0 || SatSub(nowNs, a.failureWindowStartedNs) > a.config.failureClusterWindowNs
  }

  lemma OpenWindowInv(a: Account, nowNs: nat)
    requires Inv(a) && a.failureWindow < U64_MAX
    ensures var b := OpenWindow(a, nowNs);
            && Inv(b) && b.failureWindow > 0 && (WindowOver(a, nowNs) ==> FailedLanes(b) == 0)
            && (!WindowOver(a, nowNs) ==> b == a)
  {
    if WindowOver(a, nowNs) {
      NoneMarked(a.fast, a.failureWindow + 1);
      NoneMarked(a.cancel, a.failureWindow + 1);
    }
  }

  lemma MarkWindowCounts(a: Account, role: Role, slot: nat)
    requires HasLane(a, role, slot) && Inv(a) && a.failureWindow > 0
    ensures var b := MarkWindow(a, role, slot);
            var again := LaneOf(a, role, slot).failureWindow == a.failureWindow;
            && b.failureWindow == a.failureWindow
            && Within(b.fast, b.failureWindow) && Within(b.cancel, b.failureWindow)
            && FailedLanes(b) == FailedLanes(a) + (if again then 0 else 1)
            && b.failureWindowLanes == a.failureWindowLanes + (if again then 0 else 1)
  {
    var lane := LaneOf(a, role, slot).(failureWindow := a.failureWindow);
    if role == Fast { MarkedUpdate(a.fast, slot, lane, a.failureWindow); }
    else { MarkedUpdate(a.cancel, slot, lane, a.failureWindow); }
  }

  /** The failure is the second distinct lane's inside a window that is still running. */
  predicate SecondLane(a: Account, role: Role, slot: nat, nowNs: nat)
    requires HasLane(a, role, slot)
  {
    !WindowOver(a, nowNs) && FailedLanes(a) == 1 && LaneOf(a, role, slot).failureWindow != a.failureWindow
  }

  predicate SameRecovery(a: Account, b: Account) {
    && b.config == a.config && b.pauseUntilNs == a.pauseUntilNs && b.failureStreak == a.failureStreak
    && b.probe == a.probe && b.recoveryRequired == a.recoveryRequired
  }

  lemma MarkingKeepsRecovery(a: Account, role: Role, slot: nat, nowNs: nat)
    ensures SameRecovery(a, MarkWindow(OpenWindow(a, nowNs), role, slot))
  {
    assert SameRecovery(a, OpenWindow(a, nowNs));
  }

  /** Marking brings the counter to two exactly on the second lane. */
  lemma SecondLaneMarked(a: Account, role: Role, slot: nat, nowNs: nat)
    requires HasLane(a, role, slot) && Inv(a) && a.failureWindow < U64_MAX
    ensures var marked := MarkWindow(OpenWindow(a, nowNs), role, slot);
            && (SecondLane(a, role, slot, nowNs) <==> marked.failureWindowLanes == 2)
            && Within(marked.fast, marked.failureWindow) && Within(marked.cancel, marked.failureWindow)
            && marked.failureWindow > 0
            && marked.failureWindowLanes ==
                FailedLanes(marked) + (if FailedLanes(marked) >= 2 && marked.failureWindowLanes != 2 then 1 else 0)
  {
    var windowed := OpenWindow(a, nowNs);
    OpenWindowInv(a, nowNs);
    MarkWindowCounts(windowed, role, slot);
  }

  /** A failure pauses the account exactly when it is the second distinct lane's of a running
      window. Any other failure, however often one lane repeats it, leaves the pause alone. */
  lemma PausesOnSecondLane(a: Account, role: Role, slot: nat, nowNs: nat)
    requires HasLane(a, role, slot) && Inv(a) && a.failureWindow < U64_MAX
    ensures var b := NoteFailure(a, role, slot, nowNs);
            && Inv(b)
            && (SecondLane(a, role, slot, nowNs) ==>
                  && b.pauseUntilNs == SatAdd(nowNs, Backoff(a.config, a.failureStreak))
                  && b.failureStreak == Min(a.failureStreak + 1, U32_MAX) && b.config == a.config
                  && b.recoveryRequired && b.probe.None?)
            && (!SecondLane(a, role, slot, nowNs) ==> SameRecovery(a, b))
  {
    MarkingKeepsRecovery(a, role, slot, nowNs);
    SecondLaneMarked(a, role, slot, nowNs);
  }

  // ------------------------------------------------------------------ runs

  /** The change leaves the window, its count and every lane's mark alone. */
  predicate SameWindow(a: Account, b: Account) {
    && b.failureWindow == a.failureWindow && b.failureWindowStartedNs == a.failureWindowStartedNs
    && b.failureWindowLanes == a.failureWindowLanes && b.config == a.config
    && |b.fast| == |a.fast| && (forall i :: 0 <= i < |a.fast| ==> b.fast[i].failureWindow == a.fast[i].failureWindow)
    && |b.cancel| == |a.cancel|
    && (forall i :: 0 <= i < |a.cancel| ==> b.cancel[i].failureWindow == a.cancel[i].failureWindow)
  }

  lemma SameWindowInv(a: Account, b: Account)
    requires SameWindow(a, b)
    ensures Inv(a) ==> Inv(b)
    ensures FailedLanes(a) == FailedLanes(b)
  {
    MarkedSame(a.fast, b.fast, a.failureWindow);
    MarkedSame(a.cancel, b.cancel, a.failureWindow);
  }

  lemma RecordingSameWindow(a: Account, role: Role, slot: nat, o: Observation, nowNs: nat)
    requires HasLane(a, role, slot)
    ensures SameWindow(a, Recording(a, role, slot, o, nowNs)) && SameRecovery(a, Recording(a, role, slot, o, nowNs))
  {}

  lemma ResettingSameWindow(a: Account, o: Observation, n: News, nowNs: nat)
    requires a.dirty
    ensures SameWindow(a, Resetting(a, o, n, nowNs))
    ensures !n.transportReset ==> Resetting(a, o, n, nowNs) == a
  {}

  lemma OtherwiseSameWindow(a: Account, op: Op)
    requires !op.Observe?
    ensures SameWindow(a, Changed(a, op))
  {
    var b := Changed(a, op);
    ChangedRegistry(a, op);
    forall i | 0 <= i < |a.fast| ensures b.fast[i].failureWindow == a.fast[i].failureWindow {
      OtherwiseLane(a, op, Fast, i);
    }
    forall i | 0 <= i < |a.cancel| ensures b.cancel[i].failureWindow == a.cancel[i].failureWindow {
      OtherwiseLane(a, op, Cancel, i);
    }
  }

  lemma SettlingSameWindow(a: Account, role: Role, slot: nat, o: Observation, n: News, nowNs: nat)
    requires a.dirty
    ensures var b := Concluding(SettleProbe(a, role, slot, o, n), nowNs);
            SameWindow(a, b) && b.pauseUntilNs == a.pauseUntilNs
  {
    var settled := SettleProbe(a, role, slot, o, n);
    assert SameWindow(a, settled) && settled.pauseUntilNs == a.pauseUntilNs;
  }

  lemma FailingPauses(a: Account, role: Role, slot: nat, n: News, nowNs: nat)
    requires a.dirty && HasLane(a, role, slot) && Inv(a) && a.failureWindow < U64_MAX && n.failure
    ensures Failing(a, role, slot, n, false, nowNs).pauseUntilNs ==
            if SecondLane(a, role, slot, nowNs) then SatAdd(nowNs, Backoff(a.config, a.failureStreak))
            else a.pauseUntilNs
  {
    PausesOnSecondLane(a, role, slot, nowNs);
  }

  lemma RecordingKeepsSecond(a: Account, role: Role, slot: nat, o: Observation, nowNs: nat)
    requires Inv(a) && HasLane(a, role, slot)
    ensures var b := Recording(a, role, slot, o, nowNs);
            && Inv(b) && SameRecovery(a, b) && HasLane(b, role, slot) && b.failureWindow == a.failureWindow
            && (SecondLane(b, role, slot, nowNs) <==> SecondLane(a, role, slot, nowNs))
  {
    RecordingSameWindow(a, role, slot, o, nowNs);
    SameWindowInv(a, Recording(a, role, slot, o, nowNs));
  }

  /** What an accepted failure report does to the pause, when it is neither a transport reset
      nor the answer to the probe: the cluster rule and nothing else. */
  lemma FailureReportPauses(a: Account, role: Role, slot: nat, o: Observation, nowNs: nat)
    requires Inv(a) && a.failureWindow < U64_MAX && Accepts(a, role, slot, o, nowNs)
    requires var n := NewsOf(LaneOf(a, role, slot), o);
             n.failure && !n.transportReset && !Reports(a.probe, role, slot, o)
    ensures Absorbed(a, role, slot, o, nowNs).pauseUntilNs ==
            if SecondLane(a, role, slot, nowNs) then SatAdd(nowNs, Backoff(a.config, a.failureStreak))
            else a.pauseUntilNs
  {
    var n := NewsOf(LaneOf(a, role, slot), o);
    var recorded := Recording(a, role, slot, o, nowNs);
    RecordingKeepsSecond(a, role, slot, o, nowNs);
    ResettingSameWindow(recorded, o, n, nowNs);
    FailingPauses(recorded, role, slot, n, nowNs);
    SettlingSameWindow(Failing(recorded, role, slot, n, false, nowNs), role, slot, o, n, nowNs);
  }

  lemma FailingKeepsInv(a: Account, role: Role, slot: nat, n: News, reported: bool, nowNs: nat)
    requires a.dirty && HasLane(a, role, slot) && Inv(a) && a.failureWindow < U64_MAX
    ensures Inv(Failing(a, role, slot, n, reported, nowNs))
    ensures Failing(a, role, slot, n, reported, nowNs).failureWindow <= a.failureWindow + 1
  {
    PausesOnSecondLane(a, role, slot, nowNs);
    var noted := NoteFailure(a, role, slot, nowNs);
    assert noted.failureWindow <= a.failureWindow + 1;
    var b := if n.failure then noted else a;
    SameWindowInv(b, Failing(a, role, slot, n, reported, nowNs));
  }

  lemma AbsorbedKeepsInv(a: Account, role: Role, slot: nat, o: Observation, nowNs: nat)
    requires Inv(a) && a.failureWindow < U64_MAX && Accepts(a, role, slot, o, nowNs)
    ensures var b := Absorbed(a, role, slot, o, nowNs); Inv(b) && b.failureWindow <= a.failureWindow + 1
  {
    var n := NewsOf(LaneOf(a, role, slot), o);
    var recorded := Recording(a, role, slot, o, nowNs);
    RecordingSameWindow(a, role, slot, o, nowNs);
    SameWindowInv(a, recorded);
    var reset := Resetting(recorded, o, n, nowNs);
    ResettingSameWindow(recorded, o, n, nowNs);
    SameWindowInv(recorded, reset);
    var failed := Failing(reset, role, slot, n, Reports(a.probe, role, slot, o), nowNs);
    FailingKeepsInv(reset, role, slot, n, Reports(a.probe, role, slot, o), nowNs);
    SettlingSameWindow(failed, role, slot, o, n, nowNs);
    SameWindowInv(failed, Concluding(SettleProbe(failed, role, slot, o, n), nowNs));
  }

  lemma RefreshSameWindow(a: Account, nowNs: nat)
    ensures SameWindow(a, Refresh(a, nowNs))
  {}

  lemma ChangedKeepsInv(a: Account, op: Op)
    requires Inv(a) && a.failureWindow < U64_MAX
    ensures Inv(Changed(a, op)) && Changed(a, op).failureWindow <= a.failureWindow + 1
  {
    if !op.Observe? {
      OtherwiseSameWindow(a, op);
      SameWindowInv(a, Changed(a, op));
    } else if Accepts(a, op.role, op.slot, op.o, op.nowNs) {
      AbsorbedKeepsInv(a, op.role, op.slot, op.o, op.nowNs);
    } else {
      OtherwiseSameWindow(a, MarkFault(op.role, op.slot, op.nowNs));
      SameWindowInv(a, Faulted(a, op.role, op.slot));
    }
  }

  lemma ApplyKeepsInv(a: Account, op: Op)
    requires Inv(a) && a.failureWindow < U64_MAX
    ensures Inv(Apply(a, op)) && Apply(a, op).failureWindow <= a.failureWindow + 1
  {
    ChangedKeepsInv(a, op);
    match RefreshTime(a, op)
    case None =>
    case Some(nowNs) =>
      RefreshSameWindow(Changed(a, op), nowNs);
      SameWindowInv(Changed(a, op), Refresh(Changed(a, op), nowNs));
  }

  lemma {:induction false} RunKeepsInv(a: Account, ops: seq<Op>)
    requires Inv(a) && a.failureWindow + |ops| <= U64_MAX
    ensures Inv(Run(a, ops)) && Run(a, ops).failureWindow <= a.failureWindow + |ops|
    decreases |ops|
  {
    if ops != [] {
      ApplyKeepsInv(a, ops[0]);
      RunKeepsInv(Apply(a, ops[0]), ops[1..]);
    }
  }

  /** The counter is right in every run of a new account: it is the number of distinct lanes
      that failed in the current window, one more once that window has paused the account. */
  lemma {:induction false} CountsDistinctLanes(config: Config, fastSlots: nat, cancelSlots: nat, nowNs: nat,
                                               ops: seq<Op>)
    requires |ops| <= U64_MAX
    ensures Inv(Run(New(config, fastSlots, cancelSlots, nowNs), ops))
  {
    NewInv(config, fastSlots, cancelSlots, nowNs);
    RunKeepsInv(New(config, fastSlots, cancelSlots, nowNs), ops);
  }

  lemma NewInv(config: Config, fastSlots: nat, cancelSlots: nat, nowNs: nat)
    ensures Inv(New(config, fastSlots, cancelSlots, nowNs))
  {}
}
