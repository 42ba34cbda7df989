/** Routing preference among cancel lanes: proven lanes first, and beside them at most one
    failed lane on trial, which stays the same lane while its trial is in flight. */
module AdmissionCancel {
  import opened Common
  import opened Admission
  import opened AdmissionLanes
  import G = AdmissionGate

  const CANCEL_PROBATION_WAIT_NS: nat := 30_000_000_000

  predicate Proven(a: Account, lane: Lane, nowNs: nat) {
    lane.Fresh(nowNs, a.config.staleAfterNs) && lane.CancelReady() && lane.verified
  }

  predicate HasProven(a: Account, nowNs: nat) {
    exists i :: 0 <= i < |a.cancel| && !a.cancel[i].reservedCancel && Proven(a, a.cancel[i], nowNs)
  }

  /** A failed ordinary lane that has sat out its backoff and a further wait. */
  predicate Candidate(a: Account, slot: nat, nowNs: nat)
    requires slot < |a.cancel|
  {
    var lane := a.cancel[slot];
    && !lane.reservedCancel && lane.businessFailed && lane.Fresh(nowNs, a.config.staleAfterNs)
    && lane.CancelProbeEligible(nowNs)
    && nowNs >= SatAdd(lane.failureEligibleAfterNs, CANCEL_PROBATION_WAIT_NS)
  }

  predicate Older(a: Account, i: nat, j: nat)
    requires i < |a.cancel| && j < |a.cancel|
  {
    || a.cancel[i].failureEligibleAfterNs < a.cancel[j].failureEligibleAfterNs
    || (a.cancel[i].failureEligibleAfterNs == a.cancel[j].failureEligibleAfterNs && i < j)
  }

  /** The oldest candidate, and only while some ordinary lane is proven. */
  ghost predicate OnTrial(a: Account, slot: nat, nowNs: nat) {
    && slot < |a.cancel| && HasProven(a, nowNs) && Candidate(a, slot, nowNs)
    && forall j: nat | j < |a.cancel| && Candidate(a, j, nowNs) :: j == slot || Older(a, slot, j)
  }

  method ProbationSlot(a: Account, nowNs: nat) returns (trial: Option<nat>)
    ensures trial.Some? ==> OnTrial(a, trial.value, nowNs)
    ensures trial.None? ==> forall slot: nat :: !OnTrial(a, slot, nowNs)
  {
    var proven := false;
    for i := 0 to |a.cancel|
      invariant proven <==> exists j :: 0 <= j < i && !a.cancel[j].reservedCancel && Proven(a, a.cancel[j], nowNs)
    {
      if !a.cancel[i].reservedCancel && Proven(a, a.cancel[i], nowNs) { proven := true; }
    }
    if !proven { return None; }
    trial := None;
    for i := 0 to |a.cancel|
      invariant trial.None? ==> forall j: nat | j < i :: !Candidate(a, j, nowNs)
      invariant trial.Some? ==> trial.value < i && Candidate(a, trial.value, nowNs)
      invariant trial.Some? ==>
          forall j: nat | j < i && Candidate(a, j, nowNs) :: j == trial.value || Older(a, trial.value, j)
    {
      if Candidate(a, i, nowNs)
         && (trial.None? || a.cancel[i].failureEligibleAfterNs < a.cancel[trial.value].failureEligibleAfterNs) {
        trial := Some(i);
      }
    }
  }

  method LaneRank(a: Account, slot: nat, nowNs: nat) returns (rank: nat)
    ensures rank == 0 <==> slot < |a.cancel| && (Proven(a, a.cancel[slot], nowNs) || OnTrial(a, slot, nowNs))
    ensures rank == 1 <==> && rank != 0 && slot < |a.cancel| && a.cancel[slot].Fresh(nowNs, a.config.staleAfterNs)
                           && a.cancel[slot].CancelProbeEligible(nowNs)
    ensures rank <= 2
  {
    if slot >= |a.cancel| { return 2; }
    var lane := a.cancel[slot];
    if Proven(a, lane, nowNs) { return 0; }
    var trial := ProbationSlot(a, nowNs);
    if trial.Some? { OneOnTrial(a, trial.value, slot, nowNs); }
    if trial == Some(slot) { return 0; }
    return if lane.Fresh(nowNs, a.config.staleAfterNs) && lane.CancelProbeEligible(nowNs) then 1 else 2;
  }

  /** An ordinary lane that works, is verified and did not fail last. */
  predicate Trusted(a: Account, i: nat, nowNs: nat)
    requires i < |a.cancel|
  {
    var lane := a.cancel[i];
    && !lane.reservedCancel && G.Current(lane, nowNs, a.config.staleAfterNs) && G.Usable(lane)
    && lane.verified && !lane.businessFailed
  }

  /** A failed ordinary lane that works again, thirty seconds after its backoff ended. */
  predicate Waiting(a: Account, i: nat, nowNs: nat)
    requires i < |a.cancel|
  {
    var lane := a.cancel[i];
    && !lane.reservedCancel && G.Current(lane, nowNs, a.config.staleAfterNs) && G.Usable(lane)
    && lane.businessFailed && lane.failureEligibleAfterNs <= nowNs
    && Min(lane.failureEligibleAfterNs + 30_000_000_000, U64_MAX) <= nowNs
  }

  /** Which failed lane is tried beside the trusted ones: the one waiting longest, by its place in
      the pool among equals. */
  lemma TrialMeans(a: Account, slot: nat, nowNs: nat)
    ensures OnTrial(a, slot, nowNs) <==>
              && slot < |a.cancel| && Waiting(a, slot, nowNs)
              && (exists i: nat :: i < |a.cancel| && Trusted(a, i, nowNs))
              && (forall j: nat :: j < |a.cancel| && Waiting(a, j, nowNs) && j != slot ==>
                    || a.cancel[slot].failureEligibleAfterNs < a.cancel[j].failureEligibleAfterNs
                    || (a.cancel[slot].failureEligibleAfterNs == a.cancel[j].failureEligibleAfterNs && slot < j))
  {
    assert forall i: nat | i < |a.cancel| :: Waiting(a, i, nowNs) <==> Candidate(a, i, nowNs);
    assert forall i: nat | i < |a.cancel| ::
        Trusted(a, i, nowNs) <==> !a.cancel[i].reservedCancel && Proven(a, a.cancel[i], nowNs);
  }

  /** At most one unproven lane is preferred at any time. */
  lemma OneOnTrial(a: Account, i: nat, j: nat, nowNs: nat)
    requires OnTrial(a, i, nowNs)
    ensures OnTrial(a, j, nowNs) <==> i == j
  {}

  // ------------------------------------------------------------------ the trial over time

  /** A report that repeats what the lane already said. */
  predicate Heartbeat(lane: Lane, o: Observation) {
    && o.poolGeneration == lane.generation && o.quarantined == lane.quarantined
    && o.failures == lane.failures && o.slow == lane.slow
    && o.noResponse == lane.noResponse && o.slowRetired == lane.slowRetired
    && (o.business.Some? ==> o.business.value.attemptId <= lane.businessAttempt)
  }

  /** Dispatches, checks, faults, heartbeats of cancel lanes, and whatever fast lanes report short
      of a transport reset. */
  predicate Calm(a: Account, op: Op) {
    match op
    case Observe(role, slot, o, nowNs) =>
      Accepts(a, role, slot, o, nowNs) ==>
        !NewsOf(LaneOf(a, role, slot), o).transportReset && (role == Cancel ==> Heartbeat(LaneOf(a, role, slot), o))
    case Reserve(_) => false
    case RetireAt(_) => false
    case RetireAvoiding(_, _) => false
    case _ => true
  }

  predicate CalmRun(a: Account, ops: seq<Op>)
    decreases |ops|
  {
    ops == [] || (Calm(a, ops[0]) && CalmRun(Apply(a, ops[0]), ops[1..]))
  }

  /** What decides a trial, beyond the lane's lease. */
  predicate SameStanding(before: Lane, after: Lane) {
    && after.generation == before.generation && after.quarantined == before.quarantined
    && after.retiredGeneration == before.retiredGeneration && after.reservedCancel == before.reservedCancel
    && after.businessFailed == before.businessFailed && after.failureEligibleAfterNs == before.failureEligibleAfterNs
  }

  lemma HeartbeatKeepsStanding(config: Config, lane: Lane, o: Observation, nowNs: nat)
    requires Heartbeat(lane, o)
    ensures SameStanding(lane, Judged(config, lane, Recorded(lane, o), o, NewsOf(lane, o), nowNs))
  {
    var n := NewsOf(lane, o);
    assert n.business.None? && !Adverse(n) && !n.healthy;
  }

  lemma ReportKeepsStanding(a: Account, role: Role, slot: nat, o: Observation, nowNs: nat, i: nat)
    requires Accepts(a, role, slot, o, nowNs) && Calm(a, Observe(role, slot, o, nowNs)) && i < |a.cancel|
    ensures var b := Absorbed(a, role, slot, o, nowNs);
            i < |b.cancel| && SameStanding(a.cancel[i], b.cancel[i])
  {
    AbsorbedLane(a, role, slot, o, nowNs, Cancel, i);
    if role == Cancel && slot == i { HeartbeatKeepsStanding(a.config, a.cancel[i], o, nowNs); }
  }

  lemma OtherwiseKeepsStanding(a: Account, op: Op, i: nat)
    requires !op.Observe? && Calm(a, op) && i < |a.cancel|
    ensures i < |Changed(a, op).cancel| && SameStanding(a.cancel[i], Changed(a, op).cancel[i])
  {}

  lemma CalmKeepsStanding(a: Account, op: Op, i: nat)
    requires Calm(a, op) && i < |a.cancel|
    ensures |Apply(a, op).cancel| == |a.cancel| && Apply(a, op).config == a.config
    ensures SameStanding(a.cancel[i], Apply(a, op).cancel[i])
  {
    ApplyKeepsLanes(a, op);
    ChangedRegistry(a, op);
    if !op.Observe? {
      OtherwiseKeepsStanding(a, op, i);
    } else if Accepts(a, op.role, op.slot, op.o, op.nowNs) {
      ReportKeepsStanding(a, op.role, op.slot, op.o, op.nowNs, i);
    } else {
      OtherwiseKeepsStanding(a, MarkFault(op.role, op.slot, op.nowNs), i);
    }
  }

  lemma {:induction false} CalmRunKeepsStanding(a: Account, ops: seq<Op>)
    requires CalmRun(a, ops)
    ensures |Run(a, ops).cancel| == |a.cancel| && Run(a, ops).config == a.config
    ensures forall i :: 0 <= i < |a.cancel| ==> SameStanding(a.cancel[i], Run(a, ops).cancel[i])
    decreases |ops|
  {
    if ops != [] {
      var b := Apply(a, ops[0]);
      ApplyKeepsLanes(a, ops[0]);
      ChangedRegistry(a, ops[0]);
      forall i | 0 <= i < |a.cancel| ensures SameStanding(a.cancel[i], b.cancel[i]) { CalmKeepsStanding(a, ops[0], i); }
      CalmRunKeepsStanding(b, ops[1..]);
    }
  }

  /** An older lane whose lease had lapsed when the trial was chosen and has been renewed since. */
  ghost predicate Renewed(a: Account, b: Account, slot: nat, was: nat, nowNs: nat)
    requires slot < |a.cancel| == |b.cancel|
  {
    exists j: nat :: j < |a.cancel| && Older(a, j, slot)
                     && !a.cancel[j].Fresh(was, a.config.staleAfterNs)
                     && b.cancel[j].Fresh(nowNs, a.config.staleAfterNs)
  }

  /** The trial keeps its lane through every calm run: as long as that lane and some proven lane
      hold their leases, only the renewed lease of an older lane can take it away. */
  lemma {:induction false} TrialStays(a: Account, ops: seq<Op>, slot: nat, was: nat, nowNs: nat)
    requires OnTrial(a, slot, was) && was <= nowNs && CalmRun(a, ops)
    ensures var b := Run(a, ops);
            && |b.cancel| == |a.cancel|
            && (b.cancel[slot].Fresh(nowNs, a.config.staleAfterNs) && HasProven(b, nowNs)
                && !Renewed(a, b, slot, was, nowNs)
                ==> OnTrial(b, slot, nowNs))
  {
    CalmRunKeepsStanding(a, ops);
    var b := Run(a, ops);
    if b.cancel[slot].Fresh(nowNs, a.config.staleAfterNs) && HasProven(b, nowNs) && !Renewed(a, b, slot, was, nowNs) {
      assert SameStanding(a.cancel[slot], b.cancel[slot]);
      forall j: nat | j < |b.cancel| && Candidate(b, j, nowNs) ensures j == slot || Older(b, slot, j) {
        assert SameStanding(a.cancel[j], b.cancel[j]);
        CandidateIsYounger(a, b, slot, j, was, nowNs);
      }
    }
  }

  lemma CandidateIsYounger(a: Account, b: Account, slot: nat, j: nat, was: nat, nowNs: nat)
    requires OnTrial(a, slot, was) && |b.cancel| == |a.cancel| && b.config == a.config && j < |a.cancel|
    requires SameStanding(a.cancel[slot], b.cancel[slot]) && SameStanding(a.cancel[j], b.cancel[j])
    requires Candidate(b, j, nowNs) && !Renewed(a, b, slot, was, nowNs)
    ensures j == slot || Older(b, slot, j)
  {
    if j != slot && Older(a, j, slot) {
      // It had waited long enough already, so only its lease could have kept it out.
      assert a.cancel[j].Fresh(was, a.config.staleAfterNs);
      assert Candidate(a, j, was);
    }
  }
}
