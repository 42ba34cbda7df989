/** Account-local transport admission: sequenced lane snapshots in, a state and a place
    budget out. This module is the pure model; `AdmissionObject` holds the router's
    object, whose methods make these changes in place. */
module Admission {
  import opened Common

  const SLOW_HTTP_NS: nat := 500_000_000
  const U16_MAX: nat := 65535
  const U32_MAX: nat := 0xFFFF_FFFF

  datatype Config = Config(
    staleAfterNs: nat,
    failureClusterWindowNs: nat,
    recoveryPauseNs: nat,
    maxRecoveryPauseNs: nat,
    recoverySuccesses: nat)

  datatype Role = Fast | Cancel | Reconcile | Query | GapReplay

  datatype HttpOutcome = Healthy | SlowResponded | Failure | TransportUncertain | SlowRetired

  datatype Business = Business(attemptId: nat, poolGeneration: nat, elapsedNs: nat, outcome: HttpOutcome)

  /** A complete, replaceable snapshot published by a lane's owner. */
  datatype Observation = Observation(
    sequence: nat,
    observedAtNs: nat,
    poolGeneration: nat,
    quarantined: bool,
    business: Option<Business>,
    busy: bool,
    failures: nat,
    slow: nat,
    noResponse: nat,
    slowRetired: nat,
    slowRetiredGeneration: nat,
    noResponseGeneration: nat,
    noResponsePeer: Option<nat>)

  datatype Lane = Lane(
    sequence: nat,
    observedAtNs: nat,
    generation: nat,
    quarantined: bool,
    busy: bool,
    dispatchedAtNs: Option<nat>,
    businessAttempt: nat,
    failures: nat,
    slow: nat,
    noResponse: nat,
    slowRetired: nat,
    retiredGeneration: Option<nat>,
    verified: bool,
    deliveryFault: bool,
    failureWindow: nat,
    reservedCancel: bool,
    businessFailed: bool,
    failureEligibleAfterNs: nat,
    failureStreak: nat)
  {
    predicate Fresh(nowNs: nat, staleAfterNs: nat) {
      sequence != 0 && !deliveryFault && observedAtNs <= nowNs && nowNs - observedAtNs <= staleAfterNs
    }

    predicate Ready() {
      !quarantined && retiredGeneration != Some(generation)
    }

    predicate CancelReady() {
      Ready() && !businessFailed
    }

    predicate CancelProbeEligible(nowNs: nat) {
      Ready() && (!businessFailed || nowNs >= failureEligibleAfterNs)
    }
  }

  const NEW_LANE: Lane :=
    Lane(0, 0, 0, false, false, None, 0, 0, 0, 0, 0, None, false, false, 0, false, false, 0, 0)

  datatype Probe = Probe(slot: nat, generation: nat, afterAttempt: nat, dispatchedAtNs: nat)

  datatype Gate = Open | Degraded | Recovering | Paused

  /** What strategies are told. `Open` is the code's Healthy. */
  datatype Decision = Decision(epoch: nat, gate: Gate, slots: nat, observedAtNs: nat)

  datatype Account = Account(
    config: Config,
    fast: seq<Lane>,
    cancel: seq<Lane>,
    admission: Decision,
    dirty: bool,
    nextChangeNs: nat,
    probationBusy: bool,
    recoveryRequired: bool,
    recoverySuccesses: nat,
    probe: Option<Probe>,
    pauseUntilNs: nat,
    failureStreak: nat,
    failureWindow: nat,
    failureWindowStartedNs: nat,
    failureWindowLanes: nat,
    transportResetPending: bool,
    transportResetPeer: Option<nat>,
    noResponseResets: nat)

  function New(config: Config, fastSlots: nat, cancelSlots: nat, nowNs: nat): Account {
    Account(config, seq(fastSlots, _ => NEW_LANE), seq(cancelSlots, _ => NEW_LANE), Decision(0, Paused, 0, nowNs),
            true, 0, false, true, 0, None, 0, 0, 0, 0, 0, false, None, 0)
  }

  // ------------------------------------------------------------------ counting lanes

  /** The properties of a lane that `refresh` counts. */
  datatype Test =
    | IsReady | IsReadyCancel | IsEligibleCancel | IsOrdinaryCancel
    | IsBusy | OnProbation | IsFree | IsVerifiedFree

  predicate Holds(test: Test, lane: Lane, nowNs: nat, staleAfterNs: nat) {
    match test
    case IsReady => lane.Fresh(nowNs, staleAfterNs) && lane.Ready()
    case IsReadyCancel => !lane.reservedCancel && lane.Fresh(nowNs, staleAfterNs) && lane.CancelReady()
    case IsEligibleCancel => !lane.reservedCancel && lane.Fresh(nowNs, staleAfterNs) && lane.CancelProbeEligible(nowNs)
    case IsOrdinaryCancel => !lane.reservedCancel
    case IsBusy => lane.busy
    case OnProbation => lane.Fresh(nowNs, staleAfterNs) && lane.Ready() && !lane.verified && lane.busy
    case IsFree => lane.Fresh(nowNs, staleAfterNs) && lane.Ready() && !lane.busy
    case IsVerifiedFree => lane.Fresh(nowNs, staleAfterNs) && lane.Ready() && lane.verified && !lane.busy
  }

  function Count(lanes: seq<Lane>, test: Test, nowNs: nat, staleAfterNs: nat): (n: nat)
    ensures n <= |lanes|
  {
    if lanes == [] then 0
    else (if Holds(test, lanes[0], nowNs, staleAfterNs) then 1 else 0) + Count(lanes[1..], test, nowNs, staleAfterNs)
  }

  predicate AllFresh(lanes: seq<Lane>, nowNs: nat, staleAfterNs: nat) {
    forall i :: 0 <= i < |lanes| ==> lanes[i].Fresh(nowNs, staleAfterNs)
  }

  predicate AllVerified(lanes: seq<Lane>) {
    forall i :: 0 <= i < |lanes| ==> lanes[i].verified
  }

  // ------------------------------------------------------------------ refresh

  /** The earliest of the lane's three deadlines that lies after now, or `bound`. Freshness
      is inclusive, so a lease expires one nanosecond after it ends. */
  function LaneDeadline(lane: Lane, staleAfterNs: nat, nowNs: nat, bound: nat): nat {
    var lease := SatAdd(SatAdd(lane.observedAtNs, staleAfterNs), 1);
    Earlier(lane.failureEligibleAfterNs, nowNs, Earlier(lease, nowNs, Earlier(lane.observedAtNs, nowNs, bound)))
  }

  function Earlier(deadline: nat, nowNs: nat, bound: nat): nat {
    if deadline > nowNs then Min(bound, deadline) else bound
  }

  function LanesDeadline(lanes: seq<Lane>, staleAfterNs: nat, nowNs: nat, bound: nat): nat {
    if lanes == [] then bound
    else LanesDeadline(lanes[1..], staleAfterNs, nowNs, LaneDeadline(lanes[0], staleAfterNs, nowNs, bound))
  }

  function NextChange(a: Account, nowNs: nat): nat {
    var stale := a.config.staleAfterNs;
    Earlier(a.pauseUntilNs, nowNs, LanesDeadline(a.cancel, stale, nowNs, LanesDeadline(a.fast, stale, nowNs, U64_MAX)))
  }

  /** Everything about the lanes that the decision depends on. */
  datatype Census = Census(
    allFresh: bool,
    allVerified: bool,
    readyFast: nat,
    readyCancel: nat,
    eligibleCancel: nat,
    ordinaryCancel: nat,
    busyFast: nat,
    probationBusy: nat,
    freeFast: nat,
    verifiedFree: nat)

  function TakeCensus(fast: seq<Lane>, cancel: seq<Lane>, staleAfterNs: nat, nowNs: nat): Census {
    Census(AllFresh(fast, nowNs, staleAfterNs) && AllFresh(cancel, nowNs, staleAfterNs),
           AllVerified(fast),
           Count(fast, IsReady, nowNs, staleAfterNs),
           Count(cancel, IsReadyCancel, nowNs, staleAfterNs),
           Count(cancel, IsEligibleCancel, nowNs, staleAfterNs),
           Count(cancel, IsOrdinaryCancel, nowNs, staleAfterNs),
           Count(fast, IsBusy, nowNs, staleAfterNs),
           Count(fast, OnProbation, nowNs, staleAfterNs),
           Count(fast, IsFree, nowNs, staleAfterNs),
           Count(fast, IsVerifiedFree, nowNs, staleAfterNs))
  }

  /** The state and the uncapped budget, once pausing and recovery are known. */
  function Decide(c: Census, fastLanes: nat, paused: bool, recovery: bool, probing: bool): (Gate, nat) {
    if paused then (Paused, 0)
    else if recovery then (Recovering, if c.busyFast == 0 && !probing && c.freeFast > 0 then 1 else 0)
    else if c.allFresh && c.readyFast == fastLanes && c.readyCancel == c.ordinaryCancel && c.allVerified
    then (Open, c.freeFast)
    else (Degraded, c.verifiedFree + if c.probationBusy == 0 && SatSub(c.freeFast, c.verifiedFree) > 0 then 1 else 0)
  }

  predicate MustPause(c: Census, pauseUntilNs: nat, nowNs: nat) {
    c.readyFast == 0 || c.eligibleCancel == 0 || nowNs < pauseUntilNs
  }

  function CensusAt(a: Account, nowNs: nat): Census {
    TakeCensus(a.fast, a.cancel, a.config.staleAfterNs, nowNs)
  }

  function Announce(d: Decision, gate: Gate, slots: nat, nowNs: nat): Decision {
    Decision(if d.gate != gate || d.slots != slots then SatAdd(d.epoch, 1) else d.epoch, gate, slots, nowNs)
  }

  /** The account once its lanes are counted and its next deadline is known. */
  function Chosen(a: Account, c: Census, next: nat, nowNs: nat): Account {
    var paused := MustPause(c, a.pauseUntilNs, nowNs);
    var recovery := a.recoveryRequired || c.readyCancel == 0 || paused;
    var probe := if paused then None else a.probe;
    var chosen := Decide(c, |a.fast|, paused, recovery, probe.Some?);
    a.(dirty := false,
       nextChangeNs := next,
       probationBusy := c.probationBusy > 0,
       recoveryRequired := recovery,
       recoverySuccesses := if paused then 0 else a.recoverySuccesses,
       probe := probe,
       admission := Announce(a.admission, chosen.0, Min(chosen.1, U16_MAX), nowNs))
  }

  /** The full recomputation behind `refresh`. */
  function Recompute(a: Account, nowNs: nat): Account {
    Chosen(a, CensusAt(a, nowNs), NextChange(a, nowNs), nowNs)
  }

  predicate Cached(a: Account, nowNs: nat) {
    !a.dirty && a.admission.observedAtNs <= nowNs < a.nextChangeNs
  }

  function Refresh(a: Account, nowNs: nat): Account {
    if Cached(a, nowNs) then a.(admission := a.admission.(observedAtNs := nowNs)) else Recompute(a, nowNs)
  }

  predicate AllowsPlace(d: Decision) {
    d.gate != Paused && d.slots > 0
  }

  /** `lane_place_allowed` once the account has been refreshed at `nowNs`. */
  predicate LaneAllowed(a: Account, slot: nat, nowNs: nat) {
    && AllowsPlace(a.admission) && slot < |a.fast|
    && Holds(IsFree, a.fast[slot], nowNs, a.config.staleAfterNs)
    && (a.recoveryRequired || a.fast[slot].verified || !a.probationBusy)
  }

  // ------------------------------------------------------------------ changes

  predicate HasLane(a: Account, role: Role, slot: nat) {
    match role
    case Fast => slot < |a.fast|
    case Cancel => slot < |a.cancel|
    case _ => false
  }

  function LaneOf(a: Account, role: Role, slot: nat): Lane
    requires HasLane(a, role, slot)
  {
    if role.Fast? then a.fast[slot] else a.cancel[slot]
  }

  /** What every change keeps: the configuration, the registry and the last decision. */
  predicate SameRegistry(a: Account, b: Account) {
    && b.config == a.config && b.admission == a.admission
    && |b.fast| == |a.fast| && |b.cancel| == |a.cancel|
  }

  function WithLane(a: Account, role: Role, slot: nat, lane: Lane): (r: Account)
    requires HasLane(a, role, slot)
    ensures r.dirty && SameRegistry(a, r)
    ensures forall ro, s: nat | HasLane(a, ro, s) ::
              LaneOf(r, ro, s) == if ro == role && s == slot then lane else LaneOf(a, ro, s)
  {
    if role.Fast? then a.(dirty := true, fast := a.fast[slot := lane])
    else a.(dirty := true, cancel := a.cancel[slot := lane])
  }

  /** Exponential backoff, doubled at most three times and capped. */
  function Backoff(config: Config, streak: nat): nat {
    var factor := if streak == 0 then 1 else if streak == 1 then 2 else if streak == 2 then 4 else 8;
    Min(SatMul(config.recoveryPauseNs, factor), config.maxRecoveryPauseNs)
  }

  function PauseForRecovery(a: Account, nowNs: nat): (r: Account)
    ensures r.dirty && SameRegistry(a, r) && r.fast == a.fast && r.cancel == a.cancel
  {
    a.(dirty := true,
       failureStreak := Min(a.failureStreak + 1, U32_MAX),
       pauseUntilNs := SatAdd(nowNs, Backoff(a.config, a.failureStreak)),
       recoveryRequired := true,
       recoverySuccesses := 0,
       probe := None)
  }

  function Retire(lane: Lane): Lane {
    lane.(retiredGeneration := Some(lane.generation), verified := false)
  }

  function RetireAll(lanes: seq<Lane>): (r: seq<Lane>)
    ensures |r| == |lanes| && forall i :: 0 <= i < |lanes| ==> r[i] == Retire(lanes[i])
  {
    seq(|lanes|, i requires 0 <= i < |lanes| => Retire(lanes[i]))
  }

  function RetireTransport(a: Account, nowNs: nat): Account {
    PauseForRecovery(a.(fast := RetireAll(a.fast), cancel := RetireAll(a.cancel), transportResetPeer := None,
                        transportResetPending := true), nowNs)
  }

  function OpenWindow(a: Account, nowNs: nat): (r: Account)
    ensures SameRegistry(a, r) && r.fast == a.fast && r.cancel == a.cancel
  {
    if a.failureWindow == 0 || SatSub(nowNs, a.failureWindowStartedNs) > a.config.failureClusterWindowNs
    then a.(failureWindow := SatAdd(a.failureWindow, 1), failureWindowStartedNs := nowNs, failureWindowLanes := 0)
    else a
  }

  /** A lane counts once per window. */
  function MarkWindow(a: Account, role: Role, slot: nat): (r: Account)
    ensures r.dirty && SameRegistry(a, r)
  {
    if HasLane(a, role, slot) && LaneOf(a, role, slot).failureWindow != a.failureWindow
    then WithLane(a, role, slot, LaneOf(a, role, slot).(failureWindow := a.failureWindow))
           .(failureWindowLanes := a.failureWindowLanes + 1)
    else a.(dirty := true)
  }

  /** At most one pause per cluster window, on the second distinct failing lane. */
  function NoteFailure(a: Account, role: Role, slot: nat, nowNs: nat): (r: Account)
    ensures r.dirty && SameRegistry(a, r)
  {
    var marked := MarkWindow(OpenWindow(a, nowNs), role, slot);
    if marked.failureWindowLanes == 2 then PauseForRecovery(marked.(failureWindowLanes := 3), nowNs) else marked
  }

  // ------------------------------------------------------------------ observation

  /** Replays and older generations never refresh a lease or heal a lane. */
  predicate Newer(previous: Lane, o: Observation) {
    o.sequence > previous.sequence && o.poolGeneration >= previous.generation
  }

  /** A newer snapshot that an owner's cumulative totals could not have produced. */
  predicate Faulty(previous: Lane, o: Observation, nowNs: nat) {
    || o.observedAtNs > nowNs || o.observedAtNs < previous.observedAtNs
    || o.failures < previous.failures || o.slow < previous.slow
    || o.slowRetired < previous.slowRetired || o.slowRetired > o.slow
    || (o.slowRetired > 0 && o.slowRetiredGeneration > o.poolGeneration)
    || o.noResponse < previous.noResponse || o.noResponse > o.failures
    || (o.noResponse > 0 && o.noResponseGeneration > o.poolGeneration)
  }

  /** What a newer, well-formed snapshot says that the router did not know. */
  datatype News = News(
    transportReset: bool,
    slow: bool,
    business: Option<Business>,
    healthy: bool,
    failure: bool,
    businessSlow: bool)

  function NewsOf(previous: Lane, o: Observation): News {
    var business :=
      if o.business.Some? && o.business.value.attemptId > previous.businessAttempt
         && o.business.value.poolGeneration == o.poolGeneration
      then o.business else None;
    News(
      o.noResponse > previous.noResponse
      && (previous.retiredGeneration.None? || o.noResponseGeneration > previous.retiredGeneration.value),
      o.slow > previous.slow,
      business,
      business.Some? && business.value.outcome == Healthy && business.value.elapsedNs < SLOW_HTTP_NS,
      o.failures > previous.failures
      || (business.Some? && (business.value.outcome == Failure || business.value.outcome == TransportUncertain)),
      business.Some? && (business.value.outcome == SlowResponded || business.value.outcome == SlowRetired
                      || (business.value.outcome == Healthy && business.value.elapsedNs >= SLOW_HTTP_NS)))
  }

  predicate Adverse(n: News) {
    n.failure || n.slow || n.businessSlow
  }

  /** The part of the lane that simply records the snapshot. */
  function Recorded(lane: Lane, o: Observation): Lane {
    var attempt :=
      if o.business.Some? then Max(lane.businessAttempt, o.business.value.attemptId) else lane.businessAttempt;
    // An already queued idle heartbeat cannot clear a root-side dispatch.
    var current := lane.dispatchedAtNs.None? || o.observedAtNs >= lane.dispatchedAtNs.value;
    lane.(sequence := o.sequence,
          observedAtNs := o.observedAtNs,
          generation := o.poolGeneration,
          quarantined := o.quarantined,
          failures := o.failures,
          slow := o.slow,
          noResponse := o.noResponse,
          slowRetired := o.slowRetired,
          deliveryFault := false,
          businessAttempt := attempt,
          verified := lane.verified && o.poolGeneration == lane.generation,
          busy := if current then o.busy else lane.busy,
          dispatchedAtNs := if current && !o.busy then None else lane.dispatchedAtNs)
  }

  /** Judging a lane leaves alone what its owner reported. */
  predicate SameReport(before: Lane, after: Lane) {
    && after.sequence == before.sequence && after.observedAtNs == before.observedAtNs
    && after.generation == before.generation && after.quarantined == before.quarantined
    && after.failures == before.failures && after.slow == before.slow
    && after.noResponse == before.noResponse && after.slowRetired == before.slowRetired
    && after.busy == before.busy && after.dispatchedAtNs == before.dispatchedAtNs
    && after.businessAttempt == before.businessAttempt
  }

  /** Adverse news starts a backoff; a later healthy result ends it. */
  function Scored(config: Config, lane: Lane, n: News, nowNs: nat): (r: Lane)
    ensures SameReport(lane, r) && r.retiredGeneration == lane.retiredGeneration
    ensures r.verified == (lane.verified && !Adverse(n))
  {
    var failed :=
      if Adverse(n) then
        lane.(verified := false, businessFailed := true, failureStreak := Min(lane.failureStreak + 1, U32_MAX),
              failureEligibleAfterNs := SatAdd(nowNs, Backoff(config, lane.failureStreak)))
      else lane;
    if n.healthy && !n.slow && failed.retiredGeneration != Some(failed.generation)
    then failed.(businessFailed := false, failureStreak := 0, failureEligibleAfterNs := 0) else failed
  }

  /** The part that judges it. */
  function Judged(config: Config, previous: Lane, lane: Lane, o: Observation, n: News, nowNs: nat): (r: Lane)
    ensures SameReport(lane, r)
  {
    var healed := Scored(config, lane, n, nowNs);
    if (n.business.Some? && n.business.value.outcome == SlowRetired)
       || (o.slowRetired > previous.slowRetired && o.slowRetiredGeneration == healed.generation)
    then healed.(retiredGeneration := Some(healed.generation))
    else if n.healthy && !n.failure && !n.slow && healed.Ready() then healed.(verified := true)
    else healed
  }

  predicate Reports(probe: Option<Probe>, role: Role, slot: nat, o: Observation) {
    probe.Some? && role == Fast && slot == probe.value.slot && o.observedAtNs >= probe.value.dispatchedAtNs
  }

  /** A completed report of the probe's lane releases it, and counts if it succeeded on the
      generation it was sent on, with a newer attempt. */
  function SettleProbe(a: Account, role: Role, slot: nat, o: Observation, n: News): (r: Account)
    requires a.dirty
    ensures r.dirty && SameRegistry(a, r) && r.fast == a.fast && r.cancel == a.cancel
  {
    if !Reports(a.probe, role, slot, o) || o.busy then a
    else
      var probe := a.probe.value;
      var succeeded :=
        && n.healthy && !n.failure && !n.slow && o.poolGeneration == probe.generation
        && n.business.Some? && n.business.value.attemptId > probe.afterAttempt;
      a.(probe := None,
         recoverySuccesses := if succeeded then Min(a.recoverySuccesses + 1, 255) else a.recoverySuccesses)
  }

  predicate RecoveryProven(a: Account, nowNs: nat) {
    && a.recoverySuccesses >= Max(a.config.recoverySuccesses, 1)
    && exists i :: 0 <= i < |a.cancel| && Holds(IsReadyCancel, a.cancel[i], nowNs, a.config.staleAfterNs)
  }

  /** The lane records and judges the snapshot. */
  function Recording(a: Account, role: Role, slot: nat, o: Observation, nowNs: nat): (r: Account)
    requires HasLane(a, role, slot)
    ensures r.dirty && SameRegistry(a, r)
  {
    var previous := LaneOf(a, role, slot);
    WithLane(a, role, slot, Judged(a.config, previous, Recorded(previous, o), o, NewsOf(previous, o), nowNs))
  }

  /** A request without any response retires every socket of the account. */
  function Resetting(a: Account, o: Observation, n: News, nowNs: nat): (r: Account)
    requires a.dirty
    ensures r.dirty && SameRegistry(a, r)
  {
    if n.transportReset
    then
      var counted := a.(noResponseResets := SatAdd(a.noResponseResets, 1));
      RetireTransport(counted, nowNs).(transportResetPeer := o.noResponsePeer)
    else a
  }

  /** A failure enters the cluster window, and fails the probe it reports on. */
  function Failing(a: Account, role: Role, slot: nat, n: News, reported: bool, nowNs: nat): (r: Account)
    requires a.dirty
    ensures r.dirty && SameRegistry(a, r)
  {
    var b := if n.failure then NoteFailure(a, role, slot, nowNs) else a;
    var c := if n.failure && reported && nowNs >= b.pauseUntilNs then PauseForRecovery(b, nowNs) else b;
    if Adverse(n) then c.(recoverySuccesses := 0, probe := None) else c
  }

  function Concluding(a: Account, nowNs: nat): (r: Account)
    requires a.dirty
    ensures r.dirty && SameRegistry(a, r) && r.fast == a.fast && r.cancel == a.cancel
  {
    if RecoveryProven(a, nowNs) then a.(recoveryRequired := false, failureStreak := 0) else a
  }

  /** The account after an accepted snapshot, before its refresh. */
  function Absorbed(a: Account, role: Role, slot: nat, o: Observation, nowNs: nat): (r: Account)
    requires HasLane(a, role, slot)
    ensures r.dirty && SameRegistry(a, r)
  {
    var n := NewsOf(LaneOf(a, role, slot), o);
    var recorded := Recording(a, role, slot, o, nowNs);
    var reset := Resetting(recorded, o, n, nowNs);
    var failed := Failing(reset, role, slot, n, Reports(a.probe, role, slot, o), nowNs);
    Concluding(SettleProbe(failed, role, slot, o, n), nowNs)
  }

  function Faulted(a: Account, role: Role, slot: nat): Account {
    if HasLane(a, role, slot) then WithLane(a, role, slot, LaneOf(a, role, slot).(deliveryFault := true))
    else a.(dirty := true)
  }

  predicate Accepts(a: Account, role: Role, slot: nat, o: Observation, nowNs: nat) {
    HasLane(a, role, slot) && Newer(LaneOf(a, role, slot), o) && !Faulty(LaneOf(a, role, slot), o, nowNs)
  }

  function Observed(a: Account, role: Role, slot: nat, o: Observation, nowNs: nat): (r: Account)
    ensures r == a || r.dirty
    ensures SameRegistry(a, r)
  {
    if !HasLane(a, role, slot) || !Newer(LaneOf(a, role, slot), o) then a
    else if Faulty(LaneOf(a, role, slot), o, nowNs) then Faulted(a, role, slot)
    else Absorbed(a, role, slot, o, nowNs)
  }

  function Dispatched(a: Account, slot: nat, nowNs: nat): Account {
    if slot >= |a.fast| then a.(dirty := true)
    else
      var lane := a.fast[slot];
      var probe :=
        if a.recoveryRequired && a.probe.None?
        then Some(Probe(slot, lane.generation, lane.businessAttempt, nowNs)) else a.probe;
      a.(dirty := true, probe := probe, fast := a.fast[slot := lane.(busy := true, dispatchedAtNs := Some(nowNs))])
  }

  function NotSent(a: Account, slot: nat): Account {
    var fast :=
      if slot < |a.fast| then a.fast[slot := a.fast[slot].(busy := false, dispatchedAtNs := None)] else a.fast;
    var probe := if a.probe.Some? && a.probe.value.slot == slot then None else a.probe;
    a.(dirty := true, fast := fast, probe := probe)
  }

  function Reserved(a: Account, slot: nat): Account {
    if slot < |a.cancel| then a.(dirty := true, cancel := a.cancel[slot := a.cancel[slot].(reservedCancel := true)])
    else a.(dirty := true)
  }

  // ------------------------------------------------------------------ operations and runs

  /** The router's operations. Every one but the last three ends in one refresh. */
  datatype Op =
    | Observe(role: Role, slot: nat, o: Observation, nowNs: nat)
    | MarkFault(role: Role, slot: nat, nowNs: nat)
    | Check(nowNs: nat)
    | Dispatch(slot: nat, nowNs: nat)
    | NotSentAt(slot: nat, nowNs: nat)
    | Reserve(slot: nat)
    | RetireAt(nowNs: nat)
    | RetireAvoiding(nowNs: nat, peer: Option<nat>)
    | TakeReset

  function Changed(a: Account, op: Op): Account {
    match op
    case Observe(role, slot, o, nowNs) => Observed(a, role, slot, o, nowNs)
    case MarkFault(role, slot, _) => Faulted(a, role, slot)
    case Check(_) => a
    case Dispatch(slot, nowNs) => Dispatched(a, slot, nowNs)
    case NotSentAt(slot, _) => NotSent(a, slot)
    case Reserve(slot) => Reserved(a, slot)
    case RetireAt(nowNs) => RetireTransport(a, nowNs)
    case RetireAvoiding(nowNs, peer) => RetireTransport(a, nowNs).(transportResetPeer := peer)
    case TakeReset => a.(transportResetPending := false)
  }

  /** When the operation refreshes, if it does. */
  function RefreshTime(a: Account, op: Op): Option<nat> {
    match op
    case Reserve(_) => Some(a.admission.observedAtNs)
    case RetireAt(_) => None
    case RetireAvoiding(_, _) => None
    case TakeReset => None
    case _ => Some(op.nowNs)
  }

  function Apply(a: Account, op: Op): Account {
    match RefreshTime(a, op)
    case None => Changed(a, op)
    case Some(nowNs) => Refresh(Changed(a, op), nowNs)
  }

  function Run(a: Account, ops: seq<Op>): Account
    decreases |ops|
  {
    if ops == [] then a else Run(Apply(a, ops[0]), ops[1..])
  }
}
