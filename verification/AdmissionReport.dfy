/** What an accepted report does, told from its own numbers: to the lane that sent it, to every
    other lane, to the account's transport and to its pause. */
module AdmissionReport {
  import opened Common
  import opened Admission
  import opened AdmissionLanes
  import opened AdmissionRecovery
  import C = AdmissionCluster
  import F = AdmissionFence

  // ------------------------------------------------------------------ what a report says

  /** A request got no answer at all, on a generation that the lane has not retired. */
  predicate Unanswered(lane: Lane, o: Observation) {
    o.noResponse > lane.noResponse && F.Rank(lane) <= o.noResponseGeneration
  }

  /** A request failed. */
  predicate Failed(lane: Lane, o: Observation) {
    || o.failures > lane.failures
    || (NewResult(lane, o) && o.business.value.outcome in {Failure, TransportUncertain})
  }

  /** The reporting generation was retired for slowness by its owner. */
  predicate TooSlow(lane: Lane, o: Observation) {
    || (NewResult(lane, o) && o.business.value.outcome == SlowRetired)
    || (o.slowRetired > lane.slowRetired && o.slowRetiredGeneration == o.poolGeneration)
  }

  /** A new prompt result, with no slow response beside it, on a generation not retired. */
  predicate Heals(lane: Lane, o: Observation) {
    && NewResult(lane, o) && Prompt(o.business.value) && o.slow <= lane.slow
    && lane.retiredGeneration != Some(o.poolGeneration)
  }

  /** The report counts for the lane's occupancy: nothing was sent after it was taken. */
  predicate Timed(lane: Lane, o: Observation) {
    lane.dispatchedAtNs.None? || lane.dispatchedAtNs.value <= o.observedAtNs
  }

  lemma SaysReset(lane: Lane, o: Observation)
    ensures NewsOf(lane, o).transportReset <==> Unanswered(lane, o)
    ensures NewsOf(lane, o).failure <==> Failed(lane, o)
  {}

  // ------------------------------------------------------------------ the reporting lane

  /** The lane holds what the report says and nothing of what it said before. */
  predicate Recites(before: Lane, after: Lane, o: Observation) {
    && after.sequence == o.sequence && after.observedAtNs == o.observedAtNs && after.generation == o.poolGeneration
    && after.quarantined == o.quarantined && !after.deliveryFault && after.reservedCancel == before.reservedCancel
    && after.failures == o.failures && after.slow == o.slow
    && after.noResponse == o.noResponse && after.slowRetired == o.slowRetired
    && after.businessAttempt == (if o.business.Some? then Max(before.businessAttempt, o.business.value.attemptId)
                                 else before.businessAttempt)
  }

  predicate Occupied(before: Lane, after: Lane, o: Observation) {
    if Timed(before, o)
    then after.busy == o.busy && after.dispatchedAtNs == (if o.busy then before.dispatchedAtNs else None)
    else after.busy == before.busy && after.dispatchedAtNs == before.dispatchedAtNs
  }

  /** Its backoff: begun by adverse news, ended by news that heals. */
  predicate BackedOff(config: Config, before: Lane, after: Lane, o: Observation, nowNs: nat) {
    if Heals(before, o) then !after.businessFailed && after.failureStreak == 0 && after.failureEligibleAfterNs == 0
    else if AdverseReport(before, o) then
      && after.businessFailed && after.failureStreak == Min(before.failureStreak + 1, U32_MAX)
      && after.failureEligibleAfterNs == SatAdd(nowNs, Backoff(config, before.failureStreak))
    else
      && after.businessFailed == before.businessFailed && after.failureStreak == before.failureStreak
      && after.failureEligibleAfterNs == before.failureEligibleAfterNs
  }

  /** Its generation fence, and whether it is verified: by this report, or still. */
  predicate Fences(before: Lane, after: Lane, o: Observation) {
    && after.retiredGeneration == (if Unanswered(before, o) || TooSlow(before, o) then Some(o.poolGeneration)
                                   else before.retiredGeneration)
    && (after.verified <==>
          && !Unanswered(before, o)
          && (|| (before.verified && before.generation == o.poolGeneration && !AdverseReport(before, o))
              || (F.Proof(before, o) && after.Ready())))
  }

  predicate TakesIn(config: Config, before: Lane, after: Lane, o: Observation, nowNs: nat) {
    && Recites(before, after, o) && Occupied(before, after, o)
    && BackedOff(config, before, after, o, nowNs) && Fences(before, after, o)
  }

  /** The lane as the snapshot leaves it, before the failure window marks it. */
  function Judgement(config: Config, before: Lane, o: Observation, nowNs: nat): Lane {
    var n := NewsOf(before, o);
    var judged := Judged(config, before, Recorded(before, o), o, n, nowNs);
    if n.transportReset then Retire(judged) else judged
  }

  lemma JudgedRecites(config: Config, before: Lane, o: Observation, nowNs: nat)
    ensures var after := Judged(config, before, Recorded(before, o), o, NewsOf(before, o), nowNs);
            Recites(before, after, o) && Occupied(before, after, o)
  {
    var recorded := Recorded(before, o);
    assert Recites(before, recorded, o) && Occupied(before, recorded, o);
  }

  lemma ScoredBacksOff(config: Config, before: Lane, o: Observation, nowNs: nat)
    ensures BackedOff(config, before, Scored(config, Recorded(before, o), NewsOf(before, o), nowNs), o, nowNs)
  {
    SameVerdict(before, o);
  }

  /** Retiring a lane, or marking its failure window, touches neither. */
  lemma StaysSo(config: Config, before: Lane, mid: Lane, after: Lane, o: Observation, nowNs: nat)
    requires Recites(before, mid, o) && Occupied(before, mid, o) && BackedOff(config, before, mid, o, nowNs)
    requires after == mid.(retiredGeneration := after.retiredGeneration, verified := after.verified)
    ensures Recites(before, after, o) && Occupied(before, after, o) && BackedOff(config, before, after, o, nowNs)
  {}

  lemma JudgementHolds(config: Config, before: Lane, o: Observation, nowNs: nat)
    ensures var after := Judgement(config, before, o, nowNs);
            Recites(before, after, o) && Occupied(before, after, o) && BackedOff(config, before, after, o, nowNs)
  {
    var n := NewsOf(before, o);
    var scored := Scored(config, Recorded(before, o), n, nowNs);
    var judged := Judged(config, before, Recorded(before, o), o, n, nowNs);
    JudgedRecites(config, before, o, nowNs);
    ScoredBacksOff(config, before, o, nowNs);
    assert judged == scored.(retiredGeneration := judged.retiredGeneration, verified := judged.verified);
    StaysSo(config, before, judged, Judgement(config, before, o, nowNs), o, nowNs);
  }

  lemma JudgedFences(config: Config, before: Lane, o: Observation, nowNs: nat)
    requires Newer(before, o) && !Faulty(before, o, nowNs)
    ensures Fences(before, Judgement(config, before, o, nowNs), o)
  {
    SaysReset(before, o);
    SameVerdict(before, o);
  }

  lemma WindowTakesIn(config: Config, before: Lane, mid: Lane, after: Lane, o: Observation, nowNs: nat)
    requires TakesIn(config, before, mid, o, nowNs) && SameButWindow(mid, after)
    ensures TakesIn(config, before, after, o, nowNs)
  {}

  /** Everything an accepted report does to its own lane. */
  lemma ReportTakesIn(a: Account, role: Role, slot: nat, o: Observation, nowNs: nat)
    requires Accepts(a, role, slot, o, nowNs)
    ensures var b := Apply(a, Observe(role, slot, o, nowNs));
            HasLane(b, role, slot) && TakesIn(a.config, LaneOf(a, role, slot), LaneOf(b, role, slot), o, nowNs)
  {
    var before := LaneOf(a, role, slot);
    ApplyKeepsLanes(a, Observe(role, slot, o, nowNs));
    AbsorbedLane(a, role, slot, o, nowNs, role, slot);
    JudgementHolds(a.config, before, o, nowNs);
    JudgedFences(a.config, before, o, nowNs);
    WindowTakesIn(a.config, before, Judgement(a.config, before, o, nowNs),
                  LaneOf(Absorbed(a, role, slot, o, nowNs), role, slot), o, nowNs);
  }

  // ------------------------------------------------------------------ the other lanes and the transport

  lemma MarkingOthers(a: Account, role: Role, slot: nat, r: Role, s: nat)
    requires HasLane(a, r, s) && !(r == role && s == slot)
    ensures var b := MarkWindow(a, role, slot); HasLane(b, r, s) && LaneOf(b, r, s) == LaneOf(a, r, s)
  {}

  lemma FailingOthers(a: Account, role: Role, slot: nat, n: News, reported: bool, nowNs: nat, r: Role, s: nat)
    requires a.dirty && HasLane(a, r, s) && !(r == role && s == slot)
    ensures var b := Failing(a, role, slot, n, reported, nowNs);
            HasLane(b, r, s) && LaneOf(b, r, s) == LaneOf(a, r, s)
  {
    var windowed := OpenWindow(a, nowNs);
    assert windowed.fast == a.fast && windowed.cancel == a.cancel;
    MarkingOthers(windowed, role, slot, r, s);
    var noted := NoteFailure(a, role, slot, nowNs);
    assert HasLane(noted, r, s) && LaneOf(noted, r, s) == LaneOf(a, r, s);
  }

  /** Another lane is retired with the whole transport, or left as it is. */
  lemma AbsorbedOthers(a: Account, role: Role, slot: nat, o: Observation, nowNs: nat, r: Role, s: nat)
    requires Accepts(a, role, slot, o, nowNs) && HasLane(a, r, s) && !(r == role && s == slot)
    ensures var b := Absorbed(a, role, slot, o, nowNs);
            && HasLane(b, r, s)
            && LaneOf(b, r, s) ==
               if Unanswered(LaneOf(a, role, slot), o) then Retire(LaneOf(a, r, s)) else LaneOf(a, r, s)
  {
    var n := NewsOf(LaneOf(a, role, slot), o);
    SaysReset(LaneOf(a, role, slot), o);
    RecordingLane(a, role, slot, o, nowNs, r, s);
    var recorded := Recording(a, role, slot, o, nowNs);
    ResettingLane(recorded, o, n, nowNs, r, s);
    var reset := Resetting(recorded, o, n, nowNs);
    FailingOthers(reset, role, slot, n, Reports(a.probe, role, slot, o), nowNs, r, s);
    var failed := Failing(reset, role, slot, n, Reports(a.probe, role, slot, o), nowNs);
    assert SettleProbe(failed, role, slot, o, n).fast == failed.fast;
    assert SettleProbe(failed, role, slot, o, n).cancel == failed.cancel;
  }

  /** The account's request for a new transport. */
  predicate SameTransport(a: Account, b: Account) {
    && b.transportResetPending == a.transportResetPending && b.transportResetPeer == a.transportResetPeer
    && b.noResponseResets == a.noResponseResets
  }

  lemma FailingKeepsTransport(a: Account, role: Role, slot: nat, n: News, reported: bool, nowNs: nat)
    requires a.dirty
    ensures SameTransport(a, Failing(a, role, slot, n, reported, nowNs))
  {
    var marked := MarkWindow(OpenWindow(a, nowNs), role, slot);
    assert SameTransport(a, marked);
    assert SameTransport(a, NoteFailure(a, role, slot, nowNs));
  }

  predicate TransportAfter(a: Account, b: Account, reset: bool, peer: Option<nat>) {
    if reset
    then
      b.transportResetPending && b.transportResetPeer == peer && b.noResponseResets == SatAdd(a.noResponseResets, 1)
    else SameTransport(a, b)
  }

  lemma ResettingTransport(a: Account, o: Observation, n: News, nowNs: nat)
    requires a.dirty
    ensures TransportAfter(a, Resetting(a, o, n, nowNs), n.transportReset, o.noResponsePeer)
  {}

  lemma SettlingTransport(a: Account, role: Role, slot: nat, o: Observation, n: News, nowNs: nat)
    requires a.dirty
    ensures SameTransport(a, Concluding(SettleProbe(a, role, slot, o, n), nowNs))
  {
    assert SameTransport(a, SettleProbe(a, role, slot, o, n));
  }

  lemma RecordingTransport(a: Account, role: Role, slot: nat, o: Observation, nowNs: nat)
    requires HasLane(a, role, slot)
    ensures SameTransport(a, Recording(a, role, slot, o, nowNs))
  {}

  lemma AbsorbedTransport(a: Account, role: Role, slot: nat, o: Observation, nowNs: nat)
    requires Accepts(a, role, slot, o, nowNs)
    ensures TransportAfter(a, Absorbed(a, role, slot, o, nowNs), Unanswered(LaneOf(a, role, slot), o), o.noResponsePeer)
  {
    var n := NewsOf(LaneOf(a, role, slot), o);
    SaysReset(LaneOf(a, role, slot), o);
    var recorded := Recording(a, role, slot, o, nowNs);
    RecordingTransport(a, role, slot, o, nowNs);
    var reset := Resetting(recorded, o, n, nowNs);
    ResettingTransport(recorded, o, n, nowNs);
    FailingKeepsTransport(reset, role, slot, n, Reports(a.probe, role, slot, o), nowNs);
    var failed := Failing(reset, role, slot, n, Reports(a.probe, role, slot, o), nowNs);
    SettlingTransport(failed, role, slot, o, n, nowNs);
  }

  lemma RefreshKeepsTransport(a: Account, nowNs: nat)
    ensures SameTransport(a, Refresh(a, nowNs))
  {}

  /** Whole-transport retirement, exactly: an accepted report that a request of a generation not
      yet retired got no answer leaves no lane of either role ready or verified, asks for one
      reset that avoids the reported peer, and counts it. Any other report leaves every other
      lane as it was, asks for no reset and counts none. */
  lemma ResetsExactly(a: Account, role: Role, slot: nat, o: Observation, nowNs: nat)
    requires Accepts(a, role, slot, o, nowNs)
    ensures var b := Apply(a, Observe(role, slot, o, nowNs));
            if Unanswered(LaneOf(a, role, slot), o)
            then
              && (forall r, s: nat | HasLane(a, r, s) :: HasLane(b, r, s) && !LaneOf(b, r, s).Ready()
                                                        && !LaneOf(b, r, s).verified)
              && b.transportResetPending && b.transportResetPeer == o.noResponsePeer
              && b.noResponseResets == SatAdd(a.noResponseResets, 1)
            else
              && (forall r, s: nat | HasLane(a, r, s) && !(r == role && s == slot) ::
                    HasLane(b, r, s) && LaneOf(b, r, s) == LaneOf(a, r, s))
              && SameTransport(a, b)
  {
    var op := Observe(role, slot, o, nowNs);
    var b := Apply(a, op);
    ApplyKeepsLanes(a, op);
    ReportTakesIn(a, role, slot, o, nowNs);
    AbsorbedTransport(a, role, slot, o, nowNs);
    RefreshKeepsTransport(Changed(a, op), nowNs);
    forall r, s: nat | HasLane(a, r, s) && !(r == role && s == slot)
      ensures HasLane(b, r, s)
      ensures LaneOf(b, r, s) ==
              if Unanswered(LaneOf(a, role, slot), o) then Retire(LaneOf(a, r, s)) else LaneOf(a, r, s)
    {
      AbsorbedOthers(a, role, slot, o, nowNs, r, s);
    }
  }

  // ------------------------------------------------------------------ the pause

  function Doubled(base: nat, times: nat): nat {
    if times == 0 then base else 2 * Doubled(base, times - 1)
  }

  /** Each pause in a row is twice as long as the last, three times over, within u64 and up to
      the configured maximum. */
  lemma BackoffDoubles(config: Config, streak: nat)
    ensures Backoff(config, streak) ==
            Min(Min(Doubled(config.recoveryPauseNs, Min(streak, 3)), U64_MAX), config.maxRecoveryPauseNs)
  {
    var base := config.recoveryPauseNs;
    assert Doubled(base, 0) == base && Doubled(base, 1) == 2 * base;
    assert Doubled(base, 2) == 2 * Doubled(base, 1) && Doubled(base, 3) == 2 * Doubled(base, 2);
  }

  /** A pause that has no length has none at any streak. */
  lemma NoBackoff(config: Config, streak: nat, later: nat)
    ensures Backoff(config, streak) == 0 ==> Backoff(config, later) == 0
  {}

  /** Where pauses that begin at `nowNs`, `times` in a row, end. */
  function PausedUntil(a: Account, times: nat, nowNs: nat): nat {
    if times == 0 then a.pauseUntilNs else SatAdd(nowNs, Backoff(a.config, Min(a.failureStreak + times - 1, U32_MAX)))
  }

  /** The failure reported is the second distinct lane's of a running window. */
  predicate Clusters(a: Account, role: Role, slot: nat, o: Observation, nowNs: nat)
    requires HasLane(a, role, slot)
  {
    Failed(LaneOf(a, role, slot), o) && C.SecondLane(a, role, slot, nowNs)
  }

  /** How many pauses a report brings: one for a reset transport and one for a failure cluster, or
      one for a failed probe if neither did and none is running. */
  function Pauses(a: Account, role: Role, slot: nat, o: Observation, nowNs: nat): nat
    requires HasLane(a, role, slot)
  {
    var sure :=
      (if Unanswered(LaneOf(a, role, slot), o) then 1 else 0)
      + if Clusters(a, role, slot, o, nowNs) then 1 else 0;
    if sure == 0 && Failed(LaneOf(a, role, slot), o) && Reports(a.probe, role, slot, o) && nowNs >= a.pauseUntilNs
    then 1 else sure
  }

  lemma ResettingPauses(a: Account, o: Observation, n: News, nowNs: nat)
    requires a.dirty && a.failureStreak <= U32_MAX
    ensures var b := Resetting(a, o, n, nowNs);
            && b.pauseUntilNs == PausedUntil(a, if n.transportReset then 1 else 0, nowNs)
            && b.failureStreak == (if n.transportReset then Min(a.failureStreak + 1, U32_MAX) else a.failureStreak)
            && b.config == a.config
  {}

  /** A failed probe pauses only an account that nothing else has just paused. */
  lemma ProbePauses(a: Account, b: Account, times: nat, nowNs: nat)
    requires b.pauseUntilNs == PausedUntil(a, times, nowNs) && b.config == a.config && times <= 2
    requires b.failureStreak == Min(a.failureStreak + times, U32_MAX) && a.failureStreak <= U32_MAX
    requires nowNs >= b.pauseUntilNs
    ensures PauseForRecovery(b, nowNs).pauseUntilNs == PausedUntil(a, if times == 0 then 1 else times, nowNs)
  {
    if times > 0 {
      NoBackoff(a.config, Min(a.failureStreak + times - 1, U32_MAX), b.failureStreak);
    }
  }

  /** The pauses of a failure stage that follows `before` earlier ones at the same instant. */
  lemma FailingPauses(a: Account, b: Account, before: nat, role: Role, slot: nat, n: News, reported: bool, nowNs: nat)
    requires b.dirty && HasLane(b, role, slot) && C.Inv(b) && b.failureWindow < U64_MAX && a.failureStreak <= U32_MAX
    requires before <= 1 && b.pauseUntilNs == PausedUntil(a, before, nowNs) && b.config == a.config
    requires b.failureStreak == Min(a.failureStreak + before, U32_MAX)
    ensures var sure := before + if n.failure && C.SecondLane(b, role, slot, nowNs) then 1 else 0;
            var times := if sure == 0 && n.failure && reported && nowNs >= a.pauseUntilNs then 1 else sure;
            Failing(b, role, slot, n, reported, nowNs).pauseUntilNs == PausedUntil(a, times, nowNs)
  {
    if n.failure {
      C.PausesOnSecondLane(b, role, slot, nowNs);
      var noted := NoteFailure(b, role, slot, nowNs);
      var sure := before + if C.SecondLane(b, role, slot, nowNs) then 1 else 0;
      assert noted.pauseUntilNs == PausedUntil(a, sure, nowNs) && noted.config == a.config;
      if reported && nowNs >= noted.pauseUntilNs { ProbePauses(a, noted, sure, nowNs); }
    }
  }

  lemma ResetKeepsCluster(a: Account, role: Role, slot: nat, o: Observation, nowNs: nat)
    requires C.Inv(a) && HasLane(a, role, slot)
    ensures var n := NewsOf(LaneOf(a, role, slot), o);
            var b := Resetting(Recording(a, role, slot, o, nowNs), o, n, nowNs);
            && C.Inv(b) && HasLane(b, role, slot) && b.failureWindow == a.failureWindow && b.dirty
            && (C.SecondLane(b, role, slot, nowNs) <==> C.SecondLane(a, role, slot, nowNs))
  {
    var n, recorded := NewsOf(LaneOf(a, role, slot), o), Recording(a, role, slot, o, nowNs);
    C.RecordingKeepsSecond(a, role, slot, o, nowNs);
    C.ResettingSameWindow(recorded, o, n, nowNs);
    C.SameWindowInv(recorded, Resetting(recorded, o, n, nowNs));
  }

  lemma RefreshKeepsPause(a: Account, nowNs: nat)
    ensures Refresh(a, nowNs).pauseUntilNs == a.pauseUntilNs
  {}

  lemma ResetPauses(a: Account, role: Role, slot: nat, o: Observation, nowNs: nat)
    requires a.failureStreak <= U32_MAX && HasLane(a, role, slot)
    ensures var n := NewsOf(LaneOf(a, role, slot), o);
            var b := Resetting(Recording(a, role, slot, o, nowNs), o, n, nowNs);
            var before := if n.transportReset then 1 else 0;
            && b.pauseUntilNs == PausedUntil(a, before, nowNs) && b.config == a.config
            && b.failureStreak == Min(a.failureStreak + before, U32_MAX)
  {
    C.RecordingSameWindow(a, role, slot, o, nowNs);
    ResettingPauses(Recording(a, role, slot, o, nowNs), o, NewsOf(LaneOf(a, role, slot), o), nowNs);
  }

  lemma AbsorbedPauses(a: Account, role: Role, slot: nat, o: Observation, nowNs: nat)
    requires C.Inv(a) && a.failureWindow < U64_MAX && a.failureStreak <= U32_MAX && Accepts(a, role, slot, o, nowNs)
    ensures Absorbed(a, role, slot, o, nowNs).pauseUntilNs == PausedUntil(a, Pauses(a, role, slot, o, nowNs), nowNs)
  {
    var n := NewsOf(LaneOf(a, role, slot), o);
    var reset := Resetting(Recording(a, role, slot, o, nowNs), o, n, nowNs);
    var reported := Reports(a.probe, role, slot, o);
    SaysReset(LaneOf(a, role, slot), o);
    ResetPauses(a, role, slot, o, nowNs);
    ResetKeepsCluster(a, role, slot, o, nowNs);
    FailingPauses(a, reset, if n.transportReset then 1 else 0, role, slot, n, reported, nowNs);
    C.SettlingSameWindow(Failing(reset, role, slot, n, reported, nowNs), role, slot, o, n, nowNs);
  }

  /** When an accepted report moves the account's pause, and to where: by the reset it asks for,
      by the failure cluster it completes, by the probe it fails, and by nothing else. */
  lemma PausesExactly(a: Account, role: Role, slot: nat, o: Observation, nowNs: nat)
    requires C.Inv(a) && a.failureWindow < U64_MAX && a.failureStreak <= U32_MAX && Accepts(a, role, slot, o, nowNs)
    ensures Apply(a, Observe(role, slot, o, nowNs)).pauseUntilNs ==
            PausedUntil(a, Pauses(a, role, slot, o, nowNs), nowNs)
  {
    AbsorbedPauses(a, role, slot, o, nowNs);
    RefreshKeepsPause(Absorbed(a, role, slot, o, nowNs), nowNs);
  }

  // ------------------------------------------------------------------ reports that are not believed

  /** What the router has on record of a lane never goes back. */
  predicate NoLess(before: Lane, after: Lane) {
    && before.sequence <= after.sequence && before.observedAtNs <= after.observedAtNs
    && before.generation <= after.generation && before.businessAttempt <= after.businessAttempt
    && before.failures <= after.failures && before.slow <= after.slow
    && before.noResponse <= after.noResponse && before.slowRetired <= after.slowRetired
    && after.noResponse <= after.failures && after.slowRetired <= after.slow
  }

  lemma ReportIsNoLess(a: Account, op: Op, r: Role, s: nat)
    requires op.Observe? && op.role == r && op.slot == s && Accepts(a, r, s, op.o, op.nowNs)
    ensures HasLane(Apply(a, op), r, s) && NoLess(LaneOf(a, r, s), LaneOf(Apply(a, op), r, s))
  {
    ReportTakesIn(a, r, s, op.o, op.nowNs);
  }

  lemma {:induction false} RecordNeverGoesBack(a: Account, ops: seq<Op>, r: Role, s: nat)
    requires HasLane(a, r, s) && LaneOf(a, r, s).noResponse <= LaneOf(a, r, s).failures
    requires LaneOf(a, r, s).slowRetired <= LaneOf(a, r, s).slow
    ensures HasLane(Run(a, ops), r, s) && NoLess(LaneOf(a, r, s), LaneOf(Run(a, ops), r, s))
    decreases |ops|
  {
    if ops != [] {
      if ops[0].Observe? && ops[0].role == r && ops[0].slot == s && Accepts(a, r, s, ops[0].o, ops[0].nowNs) {
        ReportIsNoLess(a, ops[0], r, s);
      } else {
        ApplyBrushes(a, ops[0], r, s);
      }
      RecordNeverGoesBack(Apply(a, ops[0]), ops[1..], r, s);
    }
  }

  /** A report that is not newer changes no lane; a newer one that is not believed only takes its
      lane's lease away, until a report of that lane is accepted. */
  lemma RefusedExactly(a: Account, role: Role, slot: nat, o: Observation, nowNs: nat)
    requires HasLane(a, role, slot) && !Accepts(a, role, slot, o, nowNs)
    ensures var lane, b := LaneOf(a, role, slot), Apply(a, Observe(role, slot, o, nowNs));
            if o.sequence > lane.sequence && o.poolGeneration >= lane.generation
            then
              && HasLane(b, role, slot)
              && (forall now, stale :: !LaneOf(b, role, slot).Fresh(now, stale))
              && b.fast == (if role.Fast? then a.fast[slot := lane.(deliveryFault := true)] else a.fast)
              && b.cancel == (if role.Fast? then a.cancel else a.cancel[slot := lane.(deliveryFault := true)])
            else b.fast == a.fast && b.cancel == a.cancel
  {
    ApplyKeepsLanes(a, Observe(role, slot, o, nowNs));
  }

  // ------------------------------------------------------------------ a place taken back

  /** A dispatch that never left is undone: every lane is as it was, and no probe waits for it. */
  lemma NotSentUndoes(a: Account, slot: nat, sentNs: nat, nowNs: nat)
    requires slot < |a.fast| && !a.fast[slot].busy && a.fast[slot].dispatchedAtNs.None?
    ensures var b := Apply(Apply(a, Dispatch(slot, sentNs)), NotSentAt(slot, nowNs));
            b.fast == a.fast && b.cancel == a.cancel && !(b.probe.Some? && b.probe.value.slot == slot)
  {
    var b := Apply(a, Dispatch(slot, sentNs));
    ApplyKeepsLanes(a, Dispatch(slot, sentNs));
    ApplyKeepsLanes(b, NotSentAt(slot, nowNs));
  }
}
