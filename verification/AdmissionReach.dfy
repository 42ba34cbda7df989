/** What every account reached by a run keeps, beyond what the other theorems need: totals that
    an owner could have reported, a probe that belongs to its lane, and no time from the future. */
module AdmissionReach {
  import opened Common
  import opened Admission
  import opened AdmissionLanes
  import opened AdmissionMemo
  import opened AdmissionRecovery

  // ------------------------------------------------------------------ totals and the probe

  predicate Sound(lane: Lane) {
    lane.slowRetired <= lane.slow && lane.noResponse <= lane.failures
  }

  predicate AllSound(a: Account) {
    && (forall i :: 0 <= i < |a.fast| ==> Sound(a.fast[i]))
    && (forall i :: 0 <= i < |a.cancel| ==> Sound(a.cancel[i]))
  }

  /** The probe went to a fast lane that has only moved on since. */
  predicate ProbeOk(a: Account) {
    a.probe.Some? ==>
      var p := a.probe.value;
      && p.slot < |a.fast| && p.generation <= a.fast[p.slot].generation
      && p.afterAttempt <= a.fast[p.slot].businessAttempt
  }

  predicate Sane(a: Account) {
    AllSound(a) && ProbeOk(a) && a.recoverySuccesses <= 255
  }

  predicate Grown(before: Lane, after: Lane) {
    before.generation <= after.generation && before.businessAttempt <= after.businessAttempt
  }

  lemma JudgedGrows(config: Config, previous: Lane, o: Observation, nowNs: nat)
    requires Newer(previous, o) && !Faulty(previous, o, nowNs)
    ensures var lane := Judged(config, previous, Recorded(previous, o), o, NewsOf(previous, o), nowNs);
            Sound(lane) && Grown(previous, lane)
  {}

  lemma LaneGrows(a: Account, op: Op, r: Role, s: nat)
    requires HasLane(a, r, s) && Sound(LaneOf(a, r, s))
    ensures HasLane(Apply(a, op), r, s)
    ensures Sound(LaneOf(Apply(a, op), r, s)) && Grown(LaneOf(a, r, s), LaneOf(Apply(a, op), r, s))
  {
    if op.Observe? && op.role == r && op.slot == s && Accepts(a, r, s, op.o, op.nowNs) {
      ApplyKeepsLanes(a, op);
      AbsorbedLane(a, r, s, op.o, op.nowNs, r, s);
      JudgedGrows(a.config, LaneOf(a, r, s), op.o, op.nowNs);
    } else {
      ApplyBrushes(a, op, r, s);
    }
  }

  /** The probe that sending on the slot would make. */
  function ProbeOn(a: Account, slot: nat, nowNs: nat): Probe
    requires slot < |a.fast|
  {
    Probe(slot, a.fast[slot].generation, a.fast[slot].businessAttempt, nowNs)
  }

  lemma ChangedProbe(a: Account, op: Op)
    ensures var b := Changed(a, op);
            && (b.probe.None? || b.probe == a.probe
                || (op.Dispatch? && op.slot < |a.fast| && a.probe.None?
                    && b.probe == Some(ProbeOn(a, op.slot, op.nowNs))))
            && (a.recoverySuccesses <= 255 ==> b.recoverySuccesses <= 255)
  {
    if op.Observe? && Accepts(a, op.role, op.slot, op.o, op.nowNs) {
      AbsorbedRecovery(a, op.role, op.slot, op.o, op.nowNs);
    }
  }

  lemma ApplyProbe(a: Account, op: Op)
    requires Coherent(a)
    ensures var b := Apply(a, op);
            && (b.probe.None? || b.probe == a.probe
                || (op.Dispatch? && op.slot < |a.fast| && a.probe.None?
                    && b.probe == Some(ProbeOn(a, op.slot, op.nowNs))))
            && (a.recoverySuccesses <= 255 ==> b.recoverySuccesses <= 255)
  {
    ApplyCoherent(a, op);
    ChangedProbe(a, op);
    if RefreshTime(a, op).Some? { RecomputeKeeps(Changed(a, op), RefreshTime(a, op).value); }
  }

  lemma ApplyKeepsSound(a: Account, op: Op)
    requires AllSound(a)
    ensures AllSound(Apply(a, op))
  {
    var b := Apply(a, op);
    ApplyKeepsLanes(a, op);
    ChangedRegistry(a, op);
    forall i | 0 <= i < |a.fast| ensures Sound(b.fast[i]) { LaneGrows(a, op, Fast, i); }
    forall i | 0 <= i < |a.cancel| ensures Sound(b.cancel[i]) { LaneGrows(a, op, Cancel, i); }
  }

  lemma ApplyKeepsProbe(a: Account, op: Op)
    requires Coherent(a) && Sane(a)
    ensures ProbeOk(Apply(a, op))
  {
    var b := Apply(a, op);
    ApplyProbe(a, op);
    if b.probe.Some? { LaneGrows(a, op, Fast, b.probe.value.slot); }
  }

  lemma ApplySane(a: Account, op: Op)
    requires Coherent(a) && Sane(a)
    ensures Sane(Apply(a, op))
  {
    ApplyKeepsSound(a, op);
    ApplyKeepsProbe(a, op);
    ApplyProbe(a, op);
  }

  // ------------------------------------------------------------------ times

  predicate LaneBy(lane: Lane, nowNs: nat) {
    lane.observedAtNs <= nowNs && (lane.dispatchedAtNs.Some? ==> lane.dispatchedAtNs.value <= nowNs)
  }

  /** Nothing on record happened after `nowNs`. */
  predicate Timely(a: Account, nowNs: nat) {
    && (forall i :: 0 <= i < |a.fast| ==> LaneBy(a.fast[i], nowNs))
    && (forall i :: 0 <= i < |a.cancel| ==> LaneBy(a.cancel[i], nowNs))
    && (a.probe.Some? ==> a.probe.value.dispatchedAtNs <= nowNs)
  }

  predicate OpBy(op: Op, nowNs: nat) {
    op.Reserve? || op.TakeReset? || op.nowNs <= nowNs
  }

  /** Every clock reading of the run is at most `nowNs`. */
  predicate RunBy(ops: seq<Op>, nowNs: nat) {
    forall i :: 0 <= i < |ops| ==> OpBy(ops[i], nowNs)
  }

  lemma JudgedBy(config: Config, previous: Lane, o: Observation, nowNs: nat, endNs: nat)
    requires LaneBy(previous, endNs) && !Faulty(previous, o, nowNs) && nowNs <= endNs
    ensures LaneBy(Judged(config, previous, Recorded(previous, o), o, NewsOf(previous, o), nowNs), endNs)
  {}

  lemma AbsorbedBy(a: Account, op: Op, r: Role, s: nat, endNs: nat)
    requires op.Observe? && Accepts(a, op.role, op.slot, op.o, op.nowNs) && OpBy(op, endNs)
    requires HasLane(a, r, s) && LaneBy(LaneOf(a, r, s), endNs)
    ensures HasLane(Changed(a, op), r, s) && LaneBy(LaneOf(Changed(a, op), r, s), endNs)
  {
    AbsorbedLane(a, op.role, op.slot, op.o, op.nowNs, r, s);
    if op.role == r && op.slot == s { JudgedBy(a.config, LaneOf(a, r, s), op.o, op.nowNs, endNs); }
  }

  lemma RefusedBy(a: Account, op: Op, r: Role, s: nat, endNs: nat)
    requires op.Observe? && !Accepts(a, op.role, op.slot, op.o, op.nowNs)
    requires HasLane(a, r, s) && LaneBy(LaneOf(a, r, s), endNs)
    ensures HasLane(Changed(a, op), r, s) && LaneBy(LaneOf(Changed(a, op), r, s), endNs)
  {}

  lemma SentBy(a: Account, op: Op, s: nat, endNs: nat)
    requires (op.Dispatch? || op.NotSentAt?) && OpBy(op, endNs) && s < |a.fast| && LaneBy(a.fast[s], endNs)
    ensures s < |Changed(a, op).fast| && LaneBy(Changed(a, op).fast[s], endNs)
  {}

  lemma OtherwiseBy(a: Account, op: Op, r: Role, s: nat, endNs: nat)
    requires !op.Observe? && !op.Dispatch? && !op.NotSentAt?
    requires HasLane(a, r, s) && LaneBy(LaneOf(a, r, s), endNs)
    ensures HasLane(Changed(a, op), r, s) && LaneBy(LaneOf(Changed(a, op), r, s), endNs)
  {
    match op
    case RetireAt(nowNs) => RetireTransportLane(a, nowNs, r, s);
    case RetireAvoiding(nowNs, _) => RetireTransportLane(a, nowNs, r, s);
    case _ =>
  }

  lemma LaneStaysBy(a: Account, op: Op, r: Role, s: nat, endNs: nat)
    requires HasLane(a, r, s) && LaneBy(LaneOf(a, r, s), endNs) && OpBy(op, endNs)
    ensures HasLane(Apply(a, op), r, s) && LaneBy(LaneOf(Apply(a, op), r, s), endNs)
  {
    ApplyKeepsLanes(a, op);
    if op.Observe? && Accepts(a, op.role, op.slot, op.o, op.nowNs) {
      AbsorbedBy(a, op, r, s, endNs);
    } else if op.Observe? {
      RefusedBy(a, op, r, s, endNs);
    } else if op.Dispatch? || op.NotSentAt? {
      if r.Fast? { SentBy(a, op, s, endNs); }
    } else {
      OtherwiseBy(a, op, r, s, endNs);
    }
  }

  lemma ApplyTimely(a: Account, op: Op, endNs: nat)
    requires Coherent(a) && Timely(a, endNs) && OpBy(op, endNs)
    ensures Timely(Apply(a, op), endNs)
  {
    var b := Apply(a, op);
    ApplyKeepsLanes(a, op);
    ChangedRegistry(a, op);
    forall i | 0 <= i < |a.fast| ensures LaneBy(b.fast[i], endNs) { LaneStaysBy(a, op, Fast, i, endNs); }
    forall i | 0 <= i < |a.cancel| ensures LaneBy(b.cancel[i], endNs) { LaneStaysBy(a, op, Cancel, i, endNs); }
    ApplyProbe(a, op);
  }

  // ------------------------------------------------------------------ whole runs

  predicate Reached(a: Account, endNs: nat) {
    Coherent(a) && BareIfPaused(a) && Sane(a) && Timely(a, endNs)
  }

  lemma ApplyBare(a: Account, op: Op)
    requires Coherent(a) && BareIfPaused(a)
    ensures BareIfPaused(Apply(a, op))
  {
    if Disturbs(a, op) { DisturbedIsBare(a, op); }
  }

  lemma ApplyReaches(a: Account, op: Op, endNs: nat)
    requires Reached(a, endNs) && OpBy(op, endNs)
    ensures Reached(Apply(a, op), endNs)
  {
    ApplyCoherent(a, op);
    ApplyBare(a, op);
    ApplySane(a, op);
    ApplyTimely(a, op, endNs);
  }

  lemma {:induction false} RunReaches(a: Account, ops: seq<Op>, endNs: nat)
    requires Reached(a, endNs) && RunBy(ops, endNs)
    ensures Reached(Run(a, ops), endNs)
    decreases |ops|
  {
    if ops != [] {
      ApplyReaches(a, ops[0], endNs);
      RunReaches(Apply(a, ops[0]), ops[1..], endNs);
    }
  }

  lemma NewReached(config: Config, fastSlots: nat, cancelSlots: nat, startNs: nat, endNs: nat)
    ensures Reached(New(config, fastSlots, cancelSlots, startNs), endNs)
  {}
}
