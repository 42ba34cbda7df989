/** Leaving recovery takes evidence. An observer that only sees what is sent and what is
    reported keeps the completed probes since the last disturbance; the account never
    leaves recovery with fewer of them than it is configured to ask for. */
module AdmissionRecovery {
  import opened Common
  import opened Admission
  import opened AdmissionLanes
  import opened AdmissionMemo

  // ------------------------------------------------------------------ the observer

  /** A place that came back: what was sent, and the business result that answered it. */
  datatype Completed = Completed(sent: Probe, generation: nat, attemptId: nat, observedAtNs: nat)

  datatype Evidence = Evidence(outstanding: set<Probe>, completed: seq<Completed>)

  const NOTHING: Evidence := Evidence({}, [])

  predicate Prompt(b: Business) {
    b.outcome == Healthy && b.elapsedNs < SLOW_HTTP_NS
  }

  /** A business result that the lane had not reported before, from the reporting generation. */
  predicate NewResult(previous: Lane, o: Observation) {
    o.business.Some? && o.business.value.attemptId > previous.businessAttempt
    && o.business.value.poolGeneration == o.poolGeneration
  }

  predicate AdverseReport(previous: Lane, o: Observation) {
    || o.failures > previous.failures || o.slow > previous.slow
    || (NewResult(previous, o) && !Prompt(o.business.value))
  }

  /** Adverse news, a transport retirement, or a pause: what came before proves nothing. */
  predicate Disturbs(a: Account, op: Op) {
    || (op.Observe? && Accepts(a, op.role, op.slot, op.o, op.nowNs) && AdverseReport(LaneOf(a, op.role, op.slot), op.o))
    || op.RetireAt? || op.RetireAvoiding?
    || Apply(a, op).admission.gate == Paused
  }

  predicate Answered(sent: Probe, slot: nat, o: Observation) {
    sent.slot == slot && o.observedAtNs >= sent.dispatchedAtNs && !o.busy
  }

  predicate Proves(sent: Probe, previous: Lane, slot: nat, o: Observation) {
    && Answered(sent, slot, o) && NewResult(previous, o) && Prompt(o.business.value)
    && o.poolGeneration == sent.generation && o.business.value.attemptId > sent.afterAttempt
  }

  ghost function Reported(previous: Lane, slot: nat, o: Observation, e: Evidence): Evidence {
    var left := set p | p in e.outstanding && !Answered(p, slot, o);
    if exists p :: p in e.outstanding && Proves(p, previous, slot, o) then
      var p :| p in e.outstanding && Proves(p, previous, slot, o);
      Evidence(left, e.completed + [Completed(p, o.poolGeneration, o.business.value.attemptId, o.observedAtNs)])
    else Evidence(left, e.completed)
  }

  ghost function Noticed(a: Account, op: Op, e: Evidence): Evidence {
    match op
    case Dispatch(slot, nowNs) =>
      if slot < |a.fast|
      then
        var sent := Probe(slot, a.fast[slot].generation, a.fast[slot].businessAttempt, nowNs);
        e.(outstanding := e.outstanding + {sent})
      else e
    case NotSentAt(slot, _) => e.(outstanding := set p | p in e.outstanding && p.slot != slot)
    case Observe(role, slot, o, nowNs) =>
      if role == Fast && Accepts(a, role, slot, o, nowNs) then Reported(a.fast[slot], slot, o, e) else e
    case _ => e
  }

  ghost function Watch(a: Account, op: Op, e: Evidence): Evidence {
    if Disturbs(a, op) then NOTHING else Noticed(a, op, e)
  }

  ghost function Watched(a: Account, ops: seq<Op>, e: Evidence): Evidence
    decreases |ops|
  {
    if ops == [] then e else Watched(Apply(a, ops[0]), ops[1..], Watch(a, ops[0], e))
  }

  // ------------------------------------------------------------------ the account's own bookkeeping

  lemma FailingRecovery(a: Account, role: Role, slot: nat, n: News, reported: bool, nowNs: nat)
    requires a.dirty
    ensures var b := Failing(a, role, slot, n, reported, nowNs);
            && (!Adverse(n) ==> b == a)
            && (Adverse(n) ==> b.probe.None? && b.recoverySuccesses == 0)
            && (a.recoveryRequired ==> b.recoveryRequired)
  {
    var marked := MarkWindow(OpenWindow(a, nowNs), role, slot);
    assert marked.recoveryRequired == a.recoveryRequired;
    assert a.recoveryRequired ==> NoteFailure(a, role, slot, nowNs).recoveryRequired;
  }

  predicate Succeeds(p: Probe, o: Observation, n: News) {
    && n.healthy && !n.failure && !n.slow && o.poolGeneration == p.generation
    && n.business.Some? && n.business.value.attemptId > p.afterAttempt
  }

  predicate HasReadyCancel(a: Account, nowNs: nat) {
    exists i :: 0 <= i < |a.cancel| && Holds(IsReadyCancel, a.cancel[i], nowNs, a.config.staleAfterNs)
  }

  lemma FailedRecovery(a: Account, role: Role, slot: nat, o: Observation, n: News, reported: bool, nowNs: nat)
    requires a.dirty
    ensures var b := Failing(Resetting(a, o, n, nowNs), role, slot, n, reported, nowNs);
            && (Adverse(n) || n.transportReset ==> b.probe.None? && b.recoverySuccesses == 0)
            && (!Adverse(n) && !n.transportReset ==> b == a)
            && (a.recoveryRequired ==> b.recoveryRequired)
  {
    var reset := Resetting(a, o, n, nowNs);
    assert n.transportReset ==> reset.probe.None? && reset.recoverySuccesses == 0 && reset.recoveryRequired;
    FailingRecovery(reset, role, slot, n, reported, nowNs);
  }

  lemma SettledRecovery(a: Account, role: Role, slot: nat, o: Observation, n: News, nowNs: nat)
    requires a.dirty
    ensures var b := Concluding(SettleProbe(a, role, slot, o, n), nowNs);
            var done := Reports(a.probe, role, slot, o) && !o.busy;
            && b.probe == (if done then None else a.probe)
            && b.recoverySuccesses == (if done && Succeeds(a.probe.value, o, n) then Min(a.recoverySuccesses + 1, 255)
                                       else a.recoverySuccesses)
            && (a.recoveryRequired && !b.recoveryRequired ==>
                  b.recoverySuccesses >= Max(b.config.recoverySuccesses, 1) && HasReadyCancel(b, nowNs))
            && (b.recoveryRequired ==> a.recoveryRequired)
  {
    var settled := SettleProbe(a, role, slot, o, n);
    assert settled.recoveryRequired == a.recoveryRequired;
    assert RecoveryProven(settled, nowNs) ==> HasReadyCancel(settled, nowNs);
  }

  /** What an accepted snapshot does to the recovery bookkeeping. */
  lemma AbsorbedRecovery(a: Account, role: Role, slot: nat, o: Observation, nowNs: nat)
    requires HasLane(a, role, slot)
    ensures var n, b := NewsOf(LaneOf(a, role, slot), o), Absorbed(a, role, slot, o, nowNs);
            && (Adverse(n) || n.transportReset ==> b.probe.None? && b.recoverySuccesses == 0)
            && (!Adverse(n) && !n.transportReset ==>
                  var done := Reports(a.probe, role, slot, o) && !o.busy;
                  && b.probe == (if done then None else a.probe)
                  && b.recoverySuccesses ==
                     if done && Succeeds(a.probe.value, o, n) then Min(a.recoverySuccesses + 1, 255)
                     else a.recoverySuccesses)
            && (a.recoveryRequired && !b.recoveryRequired ==>
                  b.recoverySuccesses >= Max(b.config.recoverySuccesses, 1) && HasReadyCancel(b, nowNs))
            && (!Adverse(n) && !n.transportReset && b.recoveryRequired ==> a.recoveryRequired)
  {
    var n := NewsOf(LaneOf(a, role, slot), o);
    var recorded := Recording(a, role, slot, o, nowNs);
    var failed := Failing(Resetting(recorded, o, n, nowNs), role, slot, n, Reports(a.probe, role, slot, o), nowNs);
    FailedRecovery(recorded, role, slot, o, n, Reports(a.probe, role, slot, o), nowNs);
    assert recorded.probe == a.probe && recorded.recoverySuccesses == a.recoverySuccesses
           && recorded.recoveryRequired == a.recoveryRequired;
    SettledRecovery(failed, role, slot, o, n, nowNs);
  }

  // ------------------------------------------------------------------ invariant

  predicate Distinct(completed: seq<Completed>) {
    forall i, j | 0 <= i < j < |completed| ::
      completed[i].sent.slot == completed[j].sent.slot ==> completed[i].attemptId < completed[j].attemptId
  }

  /** Each completed probe was answered on the generation it was sent on, by an attempt newer
      than any reported before it was sent, and not before it was sent. */
  predicate Genuine(c: Completed) {
    c.generation == c.sent.generation && c.attemptId > c.sent.afterAttempt && c.observedAtNs >= c.sent.dispatchedAtNs
  }

  /** A probe that was sent before the observer began. */
  function Unseen(a: Account, e: Evidence): nat {
    if a.probe.Some? && a.probe.value !in e.outstanding then 1 else 0
  }

  /** The account claims no success that the observer does not have, beyond what it carried when
      the observer began: successes counted then, and a probe sent before. */
  predicate Backed(a: Account, e: Evidence, carried: nat) {
    a.recoverySuccesses + Unseen(a, e) <= |e.completed| + carried
  }

  /** A paused account counts nothing and waits for nothing. */
  predicate BareIfPaused(a: Account) {
    a.admission.gate == Paused ==> a.recoverySuccesses == 0 && a.probe.None?
  }

  predicate Inv(a: Account, e: Evidence, carried: nat) {
    Coherent(a) && BareIfPaused(a) && Backed(a, e, carried)
  }

  predicate Kept(a: Account, e: Evidence) {
    && Distinct(e.completed)
    && (forall c <- e.completed ::
        Genuine(c) && c.sent.slot < |a.fast| && c.attemptId <= a.fast[c.sent.slot].businessAttempt)
  }

  lemma SameVerdict(previous: Lane, o: Observation)
    ensures AdverseReport(previous, o) <==> Adverse(NewsOf(previous, o))
  {}

  lemma ProvesIsSucceeds(p: Probe, previous: Lane, slot: nat, o: Observation)
    requires Answered(p, slot, o) && !AdverseReport(previous, o)
    ensures Proves(p, previous, slot, o) <==> Succeeds(p, o, NewsOf(previous, o))
  {}

  /** The bookkeeping holds across the change, before the refresh. */
  lemma AbsorbedKeeps(a: Account, role: Role, slot: nat, o: Observation, nowNs: nat, e: Evidence,
                      carried: nat)
    requires Backed(a, e, carried) && Accepts(a, role, slot, o, nowNs) && !AdverseReport(LaneOf(a, role, slot), o)
    ensures var b := Absorbed(a, role, slot, o, nowNs);
            var f := if role == Fast then Reported(a.fast[slot], slot, o, e) else e;
            Backed(b, f, carried)
  {
    AbsorbedRecovery(a, role, slot, o, nowNs);
    SameVerdict(LaneOf(a, role, slot), o);
    if Reports(a.probe, role, slot, o) && !o.busy {
      ProvesIsSucceeds(a.probe.value, a.fast[slot], slot, o);
    }
  }

  lemma RecomputeKeeps(a: Account, nowNs: nat)
    ensures var b := Recompute(a, nowNs);
            && b.recoverySuccesses <= a.recoverySuccesses
            && (b.probe == a.probe || b.probe.None?)
            && (b.admission.gate == Paused ==> b.recoverySuccesses == 0 && b.probe.None?)
            && (a.recoveryRequired ==> b.recoveryRequired)
            && b.fast == a.fast && b.cancel == a.cancel && b.config == a.config
  {}

  lemma ChangedKeeps(a: Account, op: Op, e: Evidence, carried: nat)
    requires Backed(a, e, carried) && !op.Observe? && !op.RetireAt? && !op.RetireAvoiding?
    ensures Backed(Changed(a, op), Noticed(a, op, e), carried)
  {}

  lemma ObservedKeeps(a: Account, op: Op, e: Evidence, carried: nat)
    requires Backed(a, e, carried) && op.Observe?
    requires Accepts(a, op.role, op.slot, op.o, op.nowNs) ==> !AdverseReport(LaneOf(a, op.role, op.slot), op.o)
    ensures Backed(Changed(a, op), Noticed(a, op, e), carried)
  {
    if Accepts(a, op.role, op.slot, op.o, op.nowNs) {
      AbsorbedKeeps(a, op.role, op.slot, op.o, op.nowNs, e, carried);
    }
  }

  lemma DisturbedIsBare(a: Account, op: Op)
    requires Coherent(a) && BareIfPaused(a) && Disturbs(a, op)
    ensures Apply(a, op).recoverySuccesses == 0 && Apply(a, op).probe.None?
  {
    ApplyCoherent(a, op);
    match RefreshTime(a, op)
    case Some(nowNs) =>
      RecomputeKeeps(Changed(a, op), nowNs);
      if op.Observe? && Accepts(a, op.role, op.slot, op.o, op.nowNs) {
        AbsorbedRecovery(a, op.role, op.slot, op.o, op.nowNs);
        SameVerdict(LaneOf(a, op.role, op.slot), op.o);
      }
    case None =>
  }

  lemma ApplyKeepsInv(a: Account, op: Op, e: Evidence, carried: nat)
    requires Inv(a, e, carried)
    ensures Inv(Apply(a, op), Watch(a, op, e), carried)
  {
    ApplyCoherent(a, op);
    if Disturbs(a, op) {
      DisturbedIsBare(a, op);
    } else {
      if op.Observe? { ObservedKeeps(a, op, e, carried); } else { ChangedKeeps(a, op, e, carried); }
      if RefreshTime(a, op).Some? { RecomputeKeeps(Changed(a, op), RefreshTime(a, op).value); }
    }
  }

  // ------------------------------------------------------------------ theorems

  lemma ChangedLeaves(a: Account, op: Op)
    requires a.recoveryRequired && !Changed(a, op).recoveryRequired
    ensures op.Observe?
    ensures Changed(a, op).recoverySuccesses >= Max(Changed(a, op).config.recoverySuccesses, 1)
    ensures HasReadyCancel(Changed(a, op), op.nowNs)
  {
    if op.Observe? && Accepts(a, op.role, op.slot, op.o, op.nowNs) {
      AbsorbedRecovery(a, op.role, op.slot, op.o, op.nowNs);
    }
  }

  /** A refresh that does not pause keeps the probes it counted. */
  lemma RecomputeLeaves(a: Account, nowNs: nat)
    requires !Recompute(a, nowNs).recoveryRequired
    ensures !a.recoveryRequired && Recompute(a, nowNs).recoverySuccesses == a.recoverySuccesses
  {}

  /** An operation that ends recovery is a report; after it the observer holds at least the
      configured number of completed probes, and some ordinary cancel lane is fresh and healthy. */
  lemma LeavingTakesEvidence(a: Account, op: Op, e: Evidence, carried: nat)
    requires Inv(a, e, carried) && a.recoveryRequired
    ensures !Apply(a, op).recoveryRequired ==>
              && |Watch(a, op, e).completed| + carried >= Max(a.config.recoverySuccesses, 1)
              && op.Observe? && HasReadyCancel(Apply(a, op), op.nowNs)
  {
    if !Apply(a, op).recoveryRequired {
      ApplyKeepsInv(a, op, e, carried);
      ApplyCoherent(a, op);
      ChangedRegistry(a, op);
      var c := Changed(a, op);
      if RefreshTime(a, op).Some? { RecomputeLeaves(c, RefreshTime(a, op).value); }
      ChangedLeaves(a, op);
      RecomputeKeeps(c, op.nowNs);
    }
  }

  /** What the observer holds is what it says: distinct attempts, each genuine. */
  lemma ReportedKeepsRecord(a: Account, slot: nat, o: Observation, nowNs: nat, e: Evidence)
    requires Kept(a, e) && Accepts(a, Fast, slot, o, nowNs)
    ensures Kept(Absorbed(a, Fast, slot, o, nowNs), Reported(a.fast[slot], slot, o, e))
  {
    var b, f := Absorbed(a, Fast, slot, o, nowNs), Reported(a.fast[slot], slot, o, e);
    forall s | 0 <= s < |a.fast| ensures a.fast[s].businessAttempt <= b.fast[s].businessAttempt {
      AttemptsGrow(a, Fast, slot, o, nowNs, s);
    }
    if o.business.Some? { AttemptRecorded(a, slot, o, nowNs); }
  }

  lemma AttemptsGrow(a: Account, role: Role, slot: nat, o: Observation, nowNs: nat, s: nat)
    requires Accepts(a, role, slot, o, nowNs) && s < |a.fast|
    ensures a.fast[s].businessAttempt <= Absorbed(a, role, slot, o, nowNs).fast[s].businessAttempt
  {
    AbsorbedLane(a, role, slot, o, nowNs, Fast, s);
  }

  lemma AttemptRecorded(a: Account, slot: nat, o: Observation, nowNs: nat)
    requires Accepts(a, Fast, slot, o, nowNs) && o.business.Some?
    ensures o.business.value.attemptId <= Absorbed(a, Fast, slot, o, nowNs).fast[slot].businessAttempt
  {
    AbsorbedLane(a, Fast, slot, o, nowNs, Fast, slot);
  }

  lemma AttemptsNeverShrink(a: Account, op: Op, s: nat)
    requires s < |a.fast|
    ensures s < |Apply(a, op).fast| && a.fast[s].businessAttempt <= Apply(a, op).fast[s].businessAttempt
  {
    ApplyKeepsLanes(a, op);
    if op.Observe? && op.role == Fast && op.slot == s && Accepts(a, Fast, s, op.o, op.nowNs) {
      AttemptsGrow(a, Fast, s, op.o, op.nowNs, s);
    } else {
      ApplyBrushes(a, op, Fast, s);
    }
  }

  lemma ApplyKeepsRecord(a: Account, op: Op, e: Evidence)
    requires Kept(a, e)
    ensures Kept(Apply(a, op), Watch(a, op, e))
  {
    ApplyKeepsLanes(a, op);
    if op.Observe? && op.role == Fast && Accepts(a, Fast, op.slot, op.o, op.nowNs) {
      ReportedKeepsRecord(a, op.slot, op.o, op.nowNs, e);
    } else {
      forall s | 0 <= s < |a.fast|
        ensures s < |Apply(a, op).fast| && a.fast[s].businessAttempt <= Apply(a, op).fast[s].businessAttempt
      {
        AttemptsNeverShrink(a, op, s);
      }
    }
  }

  lemma {:induction false} RunKeepsInv(a: Account, ops: seq<Op>, e: Evidence, carried: nat)
    requires Inv(a, e, carried) && Kept(a, e)
    ensures Inv(Run(a, ops), Watched(a, ops, e), carried) && Kept(Run(a, ops), Watched(a, ops, e))
    ensures Run(a, ops).config == a.config
    decreases |ops|
  {
    if ops != [] {
      ApplyKeepsInv(a, ops[0], e, carried);
      ApplyKeepsRecord(a, ops[0], e);
      ApplyKeepsLanes(a, ops[0]);
      ChangedRegistry(a, ops[0]);
      RunKeepsInv(Apply(a, ops[0]), ops[1..], Watch(a, ops[0], e), carried);
    }
  }

  /** Whenever any run leaves recovery, at least the configured number of places (and at least
      one) have come back since the last adverse report, retirement or pause: distinct
      attempts, each sent after that disturbance, each answered promptly and healthily on the
      generation it was sent on. */
  lemma {:induction false} RecoveryTakesEvidence(config: Config, fastSlots: nat, cancelSlots: nat, nowNs: nat,
                                                 ops: seq<Op>, op: Op)
    ensures var start := New(config, fastSlots, cancelSlots, nowNs);
            var a, e := Run(start, ops), Watched(start, ops, NOTHING);
            a.recoveryRequired && !Apply(a, op).recoveryRequired ==>
              var completed := Watch(a, op, e).completed;
              && |completed| >= Max(config.recoverySuccesses, 1)
              && Distinct(completed) && (forall c <- completed :: Genuine(c))
              && op.Observe? && HasReadyCancel(Apply(a, op), op.nowNs)
  {
    var start := New(config, fastSlots, cancelSlots, nowNs);
    RunKeepsInv(start, ops, NOTHING, 0);
    var a, e := Run(start, ops), Watched(start, ops, NOTHING);
    ApplyKeepsRecord(a, op, e);
    if a.recoveryRequired { LeavingTakesEvidence(a, op, e, 0); }
  }
}
