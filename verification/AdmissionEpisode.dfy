/** One recovery from its entry to its end: what it starts with, and exactly which report ends
    it. Successes counted before a recovery was entered can end it. */
module AdmissionEpisode {
  import opened Common
  import opened Admission
  import opened AdmissionLanes
  import opened AdmissionMemo
  import opened AdmissionRecovery

  // ------------------------------------------------------------------ entering

  /** The successes a report leaves behind: one more if it answers the probe successfully. */
  function Earned(a: Account, role: Role, slot: nat, o: Observation, n: News): nat {
    if Reports(a.probe, role, slot, o) && !o.busy && Succeeds(a.probe.value, o, n)
    then Min(a.recoverySuccesses + 1, 255) else a.recoverySuccesses
  }

  /** The successes an operation leaves behind if it disturbs nothing. */
  function Carried(a: Account, op: Op): nat {
    if op.Observe? && Accepts(a, op.role, op.slot, op.o, op.nowNs)
    then Earned(a, op.role, op.slot, op.o, NewsOf(LaneOf(a, op.role, op.slot), op.o))
    else a.recoverySuccesses
  }

  /** The probe it leaves behind: gone if it was answered or never left. */
  function Pending(a: Account, op: Op): Option<Probe> {
    match op
    case Observe(role, slot, o, nowNs) =>
      if Accepts(a, role, slot, o, nowNs) && Reports(a.probe, role, slot, o) && !o.busy then None else a.probe
    case NotSentAt(slot, _) => if a.probe.Some? && a.probe.value.slot == slot then None else a.probe
    case _ => a.probe
  }

  /** A change that itself demands recovery forgets every success and the probe. */
  lemma ChangedEnters(a: Account, op: Op)
    requires !a.recoveryRequired
    ensures var c := Changed(a, op);
            || (c.recoverySuccesses == 0 && c.probe.None?)
            || (!c.recoveryRequired && c.recoverySuccesses == Carried(a, op) && c.probe == Pending(a, op))
  {
    if op.Observe? && Accepts(a, op.role, op.slot, op.o, op.nowNs) {
      AbsorbedRecovery(a, op.role, op.slot, op.o, op.nowNs);
    }
  }

  lemma RecomputeEnters(c: Account, nowNs: nat)
    ensures var b := Recompute(c, nowNs);
            b.recoveryRequired ==>
              || (b.admission.gate == Paused && b.recoverySuccesses == 0 && b.probe.None?)
              || (b.admission.gate == Recovering && (c.recoveryRequired || !HasReadyCancel(b, nowNs))
                  && b.recoverySuccesses == c.recoverySuccesses && b.probe == c.probe)
  {
    CountPositive(c.cancel, IsReadyCancel, nowNs, c.config.staleAfterNs);
  }

  /** Every way into recovery, by whatever operation: a failure, a reset, a retirement or a pause
      forgets every success and the probe; the want of a ready ordinary cancel lane keeps both. */
  lemma EntersRecovery(a: Account, op: Op)
    requires Coherent(a) && !a.recoveryRequired
    ensures var b := Apply(a, op);
            b.recoveryRequired ==>
              || (b.recoverySuccesses == 0 && b.probe.None?)
              || (&& RefreshTime(a, op).Some? && !HasReadyCancel(b, RefreshTime(a, op).value)
                  && b.admission.gate == Recovering
                  && b.recoverySuccesses == Carried(a, op) && b.probe == Pending(a, op))
  {
    ApplyCoherent(a, op);
    ChangedEnters(a, op);
    if RefreshTime(a, op).Some? { RecomputeEnters(Changed(a, op), RefreshTime(a, op).value); }
  }

  // ------------------------------------------------------------------ leaving

  lemma ConcludingLeaves(a: Account, role: Role, slot: nat, o: Observation, nowNs: nat)
    requires Accepts(a, role, slot, o, nowNs) && a.recoveryRequired
    ensures var b := Absorbed(a, role, slot, o, nowNs); !b.recoveryRequired <==> RecoveryProven(b, nowNs)
  {
    var n := NewsOf(LaneOf(a, role, slot), o);
    var recorded := Recording(a, role, slot, o, nowNs);
    assert recorded.recoveryRequired;
    FailedRecovery(recorded, role, slot, o, n, Reports(a.probe, role, slot, o), nowNs);
    var failed := Failing(Resetting(recorded, o, n, nowNs), role, slot, n, Reports(a.probe, role, slot, o), nowNs);
    ProvenLeaves(failed, role, slot, o, n, nowNs);
  }

  lemma ProvenLeaves(a: Account, role: Role, slot: nat, o: Observation, n: News, nowNs: nat)
    requires a.dirty && a.recoveryRequired
    ensures var b := Concluding(SettleProbe(a, role, slot, o, n), nowNs);
            !b.recoveryRequired <==> RecoveryProven(b, nowNs)
  {
    var settled := SettleProbe(a, role, slot, o, n);
    assert settled.recoveryRequired;
    var b := Concluding(settled, nowNs);
    assert RecoveryProven(settled, nowNs) <==> RecoveryProven(b, nowNs);
  }

  lemma RecomputeKeepsOut(b: Account, nowNs: nat)
    ensures !Recompute(b, nowNs).recoveryRequired <==>
            !b.recoveryRequired && HasReadyCancel(b, nowNs) && !MustPause(CensusAt(b, nowNs), b.pauseUntilNs, nowNs)
  {
    CountPositive(b.cancel, IsReadyCancel, nowNs, b.config.staleAfterNs);
  }

  /** Exactly which report ends a recovery: one that is neither adverse nor a reset, after which
      enough successes are counted, an ordinary cancel lane is ready and nothing pauses. A
      report that proves nothing ends it if and only if enough were counted before. */
  lemma LeavesExactly(a: Account, role: Role, slot: nat, o: Observation, nowNs: nat)
    requires Accepts(a, role, slot, o, nowNs) && a.recoveryRequired
    ensures var n, b := NewsOf(LaneOf(a, role, slot), o), Absorbed(a, role, slot, o, nowNs);
            !Apply(a, Observe(role, slot, o, nowNs)).recoveryRequired <==>
              && !Adverse(n) && !n.transportReset
              && Earned(a, role, slot, o, n) >= Max(a.config.recoverySuccesses, 1)
              && HasReadyCancel(b, nowNs) && !MustPause(CensusAt(b, nowNs), b.pauseUntilNs, nowNs)
  {
    var b := Absorbed(a, role, slot, o, nowNs);
    AbsorbedRecovery(a, role, slot, o, nowNs);
    ConcludingLeaves(a, role, slot, o, nowNs);
    RecomputeKeepsOut(b, nowNs);
    assert RecoveryProven(b, nowNs) <==>
      b.recoverySuccesses >= Max(b.config.recoverySuccesses, 1) && HasReadyCancel(b, nowNs);
  }

  // ------------------------------------------------------------------ evidence since entry

  /** What an account brings along: the successes it counts and a probe that may yet add one. */
  function Brought(a: Account): nat {
    a.recoverySuccesses + if a.probe.Some? then 1 else 0
  }

  /** From any moment of any run on, leaving recovery takes the full number of places sent and
      completed since that moment, less what the account brought along: distinct attempts, each
      genuine. A recovery entered with nothing takes all of them anew. */
  lemma {:induction false} EpisodeTakesEvidence(config: Config, fastSlots: nat, cancelSlots: nat, nowNs: nat,
                                                before: seq<Op>, ops: seq<Op>, op: Op)
    ensures var a := Run(New(config, fastSlots, cancelSlots, nowNs), before);
            var b, e := Run(a, ops), Watched(a, ops, NOTHING);
            b.recoveryRequired && !Apply(b, op).recoveryRequired ==>
              var completed := Watch(b, op, e).completed;
              && |completed| + Brought(a) >= Max(config.recoverySuccesses, 1)
              && Distinct(completed) && (forall c <- completed :: Genuine(c))
  {
    var start := New(config, fastSlots, cancelSlots, nowNs);
    RunKeepsInv(start, before, NOTHING, 0);
    var a := Run(start, before);
    RunKeepsInv(a, ops, NOTHING, Brought(a));
    var b, e := Run(a, ops), Watched(a, ops, NOTHING);
    ApplyKeepsRecord(b, op, e);
    if b.recoveryRequired { LeavingTakesEvidence(b, op, e, Brought(a)); }
  }

  // ------------------------------------------------------------------ a recovery ended by old successes

  const CONFIG: Config := Config(1000, 10, 10, 40, 1)

  /** A snapshot of an idle lane of generation 0. */
  function Idle(sequence: nat, atNs: nat, quarantined: bool, slow: nat): Observation {
    Observation(sequence, atNs, 0, quarantined, None, false, 0, slow, 0, 0, 0, 0, None)
  }

  const ANSWER: Observation :=
    Observation(2, 21, 0, false, Some(Business(1, 0, 5, Healthy)), false, 0, 0, 0, 0, 0, 0, None)

  /** The second cancel lane is slow, the other two lanes report, one place goes out. */
  const BEFORE: seq<Op> := [Observe(Cancel, 1, Idle(1, 1, false, 1), 1), Observe(Cancel, 0, Idle(1, 1, false, 0), 1),
                            Observe(Fast, 0, Idle(1, 1, false, 0), 1), Dispatch(0, 20)]
  /** It comes back; the first cancel lane is quarantined, and later is not. */
  const SUCCESS: Op := Observe(Fast, 0, ANSWER, 21)
  const OUTAGE: Op := Observe(Cancel, 0, Idle(2, 22, true, 0), 22)
  const RETURN: Op := Observe(Cancel, 0, Idle(3, 23, false, 0), 23)

  /** What matters of an account with one fast and two cancel lanes. */
  datatype Picture = Picture(
    fast: Lane,
    first: Lane,
    second: Lane,
    required: bool,
    successes: nat,
    probe: Option<Probe>)

  predicate Shows(a: Account, p: Picture) {
    && a.config == CONFIG && a.fast == [p.fast] && a.cancel == [p.first, p.second] && a.pauseUntilNs == 0
    && a.recoveryRequired == p.required && a.recoverySuccesses == p.successes && a.probe == p.probe
  }

  predicate ReadyCancel(p: Picture, nowNs: nat) {
    Holds(IsReadyCancel, p.first, nowNs, 1000) || Holds(IsReadyCancel, p.second, nowNs, 1000)
  }

  predicate Pauses(p: Picture, nowNs: nat) {
    || !Holds(IsReady, p.fast, nowNs, 1000)
    || !(Holds(IsEligibleCancel, p.first, nowNs, 1000) || Holds(IsEligibleCancel, p.second, nowNs, 1000))
  }

  function Settled(p: Picture, nowNs: nat): Picture {
    var paused := Pauses(p, nowNs);
    p.(required := p.required || paused || !ReadyCancel(p, nowNs),
       successes := if paused then 0 else p.successes, probe := if paused then None else p.probe)
  }

  lemma Settles(a: Account, p: Picture, nowNs: nat)
    requires Shows(a, p)
    ensures Shows(Recompute(a, nowNs), Settled(p, nowNs))
  {
    CountPositive(a.fast, IsReady, nowNs, 1000);
    CountPositive(a.cancel, IsReadyCancel, nowNs, 1000);
    CountPositive(a.cancel, IsEligibleCancel, nowNs, 1000);
    assert a.fast[0] == p.fast && a.cancel[0] == p.first && a.cancel[1] == p.second;
  }

  /** The account after an accepted report that is neither a failure nor a reset. */
  function Told(a: Account, role: Role, slot: nat, o: Observation, nowNs: nat): Account
    requires HasLane(a, role, slot)
  {
    var n, recorded := NewsOf(LaneOf(a, role, slot), o), Recording(a, role, slot, o, nowNs);
    var heard := if Adverse(n) then recorded.(recoverySuccesses := 0, probe := None) else recorded;
    Concluding(SettleProbe(heard, role, slot, o, n), nowNs)
  }

  lemma ToldIsAbsorbed(a: Account, role: Role, slot: nat, o: Observation, nowNs: nat)
    requires HasLane(a, role, slot)
    requires var n := NewsOf(LaneOf(a, role, slot), o); !n.failure && !n.transportReset
    ensures Absorbed(a, role, slot, o, nowNs) == Told(a, role, slot, o, nowNs)
  {}

  lemma Telling(a: Account, role: Role, slot: nat, o: Observation, nowNs: nat, p: Picture)
    requires Accepts(a, role, slot, o, nowNs)
    requires var n := NewsOf(LaneOf(a, role, slot), o); !n.failure && !n.transportReset
    requires Shows(Told(a, role, slot, o, nowNs), p)
    ensures Shows(Apply(a, Observe(role, slot, o, nowNs)), Settled(p, nowNs))
  {
    ToldIsAbsorbed(a, role, slot, o, nowNs);
    Settles(Told(a, role, slot, o, nowNs), p, nowNs);
  }

  function Heard(sequence: nat, atNs: nat): Lane {
    NEW_LANE.(sequence := sequence, observedAtNs := atNs)
  }

  const SLOW_LANE: Lane :=
    Heard(1, 1).(slow := 1, businessFailed := true, failureStreak := 1, failureEligibleAfterNs := 11)
  const PROVEN_LANE: Lane := Heard(2, 21).(businessAttempt := 1, verified := true)
  const SENT: Probe := Probe(0, 0, 0, 20)

  const P0: Picture := Picture(NEW_LANE, NEW_LANE, NEW_LANE, true, 0, None)
  const P3: Picture := Picture(Heard(1, 1), Heard(1, 1), SLOW_LANE, true, 0, None)
  const P4: Picture := P3.(fast := Heard(1, 1).(busy := true, dispatchedAtNs := Some(20)), probe := Some(SENT))
  const P5: Picture := Picture(PROVEN_LANE, Heard(1, 1), SLOW_LANE, false, 1, None)
  const P6: Picture := P5.(first := Heard(2, 22).(quarantined := true), required := true)
  const P7: Picture := P5.(first := Heard(3, 23))

  const P1: Picture := P0.(second := SLOW_LANE)
  const P2: Picture := P1.(first := Heard(1, 1))

  lemma ReportingSlow(a: Account)
    requires Shows(a, P0)
    ensures Shows(Apply(a, BEFORE[0]), P1)
  {
    Telling(a, Cancel, 1, Idle(1, 1, false, 1), 1, P1);
  }

  lemma ReportingCancel(a: Account)
    requires Shows(a, P1)
    ensures Shows(Apply(a, BEFORE[1]), P2)
  {
    Telling(a, Cancel, 0, Idle(1, 1, false, 0), 1, P2);
  }

  lemma ReportingFast(a: Account)
    requires Shows(a, P2)
    ensures Shows(Apply(a, BEFORE[2]), P3)
  {
    Telling(a, Fast, 0, Idle(1, 1, false, 0), 1, P3);
  }

  lemma Sending(a: Account)
    requires Shows(a, P3)
    ensures Shows(Apply(a, BEFORE[3]), P4)
  {
    Settles(Dispatched(a, 0, 20), P4, 20);
  }

  lemma AnswerProves()
    ensures var n := NewsOf(P4.fast, ANSWER);
            && n.healthy && !Adverse(n) && !n.transportReset && Newer(P4.fast, ANSWER) && !Faulty(P4.fast, ANSWER, 21)
            && Judged(CONFIG, P4.fast, Recorded(P4.fast, ANSWER), ANSWER, n, 21) == PROVEN_LANE
  {}

  lemma Answering(a: Account)
    requires Shows(a, P4)
    ensures Shows(Apply(a, SUCCESS), P5)
  {
    AnswerProves();
    Telling(a, Fast, 0, ANSWER, 21, P5);
  }

  lemma Losing(a: Account)
    requires Shows(a, P5)
    ensures Shows(Apply(a, OUTAGE), P6)
  {
    Telling(a, Cancel, 0, OUTAGE.o, 22, P6.(required := false));
  }

  lemma Returning(a: Account)
    requires Shows(a, P6)
    ensures Shows(Apply(a, RETURN), P7)
  {
    Telling(a, Cancel, 0, RETURN.o, 23, P7);
  }

  lemma RunFour(a: Account, w: Op, x: Op, y: Op, z: Op)
    ensures Run(a, [w, x, y, z]) == Apply(Apply(Apply(Apply(a, w), x), y), z)
  {
    var b, c, d := Apply(a, w), Apply(Apply(a, w), x), Apply(Apply(Apply(a, w), x), y);
    assert [w, x, y, z][1..] == [x, y, z] && Run(a, [w, x, y, z]) == Run(b, [x, y, z]);
    assert [x, y, z][1..] == [y, z] && Run(b, [x, y, z]) == Run(c, [y, z]);
    assert [y, z][1..] == [z] && Run(c, [y, z]) == Run(d, [z]);
    assert [z][1..] == [] && Run(d, [z]) == Run(Apply(d, z), []);
  }

  /** The stronger reading fails: a run from a new account leaves recovery, enters it again when
      its only ready cancel lane is quarantined, and leaves it on that lane's next idle report,
      with no place sent or completed since it entered. */
  lemma OldSuccessesEndRecovery()
    ensures var a := Apply(Run(New(CONFIG, 1, 2, 0), BEFORE), SUCCESS);
            var b := Apply(a, OUTAGE);
            && !a.recoveryRequired && b.recoveryRequired && !Apply(b, RETURN).recoveryRequired
            && Watch(b, RETURN, NOTHING) == NOTHING
  {
    var start := New(CONFIG, 1, 2, 0);
    assert start.fast == [NEW_LANE] && start.cancel == [NEW_LANE, NEW_LANE];
    ReportingSlow(start);
    ReportingCancel(Apply(start, BEFORE[0]));
    ReportingFast(Apply(Apply(start, BEFORE[0]), BEFORE[1]));
    RunFour(start, BEFORE[0], BEFORE[1], BEFORE[2], BEFORE[3]);
    assert BEFORE == [BEFORE[0], BEFORE[1], BEFORE[2], BEFORE[3]];
    var sent := Run(start, BEFORE);
    Sending(Apply(Apply(Apply(start, BEFORE[0]), BEFORE[1]), BEFORE[2]));
    Answering(sent);
    Losing(Apply(sent, SUCCESS));
    Returning(Apply(Apply(sent, SUCCESS), OUTAGE));
  }
}
