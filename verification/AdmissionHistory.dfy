/** What the account keeps of its past: the transport reset it still asks for, the pauses that came
    in a row, and the cancel lane set aside at startup. */
module AdmissionHistory {
  import opened Common
  import opened Admission
  import opened AdmissionLanes
  import opened AdmissionRecovery
  import opened AdmissionReport
  import B = AdmissionBudget
  import C = AdmissionCluster
  import E = AdmissionEpisode
  import G = AdmissionGate

  // ------------------------------------------------------------------ the reset asked for

  /** An observer: whether a reset was called for and not handed over since, which peer the last one
      avoids, and how many were for want of an answer. */
  datatype Wanted = Wanted(pending: bool, peer: Option<nat>, unanswered: nat)

  function Want(a: Account, op: Op, w: Wanted): Wanted {
    match op
    case RetireAt(_) => w.(pending := true, peer := None)
    case RetireAvoiding(_, peer) => w.(pending := true, peer := peer)
    case TakeReset => w.(pending := false)
    case Observe(role, slot, o, nowNs) =>
      if Accepts(a, role, slot, o, nowNs) && Unanswered(LaneOf(a, role, slot), o)
      then Wanted(true, o.noResponsePeer, w.unanswered + 1) else w
    case _ => w
  }

  predicate Agrees(a: Account, w: Wanted) {
    && a.transportResetPending == w.pending && a.transportResetPeer == w.peer
    && a.noResponseResets == Min(w.unanswered, U64_MAX)
  }

  lemma OtherwiseAgrees(a: Account, op: Op, w: Wanted)
    requires Agrees(a, w) && !(op.Observe? && Accepts(a, op.role, op.slot, op.o, op.nowNs))
    ensures Agrees(Changed(a, op), Want(a, op, w))
  {}

  lemma WantAgrees(a: Account, op: Op, w: Wanted)
    requires Agrees(a, w)
    ensures Agrees(Apply(a, op), Want(a, op, w))
  {
    if op.Observe? && Accepts(a, op.role, op.slot, op.o, op.nowNs) {
      ResetsExactly(a, op.role, op.slot, op.o, op.nowNs);
    } else {
      OtherwiseAgrees(a, op, w);
      if RefreshTime(a, op).Some? { RefreshKeepsTransport(Changed(a, op), RefreshTime(a, op).value); }
    }
  }

  function Wants(a: Account, ops: seq<Op>, w: Wanted): Wanted
    decreases |ops|
  {
    if ops == [] then w else Wants(Apply(a, ops[0]), ops[1..], Want(a, ops[0], w))
  }

  lemma {:induction false} RunAgrees(a: Account, ops: seq<Op>, w: Wanted)
    requires Agrees(a, w)
    ensures Agrees(Run(a, ops), Wants(a, ops, w))
    decreases |ops|
  {
    if ops != [] {
      WantAgrees(a, ops[0], w);
      RunAgrees(Apply(a, ops[0]), ops[1..], Want(a, ops[0], w));
    }
  }

  /** In every run of a new account a reset is pending exactly from when it is called for until it
      is handed over, with the peer that the last call named, and the resets for want of an answer
      are counted. */
  lemma ResetIsHandedOverOnce(config: Config, fastSlots: nat, cancelSlots: nat, nowNs: nat, ops: seq<Op>)
    ensures var a := New(config, fastSlots, cancelSlots, nowNs);
            Agrees(Run(a, ops), Wants(a, ops, Wanted(false, None, 0)))
  {
    RunAgrees(New(config, fastSlots, cancelSlots, nowNs), ops, Wanted(false, None, 0));
  }

  // ------------------------------------------------------------------ pauses in a row

  /** The pauses a report begins: for the reset it asks for, for the failure cluster it completes,
      and for the probe it fails, unless one is then running. */
  function Begins(a: Account, role: Role, slot: nat, o: Observation, nowNs: nat): nat
    requires HasLane(a, role, slot)
  {
    var sure :=
      (if Unanswered(LaneOf(a, role, slot), o) then 1 else 0)
      + if Clusters(a, role, slot, o, nowNs) then 1 else 0;
    sure + if Failed(LaneOf(a, role, slot), o) && Reports(a.probe, role, slot, o)
              && nowNs >= PausedUntil(a, sure, nowNs) then 1 else 0
  }

  lemma FailingStreak(a: Account, b: Account, before: nat, role: Role, slot: nat, n: News, reported: bool, nowNs: nat)
    requires b.dirty && HasLane(b, role, slot) && C.Inv(b) && b.failureWindow < U64_MAX && a.failureStreak <= U32_MAX
    requires before <= 1 && b.pauseUntilNs == PausedUntil(a, before, nowNs) && b.config == a.config
    requires b.failureStreak == Min(a.failureStreak + before, U32_MAX)
    ensures var sure := before + if n.failure && C.SecondLane(b, role, slot, nowNs) then 1 else 0;
            var all := sure + if n.failure && reported && nowNs >= PausedUntil(a, sure, nowNs) then 1 else 0;
            Failing(b, role, slot, n, reported, nowNs).failureStreak == Min(a.failureStreak + all, U32_MAX)
  {
    if n.failure {
      C.PausesOnSecondLane(b, role, slot, nowNs);
      var noted := NoteFailure(b, role, slot, nowNs);
      var sure := before + if C.SecondLane(b, role, slot, nowNs) then 1 else 0;
      assert noted.pauseUntilNs == PausedUntil(a, sure, nowNs) && noted.config == a.config;
    }
  }

  lemma SettlingStreak(a: Account, role: Role, slot: nat, o: Observation, n: News, nowNs: nat)
    requires a.dirty
    ensures var b := Concluding(SettleProbe(a, role, slot, o, n), nowNs);
            b.failureStreak == if RecoveryProven(b, nowNs) then 0 else a.failureStreak
  {
    var settled := SettleProbe(a, role, slot, o, n);
    assert settled.failureStreak == a.failureStreak;
    var b := Concluding(settled, nowNs);
    assert RecoveryProven(settled, nowNs) <==> RecoveryProven(b, nowNs);
  }

  lemma FailedStreak(a: Account, role: Role, slot: nat, o: Observation, nowNs: nat)
    requires C.Inv(a) && a.failureWindow < U64_MAX && a.failureStreak <= U32_MAX && Accepts(a, role, slot, o, nowNs)
    ensures var n := NewsOf(LaneOf(a, role, slot), o);
            var reset := Resetting(Recording(a, role, slot, o, nowNs), o, n, nowNs);
            Failing(reset, role, slot, n, Reports(a.probe, role, slot, o), nowNs).failureStreak ==
            Min(a.failureStreak + Begins(a, role, slot, o, nowNs), U32_MAX)
  {
    var n := NewsOf(LaneOf(a, role, slot), o);
    var reset := Resetting(Recording(a, role, slot, o, nowNs), o, n, nowNs);
    SaysReset(LaneOf(a, role, slot), o);
    ResetPauses(a, role, slot, o, nowNs);
    ResetKeepsCluster(a, role, slot, o, nowNs);
    FailingStreak(a, reset, if n.transportReset then 1 else 0, role, slot, n, Reports(a.probe, role, slot, o), nowNs);
  }

  lemma AbsorbedStreak(a: Account, role: Role, slot: nat, o: Observation, nowNs: nat)
    requires C.Inv(a) && a.failureWindow < U64_MAX && a.failureStreak <= U32_MAX && Accepts(a, role, slot, o, nowNs)
    ensures var b := Absorbed(a, role, slot, o, nowNs);
            b.failureStreak == if RecoveryProven(b, nowNs) then 0
                               else Min(a.failureStreak + Begins(a, role, slot, o, nowNs), U32_MAX)
  {
    var n := NewsOf(LaneOf(a, role, slot), o);
    var reset := Resetting(Recording(a, role, slot, o, nowNs), o, n, nowNs);
    var reported := Reports(a.probe, role, slot, o);
    FailedStreak(a, role, slot, o, nowNs);
    SettlingStreak(Failing(reset, role, slot, n, reported, nowNs), role, slot, o, n, nowNs);
  }

  /** The report completes a recovery's evidence: nothing bad in it, enough successes with it, and
      an ordinary cancel lane that works afterwards. */
  predicate Completes(a: Account, role: Role, slot: nat, o: Observation, nowNs: nat)
    requires HasLane(a, role, slot)
  {
    var n := NewsOf(LaneOf(a, role, slot), o);
    && !Adverse(n) && !Unanswered(LaneOf(a, role, slot), o)
    && E.Earned(a, role, slot, o, n) >= Max(a.config.recoverySuccesses, 1)
    && HasReadyCancel(Absorbed(a, role, slot, o, nowNs), nowNs)
  }

  lemma ProvenCompletes(a: Account, role: Role, slot: nat, o: Observation, nowNs: nat)
    requires Accepts(a, role, slot, o, nowNs)
    ensures RecoveryProven(Absorbed(a, role, slot, o, nowNs), nowNs) <==> Completes(a, role, slot, o, nowNs)
  {
    var b := Absorbed(a, role, slot, o, nowNs);
    SaysReset(LaneOf(a, role, slot), o);
    AbsorbedRecovery(a, role, slot, o, nowNs);
    assert RecoveryProven(b, nowNs) <==>
      b.recoverySuccesses >= Max(b.config.recoverySuccesses, 1) && HasReadyCancel(b, nowNs);
  }

  lemma OtherwiseStreak(a: Account, op: Op)
    requires !(op.Observe? && Accepts(a, op.role, op.slot, op.o, op.nowNs))
    ensures Changed(a, op).failureStreak ==
            if op.RetireAt? || op.RetireAvoiding? then Min(a.failureStreak + 1, U32_MAX) else a.failureStreak
  {}

  /** How many pauses came in a row, after any operation: one more for every pause it begins, none
      once a report completes a recovery's evidence, and otherwise as many as before. The next
      pause is that many times doubled (`BackoffDoubles`). */
  lemma StreakExactly(a: Account, op: Op)
    requires C.Inv(a) && a.failureWindow < U64_MAX && a.failureStreak <= U32_MAX
    ensures Apply(a, op).failureStreak ==
            match op
            case Observe(role, slot, o, nowNs) =>
              if !Accepts(a, role, slot, o, nowNs) then a.failureStreak
              else if Completes(a, role, slot, o, nowNs) then 0
              else Min(a.failureStreak + Begins(a, role, slot, o, nowNs), U32_MAX)
            case RetireAt(_) => Min(a.failureStreak + 1, U32_MAX)
            case RetireAvoiding(_, _) => Min(a.failureStreak + 1, U32_MAX)
            case _ => a.failureStreak
  {
    RefreshKeepsStreak(a, op);
    if op.Observe? && Accepts(a, op.role, op.slot, op.o, op.nowNs) {
      AbsorbedStreak(a, op.role, op.slot, op.o, op.nowNs);
      ProvenCompletes(a, op.role, op.slot, op.o, op.nowNs);
    } else {
      OtherwiseStreak(a, op);
    }
  }

  lemma RefreshKeepsStreak(a: Account, op: Op)
    ensures Apply(a, op).failureStreak == Changed(a, op).failureStreak
  {}

  // ------------------------------------------------------------------ the lane set aside

  /** Setting a cancel lane aside changes that lane alone and takes effect at once, at the time of
      the last decision: the account then pauses unless another ordinary lane may cancel. */
  lemma ReserveTakesEffect(a: Account, slot: nat)
    requires slot < |a.cancel|
    ensures var nowNs, b := a.admission.observedAtNs, Apply(a, Reserve(slot));
            && b.fast == a.fast && b.cancel == a.cancel[slot := a.cancel[slot].(reservedCancel := true)]
            && b.admission.observedAtNs == nowNs
            && (b.admission.gate != Paused ==>
                  exists i :: 0 <= i < |a.cancel| && i != slot
                              && G.MayCancel(a.cancel[i], nowNs, a.config.staleAfterNs))
  {
    var nowNs, b := a.admission.observedAtNs, Apply(a, Reserve(slot));
    assert b == Recompute(Reserved(a, slot), nowNs);
    RecomputeTwice(Reserved(a, slot), nowNs);
    G.PausedMeans(b, nowNs);
    if b.admission.gate != Paused {
      var i :| 0 <= i < |b.cancel| && G.MayCancel(b.cancel[i], nowNs, b.config.staleAfterNs);
      assert i != slot && b.cancel[i] == a.cancel[i];
    }
  }

  lemma RecomputeTwice(a: Account, nowNs: nat)
    ensures B.Refreshed(Recompute(a, nowNs), nowNs)
  {}
}
