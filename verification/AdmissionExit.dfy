/** What it takes to end a recovery: exactly so many places that must still be sent, and so
    exactly when a recovery demands the full number of them anew. */
module AdmissionExit {
  import opened Common
  import opened Admission
  import opened AdmissionLanes
  import opened AdmissionMemo
  import opened AdmissionRecovery
  import opened AdmissionReach
  import B = AdmissionBudget
  import E = AdmissionEpisode
  import G = AdmissionGate

  function Required(a: Account): nat {
    Max(a.config.recoverySuccesses, 1)
  }

  function Dispatches(ops: seq<Op>): nat {
    if ops == [] then 0 else (if ops[0].Dispatch? then 1 else 0) + Dispatches(ops[1..])
  }

  /** A probe can still succeed as long as its lane reports the generation it was sent on. */
  predicate Live(a: Account) {
    a.probe.Some? && a.probe.value.slot < |a.fast| && a.fast[a.probe.value.slot].generation == a.probe.value.generation
  }

  /** Successes counted, and the one that a live probe may add. */
  function Credit(a: Account): nat {
    a.recoverySuccesses + if Live(a) then 1 else 0
  }

  // ------------------------------------------------------------------ no way out for less

  lemma AbsorbedCredit(a: Account, role: Role, slot: nat, o: Observation, nowNs: nat)
    requires Sane(a) && Accepts(a, role, slot, o, nowNs)
    ensures var b := Absorbed(a, role, slot, o, nowNs);
            Credit(b) <= Credit(a) && (b.probe.None? || b.probe == a.probe)
  {
    AbsorbedRecovery(a, role, slot, o, nowNs);
    if a.probe.Some? { AbsorbedLane(a, role, slot, o, nowNs, Fast, a.probe.value.slot); }
  }

  lemma OtherwiseSuccesses(a: Account, op: Op)
    requires !(op.Observe? && Accepts(a, op.role, op.slot, op.o, op.nowNs))
    ensures Changed(a, op).recoverySuccesses <= a.recoverySuccesses
  {}

  lemma OtherwiseCredit(a: Account, op: Op)
    requires !(op.Observe? && Accepts(a, op.role, op.slot, op.o, op.nowNs))
    ensures Credit(Changed(a, op)) <= Credit(a) + (if op.Dispatch? then 1 else 0)
  {
    OtherwiseSuccesses(a, op);
    ChangedProbe(a, op);
    ChangedRegistry(a, op);
    if a.probe.Some? && a.probe.value.slot < |a.fast| { ChangedBrushes(a, op, Fast, a.probe.value.slot); }
  }

  lemma RecomputeCredit(c: Account, nowNs: nat)
    ensures Credit(Recompute(c, nowNs)) <= Credit(c)
  {
    RecomputeKeeps(c, nowNs);
  }

  lemma ApplyCredit(a: Account, op: Op)
    requires Coherent(a) && Sane(a)
    ensures Credit(Apply(a, op)) <= Credit(a) + (if op.Dispatch? then 1 else 0)
  {
    ApplyCoherent(a, op);
    if op.Observe? && Accepts(a, op.role, op.slot, op.o, op.nowNs) {
      AbsorbedCredit(a, op.role, op.slot, op.o, op.nowNs);
    } else {
      OtherwiseCredit(a, op);
    }
    if RefreshTime(a, op).Some? { RecomputeCredit(Changed(a, op), RefreshTime(a, op).value); }
  }

  lemma LeavingTakesCredit(a: Account, op: Op)
    requires Coherent(a) && a.recoveryRequired && !Apply(a, op).recoveryRequired
    ensures Credit(Apply(a, op)) >= Required(a)
  {
    ApplyCoherent(a, op);
    ChangedRegistry(a, op);
    var c := Changed(a, op);
    if RefreshTime(a, op).Some? { RecomputeLeaves(c, RefreshTime(a, op).value); }
    ChangedLeaves(a, op);
  }

  /** Whatever happens in between, a run that ends a recovery has sent at least as many places as
      its credit fell short. */
  lemma {:induction false} ExitNeeds(a: Account, ops: seq<Op>)
    requires Coherent(a) && Sane(a) && a.recoveryRequired && !Run(a, ops).recoveryRequired
    ensures Credit(a) + Dispatches(ops) >= Required(a)
    decreases |ops|
  {
    var b := Apply(a, ops[0]);
    ApplyCredit(a, ops[0]);
    if !b.recoveryRequired {
      LeavingTakesCredit(a, ops[0]);
    } else {
      ApplyCoherent(a, ops[0]);
      ApplySane(a, ops[0]);
      ApplyKeepsLanes(a, ops[0]);
      ChangedRegistry(a, ops[0]);
      ExitNeeds(b, ops[1..]);
    }
  }

  // ------------------------------------------------------------------ a good report

  /** An idle lane reports a new, prompt, healthy result on the generation, and nothing else. */
  function GoodReport(lane: Lane, generation: nat, nowNs: nat): Observation {
    var business := Business(lane.businessAttempt + 1, generation, 0, Healthy);
    Observation(lane.sequence + 1, nowNs, generation, false, Some(business), false, lane.failures, lane.slow,
                lane.noResponse, lane.slowRetired, 0, 0, None)
  }

  /** The lane after it. */
  function Improved(config: Config, lane: Lane, generation: nat, nowNs: nat): Lane {
    var o := GoodReport(lane, generation, nowNs);
    Judged(config, lane, Recorded(lane, o), o, NewsOf(lane, o), nowNs)
  }

  lemma GoodNews(config: Config, lane: Lane, generation: nat, nowNs: nat)
    requires Sound(lane) && LaneBy(lane, nowNs) && lane.generation <= generation
    ensures var o, b := GoodReport(lane, generation, nowNs), Improved(config, lane, generation, nowNs);
            var n := NewsOf(lane, o);
            && Newer(lane, o) && !Faulty(lane, o, nowNs)
            && n.healthy && !Adverse(n) && !n.transportReset && n.business == o.business
            && b.Fresh(nowNs, config.staleAfterNs) && !b.quarantined && b.generation == generation
            && !b.busy && b.dispatchedAtNs.None? && b.reservedCancel == lane.reservedCancel
            && b.retiredGeneration == lane.retiredGeneration
            && (lane.retiredGeneration != Some(generation) ==> b.verified && !b.businessFailed)
  {}

  /** The account after a report that is neither adverse nor a reset, lane by lane. */
  lemma GoodReportLands(a: Account, role: Role, slot: nat, generation: nat, nowNs: nat)
    requires HasLane(a, role, slot)
    requires var lane := LaneOf(a, role, slot);
             Sound(lane) && LaneBy(lane, nowNs) && lane.generation <= generation
    ensures var o := GoodReport(LaneOf(a, role, slot), generation, nowNs);
            var lane := Improved(a.config, LaneOf(a, role, slot), generation, nowNs);
            var b := Absorbed(a, role, slot, o, nowNs);
            && Accepts(a, role, slot, o, nowNs) && Observed(a, role, slot, o, nowNs) == b
            && b.config == a.config && b.pauseUntilNs == a.pauseUntilNs
            && b.fast == (if role.Fast? then a.fast[slot := lane] else a.fast)
            && b.cancel == (if role.Fast? then a.cancel else a.cancel[slot := lane])
  {
    GoodNews(a.config, LaneOf(a, role, slot), generation, nowNs);
    E.ToldIsAbsorbed(a, role, slot, GoodReport(LaneOf(a, role, slot), generation, nowNs), nowNs);
  }

  /** A report of the probe's lane. */
  predicate Answers(a: Account, role: Role, slot: nat) {
    role.Fast? && a.probe.Some? && slot == a.probe.value.slot
  }

  /** It settles the probe if it is the probe's lane. */
  lemma GoodReportProbe(a: Account, role: Role, slot: nat, generation: nat, nowNs: nat)
    requires HasLane(a, role, slot) && (a.probe.Some? ==> a.probe.value.dispatchedAtNs <= nowNs)
    requires var lane := LaneOf(a, role, slot);
             Sound(lane) && LaneBy(lane, nowNs) && lane.generation <= generation
    ensures var o := GoodReport(LaneOf(a, role, slot), generation, nowNs);
            Absorbed(a, role, slot, o, nowNs).probe == if Answers(a, role, slot) then None else a.probe
  {
    GoodNews(a.config, LaneOf(a, role, slot), generation, nowNs);
    AbsorbedRecovery(a, role, slot, GoodReport(LaneOf(a, role, slot), generation, nowNs), nowNs);
  }

  // ------------------------------------------------------------------ a way out for exactly that

  /** Nothing pauses the account. */
  predicate Standing(a: Account, nowNs: nat) {
    && G.Any(a.fast, IsReady, nowNs, a.config.staleAfterNs)
    && G.Any(a.cancel, IsEligibleCancel, nowNs, a.config.staleAfterNs)
    && nowNs >= a.pauseUntilNs
  }

  lemma RecomputeStands(c: Account, nowNs: nat)
    requires Standing(c, nowNs)
    ensures var b := Recompute(c, nowNs);
            && b.config == c.config && b.fast == c.fast && b.cancel == c.cancel && Standing(b, nowNs)
            && b.probe == c.probe && b.recoverySuccesses == c.recoverySuccesses
            && (b.recoveryRequired <==> c.recoveryRequired || !HasReadyCancel(c, nowNs))
  {
    CountPositive(c.fast, IsReady, nowNs, c.config.staleAfterNs);
    CountPositive(c.cancel, IsEligibleCancel, nowNs, c.config.staleAfterNs);
    CountPositive(c.cancel, IsReadyCancel, nowNs, c.config.staleAfterNs);
  }

  /** In recovery, with nothing pausing it. */
  predicate Poised(a: Account, nowNs: nat) {
    Reached(a, nowNs) && Standing(a, nowNs) && a.recoveryRequired
  }

  /** A good report of a lane on the generation it is on. */
  function Good(a: Account, role: Role, slot: nat, nowNs: nat): Op
    requires HasLane(a, role, slot)
  {
    Observe(role, slot, GoodReport(LaneOf(a, role, slot), LaneOf(a, role, slot).generation, nowNs), nowNs)
  }

  /** Good news makes no lane worse. */
  lemma GoodIsNoWorse(config: Config, lane: Lane, nowNs: nat)
    requires Sound(lane) && LaneBy(lane, nowNs)
    ensures var b, stale := Improved(config, lane, lane.generation, nowNs), config.staleAfterNs;
            && (Holds(IsReady, lane, nowNs, stale) ==> Holds(IsReady, b, nowNs, stale))
            && (Holds(IsEligibleCancel, lane, nowNs, stale) ==>
                  Holds(IsReadyCancel, b, nowNs, stale) && Holds(IsEligibleCancel, b, nowNs, stale))
  {
    GoodNews(config, lane, lane.generation, nowNs);
  }

  lemma AnyUpdated(lanes: seq<Lane>, slot: nat, lane: Lane, test: Test, nowNs: nat, stale: nat)
    requires slot < |lanes| && G.Any(lanes, test, nowNs, stale)
    requires Holds(test, lanes[slot], nowNs, stale) ==> Holds(test, lane, nowNs, stale)
    ensures G.Any(lanes[slot := lane], test, nowNs, stale)
  {
    var i :| 0 <= i < |lanes| && Holds(test, lanes[i], nowNs, stale);
    assert Holds(test, lanes[slot := lane][i], nowNs, stale);
  }

  lemma GoodStands(a: Account, role: Role, slot: nat, nowNs: nat)
    requires Reached(a, nowNs) && Standing(a, nowNs) && HasLane(a, role, slot)
    ensures var op := Good(a, role, slot, nowNs);
            && Accepts(a, role, slot, op.o, nowNs) && Changed(a, op) == Absorbed(a, role, slot, op.o, nowNs)
            && Standing(Changed(a, op), nowNs)
  {
    var lane, stale := LaneOf(a, role, slot), a.config.staleAfterNs;
    GoodReportLands(a, role, slot, lane.generation, nowNs);
    GoodIsNoWorse(a.config, lane, nowNs);
    var after := Improved(a.config, lane, lane.generation, nowNs);
    if role.Fast? {
      AnyUpdated(a.fast, slot, after, IsReady, nowNs, stale);
    } else {
      AnyUpdated(a.cancel, slot, after, IsEligibleCancel, nowNs, stale);
    }
  }

  /** What it adds to the successes, and whether that is enough. */
  lemma GoodCounts(a: Account, role: Role, slot: nat, nowNs: nat)
    requires Poised(a, nowNs) && HasLane(a, role, slot)
    ensures var c := Changed(a, Good(a, role, slot, nowNs));
            && c.probe == (if Answers(a, role, slot) then None else a.probe)
            && c.recoverySuccesses == (if Answers(a, role, slot) then Min(Credit(a), 255) else a.recoverySuccesses)
            && (!c.recoveryRequired <==> RecoveryProven(c, nowNs))
  {
    var op := Good(a, role, slot, nowNs);
    GoodStands(a, role, slot, nowNs);
    GoodNews(a.config, LaneOf(a, role, slot), LaneOf(a, role, slot).generation, nowNs);
    AbsorbedRecovery(a, role, slot, op.o, nowNs);
    E.ConcludingLeaves(a, role, slot, op.o, nowNs);
  }

  /** The lanes after it. */
  lemma GoodLanes(a: Account, role: Role, slot: nat, nowNs: nat)
    requires Reached(a, nowNs) && HasLane(a, role, slot)
    ensures var b := Apply(a, Good(a, role, slot, nowNs));
            var lane := Improved(a.config, LaneOf(a, role, slot), LaneOf(a, role, slot).generation, nowNs);
            && b.fast == (if role.Fast? then a.fast[slot := lane] else a.fast)
            && b.cancel == (if role.Fast? then a.cancel else a.cancel[slot := lane])
  {
    GoodReportLands(a, role, slot, LaneOf(a, role, slot).generation, nowNs);
    ApplyKeepsLanes(a, Good(a, role, slot, nowNs));
  }

  /** What a good report does in recovery, refresh included: nothing pauses, and the recovery ends
      exactly if enough is counted and a cancel lane is ready. */
  lemma GoodSettles(a: Account, role: Role, slot: nat, nowNs: nat)
    requires Poised(a, nowNs) && HasLane(a, role, slot)
    ensures var b := Apply(a, Good(a, role, slot, nowNs));
            && b.config == a.config && Reached(b, nowNs) && Standing(b, nowNs)
            && b.probe == (if Answers(a, role, slot) then None else a.probe)
            && b.recoverySuccesses == (if Answers(a, role, slot) then Min(Credit(a), 255) else a.recoverySuccesses)
            && (!b.recoveryRequired <==> b.recoverySuccesses >= Required(a) && HasReadyCancel(b, nowNs))
  {
    var op := Good(a, role, slot, nowNs);
    GoodCounts(a, role, slot, nowNs);
    GoodStands(a, role, slot, nowNs);
    ApplyReaches(a, op, nowNs);
    ApplyCoherent(a, op);
    ChangedRegistry(a, op);
    RecomputeStands(Changed(a, op), nowNs);
  }

  /** A good report of an eligible cancel lane ends a recovery that counts enough. */
  lemma Finishes(a: Account, nowNs: nat) returns (slot: nat)
    requires Poised(a, nowNs) && a.recoverySuccesses >= Required(a)
    ensures slot < |a.cancel| && !Apply(a, Good(a, Cancel, slot, nowNs)).recoveryRequired
  {
    var stale := a.config.staleAfterNs;
    slot :| 0 <= slot < |a.cancel| && Holds(IsEligibleCancel, a.cancel[slot], nowNs, stale);
    var op := Good(a, Cancel, slot, nowNs);
    var b := Apply(a, op);
    GoodSettles(a, Cancel, slot, nowNs);
    GoodIsNoWorse(a.config, a.cancel[slot], nowNs);
    GoodLanes(a, Cancel, slot, nowNs);
    assert Holds(IsReadyCancel, b.cancel[slot], nowNs, stale);
  }

  /** A place sent in recovery is a live probe. */
  lemma Sends(a: Account, slot: nat, nowNs: nat)
    requires Poised(a, nowNs) && a.probe.None? && slot < |a.fast|
    ensures var b := Apply(a, Dispatch(slot, nowNs));
            && Poised(b, nowNs) && b.config == a.config && b.probe.Some? && Live(b)
            && b.recoverySuccesses == a.recoverySuccesses
  {
    var op, stale := Dispatch(slot, nowNs), a.config.staleAfterNs;
    var lane := a.fast[slot].(busy := true, dispatchedAtNs := Some(nowNs));
    AnyUpdated(a.fast, slot, lane, IsReady, nowNs, stale);
    ApplyReaches(a, op, nowNs);
    ApplyCoherent(a, op);
    RecomputeStands(Changed(a, op), nowNs);
  }

  function Busy(a: Account, nowNs: nat): nat {
    Count(a.fast, IsBusy, nowNs, a.config.staleAfterNs)
  }

  /** A busy lane that reports is busy no more. */
  lemma Frees(a: Account, slot: nat, nowNs: nat)
    requires Reached(a, nowNs) && slot < |a.fast| && a.fast[slot].busy
    requires Apply(a, Good(a, Fast, slot, nowNs)).config == a.config
    ensures Busy(Apply(a, Good(a, Fast, slot, nowNs)), nowNs) < Busy(a, nowNs)
  {
    var lane := Improved(a.config, a.fast[slot], a.fast[slot].generation, nowNs);
    GoodLanes(a, Fast, slot, nowNs);
    GoodNews(a.config, a.fast[slot], a.fast[slot].generation, nowNs);
    CountUpdate(a.fast, slot, lane, IsBusy, nowNs, a.config.staleAfterNs);
  }

  /** An idle account in recovery that waits for no probe may send on any ready lane. */
  lemma MaySend(a: Account, slot: nat, nowNs: nat)
    requires Poised(a, nowNs) && a.probe.None? && Busy(a, nowNs) == 0
    requires slot < |a.fast| && Holds(IsReady, a.fast[slot], nowNs, a.config.staleAfterNs)
    ensures B.Asked(a, slot, nowNs)
  {
    var stale := a.config.staleAfterNs;
    CountPositive(a.fast, IsBusy, nowNs, stale);
    assert !Holds(IsBusy, a.fast[slot], nowNs, stale) && Holds(IsFree, a.fast[slot], nowNs, stale);
    CountPositive(a.fast, IsFree, nowNs, stale);
    CountPositive(a.fast, IsReady, nowNs, stale);
    CountPositive(a.cancel, IsEligibleCancel, nowNs, stale);
    RefreshIsRecompute(a, nowNs);
  }

  lemma RunCons(a: Account, op: Op, ops: seq<Op>)
    requires op.Dispatch? ==> B.Asked(a, op.slot, op.nowNs)
    ensures Run(a, [op] + ops) == Run(Apply(a, op), ops)
    ensures Dispatches([op] + ops) == Dispatches(ops) + (if op.Dispatch? then 1 else 0)
    ensures B.Disciplined(Apply(a, op), ops) ==> B.Disciplined(a, [op] + ops)
  {
    assert ([op] + ops)[1..] == ops;
  }

  /** One operation on the way out: it ends the recovery, or sends one place for one more credit,
      or loses no credit and settles the probe or frees a lane. */
  ghost predicate Progresses(a: Account, op: Op, nowNs: nat) {
    var b := Apply(a, op);
    && (op.Dispatch? ==> a.recoverySuccesses < Required(a) && a.probe.None? && B.Asked(a, op.slot, op.nowNs))
    && (b.recoveryRequired ==>
          && Poised(b, nowNs) && b.config == a.config
          && (if op.Dispatch? then Credit(b) == Credit(a) + 1
              else
                && Credit(b) == Min(Credit(a), 255) && b.probe.None?
                && (a.probe.None? ==> Busy(b, nowNs) < Busy(a, nowNs))))
  }

  lemma BusySlot(a: Account, nowNs: nat) returns (slot: nat)
    requires Busy(a, nowNs) > 0
    ensures slot < |a.fast| && a.fast[slot].busy
  {
    CountPositive(a.fast, IsBusy, nowNs, a.config.staleAfterNs);
    slot :| 0 <= slot < |a.fast| && Holds(IsBusy, a.fast[slot], nowNs, a.config.staleAfterNs);
  }

  lemma FreeStep(a: Account, slot: nat, nowNs: nat)
    requires Poised(a, nowNs) && a.probe.None? && slot < |a.fast| && a.fast[slot].busy
    ensures Progresses(a, Good(a, Fast, slot, nowNs), nowNs)
  {
    GoodSettles(a, Fast, slot, nowNs);
    Frees(a, slot, nowNs);
  }

  lemma SendStep(a: Account, nowNs: nat) returns (op: Op)
    requires Poised(a, nowNs) && a.probe.None? && Busy(a, nowNs) == 0 && a.recoverySuccesses < Required(a)
    ensures Progresses(a, op, nowNs)
  {
    var slot :| 0 <= slot < |a.fast| && Holds(IsReady, a.fast[slot], nowNs, a.config.staleAfterNs);
    op := Dispatch(slot, nowNs);
    MaySend(a, slot, nowNs);
    Sends(a, slot, nowNs);
  }

  lemma ExitStep(a: Account, nowNs: nat) returns (op: Op)
    requires Poised(a, nowNs)
    ensures Progresses(a, op, nowNs)
  {
    if a.probe.Some? {
      op := Good(a, Fast, a.probe.value.slot, nowNs);
      GoodSettles(a, Fast, a.probe.value.slot, nowNs);
    } else if a.recoverySuccesses >= Required(a) {
      var slot := Finishes(a, nowNs);
      op := Good(a, Cancel, slot, nowNs);
    } else if Busy(a, nowNs) > 0 {
      var slot := BusySlot(a, nowNs);
      op := Good(a, Fast, slot, nowNs);
      FreeStep(a, slot, nowNs);
    } else {
      op := SendStep(a, nowNs);
    }
  }

  /** From an account that nothing pauses, the places its credit falls short of are enough. */
  lemma {:induction false} ExitSuffices(a: Account, nowNs: nat, n: nat) returns (ops: seq<Op>)
    requires Poised(a, nowNs) && Required(a) <= 255 && Credit(a) + n >= Required(a)
    ensures B.Disciplined(a, ops) && Dispatches(ops) <= n && !Run(a, ops).recoveryRequired
    decreases n, a.probe.Some?, Busy(a, nowNs)
  {
    var op := ExitStep(a, nowNs);
    var b, rest := Apply(a, op), [];
    if b.recoveryRequired { rest := ExitSuffices(b, nowNs, if op.Dispatch? then n - 1 else n); }
    ops := [op] + rest;
    RunCons(a, op, rest);
  }

  // ------------------------------------------------------------------ theorems

  /** Some run of a router that asks before it sends, with at most `n` places, ends the recovery. */
  ghost predicate EndsWithin(a: Account, n: nat) {
    exists ops :: B.Disciplined(a, ops) && Dispatches(ops) <= n && !Run(a, ops).recoveryRequired
  }

  lemma RefreshedStands(a: Account, nowNs: nat)
    requires B.Refreshed(a, nowNs) && a.admission.gate == Recovering
    ensures Standing(a, nowNs) && a.recoveryRequired
  {
    G.PausedCounts(a, nowNs);
  }

  /** The exact price of leaving: in every account that a run has brought into recovery and that
      nothing pauses, some way out sends at most `n` places if and only if the successes counted,
      a live probe and those places make up the required number. */
  lemma {:induction false} ExitTakesExactly(config: Config, fastSlots: nat, cancelSlots: nat, startNs: nat,
                                            before: seq<Op>, nowNs: nat, n: nat)
    requires config.recoverySuccesses <= 255 && RunBy(before, nowNs)
    ensures var a := Run(New(config, fastSlots, cancelSlots, startNs), before);
            B.Refreshed(a, nowNs) && a.admission.gate == Recovering ==>
              (EndsWithin(a, n) <==> Credit(a) + n >= Max(config.recoverySuccesses, 1))
  {
    var start := New(config, fastSlots, cancelSlots, startNs);
    var a := Run(start, before);
    NewReached(config, fastSlots, cancelSlots, startNs, nowNs);
    RunReaches(start, before, nowNs);
    RunKeepsConfig(start, before);
    if B.Refreshed(a, nowNs) && a.admission.gate == Recovering {
      RefreshedStands(a, nowNs);
      if Credit(a) + n >= Required(a) { var ops := ExitSuffices(a, nowNs, n); }
      if EndsWithin(a, n) {
        var ops :| B.Disciplined(a, ops) && Dispatches(ops) <= n && !Run(a, ops).recoveryRequired;
        ExitNeeds(a, ops);
      }
    }
  }

  lemma {:induction false} RunKeepsConfig(a: Account, ops: seq<Op>)
    ensures Run(a, ops).config == a.config
    decreases |ops|
  {
    if ops != [] {
      ApplyKeepsLanes(a, ops[0]);
      ChangedRegistry(a, ops[0]);
      RunKeepsConfig(Apply(a, ops[0]), ops[1..]);
    }
  }

  /** Every run of a router that asks before it sends, and that ends the recovery, sends the full
      number of places. */
  ghost predicate TakesFullNumber(a: Account) {
    forall ops :: B.Disciplined(a, ops) && !Run(a, ops).recoveryRequired ==> Dispatches(ops) >= Required(a)
  }

  /** Leaving a recovery takes the full number of places sent since this moment if and only if
      the account counts no success and waits for no live probe; for every account that a run
      has brought into recovery. */
  lemma {:induction false} FullNumberExactly(config: Config, fastSlots: nat, cancelSlots: nat, startNs: nat,
                                             before: seq<Op>, nowNs: nat)
    requires config.recoverySuccesses <= 255 && RunBy(before, nowNs)
    ensures var a := Run(New(config, fastSlots, cancelSlots, startNs), before);
            B.Refreshed(a, nowNs) && a.recoveryRequired ==>
              (TakesFullNumber(a) <==> a.recoverySuccesses == 0 && !Live(a))
  {
    var start := New(config, fastSlots, cancelSlots, startNs);
    var a := Run(start, before);
    NewReached(config, fastSlots, cancelSlots, startNs, nowNs);
    RunReaches(start, before, nowNs);
    RunKeepsConfig(start, before);
    if B.Refreshed(a, nowNs) && a.recoveryRequired {
      ExitTakesExactly(config, fastSlots, cancelSlots, startNs, before, nowNs, Required(a) - 1);
      if Credit(a) == 0 {
        forall ops | !Run(a, ops).recoveryRequired ensures Dispatches(ops) >= Required(a) { ExitNeeds(a, ops); }
      } else {
        RecoveringIfNotPaused(a, nowNs);
        var ops :| B.Disciplined(a, ops) && Dispatches(ops) <= Required(a) - 1 && !Run(a, ops).recoveryRequired;
        assert !TakesFullNumber(a);
      }
    }
  }

  lemma RecoveringIfNotPaused(a: Account, nowNs: nat)
    requires B.Refreshed(a, nowNs) && a.recoveryRequired
    ensures a.admission.gate == Paused || a.admission.gate == Recovering
  {}
}
