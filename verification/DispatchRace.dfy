/** Who knows that a place is in flight. The router claims a fast lane's occupancy flag, sends,
    and then stamps its own mark with the clock; the owner reads the flag first and stamps its
    report with the clock later. Between the owner's two readings a place can go out, and its
    idle report then looks newer than that place. This module proves that this is the only way
    to lose the mark, and that it always exists. */
module DispatchRace {
  import opened Common
  import opened Admission
  import opened AdmissionLanes
  import opened AdmissionMemo
  import opened AdmissionRecovery
  import opened AdmissionReach
  import B = AdmissionBudget
  import E = AdmissionEpisode
  import X = AdmissionExit

  // ------------------------------------------------------------------ the system

  /** What the owner saw in the flag; `covers` belongs to no program and is how many places had
      been claimed by then. */
  datatype Reading = Reading(busy: bool, covers: nat)

  datatype Report = Report(o: Observation, covers: nat)

  /** What the router thread is doing: nothing with this lane, about to send after it claimed the
      flag, or about to stamp what it sent. */
  datatype Router = Idle | Claimed | Sent

  /** One fast lane between the router and its owner. Three parts belong to no program: how many
      places were claimed, how many of them are over, and which one the router last dealt with. */
  datatype System = System(
    account: Account,
    slot: nat,
    clockNs: nat,
    occupied: bool,
    router: Router,
    reading: Option<Reading>,
    reports: seq<Report>,
    started: nat,
    finished: nat,
    stamped: nat)

  datatype Step =
    | Tick(nowNs: nat)
    | Claim(askNs: nat)
    | Send(room: bool)
    | Stamp
    | Release
    | Read
    | Build(o: Observation)
    | Receive(i: nat)
    | Route(op: Op)

  /** The operation is about a dispatch of the slot or is its owner's report. */
  predicate Concerns(op: Op, slot: nat) {
    match op
    case Observe(role, s, _, _) => role == Fast && s == slot
    case Dispatch(s, _) => s == slot
    case NotSentAt(s, _) => s == slot
    case _ => false
  }

  /** The router is one thread: from the claim to the stamp it does nothing else. A send without
      room gives the flag back. The owner ends only what was sent. */
  function Next(s: System, step: Step): System {
    match step
    case Tick(nowNs) => s.(clockNs := Max(s.clockNs, nowNs))
    case Claim(askNs) =>
      if !s.router.Idle? || s.occupied || !B.Asked(s.account, s.slot, askNs) then s
      else s.(occupied := true, router := Claimed, started := s.started + 1)
    case Send(room) =>
      if !s.router.Claimed? then s
      else if room then s.(router := Sent)
      else s.(router := Idle, occupied := false, finished := s.finished + 1, stamped := s.started)
    case Stamp =>
      if !s.router.Sent? then s
      else s.(account := Apply(s.account, Dispatch(s.slot, s.clockNs)), router := Idle, stamped := s.started)
    case Release => if !s.occupied || s.router.Claimed? then s else s.(occupied := false, finished := s.finished + 1)
    case Read => s.(reading := Some(Reading(s.occupied, s.started)))
    case Build(o) =>
      if s.reading.None? then s
      else
        var report := Report(o.(busy := s.reading.value.busy, observedAtNs := s.clockNs), s.reading.value.covers);
        s.(reading := None, reports := s.reports + [report])
    case Receive(i) =>
      if !s.router.Idle? || i >= |s.reports| then s
      else s.(account := Apply(s.account, Observe(Fast, s.slot, s.reports[i].o, s.clockNs)))
    case Route(op) => if !s.router.Idle? || Concerns(op, s.slot) then s else s.(account := Apply(s.account, op))
  }

  function Run(s: System, steps: seq<Step>): System
    decreases |steps|
  {
    if steps == [] then s else Run(Next(s, steps[0]), steps[1..])
  }

  function Start(account: Account, slot: nat, clockNs: nat): System {
    System(account, slot, clockNs, false, Idle, None, [], 0, 0, 0)
  }

  // ------------------------------------------------------------------ invariant

  /** Nothing that was claimed before an idle reading of the flag is still in flight. */
  predicate Inv(s: System) {
    && Coherent(s.account) && s.slot < |s.account.fast|
    && s.started == s.finished + (if s.occupied then 1 else 0)
    && (s.router.Claimed? ==> s.occupied)
    && (if s.router.Idle? then s.stamped == s.started else s.stamped < s.started)
    && (s.reading.Some? && !s.reading.value.busy ==> s.reading.value.covers <= s.finished)
    && (forall i :: 0 <= i < |s.reports| && !s.reports[i].o.busy ==> s.reports[i].covers <= s.finished)
  }

  lemma AccountKeepsInv(s: System, op: Op)
    requires Inv(s)
    ensures Coherent(Apply(s.account, op)) && s.slot < |Apply(s.account, op).fast|
  {
    ApplyCoherent(s.account, op);
    ApplyKeepsLanes(s.account, op);
    ChangedRegistry(s.account, op);
  }

  lemma NextKeepsInv(s: System, step: Step)
    requires Inv(s)
    ensures Inv(Next(s, step))
  {
    match step
    case Stamp => AccountKeepsInv(s, Dispatch(s.slot, s.clockNs));
    case Receive(i) => if i < |s.reports| { AccountKeepsInv(s, Observe(Fast, s.slot, s.reports[i].o, s.clockNs)); }
    case Route(op) => AccountKeepsInv(s, op);
    case _ =>
  }

  // ------------------------------------------------------------------ when the mark is lost

  /** The router's mark on the lane. */
  predicate Mark(a: Account, slot: nat) {
    slot < |a.fast| && a.fast[slot].busy && a.fast[slot].dispatchedAtNs.Some?
  }

  /** A place that is really in flight, once stamped, is marked. */
  predicate Marked(s: System) {
    s.occupied && s.router.Idle? ==> Mark(s.account, s.slot)
  }

  /** While the place is in flight the router accepts an idle report whose flag was read before
      that place was claimed, and whose clock was read no earlier than its stamp. */
  predicate Early(s: System, step: Step) {
    && step.Receive? && s.occupied && s.router.Idle? && step.i < |s.reports| && Mark(s.account, s.slot)
    && Accepts(s.account, Fast, s.slot, s.reports[step.i].o, s.clockNs) && !s.reports[step.i].o.busy
    && s.reports[step.i].o.observedAtNs >= s.account.fast[s.slot].dispatchedAtNs.value
    && s.reports[step.i].covers < s.stamped
  }

  lemma StaysMarked(s: System, op: Op)
    requires Inv(s) && Mark(s.account, s.slot)
    requires !B.Releases(s.account, op, s.slot, s.account.fast[s.slot].dispatchedAtNs.value)
    requires !(op.Dispatch? && op.slot == s.slot)
    ensures Mark(Apply(s.account, op), s.slot)
  {
    B.StaysInFlight(s.account, op, s.slot, s.account.fast[s.slot].dispatchedAtNs.value);
  }

  /** An accepted idle report from the dispatch on clears the mark. */
  lemma ReleaseUnmarks(a: Account, slot: nat, o: Observation, nowNs: nat)
    requires Accepts(a, Fast, slot, o, nowNs) && !o.busy && Mark(a, slot)
    requires o.observedAtNs >= a.fast[slot].dispatchedAtNs.value
    ensures !Mark(Apply(a, Observe(Fast, slot, o, nowNs)), slot)
  {
    ApplyKeepsLanes(a, Observe(Fast, slot, o, nowNs));
    AbsorbedLane(a, Fast, slot, o, nowNs, Fast, slot);
  }

  /** A step loses the mark of a place in flight exactly if it is such an early receipt. */
  lemma StepMarks(s: System, step: Step)
    requires Inv(s) && Marked(s)
    ensures Marked(Next(s, step)) <==> !Early(s, step)
  {
    match step
    case Stamp => if s.router.Sent? { B.DispatchStarts(s.account, s.slot, s.clockNs); }
    case Receive(i) =>
      if s.occupied && s.router.Idle? && i < |s.reports| {
        var op := Observe(Fast, s.slot, s.reports[i].o, s.clockNs);
        if B.Releases(s.account, op, s.slot, s.account.fast[s.slot].dispatchedAtNs.value) {
          ReleaseUnmarks(s.account, s.slot, op.o, s.clockNs);
        } else {
          StaysMarked(s, op);
        }
      }
    case Route(op) => if s.occupied && s.router.Idle? && !Concerns(op, s.slot) { StaysMarked(s, op); }
    case _ =>
  }

  ghost predicate AlwaysMarked(s: System, steps: seq<Step>)
    decreases |steps|
  {
    Marked(s) && (steps == [] || AlwaysMarked(Next(s, steps[0]), steps[1..]))
  }

  ghost predicate NeverEarly(s: System, steps: seq<Step>)
    decreases |steps|
  {
    steps == [] || (!Early(s, steps[0]) && NeverEarly(Next(s, steps[0]), steps[1..]))
  }

  lemma {:induction false} MarkedFrom(s: System, steps: seq<Step>)
    requires Inv(s) && Marked(s)
    ensures AlwaysMarked(s, steps) <==> NeverEarly(s, steps)
    decreases |steps|
  {
    if steps != [] {
      StepMarks(s, steps[0]);
      NextKeepsInv(s, steps[0]);
      if !Early(s, steps[0]) { MarkedFrom(Next(s, steps[0]), steps[1..]); }
    }
  }

  /** An accepted idle report from the dispatch on means that the place is over, at every step of
      a run, if and only if no report is accepted in flight whose flag was read before the place
      was claimed and whose clock was read after its stamp. */
  lemma {:induction false} MarkedExactly(account: Account, slot: nat, clockNs: nat, steps: seq<Step>)
    requires Coherent(account) && slot < |account.fast|
    ensures var s := Start(account, slot, clockNs);
            AlwaysMarked(s, steps) <==> NeverEarly(s, steps)
  {
    MarkedFrom(Start(account, slot, clockNs), steps);
  }

  /** A report whose flag was read after the place was claimed never takes its mark away. */
  lemma LaterReadingKeepsMark(s: System, i: nat)
    requires Inv(s) && Marked(s) && i < |s.reports| && s.reports[i].covers >= s.stamped
    ensures Marked(Next(s, Receive(i)))
  {
    StepMarks(s, Receive(i));
  }

  /** In recovery a marked place is alone: no lane may be sent on, whenever the router asks. */
  lemma MarkedIsAlone(s: System, slot: nat, askNs: nat)
    requires Inv(s) && Marked(s) && s.occupied && s.router.Idle? && s.account.recoveryRequired
    ensures !B.Asked(s.account, slot, askNs)
  {
    RefreshIsRecompute(s.account, askNs);
    assert Holds(IsBusy, s.account.fast[s.slot], askNs, s.account.config.staleAfterNs);
    CountPositive(s.account.fast, IsBusy, askNs, s.account.config.staleAfterNs);
  }

  lemma {:induction false} RunKeeps(s: System, steps: seq<Step>)
    requires Inv(s) && AlwaysMarked(s, steps)
    ensures Inv(Run(s, steps)) && Marked(Run(s, steps))
    decreases |steps|
  {
    if steps != [] {
      NextKeepsInv(s, steps[0]);
      RunKeeps(Next(s, steps[0]), steps[1..]);
    }
  }

  /** Without an early receipt, recovery has at most one request really in flight: in every run,
      while this lane's place is in flight the account allows no place on any lane. */
  lemma {:induction false} RecoverySendsOne(account: Account, slot: nat, clockNs: nat, steps: seq<Step>, other: nat,
                                            askNs: nat)
    requires Coherent(account) && slot < |account.fast| && NeverEarly(Start(account, slot, clockNs), steps)
    ensures var s := Run(Start(account, slot, clockNs), steps);
            s.occupied && s.router.Idle? && s.account.recoveryRequired ==> !B.Asked(s.account, other, askNs)
  {
    MarkedExactly(account, slot, clockNs, steps);
    RunKeeps(Start(account, slot, clockNs), steps);
    var s := Run(Start(account, slot, clockNs), steps);
    if s.occupied && s.router.Idle? && s.account.recoveryRequired { MarkedIsAlone(s, other, askNs); }
  }

  // ------------------------------------------------------------------ the race is always there

  /** An idle lane reports that it is alive, and nothing else. */
  function Heartbeat(lane: Lane, nowNs: nat): Observation {
    Observation(lane.sequence + 1, nowNs, lane.generation, lane.quarantined, None, false, lane.failures, lane.slow,
                lane.noResponse, lane.slowRetired, 0, 0, None)
  }

  lemma HeartbeatSays(lane: Lane, nowNs: nat)
    requires Sound(lane) && LaneBy(lane, nowNs)
    ensures var o := Heartbeat(lane, nowNs);
            var n := NewsOf(lane, o);
            && Newer(lane, o) && !Faulty(lane, o, nowNs) && !Adverse(n) && !n.transportReset && !n.healthy
            && !Recorded(lane, o).busy
            && forall config :: Judged(config, lane, Recorded(lane, o), o, n, nowNs) == Recorded(lane, o)
  {}

  lemma HeartbeatLands(a: Account, slot: nat, nowNs: nat)
    requires slot < |a.fast| && Sound(a.fast[slot]) && LaneBy(a.fast[slot], nowNs)
    ensures var o := Heartbeat(a.fast[slot], nowNs);
            var b := Changed(a, Observe(Fast, slot, o, nowNs));
            && Accepts(a, Fast, slot, o, nowNs) && b.config == a.config && b.pauseUntilNs == a.pauseUntilNs
            && b.fast == a.fast[slot := Recorded(a.fast[slot], o)] && b.cancel == a.cancel
  {
    HeartbeatSays(a.fast[slot], nowNs);
    E.ToldIsAbsorbed(a, Fast, slot, Heartbeat(a.fast[slot], nowNs), nowNs);
  }

  lemma HeartbeatSettles(a: Account, slot: nat, nowNs: nat)
    requires slot < |a.fast| && Sound(a.fast[slot]) && LaneBy(a.fast[slot], nowNs)
    requires a.probe.Some? && a.probe.value.slot == slot && a.probe.value.dispatchedAtNs <= nowNs
    requires a.recoveryRequired && a.recoverySuccesses < X.Required(a)
    ensures var b := Changed(a, Observe(Fast, slot, Heartbeat(a.fast[slot], nowNs), nowNs));
            b.probe.None? && b.recoverySuccesses == a.recoverySuccesses && b.recoveryRequired
  {
    HeartbeatSays(a.fast[slot], nowNs);
    HeartbeatLands(a, slot, nowNs);
    AbsorbedRecovery(a, Fast, slot, Heartbeat(a.fast[slot], nowNs), nowNs);
  }

  /** What a permission to send in recovery says about the account. */
  lemma AskedStands(a: Account, slot: nat, askNs: nat)
    requires Coherent(a) && a.recoveryRequired && B.Asked(a, slot, askNs)
    ensures X.Standing(a, askNs) && a.probe.None? && X.Busy(a, askNs) == 0
    ensures slot < |a.fast| && Holds(IsFree, a.fast[slot], askNs, a.config.staleAfterNs)
  {
    var stale := a.config.staleAfterNs;
    RefreshIsRecompute(a, askNs);
    CountPositive(a.fast, IsReady, askNs, stale);
    CountPositive(a.cancel, IsEligibleCancel, askNs, stale);
  }

  /** The account once the place is stamped. */
  lemma StampedAccount(a: Account, slot: nat, nowNs: nat)
    requires Reached(a, nowNs) && a.recoveryRequired && B.Asked(a, slot, nowNs)
    ensures var b := Apply(a, Dispatch(slot, nowNs));
            && Reached(b, nowNs) && b.config == a.config && b.recoveryRequired && b.pauseUntilNs == a.pauseUntilNs
            && b.recoverySuccesses == a.recoverySuccesses
            && b.probe.Some? && b.probe.value.slot == slot && b.probe.value.dispatchedAtNs == nowNs
            && slot < |a.fast| && b.cancel == a.cancel
            && b.fast == a.fast[slot := a.fast[slot].(busy := true, dispatchedAtNs := Some(nowNs))]
  {
    AskedStands(a, slot, nowNs);
    X.Sends(a, slot, nowNs);
    ApplyProbe(a, Dispatch(slot, nowNs));
    ApplyKeepsLanes(a, Dispatch(slot, nowNs));
    ApplyCoherent(a, Dispatch(slot, nowNs));
  }

  lemma ReachedLater(a: Account, nowNs: nat, lateNs: nat)
    requires Reached(a, nowNs) && nowNs <= lateNs
    ensures Reached(a, lateNs)
  {
    assert forall i :: 0 <= i < |a.fast| ==> LaneBy(a.fast[i], lateNs);
    assert forall i :: 0 <= i < |a.cancel| ==> LaneBy(a.cancel[i], lateNs);
  }

  /** The heartbeat of the sent lane makes the account idle again. */
  lemma HeartbeatFrees(a: Account, b: Account, slot: nat, lateNs: nat)
    requires slot < |a.fast| == |b.fast| && X.Busy(a, lateNs) == 0 && b.config == a.config
    requires b.fast == a.fast[slot := b.fast[slot]] && !b.fast[slot].busy
    ensures X.Busy(b, lateNs) == 0
  {
    var stale := a.config.staleAfterNs;
    CountPositive(a.fast, IsBusy, lateNs, stale);
    CountPositive(b.fast, IsBusy, lateNs, stale);
    forall i | 0 <= i < |b.fast| ensures !Holds(IsBusy, b.fast[i], lateNs, stale) {
      assert !Holds(IsBusy, a.fast[i], lateNs, stale);
    }
  }

  lemma ReleasedStands(a: Account, d: Account, slot: nat, other: nat, lateNs: nat)
    requires X.Standing(a, lateNs) && slot < |a.fast| && other < |a.fast| && other != slot
    requires Holds(IsFree, a.fast[other], lateNs, a.config.staleAfterNs)
    requires d.config == a.config && d.pauseUntilNs == a.pauseUntilNs && d.cancel == a.cancel
    requires |d.fast| == |a.fast| && d.fast[other] == a.fast[other]
    ensures X.Standing(d, lateNs) && Holds(IsReady, d.fast[other], lateNs, d.config.staleAfterNs)
  {}

  /** A stamped place on `slot`, seen from the account `a` it was sent from. */
  predicate SentFrom(a: Account, b: Account, slot: nat, lateNs: nat) {
    && Reached(b, lateNs) && b.config == a.config && b.recoveryRequired && b.pauseUntilNs == a.pauseUntilNs
    && b.recoverySuccesses < X.Required(b) && slot < |a.fast| && b.cancel == a.cancel
    && |b.fast| == |a.fast| && b.fast == a.fast[slot := b.fast[slot]]
    && b.probe.Some? && b.probe.value.slot == slot
  }

  /** The account before its refresh, once the early heartbeat is accepted. */
  lemma ReleasedChange(a: Account, b: Account, slot: nat, other: nat, lateNs: nat)
    requires SentFrom(a, b, slot, lateNs) && X.Standing(a, lateNs) && other < |a.fast| && other != slot
    requires Holds(IsFree, a.fast[other], lateNs, a.config.staleAfterNs)
    ensures var o := Heartbeat(b.fast[slot], lateNs);
            var d := Changed(b, Observe(Fast, slot, o, lateNs));
            && Accepts(b, Fast, slot, o, lateNs) && X.Standing(d, lateNs)
            && d.config == a.config && d.probe.None? && d.recoveryRequired
            && |d.fast| == |a.fast| && d.fast == a.fast[slot := d.fast[slot]] && !d.fast[slot].busy
            && Holds(IsReady, d.fast[other], lateNs, a.config.staleAfterNs)
  {
    assert Sound(b.fast[slot]) && LaneBy(b.fast[slot], lateNs);
    HeartbeatLands(b, slot, lateNs);
    HeartbeatSettles(b, slot, lateNs);
    HeartbeatSays(b.fast[slot], lateNs);
    ReleasedStands(a, Changed(b, Observe(Fast, slot, Heartbeat(b.fast[slot], lateNs), lateNs)), slot, other, lateNs);
  }

  /** The account once the early heartbeat is accepted: idle, and open to the other lane. */
  lemma ReleasedAccount(a: Account, b: Account, slot: nat, other: nat, lateNs: nat)
    requires SentFrom(a, b, slot, lateNs) && X.Standing(a, lateNs) && other < |a.fast| && other != slot
    requires Holds(IsFree, a.fast[other], lateNs, a.config.staleAfterNs) && X.Busy(a, lateNs) == 0
    ensures var o := Heartbeat(b.fast[slot], lateNs);
            var c := Apply(b, Observe(Fast, slot, o, lateNs));
            && Accepts(b, Fast, slot, o, lateNs)
            && !Mark(c, slot) && c.probe.None? && B.Asked(c, other, lateNs)
  {
    var op := Observe(Fast, slot, Heartbeat(b.fast[slot], lateNs), lateNs);
    var c := Apply(b, op);
    ReleasedChange(a, b, slot, other, lateNs);
    ApplyReaches(b, op, lateNs);
    ApplyCoherent(b, op);
    X.RecomputeStands(Changed(b, op), lateNs);
    HeartbeatFrees(a, c, slot, lateNs);
    X.MaySend(c, other, lateNs);
  }

  lemma StampedIsSent(a: Account, slot: nat, nowNs: nat, lateNs: nat)
    requires Reached(a, nowNs) && a.recoveryRequired && a.recoverySuccesses < X.Required(a) && nowNs <= lateNs
    requires B.Asked(a, slot, nowNs)
    ensures var b := Apply(a, Dispatch(slot, nowNs));
            && SentFrom(a, b, slot, lateNs) && Mark(b, slot) && b.fast[slot].dispatchedAtNs == Some(nowNs)
            && Heartbeat(b.fast[slot], lateNs) == Heartbeat(a.fast[slot], lateNs)
  {
    StampedAccount(a, slot, nowNs);
    ReachedLater(Apply(a, Dispatch(slot, nowNs)), nowNs, lateNs);
  }

  // ------------------------------------------------------------------ its steps

  /** A place goes out between the owner's reading of the flag and its reading of the clock. */
  lemma SendsInBetween(s: System)
    requires !s.occupied && s.router.Idle? && B.Asked(s.account, s.slot, s.clockNs)
    ensures Next(Next(Next(Next(s, Read), Claim(s.clockNs)), Send(true)), Stamp) ==
            s.(reading := Some(Reading(false, s.started)), occupied := true, started := s.started + 1,
               stamped := s.started + 1, account := Apply(s.account, Dispatch(s.slot, s.clockNs)))
  {}

  lemma PublishesLater(s: System, o: Observation, lateNs: nat)
    requires s.reading.Some? && s.clockNs <= lateNs
    ensures Next(Next(s, Tick(lateNs)), Build(o)) ==
            s.(clockNs := lateNs, reading := None,
               reports := s.reports + [Report(o.(busy := s.reading.value.busy, observedAtNs := lateNs),
                                              s.reading.value.covers)])
  {}

  /** The state in which the place is in flight and stamped, and an idle report from before it
      waits with a later clock. */
  function Raced(s: System, o: Observation, lateNs: nat): System {
    s.(occupied := true, started := s.started + 1, stamped := s.started + 1, clockNs := lateNs, reading := None,
       account := Apply(s.account, Dispatch(s.slot, s.clockNs)),
       reports := s.reports + [Report(o.(busy := false, observedAtNs := lateNs), s.started)])
  }

  lemma RunCons(s: System, step: Step, steps: seq<Step>)
    ensures Run(s, [step] + steps) == Run(Next(s, step), steps)
  {
    assert ([step] + steps)[1..] == steps;
  }

  function Sending(o: Observation, lateNs: nat): seq<Step> {
    [Send(true)] + ([Stamp] + ([Tick(lateNs)] + ([Build(o)] + [])))
  }

  lemma RaceRuns(s: System, o: Observation, lateNs: nat)
    requires !s.occupied && s.router.Idle? && s.clockNs <= lateNs && B.Asked(s.account, s.slot, s.clockNs)
    ensures Run(s, [Read] + ([Claim(s.clockNs)] + Sending(o, lateNs))) ==
            Raced(s, o, lateNs)
  {
    SendsInBetween(s);
    var s1 := Next(s, Read);
    var s2 := Next(s1, Claim(s.clockNs));
    var s3 := Next(s2, Send(true));
    var s4 := Next(s3, Stamp);
    PublishesLater(s4, o, lateNs);
    RunCons(s, Read, [Claim(s.clockNs)] + Sending(o, lateNs));
    RunCons(s1, Claim(s.clockNs), Sending(o, lateNs));
    RunCons(s2, Send(true), [Stamp] + ([Tick(lateNs)] + ([Build(o)] + [])));
    RunCons(s3, Stamp, [Tick(lateNs)] + ([Build(o)] + []));
    RunCons(s4, Tick(lateNs), [Build(o)] + []);
    RunCons(Next(s4, Tick(lateNs)), Build(o), []);
  }

  /** The receipt in that state is early. */
  lemma RacedReceipt(t: System, b: Account, i: nat, report: Report, since: nat)
    requires t.occupied && t.router.Idle? && t.account == b && i < |t.reports| && t.reports[i] == report
    requires Mark(b, t.slot) && b.fast[t.slot].dispatchedAtNs == Some(since) && since <= report.o.observedAtNs
    requires Accepts(b, Fast, t.slot, report.o, t.clockNs) && !report.o.busy && report.covers < t.stamped
    ensures Early(t, Receive(i))
    ensures Next(t, Receive(i)) == t.(account := Apply(b, Observe(Fast, t.slot, report.o, t.clockNs)))
  {}

  /** Wherever a place may be sent in a recovery that still lacks successes, the early receipt is
      one interleaving away: it clears the mark and the probe while the place is in flight, and
      any other lane that was free may be sent on as well. */
  lemma EarlyReceiptExists(s: System, other: nat, lateNs: nat) returns (steps: seq<Step>)
    requires Inv(s) && Reached(s.account, s.clockNs) && !s.occupied && s.router.Idle? && s.clockNs <= lateNs
    requires s.account.recoveryRequired && s.account.recoverySuccesses < X.Required(s.account)
    requires B.Asked(s.account, s.slot, s.clockNs) && B.Asked(s.account, other, lateNs) && other != s.slot
    ensures var t := Run(s, steps);
            var u := Next(t, Receive(|s.reports|));
            && Early(t, Receive(|s.reports|))
            && u.occupied && u.router.Idle? && !Mark(u.account, s.slot) && u.account.probe.None?
            && B.Asked(u.account, other, lateNs)
  {
    var a := s.account;
    var o := Heartbeat(a.fast[s.slot], lateNs);
    steps := [Read] + ([Claim(s.clockNs)] + Sending(o, lateNs));
    AskedStands(a, other, lateNs);
    StampedIsSent(a, s.slot, s.clockNs, lateNs);
    ReleasedAccount(a, Apply(a, Dispatch(s.slot, s.clockNs)), s.slot, other, lateNs);
    RaceRuns(s, o, lateNs);
    var t := Raced(s, o, lateNs);
    RacedReceipt(t, t.account, |s.reports|, Report(o, s.started), s.clockNs);
  }
}
