/** Retired transport stays retired: no report, success or restart of the same generation
    reopens a lane, and one incident resets the account's transport once. */
module AdmissionFence {
  import opened Common
  import opened Admission
  import opened AdmissionLanes

  // ------------------------------------------------------------------ one lane

  /** How much of a lane's history has been retired: 0 for none, g + 1 up to generation g. */
  function Rank(lane: Lane): nat {
    if lane.retiredGeneration.None? then 0 else lane.retiredGeneration.value + 1
  }

  /** No generation is retired before it was reported. */
  predicate Fenced(lane: Lane) {
    Rank(lane) <= lane.generation + 1
  }

  /** A lane only moves forward: its generation and what is retired of it never go back. */
  predicate Forward(before: Lane, after: Lane) {
    Rank(before) <= Rank(after) && before.generation <= after.generation && Fenced(after)
  }

  lemma JudgedForward(config: Config, previous: Lane, o: Observation, nowNs: nat)
    requires Fenced(previous) && Newer(previous, o)
    ensures Forward(previous, Judged(config, previous, Recorded(previous, o), o, NewsOf(previous, o), nowNs))
  {}

  lemma BrushedForward(before: Lane, after: Lane)
    requires Fenced(before) && Brushed(before, after)
    ensures Forward(before, after)
  {}

  lemma ReportForward(a: Account, role: Role, slot: nat, o: Observation, nowNs: nat)
    requires Accepts(a, role, slot, o, nowNs) && Fenced(LaneOf(a, role, slot))
    ensures var b := Absorbed(a, role, slot, o, nowNs);
            HasLane(b, role, slot) && Forward(LaneOf(a, role, slot), LaneOf(b, role, slot))
  {
    AbsorbedLane(a, role, slot, o, nowNs, role, slot);
    JudgedForward(a.config, LaneOf(a, role, slot), o, nowNs);
  }

  lemma ApplyForward(a: Account, op: Op, r: Role, s: nat)
    requires HasLane(a, r, s) && Fenced(LaneOf(a, r, s))
    ensures HasLane(Apply(a, op), r, s) && Forward(LaneOf(a, r, s), LaneOf(Apply(a, op), r, s))
  {
    if op.Observe? && op.role == r && op.slot == s && Accepts(a, r, s, op.o, op.nowNs) {
      ApplyKeepsLanes(a, op);
      ReportForward(a, r, s, op.o, op.nowNs);
    } else {
      ApplyBrushes(a, op, r, s);
      BrushedForward(LaneOf(a, r, s), LaneOf(Apply(a, op), r, s));
    }
  }

  lemma {:induction false} RunForward(a: Account, ops: seq<Op>, r: Role, s: nat)
    requires HasLane(a, r, s) && Fenced(LaneOf(a, r, s))
    ensures HasLane(Run(a, ops), r, s) && Forward(LaneOf(a, r, s), LaneOf(Run(a, ops), r, s))
    decreases |ops|
  {
    if ops != [] {
      ApplyForward(a, ops[0], r, s);
      RunForward(Apply(a, ops[0]), ops[1..], r, s);
    }
  }

  lemma AllowedIsReady(a: Account, slot: nat, nowNs: nat)
    requires LaneAllowed(Refresh(a, nowNs), slot, nowNs)
    ensures slot < |a.fast| && a.fast[slot].Ready()
  {
    RefreshKeepsLanes(a, nowNs);
  }

  lemma ForwardReady(before: Lane, after: Lane)
    requires Forward(before, after) && before.retiredGeneration.Some? && after.Ready()
    ensures after.generation > before.retiredGeneration.value
  {}

  /** The generation fence: once a lane is retired at a generation, whatever is reported, sent
      or refreshed later, it is ready again only on a strictly later generation. */
  lemma {:induction false} RetiredStaysClosed(a: Account, ops: seq<Op>, role: Role, slot: nat)
    requires HasLane(a, role, slot) && Fenced(LaneOf(a, role, slot))
    requires LaneOf(a, role, slot).retiredGeneration.Some?
    ensures HasLane(Run(a, ops), role, slot)
    ensures LaneOf(Run(a, ops), role, slot).Ready() ==>
              LaneOf(Run(a, ops), role, slot).generation > LaneOf(a, role, slot).retiredGeneration.value
  {
    RunForward(a, ops, role, slot);
    var after := LaneOf(Run(a, ops), role, slot);
    if after.Ready() { ForwardReady(LaneOf(a, role, slot), after); }
  }

  /** So is every place that is allowed on it. */
  lemma {:induction false} RetiredSendsNothing(a: Account, ops: seq<Op>, slot: nat, nowNs: nat)
    requires slot < |a.fast| && Fenced(a.fast[slot]) && a.fast[slot].retiredGeneration.Some?
    ensures LaneAllowed(Refresh(Run(a, ops), nowNs), slot, nowNs) ==>
              slot < |Run(a, ops).fast| && Run(a, ops).fast[slot].generation > a.fast[slot].retiredGeneration.value
  {
    RetiredStaysClosed(a, ops, Fast, slot);
    if LaneAllowed(Refresh(Run(a, ops), nowNs), slot, nowNs) { AllowedIsReady(Run(a, ops), slot, nowNs); }
  }

  // ------------------------------------------------------------------ what verifies a lane

  /** A healthy, prompt, new business result on the generation that is reporting, with no new
      failure or slow response beside it. */
  predicate Proof(previous: Lane, o: Observation) {
    && o.business.Some?
    && o.business.value.outcome == Healthy && o.business.value.elapsedNs < SLOW_HTTP_NS
    && o.business.value.attemptId > previous.businessAttempt
    && o.business.value.poolGeneration == o.poolGeneration
    && o.failures == previous.failures && o.slow == previous.slow
  }

  lemma JudgedVerified(config: Config, previous: Lane, o: Observation, nowNs: nat)
    requires Newer(previous, o) && !Faulty(previous, o, nowNs) && !previous.verified
    ensures var lane := Judged(config, previous, Recorded(previous, o), o, NewsOf(previous, o), nowNs);
            lane.verified ==> Proof(previous, o) && lane.Ready() && lane.generation == o.poolGeneration
  {}

  /** A lane becomes verified only by such a proof, on a generation that is not retired. */
  lemma VerifiedByProof(a: Account, op: Op, r: Role, s: nat)
    requires HasLane(a, r, s) && !LaneOf(a, r, s).verified
    ensures HasLane(Apply(a, op), r, s)
    ensures LaneOf(Apply(a, op), r, s).verified ==>
              && op.Observe? && op.role == r && op.slot == s && Accepts(a, r, s, op.o, op.nowNs)
              && Proof(LaneOf(a, r, s), op.o)
              && LaneOf(Apply(a, op), r, s).Ready() && LaneOf(Apply(a, op), r, s).generation == op.o.poolGeneration
  {
    if op.Observe? && op.role == r && op.slot == s && Accepts(a, r, s, op.o, op.nowNs) {
      ApplyKeepsLanes(a, op);
      AbsorbedLane(a, r, s, op.o, op.nowNs, r, s);
      JudgedVerified(a.config, LaneOf(a, r, s), op.o, op.nowNs);
    } else {
      ApplyBrushes(a, op, r, s);
    }
  }

  // ------------------------------------------------------------------ resets

  function RankSum(lanes: seq<Lane>): nat {
    if lanes == [] then 0 else Rank(lanes[0]) + RankSum(lanes[1..])
  }

  /** How many generations the lanes have gone through, each counting its first. */
  function Generations(lanes: seq<Lane>): nat {
    if lanes == [] then 0 else lanes[0].generation + 1 + Generations(lanes[1..])
  }

  lemma {:induction false} RankSumGrows(x: seq<Lane>, y: seq<Lane>)
    requires |x| == |y| && forall i :: 0 <= i < |x| ==> Rank(x[i]) <= Rank(y[i])
    ensures RankSum(x) <= RankSum(y)
    ensures (exists i :: 0 <= i < |x| && Rank(x[i]) < Rank(y[i])) ==> RankSum(x) < RankSum(y)
  {
    if x != [] {
      forall i | 0 <= i < |x[1..]| ensures Rank(x[1..][i]) <= Rank(y[1..][i]) {
        assert x[1..][i] == x[i + 1] && y[1..][i] == y[i + 1];
      }
      RankSumGrows(x[1..], y[1..]);
      if i :| 0 < i < |x| && Rank(x[i]) < Rank(y[i]) {
        assert Rank(x[1..][i - 1]) < Rank(y[1..][i - 1]);
      }
    }
  }

  lemma {:induction false} RankSumBelow(lanes: seq<Lane>)
    requires forall i :: 0 <= i < |lanes| ==> Fenced(lanes[i])
    ensures RankSum(lanes) <= Generations(lanes)
  {
    if lanes != [] { RankSumBelow(lanes[1..]); }
  }

  predicate AllFenced(a: Account) {
    && (forall i :: 0 <= i < |a.fast| ==> Fenced(a.fast[i]))
    && (forall i :: 0 <= i < |a.cancel| ==> Fenced(a.cancel[i]))
  }

  function Retired(a: Account): nat {
    RankSum(a.fast) + RankSum(a.cancel)
  }

  predicate Inv(a: Account) {
    AllFenced(a) && a.noResponseResets <= Retired(a)
  }

  lemma SettlingKeepsResets(a: Account, role: Role, slot: nat, o: Observation, n: News, reported: bool, nowNs: nat)
    requires a.dirty
    ensures var failed := Failing(a, role, slot, n, reported, nowNs);
            Concluding(SettleProbe(failed, role, slot, o, n), nowNs).noResponseResets == a.noResponseResets
  {
    FailingKeepsResets(a, role, slot, n, reported, nowNs);
  }

  lemma FailingKeepsResets(a: Account, role: Role, slot: nat, n: News, reported: bool, nowNs: nat)
    requires a.dirty
    ensures Failing(a, role, slot, n, reported, nowNs).noResponseResets == a.noResponseResets
  {
    var marked := MarkWindow(OpenWindow(a, nowNs), role, slot);
    assert marked.noResponseResets == a.noResponseResets;
    assert NoteFailure(a, role, slot, nowNs).noResponseResets == a.noResponseResets;
  }

  /** A reset is counted only when the reporting lane retires more than it had. */
  lemma ResetRaisesRank(a: Account, role: Role, slot: nat, o: Observation, nowNs: nat)
    requires Accepts(a, role, slot, o, nowNs)
    ensures var b := Absorbed(a, role, slot, o, nowNs);
            && HasLane(b, role, slot)
            && b.noResponseResets <= a.noResponseResets + 1
            && (b.noResponseResets > a.noResponseResets ==> Rank(LaneOf(a, role, slot)) < Rank(LaneOf(b, role, slot)))
  {
    var n := NewsOf(LaneOf(a, role, slot), o);
    var recorded := Recording(a, role, slot, o, nowNs);
    var reset := Resetting(recorded, o, n, nowNs);
    SettlingKeepsResets(reset, role, slot, o, n, Reports(a.probe, role, slot, o), nowNs);
    AbsorbedLane(a, role, slot, o, nowNs, role, slot);
    assert recorded.noResponseResets == a.noResponseResets;
  }

  lemma ChangedResets(a: Account, op: Op)
    requires !op.Observe?
    ensures Changed(a, op).noResponseResets == a.noResponseResets
  {
    match op
    case RetireAt(_) =>
    case RetireAvoiding(_, _) =>
    case _ =>
  }

  lemma RefreshKeepsResets(a: Account, nowNs: nat)
    ensures Refresh(a, nowNs).noResponseResets == a.noResponseResets
  {}

  lemma ApplyKeepsResets(a: Account, op: Op)
    requires !(op.Observe? && Accepts(a, op.role, op.slot, op.o, op.nowNs))
    ensures Apply(a, op).noResponseResets == a.noResponseResets
  {
    if !op.Observe? { ChangedResets(a, op); }
    if RefreshTime(a, op).Some? { RefreshKeepsResets(Changed(a, op), RefreshTime(a, op).value); }
  }

  lemma RanksGrow(a: Account, op: Op)
    requires AllFenced(a)
    ensures var b := Apply(a, op);
            && AllFenced(b)
            && |b.fast| == |a.fast| && (forall i :: 0 <= i < |a.fast| ==> Rank(a.fast[i]) <= Rank(b.fast[i]))
            && |b.cancel| == |a.cancel| && (forall i :: 0 <= i < |a.cancel| ==> Rank(a.cancel[i]) <= Rank(b.cancel[i]))
  {
    var b := Apply(a, op);
    ApplyKeepsLanes(a, op);
    ChangedRegistry(a, op);
    forall i | 0 <= i < |a.fast| ensures Forward(a.fast[i], b.fast[i]) { ApplyForward(a, op, Fast, i); }
    forall i | 0 <= i < |a.cancel| ensures Forward(a.cancel[i], b.cancel[i]) { ApplyForward(a, op, Cancel, i); }
  }

  lemma ApplyKeepsInv(a: Account, op: Op)
    requires Inv(a)
    ensures Inv(Apply(a, op))
  {
    var b := Apply(a, op);
    RanksGrow(a, op);
    RankSumGrows(a.fast, b.fast);
    RankSumGrows(a.cancel, b.cancel);
    if op.Observe? && Accepts(a, op.role, op.slot, op.o, op.nowNs) {
      ResetRaisesRank(a, op.role, op.slot, op.o, op.nowNs);
      ApplyKeepsLanes(a, op);
      assert b.noResponseResets == Absorbed(a, op.role, op.slot, op.o, op.nowNs).noResponseResets;
    } else {
      ApplyKeepsResets(a, op);
    }
  }

  lemma {:induction false} RunKeepsInv(a: Account, ops: seq<Op>)
    requires Inv(a)
    ensures Inv(Run(a, ops))
    decreases |ops|
  {
    if ops != [] {
      ApplyKeepsInv(a, ops[0]);
      RunKeepsInv(Apply(a, ops[0]), ops[1..]);
    }
  }

  /** One reset per incident: in every run from a new account, however many no-response reports
      arrive, transport is reset at most once for each generation any lane has gone through. */
  lemma {:induction false} ResetsAreBounded(config: Config, fastSlots: nat, cancelSlots: nat, nowNs: nat, ops: seq<Op>)
    ensures var b := Run(New(config, fastSlots, cancelSlots, nowNs), ops);
            b.noResponseResets <= Generations(b.fast) + Generations(b.cancel)
  {
    var a := New(config, fastSlots, cancelSlots, nowNs);
    RunKeepsInv(a, ops);
    RankSumBelow(Run(a, ops).fast);
    RankSumBelow(Run(a, ops).cancel);
  }

  /** The fence over whole runs of a new account: whatever happened before a lane was retired at
      a generation, and whatever happens after, it is ready again only on a later one. */
  lemma {:induction false} GenerationFence(config: Config, fastSlots: nat, cancelSlots: nat, nowNs: nat,
                                           before: seq<Op>, after: seq<Op>, role: Role, slot: nat)
    ensures var a := Run(New(config, fastSlots, cancelSlots, nowNs), before);
            HasLane(a, role, slot) && LaneOf(a, role, slot).retiredGeneration.Some? ==>
              && HasLane(Run(a, after), role, slot)
              && (LaneOf(Run(a, after), role, slot).Ready() ==>
                    LaneOf(Run(a, after), role, slot).generation > LaneOf(a, role, slot).retiredGeneration.value)
  {
    var start := New(config, fastSlots, cancelSlots, nowNs);
    RunKeepsInv(start, before);
    var a := Run(start, before);
    if HasLane(a, role, slot) && LaneOf(a, role, slot).retiredGeneration.Some? {
      RetiredStaysClosed(a, after, role, slot);
    }
  }

  /** And it is not marked verified before then: after a lane is retired at a generation, the
      next report that verifies it is a proof on a strictly later one, in every run. */
  lemma {:induction false} VerifiedOnlyLater(config: Config, fastSlots: nat, cancelSlots: nat, nowNs: nat,
                                             before: seq<Op>, after: seq<Op>, op: Op, role: Role, slot: nat)
    ensures var a := Run(New(config, fastSlots, cancelSlots, nowNs), before);
            HasLane(a, role, slot) && LaneOf(a, role, slot).retiredGeneration.Some? ==>
              var b := Run(a, after);
              && HasLane(b, role, slot) && HasLane(Apply(b, op), role, slot)
              && (!LaneOf(b, role, slot).verified && LaneOf(Apply(b, op), role, slot).verified ==>
                    && op.Observe? && Proof(LaneOf(b, role, slot), op.o)
                    && op.o.poolGeneration > LaneOf(a, role, slot).retiredGeneration.value)
  {
    var start := New(config, fastSlots, cancelSlots, nowNs);
    RunKeepsInv(start, before);
    var a := Run(start, before);
    if HasLane(a, role, slot) && LaneOf(a, role, slot).retiredGeneration.Some? {
      RunForward(a, after, role, slot);
      VerifiedFrom(Run(a, after), op, role, slot, LaneOf(a, role, slot));
    }
  }

  lemma VerifiedFrom(b: Account, op: Op, role: Role, slot: nat, retired: Lane)
    requires HasLane(b, role, slot) && Forward(retired, LaneOf(b, role, slot)) && retired.retiredGeneration.Some?
    ensures HasLane(Apply(b, op), role, slot)
    ensures !LaneOf(b, role, slot).verified && LaneOf(Apply(b, op), role, slot).verified ==>
              && op.Observe? && Proof(LaneOf(b, role, slot), op.o)
              && op.o.poolGeneration > retired.retiredGeneration.value
  {
    ApplyForward(b, op, role, slot);
    if !LaneOf(b, role, slot).verified {
      VerifiedByProof(b, op, role, slot);
      if LaneOf(Apply(b, op), role, slot).verified { ForwardReady(retired, LaneOf(Apply(b, op), role, slot)); }
    }
  }
}
