/** Recovery never deadlocks its own evidence: from every account a run can reach, reports of the
    lanes and places that the account itself allows open it fully again. */
module AdmissionLiveness {
  import opened Common
  import opened Admission
  import opened AdmissionLanes
  import opened AdmissionMemo
  import opened AdmissionRecovery
  import opened AdmissionReach
  import opened AdmissionExit
  import B = AdmissionBudget
  import F = AdmissionFence
  import G = AdmissionGate

  // ------------------------------------------------------------------ every lane reports anew

  predicate Mended(lane: Lane, nowNs: nat) {
    && lane.sequence != 0 && !lane.deliveryFault && lane.observedAtNs == nowNs
    && lane.Ready() && lane.verified && !lane.businessFailed && !lane.busy
  }

  /** The first `k` lanes, fast ones first, are mended, and no probe waits for one of them. */
  predicate MendedTo(a: Account, k: nat, nowNs: nat) {
    && (forall i :: 0 <= i < |a.fast| && i < k ==> Mended(a.fast[i], nowNs))
    && (forall i :: 0 <= i < |a.cancel| && |a.fast| + i < k ==> Mended(a.cancel[i], nowNs))
    && (a.probe.Some? ==> a.probe.value.slot >= k)
  }

  predicate Mending(a: Account, nowNs: nat) {
    Reached(a, nowNs) && F.AllFenced(a) && a.pauseUntilNs <= nowNs
  }

  predicate HasOrdinary(a: Account) {
    |a.fast| > 0 && exists i :: 0 <= i < |a.cancel| && !a.cancel[i].reservedCancel
  }

  function RoleAt(a: Account, k: nat): Role {
    if k < |a.fast| then Fast else Cancel
  }

  function SlotAt(a: Account, k: nat): nat {
    if k < |a.fast| then k else k - |a.fast|
  }

  /** A good report of lane `k` on its next generation. */
  function Renewal(a: Account, k: nat, nowNs: nat): Op
    requires k < |a.fast| + |a.cancel|
  {
    var lane := LaneOf(a, RoleAt(a, k), SlotAt(a, k));
    Observe(RoleAt(a, k), SlotAt(a, k), GoodReport(lane, lane.generation + 1, nowNs), nowNs)
  }

  lemma RenewedIsMended(config: Config, lane: Lane, nowNs: nat)
    requires Sound(lane) && LaneBy(lane, nowNs) && F.Fenced(lane)
    ensures var b := Improved(config, lane, lane.generation + 1, nowNs);
            Mended(b, nowNs) && b.reservedCancel == lane.reservedCancel
  {
    GoodNews(config, lane, lane.generation + 1, nowNs);
  }

  /** Lane `k` was replaced, the others stay as they were, and no probe waits for it. */
  predicate Replaced(a: Account, c: Account, k: nat, lane: Lane) {
    && k < |a.fast| + |a.cancel| && c.config == a.config && c.pauseUntilNs == a.pauseUntilNs
    && lane.reservedCancel == LaneOf(a, RoleAt(a, k), SlotAt(a, k)).reservedCancel
    && c.fast == (if k < |a.fast| then a.fast[k := lane] else a.fast)
    && c.cancel == (if k < |a.fast| then a.cancel else a.cancel[k - |a.fast| := lane])
    && (c.probe.Some? ==> c.probe.value.slot >= k + 1)
  }

  lemma OneMore(a: Account, c: Account, k: nat, lane: Lane, nowNs: nat)
    requires Replaced(a, c, k, lane) && MendedTo(a, k, nowNs) && Mended(lane, nowNs)
    ensures MendedTo(c, k + 1, nowNs) && (HasOrdinary(a) ==> HasOrdinary(c))
  {
    if HasOrdinary(a) {
      var i :| 0 <= i < |a.cancel| && !a.cancel[i].reservedCancel;
      assert !c.cancel[i].reservedCancel;
    }
  }

  /** What the next lane and the probe owe to the run that led here. */
  predicate Renewable(a: Account, k: nat, nowNs: nat) {
    && k < |a.fast| + |a.cancel|
    && (var lane := LaneOf(a, RoleAt(a, k), SlotAt(a, k));
        Sound(lane) && LaneBy(lane, nowNs) && F.Fenced(lane))
    && (a.probe.Some? ==>
          k <= a.probe.value.slot < |a.fast| && a.probe.value.dispatchedAtNs <= nowNs)
  }

  lemma MendingIsRenewable(a: Account, k: nat, nowNs: nat)
    requires Mending(a, nowNs) && k < |a.fast| + |a.cancel| && MendedTo(a, k, nowNs)
    ensures Renewable(a, k, nowNs)
  {
    if k < |a.fast| {
      assert Sound(a.fast[k]) && LaneBy(a.fast[k], nowNs) && F.Fenced(a.fast[k]);
    } else {
      var slot := k - |a.fast|;
      assert Sound(a.cancel[slot]) && LaneBy(a.cancel[slot], nowNs) && F.Fenced(a.cancel[slot]);
    }
  }

  /** What a good report on the next generation does, in one equation per part. */
  lemma RenewalIs(a: Account, role: Role, slot: nat, nowNs: nat)
    requires HasLane(a, role, slot) && (a.probe.Some? ==> a.probe.value.dispatchedAtNs <= nowNs)
    requires var lane := LaneOf(a, role, slot); Sound(lane) && LaneBy(lane, nowNs) && F.Fenced(lane)
    ensures var was := LaneOf(a, role, slot);
            var lane := Improved(a.config, was, was.generation + 1, nowNs);
            var c := Observed(a, role, slot, GoodReport(was, was.generation + 1, nowNs), nowNs);
            && Mended(lane, nowNs) && lane.reservedCancel == was.reservedCancel
            && c.config == a.config && c.pauseUntilNs == a.pauseUntilNs
            && c.probe == (if Answers(a, role, slot) then None else a.probe)
            && c.fast == (if role.Fast? then a.fast[slot := lane] else a.fast)
            && c.cancel == (if role.Fast? then a.cancel else a.cancel[slot := lane])
  {
    var was := LaneOf(a, role, slot);
    GoodReportLands(a, role, slot, was.generation + 1, nowNs);
    GoodReportProbe(a, role, slot, was.generation + 1, nowNs);
    RenewedIsMended(a.config, was, nowNs);
  }

  lemma RenewalReplaces(a: Account, k: nat, nowNs: nat) returns (lane: Lane)
    requires Renewable(a, k, nowNs)
    ensures Replaced(a, Changed(a, Renewal(a, k, nowNs)), k, lane) && Mended(lane, nowNs)
  {
    var role, slot := RoleAt(a, k), SlotAt(a, k);
    var was := LaneOf(a, role, slot);
    var o := GoodReport(was, was.generation + 1, nowNs);
    RenewalIs(a, role, slot, nowNs);
    lane := Improved(a.config, was, was.generation + 1, nowNs);
    var c := Observed(a, role, slot, o, nowNs);
    assert Renewal(a, k, nowNs) == Observe(role, slot, o, nowNs);
    assert Changed(a, Renewal(a, k, nowNs)) == c;
    ReplacedAt(a, c, k, lane);
  }

  lemma ReplacedAt(a: Account, c: Account, k: nat, lane: Lane)
    requires k < |a.fast| + |a.cancel| && c.config == a.config && c.pauseUntilNs == a.pauseUntilNs
    requires lane.reservedCancel == LaneOf(a, RoleAt(a, k), SlotAt(a, k)).reservedCancel
    requires c.fast == if RoleAt(a, k).Fast? then a.fast[SlotAt(a, k) := lane] else a.fast
    requires c.cancel == if RoleAt(a, k).Fast? then a.cancel else a.cancel[SlotAt(a, k) := lane]
    requires a.probe.Some? ==> k <= a.probe.value.slot < |a.fast|
    requires c.probe == if Answers(a, RoleAt(a, k), SlotAt(a, k)) then None else a.probe
    ensures Replaced(a, c, k, lane)
  {}

  lemma RenewalLands(a: Account, k: nat, nowNs: nat)
    requires Renewable(a, k, nowNs) && MendedTo(a, k, nowNs)
    ensures var c := Changed(a, Renewal(a, k, nowNs));
            && |c.fast| == |a.fast| && |c.cancel| == |a.cancel| && c.config == a.config
            && MendedTo(c, k + 1, nowNs) && c.pauseUntilNs == a.pauseUntilNs && (HasOrdinary(a) ==> HasOrdinary(c))
  {
    var lane := RenewalReplaces(a, k, nowNs);
    OneMore(a, Changed(a, Renewal(a, k, nowNs)), k, lane, nowNs);
  }

  lemma RecomputeMends(c: Account, k: nat, nowNs: nat)
    requires MendedTo(c, k, nowNs)
    ensures MendedTo(Recompute(c, nowNs), k, nowNs) && Recompute(c, nowNs).pauseUntilNs == c.pauseUntilNs
  {
    RecomputeKeeps(c, nowNs);
  }

  lemma Renews(a: Account, k: nat, nowNs: nat)
    requires Mending(a, nowNs) && k < |a.fast| + |a.cancel| && MendedTo(a, k, nowNs)
    ensures var b := Apply(a, Renewal(a, k, nowNs));
            && |b.fast| == |a.fast| && |b.cancel| == |a.cancel| && b.config == a.config
            && Mending(b, nowNs) && MendedTo(b, k + 1, nowNs) && (HasOrdinary(a) ==> HasOrdinary(b))
            && B.Refreshed(b, nowNs)
  {
    var op := Renewal(a, k, nowNs);
    MendingIsRenewable(a, k, nowNs);
    RenewalLands(a, k, nowNs);
    ApplyReaches(a, op, nowNs);
    F.RanksGrow(a, op);
    ApplyKeepsLanes(a, op);
    ApplyCoherent(a, op);
    RecomputeMends(Changed(a, op), k + 1, nowNs);
    RecomputeAgain(Changed(a, op), nowNs, nowNs);
  }

  // ------------------------------------------------------------------ probes

  predicate AllMended(a: Account, nowNs: nat) {
    Mending(a, nowNs) && MendedTo(a, |a.fast| + |a.cancel|, nowNs) && HasOrdinary(a)
  }

  lemma MendedStands(a: Account, nowNs: nat)
    requires AllMended(a, nowNs)
    ensures Standing(a, nowNs) && HasReadyCancel(a, nowNs) && a.probe.None? && Busy(a, nowNs) == 0
    ensures Holds(IsReady, a.fast[0], nowNs, a.config.staleAfterNs)
  {
    var stale := a.config.staleAfterNs;
    var i :| 0 <= i < |a.cancel| && !a.cancel[i].reservedCancel;
    assert Mended(a.cancel[i], nowNs);
    assert Holds(IsReadyCancel, a.cancel[i], nowNs, stale) && Holds(IsEligibleCancel, a.cancel[i], nowNs, stale);
    assert Mended(a.fast[0], nowNs) && Holds(IsReady, a.fast[0], nowNs, stale);
    CountPositive(a.fast, IsBusy, nowNs, stale);
  }

  lemma MendedIsOpen(a: Account, nowNs: nat)
    requires AllMended(a, nowNs) && B.Refreshed(a, nowNs) && !a.recoveryRequired
    ensures a.admission.gate == Open
  {
    var stale := a.config.staleAfterNs;
    forall i | 0 <= i < |a.fast|
      ensures a.fast[i].Fresh(nowNs, stale) && a.fast[i].Ready() && a.fast[i].verified
    {
      assert Mended(a.fast[i], nowNs);
    }
    forall i | 0 <= i < |a.cancel|
      ensures a.cancel[i].Fresh(nowNs, stale)
      ensures a.cancel[i].reservedCancel || Holds(IsReadyCancel, a.cancel[i], nowNs, stale)
    {
      assert Mended(a.cancel[i], nowNs);
    }
    G.OpenCounts(a, nowNs);
  }

  /** The account once a place has gone out on its first lane. */
  function AfterPlace(a: Account, nowNs: nat): Account {
    Apply(a, Dispatch(0, nowNs))
  }

  /** The same once its owner has reported it done. */
  function AfterRound(a: Account, nowNs: nat): Account
    requires |AfterPlace(a, nowNs).fast| > 0
  {
    Apply(AfterPlace(a, nowNs), Good(AfterPlace(a, nowNs), Fast, 0, nowNs))
  }

  lemma PlaceGoesOut(a: Account, nowNs: nat)
    requires AllMended(a, nowNs) && a.recoveryRequired
    ensures B.Asked(a, 0, nowNs)
    ensures var c := AfterPlace(a, nowNs);
            && Poised(c, nowNs) && c.config == a.config && c.recoverySuccesses == a.recoverySuccesses
            && c.probe.Some? && c.probe.value.slot == 0 && Live(c) && F.AllFenced(c)
  {
    MendedStands(a, nowNs);
    MaySend(a, 0, nowNs);
    Sends(a, 0, nowNs);
    ApplyProbe(a, Dispatch(0, nowNs));
    F.RanksGrow(a, Dispatch(0, nowNs));
  }

  lemma PlaceMovesOne(a: Account, nowNs: nat)
    requires |a.fast| > 0 && Mended(a.fast[0], nowNs)
    ensures var c := AfterPlace(a, nowNs);
            |c.fast| == |a.fast| && c.fast == a.fast[0 := c.fast[0]] && c.cancel == a.cancel && c.fast[0].Ready()
  {
    ApplyKeepsLanes(a, Dispatch(0, nowNs));
  }

  lemma BackIsMended(config: Config, lane: Lane, nowNs: nat)
    requires Sound(lane) && LaneBy(lane, nowNs) && lane.Ready()
    ensures Mended(Improved(config, lane, lane.generation, nowNs), nowNs)
  {
    GoodNews(config, lane, lane.generation, nowNs);
  }

  lemma RoundCounts(a: Account, nowNs: nat)
    requires AllMended(a, nowNs) && a.recoveryRequired && Required(a) <= 255
    ensures |AfterPlace(a, nowNs).fast| > 0
    ensures var b := AfterRound(a, nowNs);
            && AllMended(b, nowNs) && B.Refreshed(b, nowNs) && b.config == a.config
            && (b.recoveryRequired ==> a.recoverySuccesses < b.recoverySuccesses < Required(a))
  {
    var c := AfterPlace(a, nowNs);
    PlaceGoesOut(a, nowNs);
    PlaceMovesOne(a, nowNs);
    var op := Good(c, Fast, 0, nowNs);
    GoodSettles(c, Fast, 0, nowNs);
    RoundMends(a, c, nowNs);
    MendedStands(AfterRound(a, nowNs), nowNs);
    ApplyCoherent(c, op);
    RecomputeAgain(Changed(c, op), nowNs, nowNs);
  }

  lemma RoundMends(a: Account, c: Account, nowNs: nat)
    requires AllMended(a, nowNs) && Poised(c, nowNs) && F.AllFenced(c) && c.config == a.config
    requires c.probe.Some? && c.probe.value.slot == 0
    requires |c.fast| == |a.fast| && c.fast == a.fast[0 := c.fast[0]] && c.cancel == a.cancel && c.fast[0].Ready()
    ensures AllMended(Apply(c, Good(c, Fast, 0, nowNs)), nowNs)
  {
    var op := Good(c, Fast, 0, nowNs);
    var b := Apply(c, op);
    GoodSettles(c, Fast, 0, nowNs);
    GoodLanes(c, Fast, 0, nowNs);
    BackIsMended(c.config, c.fast[0], nowNs);
    F.RanksGrow(c, op);
    forall i | 0 <= i < |b.fast| ensures Mended(b.fast[i], nowNs) {
      if i > 0 { assert b.fast[i] == a.fast[i]; }
    }
    forall i | 0 <= i < |b.cancel| ensures Mended(b.cancel[i], nowNs) {
      assert b.cancel[i] == a.cancel[i];
    }
  }

  // ------------------------------------------------------------------ theorems

  /** Reports and places only. */
  predicate Plain(ops: seq<Op>) {
    forall i :: 0 <= i < |ops| ==> ops[i].Observe? || ops[i].Dispatch?
  }

  /** A run of reports, and of places the account allowed when they were sent, that ends open. */
  ghost predicate Opens(a: Account, ops: seq<Op>) {
    Plain(ops) && B.Disciplined(a, ops) && Run(a, ops).admission.gate == Open
  }

  lemma OpensCons(a: Account, op: Op, ops: seq<Op>)
    requires op.Observe? || (op.Dispatch? && B.Asked(a, op.slot, op.nowNs))
    requires Opens(Apply(a, op), ops)
    ensures Opens(a, [op] + ops)
  {
    RunCons(a, op, ops);
  }

  lemma {:induction false} ProbesOpen(a: Account, nowNs: nat) returns (ops: seq<Op>)
    requires AllMended(a, nowNs) && B.Refreshed(a, nowNs) && Required(a) <= 255
    ensures Opens(a, ops)
    decreases a.recoveryRequired, SatSub(Required(a), a.recoverySuccesses)
  {
    if !a.recoveryRequired {
      MendedIsOpen(a, nowNs);
      ops := [];
    } else {
      PlaceGoesOut(a, nowNs);
      RoundCounts(a, nowNs);
      var c := AfterPlace(a, nowNs);
      var rest := ProbesOpen(AfterRound(a, nowNs), nowNs);
      OpensCons(c, Good(c, Fast, 0, nowNs), rest);
      ops := [Dispatch(0, nowNs)] + ([Good(c, Fast, 0, nowNs)] + rest);
      OpensCons(a, Dispatch(0, nowNs), [Good(c, Fast, 0, nowNs)] + rest);
    }
  }

  lemma {:induction false} ReportsOpen(a: Account, k: nat, nowNs: nat) returns (ops: seq<Op>)
    requires Mending(a, nowNs) && k <= |a.fast| + |a.cancel| && MendedTo(a, k, nowNs)
    requires HasOrdinary(a) && Required(a) <= 255 && (k > 0 ==> B.Refreshed(a, nowNs))
    ensures Opens(a, ops)
    decreases |a.fast| + |a.cancel| - k
  {
    if k == |a.fast| + |a.cancel| {
      ops := ProbesOpen(a, nowNs);
    } else {
      var op := Renewal(a, k, nowNs);
      Renews(a, k, nowNs);
      var rest := ReportsOpen(Apply(a, op), k + 1, nowNs);
      OpensCons(a, op, rest);
      ops := [op] + rest;
    }
  }

  /** Every account reached by a run, if it has a fast lane and an ordinary cancel lane, can be
      opened again by reports and by places that it allows, at any time once its pause is over. */
  lemma {:induction false} CanAlwaysOpen(config: Config, fastSlots: nat, cancelSlots: nat, startNs: nat,
                                         before: seq<Op>, nowNs: nat)
    requires config.recoverySuccesses <= 255 && RunBy(before, nowNs)
    ensures var a := Run(New(config, fastSlots, cancelSlots, startNs), before);
            HasOrdinary(a) && a.pauseUntilNs <= nowNs ==> exists ops :: Opens(a, ops)
  {
    var start := New(config, fastSlots, cancelSlots, startNs);
    var a := Run(start, before);
    NewReached(config, fastSlots, cancelSlots, startNs, nowNs);
    RunReaches(start, before, nowNs);
    RunKeepsConfig(start, before);
    F.RunKeepsInv(start, before);
    if HasOrdinary(a) && a.pauseUntilNs <= nowNs { var ops := ReportsOpen(a, 0, nowNs); }
  }
}
