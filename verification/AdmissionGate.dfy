/** What the announced state means lane by lane, and how its epoch identifies it. */
module AdmissionGate {
  import opened Common
  import opened Admission
  import opened AdmissionLanes
  import opened AdmissionMemo
  import opened AdmissionBudget
  import opened AdmissionFence
  import opened AdmissionRecovery

  lemma {:induction false} CountAll(lanes: seq<Lane>, test: Test, nowNs: nat, stale: nat)
    ensures Count(lanes, test, nowNs, stale) == |lanes| <==>
            forall i :: 0 <= i < |lanes| ==> Holds(test, lanes[i], nowNs, stale)
  {
    if lanes != [] {
      CountAll(lanes[1..], test, nowNs, stale);
      if Count(lanes, test, nowNs, stale) == |lanes| {
        forall i | 0 <= i < |lanes| ensures Holds(test, lanes[i], nowNs, stale) {
          if i > 0 { assert lanes[i] == lanes[1..][i - 1]; }
        }
      } else if Holds(test, lanes[0], nowNs, stale) {
        var i :| 0 <= i < |lanes[1..]| && !Holds(test, lanes[1..][i], nowNs, stale);
        assert lanes[i + 1] == lanes[1..][i];
      }
    }
  }

  lemma {:induction false} ReadyCancelsAll(lanes: seq<Lane>, nowNs: nat, stale: nat)
    ensures Count(lanes, IsReadyCancel, nowNs, stale) <= Count(lanes, IsOrdinaryCancel, nowNs, stale)
    ensures Count(lanes, IsReadyCancel, nowNs, stale) == Count(lanes, IsOrdinaryCancel, nowNs, stale) <==>
            forall i :: 0 <= i < |lanes| ==> lanes[i].reservedCancel || Holds(IsReadyCancel, lanes[i], nowNs, stale)
  {
    if lanes != [] {
      ReadyCancelsAll(lanes[1..], nowNs, stale);
      if Count(lanes, IsReadyCancel, nowNs, stale) == Count(lanes, IsOrdinaryCancel, nowNs, stale) {
        forall i | 0 <= i < |lanes| ensures lanes[i].reservedCancel || Holds(IsReadyCancel, lanes[i], nowNs, stale) {
          if i > 0 { assert lanes[i] == lanes[1..][i - 1]; }
        }
      } else if lanes[0].reservedCancel || Holds(IsReadyCancel, lanes[0], nowNs, stale) {
        var i :| 0 <= i < |lanes[1..]|
            && !(lanes[1..][i].reservedCancel || Holds(IsReadyCancel, lanes[1..][i], nowNs, stale));
        assert lanes[i + 1] == lanes[1..][i];
      }
    }
  }

  /** Some fast lane, or some ordinary cancel lane, passes the test. */
  predicate Any(lanes: seq<Lane>, test: Test, nowNs: nat, stale: nat) {
    exists i :: 0 <= i < |lanes| && Holds(test, lanes[i], nowNs, stale)
  }

  // ------------------------------------------------------------------ what the state means

  /** The owner's last report is believed and its lease still runs. */
  predicate Current(lane: Lane, nowNs: nat, stale: nat) {
    lane.sequence > 0 && !lane.deliveryFault && lane.observedAtNs <= nowNs <= lane.observedAtNs + stale
  }

  /** The owner has sockets, of a generation that was not retired. */
  predicate Usable(lane: Lane) {
    !lane.quarantined && (lane.retiredGeneration.Some? ==> lane.retiredGeneration.value != lane.generation)
  }

  /** An ordinary cancel lane that could take back a place: it works, and has not failed lately. */
  predicate MayCancel(lane: Lane, nowNs: nat, stale: nat) {
    && !lane.reservedCancel && Current(lane, nowNs, stale) && Usable(lane)
    && (lane.businessFailed ==> lane.failureEligibleAfterNs <= nowNs)
  }

  /** A fast lane out on trial: a place is in flight that would be its first good one. */
  predicate OnTrial(lane: Lane, nowNs: nat, stale: nat) {
    Current(lane, nowNs, stale) && Usable(lane) && !lane.verified && lane.busy
  }

  lemma PausedCounts(b: Account, nowNs: nat)
    requires Refreshed(b, nowNs)
    ensures var stale := b.config.staleAfterNs;
            b.admission.gate == Paused <==>
              || !Any(b.fast, IsReady, nowNs, stale) || !Any(b.cancel, IsEligibleCancel, nowNs, stale)
              || nowNs < b.pauseUntilNs
  {
    CountPositive(b.fast, IsReady, nowNs, b.config.staleAfterNs);
    CountPositive(b.cancel, IsEligibleCancel, nowNs, b.config.staleAfterNs);
  }

  /** Places may go out only while some fast lane works and some ordinary cancel lane could take
      back what they leave; without a pause, that is also enough. */
  lemma PausedMeans(b: Account, nowNs: nat)
    requires Refreshed(b, nowNs)
    ensures var stale := b.config.staleAfterNs;
            b.admission.gate == Paused <==>
              || (forall i :: 0 <= i < |b.fast| ==> !Current(b.fast[i], nowNs, stale) || !Usable(b.fast[i]))
              || (forall i :: 0 <= i < |b.cancel| ==> !MayCancel(b.cancel[i], nowNs, stale))
              || nowNs < b.pauseUntilNs
  {
    var stale := b.config.staleAfterNs;
    PausedCounts(b, nowNs);
    if Any(b.fast, IsReady, nowNs, stale) {
      var i :| 0 <= i < |b.fast| && Holds(IsReady, b.fast[i], nowNs, stale);
      assert Current(b.fast[i], nowNs, stale) && Usable(b.fast[i]);
    }
    if Any(b.cancel, IsEligibleCancel, nowNs, stale) {
      var i :| 0 <= i < |b.cancel| && Holds(IsEligibleCancel, b.cancel[i], nowNs, stale);
      assert MayCancel(b.cancel[i], nowNs, stale);
    }
  }

  lemma ReadyIsEligible(lanes: seq<Lane>, nowNs: nat, stale: nat)
    ensures Any(lanes, IsReadyCancel, nowNs, stale) ==> Any(lanes, IsEligibleCancel, nowNs, stale)
    ensures (exists i :: 0 <= i < |lanes| && !lanes[i].reservedCancel)
            && (forall i :: 0 <= i < |lanes| ==>
                  lanes[i].reservedCancel || Holds(IsReadyCancel, lanes[i], nowNs, stale))
            ==> Any(lanes, IsReadyCancel, nowNs, stale)
  {
    if i :| 0 <= i < |lanes| && Holds(IsReadyCancel, lanes[i], nowNs, stale) {
      assert Holds(IsEligibleCancel, lanes[i], nowNs, stale);
    }
  }

  lemma OpenCounts(b: Account, nowNs: nat)
    requires Refreshed(b, nowNs)
    ensures var stale := b.config.staleAfterNs;
            b.admission.gate == Open <==>
              && |b.fast| > 0 && (exists i :: 0 <= i < |b.cancel| && !b.cancel[i].reservedCancel)
              && nowNs >= b.pauseUntilNs && !b.recoveryRequired
              && AllFresh(b.cancel, nowNs, stale)
              && (forall i :: 0 <= i < |b.fast| ==>
                  b.fast[i].Fresh(nowNs, stale) && b.fast[i].Ready() && b.fast[i].verified)
              && (forall i :: 0 <= i < |b.cancel| ==>
                  b.cancel[i].reservedCancel || Holds(IsReadyCancel, b.cancel[i], nowNs, stale))
  {
    var stale := b.config.staleAfterNs;
    CountAll(b.fast, IsReady, nowNs, stale);
    ReadyCancelsAll(b.cancel, nowNs, stale);
    PausedCounts(b, nowNs);
    ReadyIsEligible(b.cancel, nowNs, stale);
    assert (&& AllFresh(b.fast, nowNs, stale) && AllVerified(b.fast)
            && forall i :: 0 <= i < |b.fast| ==> Holds(IsReady, b.fast[i], nowNs, stale))
      <==> forall i :: 0 <= i < |b.fast| ==>
             b.fast[i].Fresh(nowNs, stale) && b.fast[i].Ready() && b.fast[i].verified by {
      if forall i :: 0 <= i < |b.fast| ==> b.fast[i].Fresh(nowNs, stale) && b.fast[i].Ready() && b.fast[i].verified {
        assert forall i :: 0 <= i < |b.fast| ==> Holds(IsReady, b.fast[i], nowNs, stale);
      } else if AllFresh(b.fast, nowNs, stale) && AllVerified(b.fast) {
        var i :| 0 <= i < |b.fast| && !(b.fast[i].Fresh(nowNs, stale) && b.fast[i].Ready() && b.fast[i].verified);
        assert !Holds(IsReady, b.fast[i], nowNs, stale);
      }
    }
  }

  /** The account is fully open exactly when it has lanes of both kinds, is neither pausing nor
      recovering, and every lane answers for itself: each lease runs, each fast lane works and is
      verified, each ordinary cancel lane works and its last result was no failure. */
  lemma OpenMeans(b: Account, nowNs: nat)
    requires Refreshed(b, nowNs)
    ensures var stale := b.config.staleAfterNs;
            b.admission.gate == Open <==>
              && |b.fast| > 0 && (exists i :: 0 <= i < |b.cancel| && !b.cancel[i].reservedCancel)
              && nowNs >= b.pauseUntilNs && !b.recoveryRequired
              && (forall i :: 0 <= i < |b.fast| ==>
                  Current(b.fast[i], nowNs, stale) && Usable(b.fast[i]) && b.fast[i].verified)
              && (forall i :: 0 <= i < |b.cancel| ==>
                  && Current(b.cancel[i], nowNs, stale)
                  && (b.cancel[i].reservedCancel || (Usable(b.cancel[i]) && !b.cancel[i].businessFailed)))
  {
    OpenCounts(b, nowNs);
  }

  /** Outside recovery some ordinary cancel lane works, and its last result was no failure. */
  lemma OutsideRecoveryCancelsWork(b: Account, nowNs: nat)
    requires Refreshed(b, nowNs) && (b.admission.gate == Open || b.admission.gate == Degraded)
    ensures exists i :: 0 <= i < |b.cancel| && MayCancel(b.cancel[i], nowNs, b.config.staleAfterNs)
                        && !b.cancel[i].businessFailed
  {
    CountPositive(b.cancel, IsReadyCancel, nowNs, b.config.staleAfterNs);
    var i :| 0 <= i < |b.cancel| && Holds(IsReadyCancel, b.cancel[i], nowNs, b.config.staleAfterNs);
    assert MayCancel(b.cancel[i], nowNs, b.config.staleAfterNs);
  }

  /** Which lanes may be sent on: working ones that are idle. In recovery that is one at a time on
      an idle account with no probe out; otherwise a verified one always, and an unverified one
      while no other is on trial. */
  predicate MaySend(b: Account, slot: nat, nowNs: nat) {
    var stale := b.config.staleAfterNs;
    && b.admission.gate != Paused && slot < |b.fast|
    && Current(b.fast[slot], nowNs, stale) && Usable(b.fast[slot]) && !b.fast[slot].busy
    && if b.recoveryRequired
       then b.probe.None? && forall i :: 0 <= i < |b.fast| ==> !b.fast[i].busy
       else b.fast[slot].verified || forall i :: 0 <= i < |b.fast| ==> !OnTrial(b.fast[i], nowNs, stale)
  }

  lemma TrialsCount(lanes: seq<Lane>, nowNs: nat, stale: nat)
    ensures Count(lanes, OnProbation, nowNs, stale) == 0 <==>
            forall i :: 0 <= i < |lanes| ==> !OnTrial(lanes[i], nowNs, stale)
    ensures Count(lanes, IsBusy, nowNs, stale) == 0 <==> forall i :: 0 <= i < |lanes| ==> !lanes[i].busy
  {
    CountPositive(lanes, OnProbation, nowNs, stale);
    CountPositive(lanes, IsBusy, nowNs, stale);
    if i :| 0 <= i < |lanes| && OnTrial(lanes[i], nowNs, stale) {
      assert Holds(OnProbation, lanes[i], nowNs, stale);
    }
    if i :| 0 <= i < |lanes| && lanes[i].busy { assert Holds(IsBusy, lanes[i], nowNs, stale); }
  }

  lemma {:induction false} FreeUnverified(lanes: seq<Lane>, nowNs: nat, stale: nat, i: nat)
    requires i < |lanes| && Holds(IsFree, lanes[i], nowNs, stale) && !lanes[i].verified
    ensures Count(lanes, IsFree, nowNs, stale) > Count(lanes, IsVerifiedFree, nowNs, stale)
  {
    if i > 0 { FreeUnverified(lanes[1..], nowNs, stale, i - 1); } else { VerifiedAmongFree(lanes[1..], nowNs, stale); }
  }

  lemma {:induction false} VerifiedAmongFree(lanes: seq<Lane>, nowNs: nat, stale: nat)
    ensures Count(lanes, IsFree, nowNs, stale) >= Count(lanes, IsVerifiedFree, nowNs, stale)
  {
    if lanes != [] { VerifiedAmongFree(lanes[1..], nowNs, stale); }
  }

  /** The router's question is answered yes exactly for those lanes. */
  lemma AllowedExactly(b: Account, slot: nat, nowNs: nat)
    requires Refreshed(b, nowNs)
    ensures LaneAllowed(b, slot, nowNs) <==> MaySend(b, slot, nowNs)
  {
    var stale := b.config.staleAfterNs;
    TrialsCount(b.fast, nowNs, stale);
    if slot < |b.fast| && Holds(IsFree, b.fast[slot], nowNs, stale) {
      CountPositive(b.fast, IsFree, nowNs, stale);
      CountPositive(b.fast, IsVerifiedFree, nowNs, stale);
      if b.fast[slot].verified { assert Holds(IsVerifiedFree, b.fast[slot], nowNs, stale); }
      else { FreeUnverified(b.fast, nowNs, stale, slot); }
    }
  }

  // ------------------------------------------------------------------ what an open account has seen

  /** The report resets the account's transport. */
  predicate Resets(a: Account, op: Op) {
    || op.RetireAt? || op.RetireAvoiding?
    || (op.Observe? && Accepts(a, op.role, op.slot, op.o, op.nowNs)
        && NewsOf(LaneOf(a, op.role, op.slot), op.o).transportReset)
  }

  /** An observer of one fast lane: the generation its owner last proved healthy, forgotten on
      adverse news, on a new generation and on a transport reset. */
  function Proved(a: Account, op: Op, slot: nat, p: Option<nat>): Option<nat> {
    if Resets(a, op) then None
    else if op.Observe? && op.role == Fast && op.slot == slot && Accepts(a, Fast, slot, op.o, op.nowNs) then
      var lane := a.fast[slot];
      if Proof(lane, op.o) then Some(op.o.poolGeneration)
      else if AdverseReport(lane, op.o) || op.o.poolGeneration != lane.generation then None
      else p
    else p
  }

  function ProvedBy(a: Account, ops: seq<Op>, slot: nat, p: Option<nat>): Option<nat>
    decreases |ops|
  {
    if ops == [] then p else ProvedBy(Apply(a, ops[0]), ops[1..], slot, Proved(a, ops[0], slot, p))
  }

  predicate Backs(a: Account, slot: nat, p: Option<nat>) {
    slot < |a.fast| && (a.fast[slot].verified ==> p == Some(a.fast[slot].generation))
  }

  lemma ResetUnverifies(a: Account, op: Op, slot: nat)
    requires Resets(a, op) && slot < |a.fast|
    ensures slot < |Apply(a, op).fast| && !Apply(a, op).fast[slot].verified
  {
    ApplyKeepsLanes(a, op);
    if op.Observe? {
      AbsorbedLane(a, op.role, op.slot, op.o, op.nowNs, Fast, slot);
    } else {
      RetireTransportLane(a, op.nowNs, Fast, slot);
    }
  }

  /** A report under which a verified lane stays so says nothing bad and no new generation. */
  lemma StaysVerified(a: Account, slot: nat, o: Observation, nowNs: nat)
    requires Accepts(a, Fast, slot, o, nowNs) && a.fast[slot].verified
    ensures var b := Absorbed(a, Fast, slot, o, nowNs);
            && slot < |b.fast| && b.fast[slot].generation == o.poolGeneration
            && (b.fast[slot].verified ==>
                  || Proof(a.fast[slot], o)
                  || (!AdverseReport(a.fast[slot], o) && o.poolGeneration == a.fast[slot].generation))
  {
    AbsorbedLane(a, Fast, slot, o, nowNs, Fast, slot);
    SameVerdict(a.fast[slot], o);
  }

  lemma ApplyBacks(a: Account, op: Op, slot: nat, p: Option<nat>)
    requires Backs(a, slot, p)
    ensures Backs(Apply(a, op), slot, Proved(a, op, slot, p))
  {
    VerifiedSoFar(a, op, slot);
    if Resets(a, op) {
      ResetUnverifies(a, op, slot);
    } else if op.Observe? && op.role == Fast && op.slot == slot && Accepts(a, Fast, slot, op.o, op.nowNs) {
      ApplyKeepsLanes(a, op);
      if a.fast[slot].verified { StaysVerified(a, slot, op.o, op.nowNs); }
    } else {
      ApplyBrushes(a, op, Fast, slot);
    }
  }

  lemma VerifiedSoFar(a: Account, op: Op, slot: nat)
    requires slot < |a.fast|
    ensures slot < |Apply(a, op).fast|
    ensures !a.fast[slot].verified && Apply(a, op).fast[slot].verified ==>
              && op.Observe? && op.role == Fast && op.slot == slot && Accepts(a, Fast, slot, op.o, op.nowNs)
              && Proof(a.fast[slot], op.o) && Apply(a, op).fast[slot].generation == op.o.poolGeneration
  {
    ApplyKeepsLanes(a, op);
    ChangedRegistry(a, op);
    if !a.fast[slot].verified { VerifiedByProof(a, op, Fast, slot); }
  }

  lemma {:induction false} RunBacks(a: Account, ops: seq<Op>, slot: nat, p: Option<nat>)
    requires Backs(a, slot, p)
    ensures Backs(Run(a, ops), slot, ProvedBy(a, ops, slot, p))
    decreases |ops|
  {
    if ops != [] {
      ApplyBacks(a, ops[0], slot, p);
      RunBacks(Apply(a, ops[0]), ops[1..], slot, Proved(a, ops[0], slot, p));
    }
  }

  /** Whenever a run of a new account announces that it is fully open, the owner of every fast
      lane has proved the lane's current generation healthy, with nothing adverse, no newer
      generation and no reset since. */
  lemma {:induction false} OpenTakesProof(config: Config, fastSlots: nat, cancelSlots: nat, startNs: nat, ops: seq<Op>,
                                          nowNs: nat, slot: nat)
    ensures var start := New(config, fastSlots, cancelSlots, startNs);
            var b := Refresh(Run(start, ops), nowNs);
            b.admission.gate == Open && slot < fastSlots ==>
              slot < |b.fast| && ProvedBy(start, ops, slot, None) == Some(b.fast[slot].generation)
  {
    var start := New(config, fastSlots, cancelSlots, startNs);
    if slot < fastSlots {
      RunBacks(start, ops, slot, None);
      RunIsRunAlways(start, ops);
      RefreshRefreshes(Run(start, ops), nowNs);
      RefreshKeepsLanes(Run(start, ops), nowNs);
      OpenMeans(Refresh(Run(start, ops), nowNs), nowNs);
    }
  }

  // ------------------------------------------------------------------ epochs

  predicate Follows(before: Decision, after: Decision) {
    && before.epoch <= after.epoch
    && (after.epoch == before.epoch < U64_MAX ==> after.gate == before.gate && after.slots == before.slots)
  }

  lemma ApplyFollows(a: Account, op: Op)
    requires a.admission.epoch <= U64_MAX
    ensures Follows(a.admission, Apply(a, op).admission) && Apply(a, op).admission.epoch <= U64_MAX
  {
    ChangedRegistry(a, op);
  }

  /** An epoch names one state and one budget: along any run epochs never go back, and as long
      as one does not change (and has not saturated) neither does what it announced. */
  lemma {:induction false} EpochNamesDecision(a: Account, ops: seq<Op>)
    requires a.admission.epoch <= U64_MAX
    ensures Follows(a.admission, Run(a, ops).admission) && Run(a, ops).admission.epoch <= U64_MAX
    decreases |ops|
  {
    if ops != [] {
      ApplyFollows(a, ops[0]);
      EpochNamesDecision(Apply(a, ops[0]), ops[1..]);
    }
  }
}
