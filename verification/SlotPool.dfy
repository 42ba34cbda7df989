/** The role pool's slot tokens and the repair of quarantined slots.

    Any number of agents (requests, keep-warm probes, repair tasks) race over the atomic
    flags of N slots and one bounded token lane. Every load, store, compare-exchange and
    channel operation is one sequentially consistent step. An agent that the source may
    send back to its caller at a given point (failure threshold, cooldown, prewarm
    result) does so nondeterministically, through the `Action` it is given. */
module SlotPool {
  import opened Common

  /** Where an agent is. Each constructor names the next atomic operation it performs. */
  datatype Pc =
    | Idle
      // A token came off the lane; next: clear `available_token`. `claim` separates a
      // claim from the exact-slot scan that puts a mismatched token back.
    | Received(slot: nat, claim: bool)
    | ClaimLoadQuarantine(slot: nat)
    | ClaimCasBusy(slot: nat)
    | Permit(slot: nat)
      // publish_slot_token
    | PublishLoadBusy(slot: nat)
    | PublishLoadQuarantine(slot: nat)
    | PublishCasToken(slot: nat)
    | PublishSend(slot: nat)
    | PublishUndo(slot: nat)
      // A health handle fenced by the generation read when its client was picked.
    | Handle(slot: nat, picked: nat)
    | RebuildCasQuarantine(slot: nat, picked: nat)
    | RebuildRecheck(slot: nat, picked: nat)
    | Repairing(slot: nat, picked: nat)
    | InstallBump(slot: nat, picked: nat)
    | Releasing(slot: nat, picked: nat, installed: bool)
      // A repair task that returned without releasing its quarantine.
    | Abandoned(slot: nat)

  datatype Action =
    | Receive
    | ReceiveExact(wanted: nat)
    | Pick(slot: nat)
    | Advance
    | GiveUp

  datatype Pool = Pool(
    busy: seq<bool>,
    token: seq<bool>,
    quarantined: seq<bool>,
    generation: seq<nat>,
    lane: seq<nat>,
    agents: seq<Pc>)

  predicate Shape(s: Pool) {
    && |s.token| == |s.busy| && |s.quarantined| == |s.busy| && |s.generation| == |s.busy|
    && forall a :: 0 <= a < |s.agents| ==> InRange(s.agents[a], |s.busy|)
  }

  predicate InRange(pc: Pc, n: nat) {
    pc.Idle? || pc.slot < n
  }

  /** `RolePool::new`: every slot starts free, with its one token in the lane. */
  function New(slots: nat, agents: nat): (s: Pool)
    ensures Shape(s)
  {
    var n := Max(slots, 1);
    Pool(seq(n, _ => false), seq(n, _ => true), seq(n, _ => false), seq(n, _ => 0),
         seq(n, i => i), seq(agents, _ => Idle))
  }

  function Capacity(s: Pool): nat {
    |s.busy|
  }

  function Move(s: Pool, a: nat, pc: Pc): Pool
    requires a < |s.agents|
  {
    s.(agents := s.agents[a := pc])
  }

  function Receiving(s: Pool, a: nat, wanted: Option<nat>): Pool
    requires a < |s.agents|
  {
    if s.lane == [] then s
    else
      var slot := s.lane[0];
      Move(s.(lane := s.lane[1..]), a, Received(slot, wanted.None? || wanted.value == slot))
  }

  /** The next atomic step of an agent that is inside an operation. */
  function Advanced(s: Pool, a: nat): Pool
    requires Shape(s) && a < |s.agents|
  {
    match s.agents[a]
    case Idle => s
    case Received(slot, claim) =>
      Move(s.(token := s.token[slot := false]), a,
           if claim then ClaimLoadQuarantine(slot) else PublishLoadBusy(slot))
    case ClaimLoadQuarantine(slot) =>
      Move(s, a, if s.quarantined[slot] then Idle else ClaimCasBusy(slot))
    case ClaimCasBusy(slot) =>
      if s.busy[slot] then Move(s, a, Idle)
      else Move(s.(busy := s.busy[slot := true]), a, Permit(slot))
    case Permit(slot) =>
      Move(s.(busy := s.busy[slot := false]), a, PublishLoadBusy(slot))
    case PublishLoadBusy(slot) =>
      Move(s, a, if s.busy[slot] then Idle else PublishLoadQuarantine(slot))
    case PublishLoadQuarantine(slot) =>
      Move(s, a, if s.quarantined[slot] then Idle else PublishCasToken(slot))
    case PublishCasToken(slot) =>
      if s.token[slot] then Move(s, a, Idle)
      else Move(s.(token := s.token[slot := true]), a, PublishSend(slot))
    case PublishSend(slot) =>
      if |s.lane| < Capacity(s) then Move(s.(lane := s.lane + [slot]), a, Idle)
      else Move(s, a, PublishUndo(slot))
    case PublishUndo(slot) =>
      Move(s.(token := s.token[slot := false]), a, Idle)
    case Handle(slot, picked) =>
      Move(s, a, if s.generation[slot] == picked then RebuildCasQuarantine(slot, picked) else Idle)
    case RebuildCasQuarantine(slot, picked) =>
      if s.quarantined[slot] then Move(s, a, Idle)
      else Move(s.(quarantined := s.quarantined[slot := true]), a, RebuildRecheck(slot, picked))
    case RebuildRecheck(slot, picked) =>
      Move(s, a, if s.generation[slot] == picked then Repairing(slot, picked)
                 else Releasing(slot, picked, false))
    case Repairing(slot, picked) =>
      Move(s, a, if s.generation[slot] == picked then InstallBump(slot, picked) else Abandoned(slot))
    case InstallBump(slot, picked) =>
      Move(s.(generation := s.generation[slot := s.generation[slot] + 1]), a,
           Releasing(slot, picked, true))
    case Releasing(slot, picked, installed) =>
      Move(s.(quarantined := s.quarantined[slot := false]), a, PublishLoadBusy(slot))
    case Abandoned(slot) => s
  }

  /** Points at which the source returns to its caller before claiming a repair, and a
      failed prewarm, after which the task loops only while its generation is current. */
  function GivenUp(s: Pool, a: nat): Pool
    requires Shape(s) && a < |s.agents|
  {
    match s.agents[a]
    case Handle(_, _) => Move(s, a, Idle)
    case RebuildCasQuarantine(_, _) => Move(s, a, Idle)
    case Repairing(slot, picked) =>
      if s.generation[slot] == picked then s else Move(s, a, Abandoned(slot))
    case _ => s
  }

  function Step(s: Pool, a: nat, action: Action): (t: Pool)
    requires Shape(s)
  {
    if a >= |s.agents| then s
    else
      match action
      case Receive => if s.agents[a].Idle? then Receiving(s, a, None) else s
      case ReceiveExact(wanted) =>
        if s.agents[a].Idle? && wanted < Capacity(s) then Receiving(s, a, Some(wanted)) else s
      case Pick(slot) =>
        if s.agents[a].Idle? && slot < Capacity(s) then Move(s, a, Handle(slot, s.generation[slot])) else s
      case Advance => Advanced(s, a)
      case GiveUp => GivenUp(s, a)
  }

  // ------------------------------------------------------------------ invariant

  /** The agent carries the slot's token: between its compare-exchange and its send, or
      between its receive and its clearing store. */
  predicate Carries(pc: Pc, slot: nat) {
    (pc.PublishSend? || pc.Received?) && pc.slot == slot
  }

  /** The agent has cleared or is about to republish the slot's token. */
  predicate Owes(pc: Pc, slot: nat) {
    && (pc.ClaimLoadQuarantine? || pc.ClaimCasBusy? || pc.PublishLoadBusy? || pc.PublishLoadQuarantine?
        || pc.PublishCasToken?)
    && pc.slot == slot
  }

  predicate Holds(pc: Pc, slot: nat) {
    pc.Permit? && pc.slot == slot
  }

  predicate OwnsRepair(pc: Pc, slot: nat) {
    Repairs(pc) && pc.slot == slot
  }

  predicate Distinct(xs: seq<nat>) {
    forall i, j :: 0 <= i < j < |xs| ==> xs[i] != xs[j]
  }

  /** `available_token` is set exactly when the slot's token exists, and it exists once. */
  ghost predicate TokenExact(s: Pool)
    requires Shape(s)
  {
    && Distinct(s.lane)
    && (forall i :: 0 <= i < |s.lane| ==> s.lane[i] < Capacity(s) && s.token[s.lane[i]])
    && (forall a :: 0 <= a < |s.agents| && (s.agents[a].PublishSend? || s.agents[a].Received?) ==>
          s.token[s.agents[a].slot] && s.agents[a].slot !in s.lane)
    && (forall a, b :: 0 <= a < b < |s.agents| && (s.agents[a].PublishSend? || s.agents[a].Received?)
                       && (s.agents[b].PublishSend? || s.agents[b].Received?) ==>
          s.agents[a].slot != s.agents[b].slot)
    && (forall k :: 0 <= k < Capacity(s) && s.token[k] ==>
          k in s.lane || exists a :: 0 <= a < |s.agents| && Carries(s.agents[a], k))
  }

  /** The two flags that mean "one agent owns this": `busy` and `quarantined`. */
  datatype Ownership = ByPermit | ByRepair

  predicate Owner(kind: Ownership, pc: Pc, slot: nat) {
    match kind
    case ByPermit => Holds(pc, slot)
    case ByRepair => OwnsRepair(pc, slot)
  }

  /** The flag of a slot is set exactly while one agent owns it. */
  ghost predicate ExactlyOwned(kind: Ownership, flag: seq<bool>, agents: seq<Pc>) {
    && (forall a, k :: 0 <= a < |agents| && 0 <= k < |flag| && Owner(kind, agents[a], k) ==> flag[k])
    && (forall a, b, k | 0 <= a < |agents| && 0 <= b < |agents| && 0 <= k < |flag| ::
          Owner(kind, agents[a], k) && Owner(kind, agents[b], k) ==> a == b)
    && (forall k :: 0 <= k < |flag| && flag[k] ==> exists a :: 0 <= a < |agents| && Owner(kind, agents[a], k))
  }

  predicate Repairs(pc: Pc) {
    pc.RebuildRecheck? || pc.Repairing? || pc.InstallBump? || pc.Releasing?
  }

  /** Each agent's generation fence: exact from the recheck of a repair to its install. */
  ghost predicate Fenced(s: Pool)
    requires Shape(s)
  {
    forall a :: 0 <= a < |s.agents| ==> FenceOk(s.agents[a], s.generation)
  }

  predicate FenceOk(pc: Pc, generation: seq<nat>)
    requires InRange(pc, |generation|)
  {
    match pc
    case Handle(slot, picked) => picked <= generation[slot]
    case RebuildCasQuarantine(slot, picked) => picked <= generation[slot]
    case RebuildRecheck(slot, picked) => picked <= generation[slot]
    case Repairing(slot, picked) => picked == generation[slot]
    case InstallBump(slot, picked) => picked == generation[slot]
    case Releasing(slot, picked, installed) =>
      if installed then picked + 1 == generation[slot] else picked < generation[slot]
    case Abandoned(_) => false
    case PublishUndo(_) => false
    case _ => true
  }

  /** No slot is lost: it is busy, quarantined, tokened, or some agent still owes the
      decision. */
  ghost predicate NoneLost(s: Pool)
    requires Shape(s)
  {
    forall k :: 0 <= k < Capacity(s) ==>
      || s.busy[k] || s.quarantined[k] || s.token[k]
      || exists a :: 0 <= a < |s.agents| && Owes(s.agents[a], k)
  }

  ghost predicate Inv(s: Pool) {
    && Shape(s) && TokenExact(s)
    && ExactlyOwned(ByPermit, s.busy, s.agents)
    && ExactlyOwned(ByRepair, s.quarantined, s.agents)
    && Fenced(s) && NoneLost(s)
  }

  // ------------------------------------------------------------------ preservation

  /** Distinct numbers below n are at most n. */
  lemma {:induction false} Pigeonhole(xs: seq<nat>, n: nat)
    requires Distinct(xs) && forall i :: 0 <= i < |xs| ==> xs[i] < n
    ensures |xs| <= n
  {
    assert |xs| > 0 ==> xs[0] < n;
    if n == 0 {
    } else if i :| 0 <= i < |xs| && xs[i] == n - 1 {
      var rest := xs[..i] + xs[i + 1..];
      assert forall k :: 0 <= k < |rest| ==> rest[k] == if k < i then xs[k] else xs[k + 1];
      Pigeonhole(rest, n - 1);
    } else {
      Pigeonhole(xs, n - 1);
    }
  }

  /** A publisher that won the compare-exchange always finds room in the lane. */
  lemma SendHasRoom(s: Pool, a: nat)
    requires Shape(s) && TokenExact(s) && a < |s.agents| && s.agents[a].PublishSend?
    ensures |s.lane| < Capacity(s)
  {
    Pigeonhole(s.lane + [s.agents[a].slot], Capacity(s));
  }

  predicate Carrying(pc: Pc) {
    pc.PublishSend? || pc.Received?
  }

  /** `t` is `s` after agent `a` moved. */
  ghost predicate Moved(s: Pool, a: nat, t: Pool) {
    Shape(s) && Shape(t) && a < |s.agents| && t.agents == s.agents[a := if a < |t.agents| then t.agents[a] else Idle]
    && Capacity(t) == Capacity(s)
  }

  lemma TokenFrame(s: Pool, a: nat, t: Pool)
    requires Moved(s, a, t) && TokenExact(s) && t.token == s.token && t.lane == s.lane
    requires !Carrying(s.agents[a]) && !Carrying(t.agents[a])
    ensures TokenExact(t)
  {
    forall k | 0 <= k < Capacity(t) && t.token[k] && k !in t.lane
      ensures exists b :: 0 <= b < |t.agents| && Carries(t.agents[b], k)
    {
      var b :| 0 <= b < |s.agents| && Carries(s.agents[b], k);
      assert b != a && Carries(t.agents[b], k);
    }
  }

  lemma TokenReceive(s: Pool, a: nat, wanted: Option<nat>)
    requires Shape(s) && TokenExact(s) && a < |s.agents| && s.agents[a].Idle? && s.lane != []
    ensures Shape(Receiving(s, a, wanted)) && TokenExact(Receiving(s, a, wanted))
  {
    var t := Receiving(s, a, wanted);
    assert s.lane == [s.lane[0]] + t.lane;
    forall k | 0 <= k < Capacity(t) && t.token[k] && k !in t.lane
      ensures exists b :: 0 <= b < |t.agents| && Carries(t.agents[b], k)
    {
      if k == s.lane[0] {
        assert Carries(t.agents[a], k);
      } else {
        var b :| 0 <= b < |s.agents| && Carries(s.agents[b], k);
        assert Carries(t.agents[b], k);
      }
    }
  }

  lemma TokenClear(s: Pool, a: nat)
    requires Shape(s) && TokenExact(s) && a < |s.agents| && s.agents[a].Received?
    ensures Shape(Advanced(s, a)) && TokenExact(Advanced(s, a))
  {
    var t := Advanced(s, a);
    forall k | 0 <= k < Capacity(t) && t.token[k] && k !in t.lane
      ensures exists b :: 0 <= b < |t.agents| && Carries(t.agents[b], k)
    {
      var b :| 0 <= b < |s.agents| && Carries(s.agents[b], k);
      assert Carries(t.agents[b], k);
    }
  }

  lemma TokenCas(s: Pool, a: nat)
    requires Shape(s) && TokenExact(s) && a < |s.agents| && s.agents[a].PublishCasToken?
    ensures Shape(Advanced(s, a)) && TokenExact(Advanced(s, a))
  {
    var t := Advanced(s, a);
    if s.token[s.agents[a].slot] {
      TokenFrame(s, a, t);
    } else {
      forall k | 0 <= k < Capacity(t) && t.token[k] && k !in t.lane
        ensures exists b :: 0 <= b < |t.agents| && Carries(t.agents[b], k)
      {
        if k == s.agents[a].slot {
          assert Carries(t.agents[a], k);
        } else {
          var b :| 0 <= b < |s.agents| && Carries(s.agents[b], k);
          assert Carries(t.agents[b], k);
        }
      }
    }
  }

  lemma TokenSend(s: Pool, a: nat)
    requires Shape(s) && TokenExact(s) && a < |s.agents| && s.agents[a].PublishSend?
    ensures Shape(Advanced(s, a)) && TokenExact(Advanced(s, a)) && Advanced(s, a).agents[a].Idle?
  {
    SendHasRoom(s, a);
    var t := Advanced(s, a);
    var slot := s.agents[a].slot;
    assert t.lane[|s.lane|] == slot;
    forall k | 0 <= k < Capacity(t) && t.token[k] && k !in t.lane
      ensures exists b :: 0 <= b < |t.agents| && Carries(t.agents[b], k)
    {
      assert forall x :: x in s.lane ==> x in t.lane;
      var b :| 0 <= b < |s.agents| && Carries(s.agents[b], k);
      assert Carries(t.agents[b], k);
    }
  }

  lemma StepKeepsToken(s: Pool, a: nat, action: Action)
    requires Inv(s)
    ensures Shape(Step(s, a, action)) && TokenExact(Step(s, a, action))
  {
    var t := Step(s, a, action);
    if t != s {
      if action.Receive? {
        TokenReceive(s, a, None);
      } else if action.ReceiveExact? {
        TokenReceive(s, a, Some(action.wanted));
      } else if action.Advance? && s.agents[a].Received? {
        TokenClear(s, a);
      } else if action.Advance? && s.agents[a].PublishCasToken? {
        TokenCas(s, a);
      } else if action.Advance? && s.agents[a].PublishSend? {
        TokenSend(s, a);
      } else {
        assert FenceOk(s.agents[a], s.generation);
        TokenFrame(s, a, t);
      }
    }
  }

  lemma OwnedFrame(kind: Ownership, flag: seq<bool>, agents: seq<Pc>, a: nat, pc: Pc)
    requires ExactlyOwned(kind, flag, agents) && a < |agents|
    requires forall k :: 0 <= k < |flag| ==> Owner(kind, agents[a], k) == Owner(kind, pc, k)
    ensures ExactlyOwned(kind, flag, agents[a := pc])
  {
    var agents' := agents[a := pc];
    forall k | 0 <= k < |flag| && flag[k]
      ensures exists b :: 0 <= b < |agents| && Owner(kind, agents'[b], k)
    {
      var b :| 0 <= b < |agents| && Owner(kind, agents[b], k);
      assert Owner(kind, agents'[b], k);
    }
  }

  lemma OwnedAcquire(kind: Ownership, flag: seq<bool>, agents: seq<Pc>, a: nat, pc: Pc, slot: nat)
    requires ExactlyOwned(kind, flag, agents) && a < |agents| && slot < |flag| && !flag[slot]
    requires forall k :: 0 <= k < |flag| ==> !Owner(kind, agents[a], k) && Owner(kind, pc, k) == (k == slot)
    ensures ExactlyOwned(kind, flag[slot := true], agents[a := pc])
  {
    var agents' := agents[a := pc];
    var flag' := flag[slot := true];
    forall k | 0 <= k < |flag| && flag'[k]
      ensures exists b :: 0 <= b < |agents| && Owner(kind, agents'[b], k)
    {
      if k == slot {
        assert Owner(kind, agents'[a], k);
      } else {
        var b :| 0 <= b < |agents| && Owner(kind, agents[b], k);
        assert Owner(kind, agents'[b], k);
      }
    }
  }

  lemma OwnedRelease(kind: Ownership, flag: seq<bool>, agents: seq<Pc>, a: nat, pc: Pc, slot: nat)
    requires ExactlyOwned(kind, flag, agents) && a < |agents| && slot < |flag|
    requires Owner(kind, agents[a], slot)
    requires forall k :: 0 <= k < |flag| ==> !Owner(kind, pc, k) && (Owner(kind, agents[a], k) ==> k == slot)
    ensures ExactlyOwned(kind, flag[slot := false], agents[a := pc])
  {
    var agents' := agents[a := pc];
    var flag' := flag[slot := false];
    forall k | 0 <= k < |flag| && flag'[k]
      ensures exists b :: 0 <= b < |agents| && Owner(kind, agents'[b], k)
    {
      var b :| 0 <= b < |agents| && Owner(kind, agents[b], k);
      assert Owner(kind, agents'[b], k);
    }
  }

  /** Which step takes and which gives back each flag. */
  lemma FlagWrites(s: Pool, a: nat, action: Action)
    requires Shape(s) && Shape(Step(s, a, action)) && Step(s, a, action) != s
    requires a < |s.agents| ==> FenceOk(s.agents[a], s.generation)
    ensures var t := Step(s, a, action);
            && Moved(s, a, t)
            && var was, pc := s.agents[a], t.agents[a];
            && (if was.ClaimCasBusy? && pc.Permit? then
                  !s.busy[was.slot] && pc.slot == was.slot && t.busy == s.busy[was.slot := true]
                else if was.Permit? then !pc.Permit? && t.busy == s.busy[was.slot := false]
                else t.busy == s.busy && !pc.Permit?)
            && (if was.RebuildCasQuarantine? && Repairs(pc) then
                  !s.quarantined[was.slot] && pc.slot == was.slot && t.quarantined == s.quarantined[was.slot := true]
                else if was.Releasing? then !Repairs(pc) && t.quarantined == s.quarantined[was.slot := false]
                else t.quarantined == s.quarantined
                     && (if Repairs(was) then Repairs(pc) && pc.slot == was.slot else !Repairs(pc)))
  {
  }

  lemma StepKeepsOwners(s: Pool, a: nat, action: Action)
    requires Inv(s) && Shape(Step(s, a, action))
    ensures var t := Step(s, a, action);
            ExactlyOwned(ByPermit, t.busy, t.agents) && ExactlyOwned(ByRepair, t.quarantined, t.agents)
  {
    var t := Step(s, a, action);
    if t != s {
      FlagWrites(s, a, action);
      var was, pc := s.agents[a], t.agents[a];
      if was.ClaimCasBusy? && pc.Permit? {
        OwnedAcquire(ByPermit, s.busy, s.agents, a, pc, was.slot);
      } else if was.Permit? {
        OwnedRelease(ByPermit, s.busy, s.agents, a, pc, was.slot);
      } else {
        OwnedFrame(ByPermit, s.busy, s.agents, a, pc);
      }
      if was.RebuildCasQuarantine? && Repairs(pc) {
        OwnedAcquire(ByRepair, s.quarantined, s.agents, a, pc, was.slot);
      } else if was.Releasing? {
        OwnedRelease(ByRepair, s.quarantined, s.agents, a, pc, was.slot);
      } else {
        OwnedFrame(ByRepair, s.quarantined, s.agents, a, pc);
      }
    }
  }

  /** The generation of a slot is written only by its repair owner, so every other
      agent's fence survives. */
  lemma FenceSurvives(s: Pool, a: nat, action: Action, b: nat)
    requires Inv(s) && Shape(Step(s, a, action)) && b < |s.agents|
    ensures FenceOk(Step(s, a, action).agents[b], Step(s, a, action).generation)
  {
    assert FenceOk(s.agents[b], s.generation);
    if a < |s.agents| {
      assert FenceOk(s.agents[a], s.generation);
      if s.agents[a].PublishSend? { SendHasRoom(s, a); }
      if s.agents[a].InstallBump? && a != b && Repairs(s.agents[b]) {
        assert Owner(ByRepair, s.agents[a], s.agents[a].slot);
        assert Owner(ByRepair, s.agents[b], s.agents[b].slot);
      }
    }
  }

  /** Every way of leaving the debt behind settles it, and every way of making a slot
      available again takes the debt on. */
  lemma DebtSettled(s: Pool, a: nat, action: Action, k: nat)
    requires Shape(s) && Shape(Step(s, a, action)) && a < |s.agents| && k < Capacity(s)
    requires FenceOk(s.agents[a], s.generation)
    requires Step(s, a, action) != s
    ensures var t := Step(s, a, action);
            && Moved(s, a, t)
            && (t.busy[k] || t.quarantined[k] || t.token[k] || Owes(t.agents[a], k)
                || (!s.busy[k] && !s.quarantined[k] && !s.token[k] && !Owes(s.agents[a], k)))
  {
  }

  lemma StepKeepsNoneLost(s: Pool, a: nat, action: Action)
    requires Inv(s)
    ensures Shape(Step(s, a, action)) && NoneLost(Step(s, a, action))
  {
    StepKeepsToken(s, a, action);
    var t := Step(s, a, action);
    if t != s {
      assert FenceOk(s.agents[a], s.generation);
      assert Moved(s, a, t) by { DebtSettled(s, a, action, 0); }
      forall k | 0 <= k < Capacity(t) && !t.busy[k] && !t.quarantined[k] && !t.token[k]
        ensures exists b :: 0 <= b < |t.agents| && Owes(t.agents[b], k)
      {
        DebtSettled(s, a, action, k);
        if !Owes(t.agents[a], k) {
          var b :| 0 <= b < |s.agents| && Owes(s.agents[b], k);
          assert Owes(t.agents[b], k);
        }
      }
    }
  }

  lemma StepKeepsInv(s: Pool, a: nat, action: Action)
    requires Inv(s)
    ensures Inv(Step(s, a, action))
  {
    StepKeepsToken(s, a, action);
    StepKeepsOwners(s, a, action);
    StepKeepsNoneLost(s, a, action);
    forall b | 0 <= b < |s.agents| ensures FenceOk(Step(s, a, action).agents[b], Step(s, a, action).generation) {
      FenceSurvives(s, a, action, b);
    }
  }

  lemma NewInv(slots: nat, agents: nat)
    ensures Inv(New(slots, agents))
  {
    var s := New(slots, agents);
    forall k | 0 <= k < Capacity(s) ensures k in s.lane {
      assert s.lane[k] == k;
    }
  }

  // ------------------------------------------------------------------ runs

  /** A run schedules agents one atomic step at a time, in any order. */
  function Run(s: Pool, schedule: seq<(nat, Action)>): (t: Pool)
    requires Shape(s)
    decreases |schedule|
  {
    if schedule == [] then s
    else
      var t := Step(s, schedule[0].0, schedule[0].1);
      if Shape(t) then Run(t, schedule[1..]) else t
  }

  lemma {:induction false} RunKeepsInv(s: Pool, schedule: seq<(nat, Action)>)
    requires Inv(s)
    ensures Inv(Run(s, schedule))
    decreases |schedule|
  {
    if schedule != [] {
      StepKeepsInv(s, schedule[0].0, schedule[0].1);
      RunKeepsInv(Step(s, schedule[0].0, schedule[0].1), schedule[1..]);
    }
  }

  lemma ReachableInv(slots: nat, agents: nat, schedule: seq<(nat, Action)>)
    ensures Inv(Run(New(slots, agents), schedule))
  {
    NewInv(slots, agents);
    RunKeepsInv(New(slots, agents), schedule);
  }

  // ------------------------------------------------------------------ theorems

  /** No slot is ever lost: in every interleaving each slot is busy, quarantined, has its
      token bit set, or has an agent inside claim or publish that still owes the token. */
  lemma NoSlotLost(slots: nat, agents: nat, schedule: seq<(nat, Action)>, k: nat)
    ensures var s := Run(New(slots, agents), schedule);
            Shape(s) && (k < Capacity(s) ==>
              || s.busy[k] || s.quarantined[k] || s.token[k]
              || exists a :: 0 <= a < |s.agents| && Owes(s.agents[a], k))
  {
    ReachableInv(slots, agents, schedule);
  }

  /** Outside claim, publish and the receive-to-clear window an agent neither carries nor
      owes a token. */
  predicate Quiescent(s: Pool) {
    forall a :: 0 <= a < |s.agents| ==>
      var pc := s.agents[a];
      pc.Idle? || pc.Permit? || pc.Handle? || pc.RebuildCasQuarantine? || Repairs(pc)
  }

  function Copies(lane: seq<nat>, k: nat): nat {
    if lane == [] then 0 else (if lane[0] == k then 1 else 0) + Copies(lane[1..], k)
  }

  lemma {:induction false} DistinctCopies(lane: seq<nat>, k: nat)
    requires Distinct(lane)
    ensures Copies(lane, k) == if k in lane then 1 else 0
  {
    if lane != [] {
      assert lane == [lane[0]] + lane[1..];
      DistinctCopies(lane[1..], k);
      assert lane[0] !in lane[1..];
    }
  }

  /** When nothing is in progress, a free unquarantined slot has exactly one token in the
      lane, and a slot whose token bit is clear has none. */
  lemma QuiescentSlotHasOneToken(slots: nat, agents: nat, schedule: seq<(nat, Action)>, k: nat)
    requires Quiescent(Run(New(slots, agents), schedule))
    ensures var s := Run(New(slots, agents), schedule);
            Shape(s) && (k < Capacity(s) ==>
              && (!s.busy[k] && !s.quarantined[k] ==> Copies(s.lane, k) == 1)
              && Copies(s.lane, k) == if s.token[k] then 1 else 0)
  {
    ReachableInv(slots, agents, schedule);
    var s := Run(New(slots, agents), schedule);
    DistinctCopies(s.lane, k);
    if k < Capacity(s) {
      assert forall a :: 0 <= a < |s.agents| ==> !Owes(s.agents[a], k) && !Carries(s.agents[a], k);
    }
  }

  /** How many agents carry the slot's token. */
  function Carriers(agents: seq<Pc>, k: nat): nat {
    if agents == [] then 0 else (if Carries(agents[0], k) then 1 else 0) + Carriers(agents[1..], k)
  }

  lemma {:induction false} CarriersBound(agents: seq<Pc>, k: nat)
    requires forall a, b :: 0 <= a < b < |agents| ==> !(Carries(agents[a], k) && Carries(agents[b], k))
    ensures Carriers(agents, k) == if exists a :: 0 <= a < |agents| && Carries(agents[a], k) then 1 else 0
  {
    if agents != [] {
      CarriersBound(agents[1..], k);
      if a :| 0 <= a < |agents| && Carries(agents[a], k) && a > 0 {
        assert Carries(agents[1..][a - 1], k);
      } else {
        assert forall a :: 0 <= a < |agents[1..]| ==> agents[1..][a] == agents[a + 1];
      }
    }
  }

  /** `available_token` is set exactly when one carrier of the slot's token exists, be it
      a lane entry, a publisher before its send or a receiver before its clearing store;
      and it is clear exactly when none does. */
  lemma TokenHasOneCarrier(slots: nat, agents: nat, schedule: seq<(nat, Action)>, k: nat)
    ensures var s := Run(New(slots, agents), schedule);
            Shape(s) && (k < Capacity(s) ==>
              Copies(s.lane, k) + Carriers(s.agents, k) == if s.token[k] then 1 else 0)
  {
    ReachableInv(slots, agents, schedule);
    var s := Run(New(slots, agents), schedule);
    if k < Capacity(s) {
      DistinctCopies(s.lane, k);
      forall a, b | 0 <= a < b < |s.agents| ensures !(Carries(s.agents[a], k) && Carries(s.agents[b], k)) {
      }
      CarriersBound(s.agents, k);
    }
  }

  /** The bounded lane never refuses a token: a publisher at its send has room, so the
      undo branch is never entered. */
  lemma LaneNeverFull(slots: nat, agents: nat, schedule: seq<(nat, Action)>, a: nat)
    ensures var s := Run(New(slots, agents), schedule);
            a < |s.agents| ==>
              && (s.agents[a].PublishSend? ==> |s.lane| < Capacity(s))
              && !s.agents[a].PublishUndo?
  {
    ReachableInv(slots, agents, schedule);
    var s := Run(New(slots, agents), schedule);
    if a < |s.agents| {
      assert FenceOk(s.agents[a], s.generation);
      if s.agents[a].PublishSend? { SendHasRoom(s, a); }
    }
  }

  /** Never double-dispatched: two agents never hold a permit for one slot, and the busy
      flag is set exactly while one does. */
  lemma OnePermitPerSlot(slots: nat, agents: nat, schedule: seq<(nat, Action)>, k: nat)
    ensures var s := Run(New(slots, agents), schedule);
            Shape(s) && (k < Capacity(s) ==>
              && (s.busy[k] <==> exists a :: 0 <= a < |s.agents| && Holds(s.agents[a], k))
              && (forall a, b | 0 <= a < |s.agents| && 0 <= b < |s.agents| ::
                    Holds(s.agents[a], k) && Holds(s.agents[b], k) ==> a == b))
  {
    ReachableInv(slots, agents, schedule);
    var s := Run(New(slots, agents), schedule);
    assert forall a, i :: 0 <= a < |s.agents| ==> Owner(ByPermit, s.agents[a], i) == Holds(s.agents[a], i);
  }

  /** Single repair ownership: `quarantined` is set exactly while one agent owns the
      slot's repair, and no repair task ever returns with its quarantine still set. */
  lemma OneRepairOwner(slots: nat, agents: nat, schedule: seq<(nat, Action)>, k: nat)
    ensures var s := Run(New(slots, agents), schedule);
            Shape(s) && (k < Capacity(s) ==>
              && (s.quarantined[k] <==> exists a :: 0 <= a < |s.agents| && OwnsRepair(s.agents[a], k))
              && (forall a, b | 0 <= a < |s.agents| && 0 <= b < |s.agents| ::
                    OwnsRepair(s.agents[a], k) && OwnsRepair(s.agents[b], k) ==> a == b)
              && (forall a :: 0 <= a < |s.agents| ==> !s.agents[a].Abandoned?))
  {
    ReachableInv(slots, agents, schedule);
    var s := Run(New(slots, agents), schedule);
    assert forall a, i :: 0 <= a < |s.agents| ==> Owner(ByRepair, s.agents[a], i) == OwnsRepair(s.agents[a], i);
    forall a | 0 <= a < |s.agents| ensures !s.agents[a].Abandoned? {
      assert FenceOk(s.agents[a], s.generation);
    }
  }

  /** A slot's generation moves only by the install of the agent that owns its
      quarantine, whose fence equals the generation it replaces, and by exactly one. */
  lemma GenerationMovesByOwner(slots: nat, agents: nat, schedule: seq<(nat, Action)>, a: nat, action: Action, k: nat)
    ensures var s := Run(New(slots, agents), schedule);
            Shape(s) && (var t := Step(s, a, action);
            |t.generation| == Capacity(s) && (k < Capacity(s) && t.generation[k] != s.generation[k] ==>
              && a < |s.agents| && s.agents[a] == InstallBump(k, s.generation[k])
              && s.quarantined[k] && t.generation[k] == s.generation[k] + 1))
  {
    ReachableInv(slots, agents, schedule);
    var s := Run(New(slots, agents), schedule);
    StepKeepsInv(s, a, action);
    if a < |s.agents| {
      assert FenceOk(s.agents[a], s.generation);
      assert Repairs(s.agents[a]) ==> Owner(ByRepair, s.agents[a], s.agents[a].slot);
    }
  }

  /** The generation fence of a repair: a claim that passed its recheck is current until
      it installs, so it can always install; its release comes exactly one generation
      later; and a claim made on an older generation only ever gives back the quarantine
      that it took itself. */
  lemma RepairFence(slots: nat, agents: nat, schedule: seq<(nat, Action)>, a: nat)
    ensures var s := Run(New(slots, agents), schedule);
            Shape(s) && (a < |s.agents| && Repairs(s.agents[a]) ==>
              var pc := s.agents[a];
              && s.quarantined[pc.slot]
              && (pc.Repairing? ==> Step(s, a, Advance).agents[a] == InstallBump(pc.slot, pc.picked))
              && (pc.InstallBump? ==> pc.picked == s.generation[pc.slot])
              && (pc.Releasing? && pc.installed ==> s.generation[pc.slot] == pc.picked + 1)
              && (pc.Releasing? && !pc.installed ==> pc.picked < s.generation[pc.slot]))
  {
    ReachableInv(slots, agents, schedule);
    var s := Run(New(slots, agents), schedule);
    if a < |s.agents| {
      assert FenceOk(s.agents[a], s.generation);
      assert Repairs(s.agents[a]) ==> Owner(ByRepair, s.agents[a], s.agents[a].slot);
    }
  }
}
