/** Whom an acquire serves: an exact acquire takes only the slot it asked for, a permit follows a
    clear quarantine flag, and both an exact acquire and a repair get where they are going. */
module SlotAcquire {
  import opened Common
  import opened SlotPool

  // ------------------------------------------------------------------ the observer

  datatype Ask = Nothing | Any | Exact(slot: nat)

  /** What each agent last asked for, and what it has read since it last asked or published: the
      quarantine flag clear, the busy flag clear. */
  datatype Note = Note(ask: Ask, sawSound: bool, sawFree: bool)

  const BLANK: Note := Note(Nothing, false, false)

  function Noted(s: Pool, a: nat, action: Action, note: Note): Note
    requires Shape(s) && a < |s.agents|
  {
    match action
    case Receive => if s.agents[a].Idle? then Note(Any, false, false) else note
    case ReceiveExact(wanted) =>
      if s.agents[a].Idle? && wanted < Capacity(s) then Note(Exact(wanted), false, false) else note
    case Advance =>
      (match s.agents[a]
       case ClaimLoadQuarantine(slot) => note.(sawSound := !s.quarantined[slot])
       case PublishLoadBusy(slot) => note.(sawFree := !s.busy[slot], sawSound := false)
       case PublishLoadQuarantine(slot) => note.(sawSound := !s.quarantined[slot])
       case _ => note)
    case _ => note
  }

  function Watched(s: Pool, a: nat, action: Action, notes: seq<Note>): (next: seq<Note>)
    requires Shape(s) && |notes| == |s.agents|
    ensures |next| == |notes|
  {
    if a < |notes| then notes[a := Noted(s, a, action, notes[a])] else notes
  }

  /** An agent on its way to a permit: it is served what it asked for and has seen the slot sound. */
  predicate Serves(pc: Pc, note: Note) {
    match pc
    case Received(slot, claim) => claim <==> note.ask == Any || note.ask == Exact(slot)
    case ClaimLoadQuarantine(slot) => note.ask == Any || note.ask == Exact(slot)
    case ClaimCasBusy(slot) => (note.ask == Any || note.ask == Exact(slot)) && note.sawSound
    case Permit(slot) => (note.ask == Any || note.ask == Exact(slot)) && note.sawSound
    case PublishLoadQuarantine(_) => note.sawFree
    case PublishCasToken(_) => note.sawFree && note.sawSound
    case PublishSend(_) => note.sawFree && note.sawSound
    case _ => true
  }

  ghost predicate Served(s: Pool, notes: seq<Note>) {
    |notes| == |s.agents| && forall a :: 0 <= a < |notes| ==> Serves(s.agents[a], notes[a])
  }

  lemma StepServes(s: Pool, a: nat, action: Action, notes: seq<Note>)
    requires Inv(s) && Served(s, notes)
    ensures Served(Step(s, a, action), Watched(s, a, action, notes)) && |Step(s, a, action).agents| == |s.agents|
  {
    var t, next := Step(s, a, action), Watched(s, a, action, notes);
    if a < |s.agents| {
      assert Serves(s.agents[a], notes[a]) && FenceOk(s.agents[a], s.generation);
      assert Serves(t.agents[a], next[a]);
      forall b | 0 <= b < |next| ensures Serves(t.agents[b], next[b]) {
        if b != a { assert t.agents[b] == s.agents[b] && next[b] == notes[b]; }
      }
    }
  }

  function RunWatched(s: Pool, schedule: seq<(nat, Action)>, notes: seq<Note>): (r: (Pool, seq<Note>))
    requires Shape(s) && |notes| == |s.agents|
    decreases |schedule|
  {
    if schedule == [] then (s, notes)
    else
      var t := Step(s, schedule[0].0, schedule[0].1);
      if Shape(t) && |t.agents| == |notes|
      then RunWatched(t, schedule[1..], Watched(s, schedule[0].0, schedule[0].1, notes))
      else (t, notes)
  }

  lemma {:induction false} RunServes(s: Pool, schedule: seq<(nat, Action)>, notes: seq<Note>)
    requires Inv(s) && Served(s, notes)
    ensures var (t, seen) := RunWatched(s, schedule, notes);
            t == Run(s, schedule) && Served(t, seen) && |t.agents| == |s.agents|
    decreases |schedule|
  {
    if schedule != [] {
      StepKeepsInv(s, schedule[0].0, schedule[0].1);
      StepServes(s, schedule[0].0, schedule[0].1, notes);
      RunServes(Step(s, schedule[0].0, schedule[0].1), schedule[1..],
                Watched(s, schedule[0].0, schedule[0].1, notes));
    }
  }

  /** In every interleaving, an agent that last asked for one exact slot holds a permit for that
      slot or for none, and every permit was claimed after its holder read the quarantine flag
      clear; a token goes back into the lane only after its publisher read both flags clear. */
  lemma PermitIsWhatWasAsked(slots: nat, agents: nat, schedule: seq<(nat, Action)>, a: nat)
    requires a < agents
    ensures var (s, notes) := RunWatched(New(slots, agents), schedule, seq(agents, _ => BLANK));
            && s == Run(New(slots, agents), schedule) && |notes| == |s.agents| == agents && Shape(s)
            && (s.agents[a].Permit? ==> notes[a].sawSound && !notes[a].ask.Nothing?
                                        && (notes[a].ask.Exact? ==> s.agents[a].slot == notes[a].ask.slot))
            && (s.agents[a].PublishSend? ==> notes[a].sawSound && notes[a].sawFree)
            && (s.agents[a].Received? && notes[a].ask.Exact? && s.agents[a].slot != notes[a].ask.slot ==>
                  Advanced(s, a).agents[a] == PublishLoadBusy(s.agents[a].slot))
  {
    NewInv(slots, agents);
    RunKeepsInv(New(slots, agents), schedule);
    RunServes(New(slots, agents), schedule, seq(agents, _ => BLANK));
    var (s, notes) := RunWatched(New(slots, agents), schedule, seq(agents, _ => BLANK));
    assert Serves(s.agents[a], notes[a]);
  }

  // ------------------------------------------------------------------ an exact acquire arrives

  /** One agent's steps, one after another. */
  function Advances(a: nat, n: nat): (schedule: seq<(nat, Action)>)
    ensures |schedule| == n && forall i :: 0 <= i < n ==> schedule[i] == (a, Advance)
  {
    if n == 0 then [] else [(a, Advance)] + Advances(a, n - 1)
  }

  lemma RunCons(s: Pool, a: nat, action: Action, rest: seq<(nat, Action)>)
    requires Shape(s) && Shape(Step(s, a, action))
    ensures Run(s, [(a, action)] + rest) == Run(Step(s, a, action), rest)
  {
    assert ([(a, action)] + rest)[1..] == rest;
  }

  function Receives(schedule: seq<(nat, Action)>): nat {
    if schedule == [] then 0 else (if schedule[0].1.Receive? || schedule[0].1.ReceiveExact? then 1 else 0)
                                  + Receives(schedule[1..])
  }

  /** A token taken off the lane and, unless its slot is busy or quarantined, put back at its end. */
  function PutBack(s: Pool): Pool
    requires Shape(s) && s.lane != [] && s.lane[0] < Capacity(s)
  {
    var slot := s.lane[0];
    if s.busy[slot] || s.quarantined[slot] then s.(lane := s.lane[1..], token := s.token[slot := false])
    else s.(lane := s.lane[1..] + [slot])
  }

  lemma Cleared(s: Pool, a: nat, wanted: nat)
    requires Inv(s) && a < |s.agents| && s.agents[a].Idle? && wanted < Capacity(s) && s.lane != []
    ensures s.lane[0] < Capacity(s)
    ensures var slot := s.lane[0];
            var t := Step(s, a, ReceiveExact(wanted));
            && Shape(t) && Step(t, a, Advance) ==
               s.(lane := s.lane[1..], token := s.token[slot := false],
                  agents := s.agents[a := if slot == wanted then ClaimLoadQuarantine(slot) else PublishLoadBusy(slot)])
  {
    StepKeepsInv(s, a, ReceiveExact(wanted));
  }

  /** A publisher with nothing in its way, four steps on. */
  lemma Republished(s: Pool, a: nat, slot: nat)
    requires Shape(s) && a < |s.agents| && s.agents[a] == PublishLoadBusy(slot) && !s.token[slot]
    requires |s.lane| < Capacity(s)
    ensures var t1 := Step(s, a, Advance);
            && Shape(t1) && (var t2 := Step(t1, a, Advance);
            && Shape(t2) && (var t3 := Step(t2, a, Advance);
            && Shape(t3) && Step(t3, a, Advance) ==
               if s.busy[slot] || s.quarantined[slot] then s.(agents := s.agents[a := Idle])
               else s.(agents := s.agents[a := Idle], token := s.token[slot := true], lane := s.lane + [slot])))
  {
    var t1 := Step(s, a, Advance);
    if s.busy[slot] {
      assert t1.agents[a] == Idle;
    } else {
      var t2 := Step(t1, a, Advance);
      if s.quarantined[slot] {
        assert t2.agents[a] == Idle;
      } else {
        assert t2.agents[a] == PublishCasToken(slot);
        assert t2.agents == s.agents[a := PublishCasToken(slot)];
        var t3 := Step(t2, a, Advance);
        assert t3.agents == s.agents[a := PublishSend(slot)];
      }
    }
  }

  lemma PassesOn(s: Pool, a: nat, wanted: nat)
    requires Inv(s) && a < |s.agents| && s.agents[a].Idle? && wanted < Capacity(s)
    requires s.lane != [] && s.lane[0] != wanted
    ensures s.lane[0] < Capacity(s) && Run(s, [(a, ReceiveExact(wanted))] + Advances(a, 5)) == PutBack(s)
  {
    var slot := s.lane[0];
    Cleared(s, a, wanted);
    Pigeonhole(s.lane, Capacity(s));
    var t := Step(s, a, ReceiveExact(wanted));
    var t1 := Step(t, a, Advance);
    Republished(t1, a, slot);
    var t2 := Step(t1, a, Advance);
    var t3 := Step(t2, a, Advance);
    var t4 := Step(t3, a, Advance);
    var t5 := Step(t4, a, Advance);
    assert s.agents[a := PublishLoadBusy(slot)][a := Idle] == s.agents;
    assert s.token[slot := false][slot := true] == s.token;
    assert t5 == PutBack(s);
    RunCons(s, a, ReceiveExact(wanted), Advances(a, 5));
    RunCons(t, a, Advance, Advances(a, 4));
    RunCons(t1, a, Advance, Advances(a, 3));
    RunCons(t2, a, Advance, Advances(a, 2));
    RunCons(t3, a, Advance, Advances(a, 1));
    RunCons(t4, a, Advance, Advances(a, 0));
  }

  lemma {:induction false} RunConcat(s: Pool, xs: seq<(nat, Action)>, ys: seq<(nat, Action)>)
    requires Inv(s)
    ensures Shape(Run(s, xs)) && Run(s, xs + ys) == Run(Run(s, xs), ys)
    ensures Receives(xs + ys) == Receives(xs) + Receives(ys)
    decreases |xs|
  {
    if xs == [] {
      assert xs + ys == ys;
    } else {
      assert (xs + ys)[1..] == xs[1..] + ys;
      StepKeepsInv(s, xs[0].0, xs[0].1);
      RunConcat(Step(s, xs[0].0, xs[0].1), xs[1..], ys);
    }
  }

  lemma Claims(s: Pool, a: nat, wanted: nat)
    requires Inv(s) && a < |s.agents| && s.agents[a].Idle? && wanted < Capacity(s)
    requires s.lane != [] && s.lane[0] == wanted && !s.busy[wanted] && !s.quarantined[wanted]
    ensures var t := Run(s, [(a, ReceiveExact(wanted))] + Advances(a, 3));
            |t.agents| == |s.agents| && t.agents[a] == Permit(wanted)
  {
    Cleared(s, a, wanted);
    var t := Step(s, a, ReceiveExact(wanted));
    var t1 := Step(t, a, Advance);
    ClaimsSound(t1, a, wanted);
    RunCons(s, a, ReceiveExact(wanted), Advances(a, 3));
    RunCons(t, a, Advance, Advances(a, 2));
  }

  lemma ClaimsSound(s: Pool, a: nat, slot: nat)
    requires Shape(s) && a < |s.agents| && s.agents[a] == ClaimLoadQuarantine(slot)
    requires !s.busy[slot] && !s.quarantined[slot]
    ensures var t := Run(s, Advances(a, 2)); |t.agents| == |s.agents| && t.agents[a] == Permit(slot)
  {
    var t := Step(s, a, Advance);
    assert t == s.(agents := s.agents[a := ClaimCasBusy(slot)]);
    RunCons(s, a, Advance, Advances(a, 1));
    RunCons(t, a, Advance, Advances(a, 0));
  }

  lemma {:induction false} NoReceives(schedule: seq<(nat, Action)>)
    requires forall i :: 0 <= i < |schedule| ==> schedule[i].1.Advance?
    ensures Receives(schedule) == 0
  {
    if schedule != [] { NoReceives(schedule[1..]); }
  }

  /** The agent takes the front token, which is not the one it wants, and passes it on. */
  lemma ScanTurn(s: Pool, a: nat, wanted: nat, at: nat)
    requires Inv(s) && a < |s.agents| && s.agents[a].Idle? && wanted < Capacity(s)
    requires 0 < at < |s.lane| && s.lane[at] == wanted && !s.busy[wanted] && !s.quarantined[wanted]
    ensures var turn := [(a, ReceiveExact(wanted))] + Advances(a, 5);
            var t := Run(s, turn);
            && Receives(turn) == 1
            && Inv(t) && |t.agents| == |s.agents| && t.agents[a].Idle? && Capacity(t) == Capacity(s)
            && at - 1 < |t.lane| && t.lane[at - 1] == wanted && !t.busy[wanted] && !t.quarantined[wanted]
  {
    var turn := [(a, ReceiveExact(wanted))] + Advances(a, 5);
    assert s.lane[0] != s.lane[at];
    PassesOn(s, a, wanted);
    RunKeepsInv(s, turn);
    NoReceives(Advances(a, 5));
    assert turn[1..] == Advances(a, 5);
  }

  /** An agent alone scans up to the token of the slot it wants, putting every other one back. */
  lemma {:induction false} ScansTo(s: Pool, a: nat, wanted: nat, at: nat) returns (schedule: seq<(nat, Action)>)
    requires Inv(s) && a < |s.agents| && s.agents[a].Idle? && wanted < Capacity(s)
    requires at < |s.lane| && s.lane[at] == wanted && !s.busy[wanted] && !s.quarantined[wanted]
    ensures Receives(schedule) == at + 1 && (forall i :: 0 <= i < |schedule| ==> schedule[i].0 == a)
    ensures var t := Run(s, schedule); |t.agents| == |s.agents| && t.agents[a] == Permit(wanted)
    decreases at
  {
    if at == 0 {
      schedule := [(a, ReceiveExact(wanted))] + Advances(a, 3);
      Claims(s, a, wanted);
      NoReceives(Advances(a, 3));
      assert schedule[1..] == Advances(a, 3);
    } else {
      var turn := [(a, ReceiveExact(wanted))] + Advances(a, 5);
      ScanTurn(s, a, wanted, at);
      var rest := ScansTo(Run(s, turn), a, wanted, at - 1);
      schedule := turn + rest;
      RunConcat(s, turn, rest);
    }
  }

  /** With nothing else in progress, an exact acquire of a slot that is free and sound reaches its
      permit, and within as many receives as there are tokens in the lane. */
  lemma ExactAcquireArrives(slots: nat, agents: nat, before: seq<(nat, Action)>, a: nat, wanted: nat)
    returns (schedule: seq<(nat, Action)>)
    requires Quiescent(Run(New(slots, agents), before))
    requires var s := Run(New(slots, agents), before);
             a < |s.agents| && s.agents[a].Idle? && Shape(s) && wanted < Capacity(s)
             && !s.busy[wanted] && !s.quarantined[wanted]
    ensures var s := Run(New(slots, agents), before);
            && Receives(schedule) <= |s.lane| && (forall i :: 0 <= i < |schedule| ==> schedule[i].0 == a)
            && Shape(s) && a < |Run(s, schedule).agents| && Run(s, schedule).agents[a] == Permit(wanted)
  {
    var s := Run(New(slots, agents), before);
    ReachableInv(slots, agents, before);
    assert forall b :: 0 <= b < |s.agents| ==> !Owes(s.agents[b], wanted) && !Carries(s.agents[b], wanted);
    assert s.token[wanted] && wanted in s.lane;
    var at :| 0 <= at < |s.lane| && s.lane[at] == wanted;
    schedule := ScansTo(s, a, wanted, at);
  }

  // ------------------------------------------------------------------ a repair completes

  /** A handle picked now, of a slot that nobody repairs, claims the repair. */
  lemma Quarantines(s: Pool, a: nat, slot: nat)
    requires Inv(s) && a < |s.agents| && s.agents[a].Idle? && slot < Capacity(s) && !s.quarantined[slot]
    ensures Run(s, [(a, Pick(slot))] + Advances(a, 2)) ==
            s.(agents := s.agents[a := RebuildRecheck(slot, s.generation[slot])],
               quarantined := s.quarantined[slot := true])
  {
    var g := s.generation[slot];
    var t := Step(s, a, Pick(slot));
    var t1 := Step(t, a, Advance);
    assert t1 == s.(agents := s.agents[a := RebuildCasQuarantine(slot, g)]);
    RunCons(s, a, Pick(slot), Advances(a, 2));
    RunCons(t, a, Advance, Advances(a, 1));
    RunCons(t1, a, Advance, Advances(a, 0));
  }

  lemma Bumps(s: Pool, a: nat, slot: nat)
    requires Shape(s) && a < |s.agents| && slot < Capacity(s) && s.agents[a] == InstallBump(slot, s.generation[slot])
    ensures var t := Run(s, Advances(a, 2));
            && t.agents == s.agents[a := PublishLoadBusy(slot)] && t.quarantined == s.quarantined[slot := false]
            && t.generation == s.generation[slot := s.generation[slot] + 1]
  {
    var g := s.generation[slot];
    var t := Step(s, a, Advance);
    assert t == s.(agents := s.agents[a := Releasing(slot, g, true)], generation := s.generation[slot := g + 1]);
    RunCons(s, a, Advance, Advances(a, 1));
    RunCons(t, a, Advance, Advances(a, 0));
  }

  lemma StaysCurrent(s: Pool, a: nat, slot: nat)
    requires Shape(s) && a < |s.agents| && slot < Capacity(s) && s.agents[a] == Repairing(slot, s.generation[slot])
    ensures var t := Run(s, Advances(a, 3));
            && t.agents == s.agents[a := PublishLoadBusy(slot)] && t.quarantined == s.quarantined[slot := false]
            && t.generation == s.generation[slot := s.generation[slot] + 1]
  {
    var t := Step(s, a, Advance);
    assert t == s.(agents := s.agents[a := InstallBump(slot, s.generation[slot])]);
    RunCons(s, a, Advance, Advances(a, 2));
    Bumps(t, a, slot);
    assert t.agents[a := PublishLoadBusy(slot)] == s.agents[a := PublishLoadBusy(slot)];
  }

  /** It installs the next generation and gives the quarantine back. */
  lemma Installs(s: Pool, a: nat, slot: nat)
    requires Shape(s) && a < |s.agents| && slot < Capacity(s)
    requires s.agents[a] == RebuildRecheck(slot, s.generation[slot])
    ensures var t := Run(s, Advances(a, 4));
            && t.agents == s.agents[a := PublishLoadBusy(slot)] && t.quarantined == s.quarantined[slot := false]
            && t.generation == s.generation[slot := s.generation[slot] + 1]
  {
    var g := s.generation[slot];
    var t := Step(s, a, Advance);
    assert t == s.(agents := s.agents[a := Repairing(slot, g)]);
    StaysCurrent(t, a, slot);
    RunCons(s, a, Advance, Advances(a, 3));
    assert t.agents[a := PublishLoadBusy(slot)] == s.agents[a := PublishLoadBusy(slot)];
  }

  lemma RepairCompletes(s: Pool, a: nat, slot: nat) returns (schedule: seq<(nat, Action)>)
    requires Inv(s) && a < |s.agents| && s.agents[a].Idle? && slot < Capacity(s) && !s.quarantined[slot]
    ensures var t := Run(s, schedule);
            && t.generation == s.generation[slot := s.generation[slot] + 1] && t.quarantined == s.quarantined
            && |t.agents| == |s.agents| && t.agents[a] == PublishLoadBusy(slot)
  {
    var first := [(a, Pick(slot))] + Advances(a, 2);
    schedule := first + Advances(a, 4);
    var t := Run(s, first);
    Quarantines(s, a, slot);
    RunConcat(s, first, Advances(a, 4));
    Installs(t, a, slot);
    assert s.quarantined[slot := true][slot := false] == s.quarantined;
  }
}
