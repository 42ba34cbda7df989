/** No command is lost: what is sent to a cancel actor is taken in order, each kind goes where it
    belongs, and a waiting command is reached. */
module CancelCommands {
  import opened Common
  import opened CancelReactor

  // ------------------------------------------------------------------ the observer

  /** Commands put into the inbox, commands taken out of it, and those the worker has finished. */
  datatype Log = Log(sent: seq<Command>, taken: seq<Command>, ran: seq<Command>)

  const NO_COMMANDS: Log := Log([], [], [])

  /** The observer sees the inbox grow at its end or shrink at its head, and the worker finish. */
  function Watch(s: Actor, event: Event, log: Log): Log {
    var t := Next(s, event);
    if |t.inbox| > |s.inbox| then log.(sent := log.sent + [t.inbox[|s.inbox|]])
    else if |t.inbox| < |s.inbox| then log.(taken := log.taken + [s.inbox[0]])
    else if s.worker.Running? && !t.worker.Running? then log.(ran := log.ran + [s.worker.command])
    else log
  }

  function Watched(s: Actor, events: seq<Event>, log: Log): Log
    decreases |events|
  {
    if events == [] then log else Watched(Next(s, events[0]), events[1..], Watch(s, events[0], log))
  }

  // ------------------------------------------------------------------ where commands are

  function BlockingOf(commands: seq<Command>): seq<Command> {
    if commands == [] then []
    else
      var last := commands[|commands| - 1];
      BlockingOf(commands[..|commands| - 1]) + if last.Blocking? then [last] else []
  }

  function CancelsOf(commands: seq<Command>): seq<Ticket> {
    if commands == [] then []
    else
      var last := commands[|commands| - 1];
      CancelsOf(commands[..|commands| - 1]) + if last.Cancel? then [Ticket(last.orderId, last.sender)] else []
  }

  function RefreshesOf(commands: seq<Command>): seq<nat> {
    if commands == [] then []
    else
      var last := commands[|commands| - 1];
      RefreshesOf(commands[..|commands| - 1]) + if last.RefreshTransport? then [last.generation] else []
  }

  /** Jobs with the worker or on their way to it. */
  function Jobs(s: Actor): seq<Command> {
    (if s.worker.Running? then [s.worker.command] else []) + s.control
    + (if s.hand.Transferring? then [s.hand.command] else [])
  }

  predicate Accounted(s: Actor, log: Log) {
    && log.taken + s.inbox == log.sent
    && CancelsOf(log.taken) == s.dequeued
    && RefreshesOf(log.taken) == s.refreshed
    && BlockingOf(log.taken) == log.ran + Jobs(s)
  }

  lemma TakenOne(commands: seq<Command>, command: Command)
    ensures BlockingOf(commands + [command]) == BlockingOf(commands) + if command.Blocking? then [command] else []
    ensures CancelsOf(commands + [command]) ==
            CancelsOf(commands) + if command.Cancel? then [Ticket(command.orderId, command.sender)] else []
    ensures RefreshesOf(commands + [command]) ==
            RefreshesOf(commands) + if command.RefreshTransport? then [command.generation] else []
  {
    assert (commands + [command])[..|commands|] == commands;
  }

  lemma StartedIs(s: Actor, ticket: Ticket, routed: bool, nowNs: nat)
    requires s.hand.Free?
    ensures var t := Started(s, ticket, routed, nowNs);
            && t.inbox == s.inbox && t.worker == s.worker && t.control == s.control && t.refreshed == s.refreshed
            && t.dequeued == s.dequeued + [ticket] && !t.hand.Transferring?
  {}

  /** Where a command goes when it is taken. */
  predicate Goes(s: Actor, t: Actor, command: Command) {
    && t.worker == s.worker && t.control == s.control
    && t.dequeued == s.dequeued + (if command.Cancel? then [Ticket(command.orderId, command.sender)] else [])
    && t.refreshed == s.refreshed + (if command.RefreshTransport? then [command.generation] else [])
    && (if command.Blocking? then t.hand == Transferring(command) else !t.hand.Transferring?)
  }

  lemma CancelDequeued(s: Actor, nowNs: nat)
    requires s.inbox != [] && s.hand.Free? && s.inbox[0].Cancel?
    ensures Dequeued(s, nowNs).inbox == s.inbox[1..] && Goes(s, Dequeued(s, nowNs), s.inbox[0])
  {
    var Cancel(orderId, sender, routed) := s.inbox[0];
    StartedIs(s.(inbox := s.inbox[1..]), Ticket(orderId, sender), routed, nowNs);
  }

  lemma OtherDequeued(s: Actor, nowNs: nat)
    requires s.inbox != [] && s.hand.Free? && !s.inbox[0].Cancel?
    ensures Dequeued(s, nowNs).inbox == s.inbox[1..] && Goes(s, Dequeued(s, nowNs), s.inbox[0])
  {}

  lemma DequeuedIs(s: Actor, nowNs: nat)
    requires s.inbox != [] && s.hand.Free?
    ensures Dequeued(s, nowNs).inbox == s.inbox[1..] && Goes(s, Dequeued(s, nowNs), s.inbox[0])
  {
    if s.inbox[0].Cancel? { CancelDequeued(s, nowNs); } else { OtherDequeued(s, nowNs); }
  }

  lemma DequeueAccounts(s: Actor, nowNs: nat, log: Log)
    requires Inv(s) && Accounted(s, log) && s.context && s.hand.Free? && s.inbox != []
    ensures Accounted(Dequeued(s, nowNs), log.(taken := log.taken + [s.inbox[0]]))
  {
    var t := Dequeued(s, nowNs);
    TakenOne(log.taken, s.inbox[0]);
    DequeuedIs(s, nowNs);
    assert (log.taken + [s.inbox[0]]) + t.inbox == log.taken + s.inbox;
    assert Jobs(s) == [] && Jobs(t) == if s.inbox[0].Blocking? then [s.inbox[0]] else [];
  }

  lemma PollTakesOrNot(s: Actor, input: Input)
    requires Inv(s)
    ensures var t := Next(s, Poll(input));
            if |t.inbox| < |s.inbox| then t == Dequeued(s, input.nowNs) && s.context && s.hand.Free? && s.inbox != []
            else
              && t.inbox == s.inbox && t.worker == s.worker && t.control == s.control
              && t.hand.Transferring? == s.hand.Transferring? && (t.hand.Transferring? ==> t.hand == s.hand)
              && t.dequeued == s.dequeued && t.refreshed == s.refreshed
  {}

  lemma PollAccounts(s: Actor, input: Input, log: Log)
    requires Inv(s) && Accounted(s, log)
    ensures Accounted(Next(s, Poll(input)), Watch(s, Poll(input), log))
  {
    PollTakesOrNot(s, input);
    if |Next(s, Poll(input)).inbox| < |s.inbox| { DequeueAccounts(s, input.nowNs, log); }
  }

  lemma SendAccounts(s: Actor, event: Event, log: Log)
    requires Inv(s) && Accounted(s, log) && (event.Claim? || event.SendClaim? || event.SendDirect? || event.CloseInbox?)
    ensures Accounted(Next(s, event), Watch(s, event, log))
  {
    var t := Next(s, event);
    assert Jobs(t) == Jobs(s) && t.worker == s.worker;
    if |t.inbox| > |s.inbox| { assert t.inbox == s.inbox + [t.inbox[|s.inbox|]]; }
  }

  lemma WorkAccounts(s: Actor, event: Event, log: Log)
    requires Inv(s) && Accounted(s, log)
    requires event.WorkerTake? || event.WorkerRelease? || event.WorkerReturn? || event.Finish?
    ensures Accounted(Next(s, event), Watch(s, event, log))
  {
    var t := Next(s, event);
    if event.WorkerTake? && s.control != [] { assert s.control == [s.control[0]] + s.control[1..]; }
    if s.worker.Running? && !t.worker.Running? {
      assert log.ran + Jobs(s) == (log.ran + [s.worker.command]) + Jobs(t);
    } else {
      assert Jobs(t) == Jobs(s);
    }
  }

  lemma NextAccounts(s: Actor, event: Event, log: Log)
    requires Inv(s) && Accounted(s, log)
    ensures Accounted(Next(s, event), Watch(s, event, log))
  {
    match event
    case Poll(input) => PollAccounts(s, input, log);
    case WorkerTake => WorkAccounts(s, event, log);
    case WorkerRelease => WorkAccounts(s, event, log);
    case WorkerReturn => WorkAccounts(s, event, log);
    case Finish => WorkAccounts(s, event, log);
    case _ => SendAccounts(s, event, log);
  }

  lemma {:induction false} RunAccounts(s: Actor, events: seq<Event>, log: Log)
    requires Inv(s) && Accounted(s, log)
    ensures Inv(Run(s, events)) && Accounted(Run(s, events), Watched(s, events, log))
    decreases |events|
  {
    if events != [] {
      NextKeepsInv(s, events[0]);
      NextAccounts(s, events[0], log);
      RunAccounts(Next(s, events[0]), events[1..], Watch(s, events[0], log));
    }
  }

  /** In every run: the commands sent are those taken, in order, and then those waiting. Of those
      taken, every cancel was fired or refused and is on record, every refresh was carried out,
      and every blocking job was finished by the worker, is with it, or is on its way there. */
  lemma NoCommandLost(events: seq<Event>)
    ensures var s, log := Run(NewActor(), events), Watched(NewActor(), events, NO_COMMANDS);
            && log.taken + s.inbox == log.sent
            && CancelsOf(log.taken) == s.dequeued
            && RefreshesOf(log.taken) == s.refreshed
            && BlockingOf(log.taken) == log.ran + Jobs(s) && |Jobs(s)| <= 1
  {
    RunAccounts(NewActor(), events, NO_COMMANDS);
  }

  // ------------------------------------------------------------------ senders

  /** What senders have offered by winning the flag or passing it by, less what they were given
      back for want of room. */
  function Offered(s: Actor, event: Event, offered: multiset<Command>): multiset<Command> {
    match event
    case Claim(command) => if |Next(s, event).claimed| > |s.claimed| then offered + multiset{command} else offered
    case SendDirect(command) => if |Next(s, event).inbox| > |s.inbox| then offered + multiset{command} else offered
    case SendClaim(i) =>
      if i < |s.claimed| && |Next(s, event).inbox| == |s.inbox| then offered - multiset{s.claimed[i]} else offered
    case _ => offered
  }

  function AllOffered(s: Actor, events: seq<Event>, offered: multiset<Command>): multiset<Command>
    decreases |events|
  {
    if events == [] then offered else AllOffered(Next(s, events[0]), events[1..], Offered(s, events[0], offered))
  }

  lemma RemoveOne(commands: seq<Command>, i: nat)
    requires i < |commands|
    ensures multiset(commands) == multiset(commands[..i] + commands[i + 1..]) + multiset{commands[i]}
  {
    assert commands == commands[..i] + [commands[i]] + commands[i + 1..];
  }

  /** Only senders put anything into the inbox or claim the flag. */
  lemma OthersOffer(s: Actor, event: Event, log: Log)
    requires Inv(s) && !event.Claim? && !event.SendClaim? && !event.SendDirect?
    ensures Watch(s, event, log).sent == log.sent && Next(s, event).claimed == s.claimed
  {
    if event.Poll? { PollTakesOrNot(s, event.input); }
  }

  lemma SentClaimIs(s: Actor, i: nat)
    requires i < |s.claimed|
    ensures var t := SentClaim(s, i);
            && t.claimed == s.claimed[..i] + s.claimed[i + 1..] && t.worker == s.worker
            && t.inbox == if |s.inbox| < INBOX_CAPACITY then s.inbox + [s.claimed[i]] else s.inbox
  {}

  lemma ClaimBalances(s: Actor, i: nat, log: Log, offered: multiset<Command>)
    requires multiset(log.sent) + multiset(s.claimed) == offered && i < |s.claimed|
    ensures multiset(Watch(s, SendClaim(i), log).sent) + multiset(Next(s, SendClaim(i)).claimed) ==
            Offered(s, SendClaim(i), offered)
  {
    RemoveOne(s.claimed, i);
    SentClaimIs(s, i);
    if |s.inbox| < INBOX_CAPACITY {
      assert Watch(s, SendClaim(i), log).sent == log.sent + [s.claimed[i]];
    } else {
      assert Watch(s, SendClaim(i), log).sent == log.sent;
    }
  }

  lemma DirectBalances(s: Actor, command: Command, log: Log, offered: multiset<Command>)
    requires multiset(log.sent) + multiset(s.claimed) == offered
    ensures multiset(Watch(s, SendDirect(command), log).sent) + multiset(Next(s, SendDirect(command)).claimed) ==
            Offered(s, SendDirect(command), offered)
  {
    var t := Next(s, SendDirect(command));
    assert t.claimed == s.claimed && t.worker == s.worker && (t.inbox == s.inbox || t.inbox == s.inbox + [command]);
  }

  lemma OfferBalances(s: Actor, event: Event, log: Log, offered: multiset<Command>)
    requires Inv(s) && multiset(log.sent) + multiset(s.claimed) == offered
    ensures multiset(Watch(s, event, log).sent) + multiset(Next(s, event).claimed) == Offered(s, event, offered)
  {
    match event
    case Claim(command) =>
      var t := Next(s, event);
      assert t.inbox == s.inbox && t.worker == s.worker;
    case SendClaim(i) => if i < |s.claimed| { ClaimBalances(s, i, log, offered); }
    case SendDirect(command) => DirectBalances(s, command, log, offered);
    case _ => OthersOffer(s, event, log);
  }

  lemma {:induction false} OffersBalance(s: Actor, events: seq<Event>, log: Log, offered: multiset<Command>)
    requires Inv(s) && multiset(log.sent) + multiset(s.claimed) == offered
    ensures multiset(Watched(s, events, log).sent) + multiset(Run(s, events).claimed) == AllOffered(s, events, offered)
    decreases |events|
  {
    if events != [] {
      NextKeepsInv(s, events[0]);
      OfferBalances(s, events[0], log, offered);
      OffersBalance(Next(s, events[0]), events[1..], Watch(s, events[0], log), Offered(s, events[0], offered));
    }
  }

  /** In every run, what is in the inbox or has been taken from it is what senders offered and were
      not given back, apart from claims still on their way. */
  lemma NoOfferLost(events: seq<Event>)
    ensures var s, log := Run(NewActor(), events), Watched(NewActor(), events, NO_COMMANDS);
            multiset(log.sent) + multiset(s.claimed) == AllOffered(NewActor(), events, multiset{})
  {
    OffersBalance(NewActor(), events, NO_COMMANDS, multiset{});
  }

  // ------------------------------------------------------------------ visits

  /** When the update now retained came to be. */
  function Built(s: Actor, event: Event, builtNs: nat): nat {
    if event.Poll? && s.delivery.None? && Next(s, event).delivery.Some? then event.input.nowNs else builtNs
  }

  function BuiltAt(s: Actor, events: seq<Event>, builtNs: nat): nat
    decreases |events|
  {
    if events == [] then builtNs else BuiltAt(Next(s, events[0]), events[1..], Built(s, events[0], builtNs))
  }

  lemma DequeuedBuilds(s: Actor, nowNs: nat)
    requires s.inbox != [] && s.delivery.None?
    ensures Dequeued(s, nowNs).delivery.Some? ==> Dequeued(s, nowNs).delivery.value.builtNs == nowNs
  {
    match s.inbox[0]
    case Cancel(orderId, sender, routed) =>
    case RefreshTransport(_) => assert Dequeued(s, nowNs).delivery == s.delivery;
    case Blocking(_) => assert Dequeued(s, nowNs).delivery == s.delivery;
  }

  lemma PollBuilds(s: Actor, input: Input)
    ensures var t := Polled(s, input).0;
            if s.delivery.Some? then t.delivery == s.delivery || t.delivery.None?
            else t.delivery.Some? ==> t.delivery.value.builtNs == input.nowNs
  {
    if s.closed || s.hand != Free {
    } else if !s.context {
    } else if s.delivery.Some? {
    } else if s.pending.Some? {
    } else if Due(s, input) {
    } else if s.inbox != [] {
      DequeuedBuilds(s, input.nowNs);
    }
  }

  lemma OthersBuild(s: Actor, event: Event)
    requires !event.Poll?
    ensures Next(s, event).delivery == s.delivery
  {
    if event.Finish? {
      FinishBuilds(s);
    } else if event.Claim? || event.SendClaim? || event.SendDirect? || event.CloseInbox? {
      SendersBuild(s, event);
    }
  }

  lemma SendersBuild(s: Actor, event: Event)
    requires event.Claim? || event.SendClaim? || event.SendDirect? || event.CloseInbox?
    ensures Next(s, event).delivery == s.delivery
  {}

  lemma FinishBuilds(s: Actor)
    ensures Finished(s).delivery == s.delivery
  {}

  lemma BuiltStep(s: Actor, event: Event, builtNs: nat)
    requires s.delivery.Some? ==> s.delivery.value.builtNs == builtNs
    ensures var t := Next(s, event); t.delivery.Some? ==> t.delivery.value.builtNs == Built(s, event, builtNs)
  {
    if event.Poll? { PollBuilds(s, event.input); } else { OthersBuild(s, event); }
  }

  lemma {:induction false} BuiltStays(s: Actor, events: seq<Event>, builtNs: nat)
    requires s.delivery.Some? ==> s.delivery.value.builtNs == builtNs
    ensures var t := Run(s, events); t.delivery.Some? ==> t.delivery.value.builtNs == BuiltAt(s, events, builtNs)
    decreases |events|
  {
    if events != [] {
      BuiltStep(s, events[0], builtNs);
      BuiltStays(Next(s, events[0]), events[1..], Built(s, events[0], builtNs));
    }
  }

  /** A retained update bears the time of the visit at which its reply came or its cancel was
      refused, in every run. */
  lemma RetainedSinceBuilt(events: seq<Event>)
    ensures var s := Run(NewActor(), events);
            s.delivery.Some? ==> s.delivery.value.builtNs == BuiltAt(NewActor(), events, 0)
  {
    BuiltStays(NewActor(), events, 0);
  }

  /** Told to publish its health, or due to, with nothing else to do. */
  predicate Due(s: Actor, input: Input) {
    && !s.closed && s.hand.Free? && s.context && s.delivery.None? && s.pending.None?
    && (input.healthHint || input.nowNs >= s.nextMaintenanceNs)
  }

  /** Health is published by one branch of a visit only. */
  predicate Maintained(s: Actor, t: Actor, due: bool, nowNs: nat) {
    if due
    then t.snapshots == s.snapshots + 1 && t.nextMaintenanceNs == SatAdd(nowNs, HEARTBEAT_NS)
    else t.snapshots == s.snapshots && t.nextMaintenanceNs == s.nextMaintenanceNs
  }

  lemma DequeuingMaintains(s: Actor, nowNs: nat)
    requires s.inbox != []
    ensures Maintained(s, Dequeued(s, nowNs), false, nowNs)
  {
    match s.inbox[0]
    case Cancel(_, _, _) =>
    case _ =>
  }

  lemma FinishedHealth(s: Actor)
    ensures Finished(s).snapshots == s.snapshots && Finished(s).nextMaintenanceNs == s.nextMaintenanceNs
  {
    if s.hand.Dropping? {
      assert Finished(s) == s.(hand := Free, occupied := false);
    } else if s.hand.Transferring? && s.control == [] && s.workerAlive {
      assert Finished(s) == s.(hand := Free, control := [s.hand.command]);
    }
  }

  lemma PollMaintains(s: Actor, input: Input)
    ensures Maintained(s, Polled(s, input).0, Due(s, input), input.nowNs)
  {
    if s.closed || s.hand != Free {
    } else if !s.context {
    } else if s.delivery.Some? {
    } else if s.pending.Some? {
    } else if Due(s, input) {
    } else if s.inbox != [] {
      DequeuingMaintains(s, input.nowNs);
    }
  }

  /** An actor with nothing else to do publishes its health exactly when it is told to or its
      heartbeat is due, once, and is next due one heartbeat later; no other visit publishes. */
  lemma MaintainsExactly(s: Actor, input: Input)
    ensures Maintained(s, Visited(s, input).0, Due(s, input), input.nowNs)
  {
    PollMaintains(s, input);
    FinishedHealth(Polled(s, input).0);
  }

  /** A visit reports progress exactly when it did something other than close. */
  lemma ProgressMeansChange(s: Actor, input: Input)
    requires Inv(s) && s.hand.Free?
    ensures Visited(s, input).1 <==> Visited(s, input).0.(closed := s.closed) != s
  {
    PollTakesOrNot(s, input);
  }

  // ------------------------------------------------------------------ a waiting command is reached

  /** How far the actor is from its next command, seen by a visit at `nowNs`. */
  function Away(s: Actor): nat {
    if s.hand.Transferring? then 5
    else if s.control != [] then 4
    else if s.worker.Running? then 3
    else if s.worker.Returning? then 2
    else if s.returned > 0 then 1
    else 0
  }

  function Distance(s: Actor, nowNs: nat): nat {
    8 * Away(s) + (if s.pending.Some? then 4 else if s.delivery.Some? then 2 else 0)
    + (if s.hand.Dropping? then 1 else 0) + if nowNs >= s.nextMaintenanceNs then 1 else 0
  }

  /** A visit at which the outbox has room, the reply is there and no health hint interrupts. */
  function Kind(nowNs: nat): Input {
    Input(nowNs, Sent, true, false)
  }

  /** What has to happen next. */
  function Nudge(s: Actor, nowNs: nat): Event {
    if !s.hand.Free? then Finish
    else if s.context then Poll(Kind(nowNs))
    else if s.control != [] then WorkerTake
    else if s.worker.Running? then WorkerRelease
    else if s.worker.Returning? then WorkerReturn
    else Poll(Kind(nowNs))
  }

  lemma VisitHelps(s: Actor, nowNs: nat)
    requires Inv(s) && !s.closed && s.inbox != [] && nowNs < U64_MAX && s.hand.Free? && s.context
    ensures var t := Next(s, Poll(Kind(nowNs)));
            || t.inbox == s.inbox[1..]
            || (t.inbox == s.inbox && !t.closed && Distance(t, nowNs) < Distance(s, nowNs))
  {}

  lemma WorkHelps(s: Actor, nowNs: nat)
    requires Inv(s) && !s.closed && !(s.hand.Free? && s.context)
    ensures var t := Next(s, Nudge(s, nowNs));
            t.inbox == s.inbox && !t.closed && Distance(t, nowNs) < Distance(s, nowNs)
  {}

  /** Either the command at the head is taken, or the actor is closer to it. */
  lemma NudgeHelps(s: Actor, nowNs: nat)
    requires Inv(s) && !s.closed && s.inbox != [] && nowNs < U64_MAX
    ensures var t := Next(s, Nudge(s, nowNs));
            || t.inbox == s.inbox[1..]
            || (t.inbox == s.inbox && !t.closed && Distance(t, nowNs) < Distance(s, nowNs))
  {
    if s.hand.Free? && s.context { VisitHelps(s, nowNs); } else { WorkHelps(s, nowNs); }
  }

  lemma {:induction false} QueuedIsTaken(s: Actor, nowNs: nat) returns (events: seq<Event>)
    requires Inv(s) && !s.closed && s.inbox != [] && nowNs < U64_MAX
    ensures |events| <= Distance(s, nowNs) + 1 && Run(s, events).inbox == s.inbox[1..]
    ensures forall i :: 0 <= i < |events| ==>
              events[i].Poll? || events[i].Finish? || events[i].WorkerTake? || events[i].WorkerRelease?
              || events[i].WorkerReturn?
    decreases Distance(s, nowNs)
  {
    var event := Nudge(s, nowNs);
    var t := Next(s, event);
    NudgeHelps(s, nowNs);
    NextKeepsInv(s, event);
    if t.inbox == s.inbox[1..] {
      events := [event];
      assert events[1..] == [];
    } else {
      var rest := QueuedIsTaken(t, nowNs);
      events := [event] + rest;
      assert events[1..] == rest;
    }
  }

  /** A command that waits is reached, in every state of every run and at any instant, by the
      actor's own visits and its worker's steps alone, within a bounded number of them, if the
      outbox has room, replies come and no health hint interrupts. */
  lemma WaitingCommandIsReached(before: seq<Event>, nowNs: nat) returns (events: seq<Event>)
    requires var s := Run(NewActor(), before); s.inbox != [] && nowNs < U64_MAX
    ensures var s := Run(NewActor(), before);
            |events| <= 47 && s.inbox != [] && Run(s, events).inbox == s.inbox[1..]
    ensures forall i :: 0 <= i < |events| ==>
              events[i].Poll? || events[i].Finish? || events[i].WorkerTake? || events[i].WorkerRelease?
              || events[i].WorkerReturn?
  {
    RunKeepsInv(NewActor(), before);
    events := QueuedIsTaken(Run(NewActor(), before), nowNs);
  }
}
