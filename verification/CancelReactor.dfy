/** The budgeted round-robin cursor shared by all actors of one reactor. */
module BoundedReactor {

  /** Where the cursor stands after visiting `visited` consecutive lanes. */
  function Advance(next: nat, visited: nat, lanes: nat): (after: nat)
    requires next < lanes && visited <= lanes
    ensures after < lanes
  {
    if next + visited < lanes then next + visited else next + visited - lanes
  }

  /** How many visits after `next` the slot's turn comes. */
  function Distance(next: nat, slot: nat, lanes: nat): nat
    requires lanes > 0 && next < lanes && slot < lanes
  {
    if next <= slot then slot - next else slot + lanes - next
  }

  /** A turn that starts at `next` and visits `visited` lanes visits this slot. */
  predicate Visits(next: nat, visited: nat, slot: nat, lanes: nat) {
    lanes > 0 && next < lanes && slot < lanes && Distance(next, slot, lanes) < visited
  }

  function Sum(xs: seq<nat>): nat {
    if xs == [] then 0 else xs[0] + Sum(xs[1..])
  }

  /** The cursor before each turn of a sequence of turns. */
  function Standing(next: nat, visits: seq<nat>, turn: nat, lanes: nat): nat
    requires next < lanes && turn <= |visits| && forall i :: 0 <= i < |visits| ==> visits[i] <= lanes
    decreases turn
  {
    if turn == 0 then next else Standing(Advance(next, visits[0], lanes), visits[1..], turn - 1, lanes)
  }

  lemma {:induction false} ReachedBySum(next: nat, visits: seq<nat>, slot: nat, lanes: nat) returns (turn: nat)
    requires lanes > 0 && next < lanes && slot < lanes
    requires forall i :: 0 <= i < |visits| ==> visits[i] <= lanes
    requires Distance(next, slot, lanes) < Sum(visits)
    ensures turn < |visits| && Visits(Standing(next, visits, turn, lanes), visits[turn], slot, lanes)
    decreases |visits|
  {
    if Distance(next, slot, lanes) < visits[0] {
      turn := 0;
    } else {
      var later := Advance(next, visits[0], lanes);
      assert Distance(later, slot, lanes) == Distance(next, slot, lanes) - visits[0];
      turn := ReachedBySum(later, visits[1..], slot, lanes);
      turn := turn + 1;
    }
  }

  lemma {:induction false} SumAtLeast(visits: seq<nat>, budget: nat)
    requires forall i :: 0 <= i < |visits| ==> visits[i] >= budget
    ensures Sum(visits) >= |visits| * budget
  {
    if visits != [] { SumAtLeast(visits[1..], budget); }
  }

  /** No actor starves: turns that each visit at least `budget` lanes, and together at
      least as many as there are lanes, visit every actor. So any ceil(lanes / budget)
      consecutive turns do. */
  lemma EveryActorVisited(next: nat, visits: seq<nat>, slot: nat, lanes: nat, budget: nat) returns (turn: nat)
    requires 0 < budget <= lanes && next < lanes && slot < lanes
    requires forall i :: 0 <= i < |visits| ==> budget <= visits[i] <= lanes
    requires |visits| * budget >= lanes
    ensures turn < |visits| && Visits(Standing(next, visits, turn, lanes), visits[turn], slot, lanes)
  {
    SumAtLeast(visits, budget);
    turn := ReachedBySum(next, visits, slot, lanes);
  }

  /** Progress made by the first `visited` lanes from `next`. */
  function Progress(acts: seq<bool>, next: nat, visited: nat): nat
    requires next < |acts| && visited <= |acts|
  {
    if visited == 0 then 0
    else Progress(acts, next, visited - 1) + if acts[Advance(next, visited - 1, |acts|)] then 1 else 0
  }

  class Cursor {
    var next: nat
    const lanes: nat
    const budget: nat

    predicate Valid()
      reads this
    {
      0 < budget <= lanes <= 64 && next < lanes
    }

    constructor (lanes: nat, budget: nat)
      requires 1 <= lanes <= 64 && 1 <= budget <= lanes
      ensures Valid() && next == 0 && this.lanes == lanes && this.budget == budget
    {
      this.next, this.lanes, this.budget := 0, lanes, budget;
    }

    /** One turn. `acts[i]` says whether actor i would make progress if visited now. The
        turn visits consecutive lanes, at least `budget` of them and each at most once;
        it stops early exactly when the budget is spent, and an idle turn visits all. */
    method Poll(acts: seq<bool>) returns (visited: nat, progressed: nat)
      requires Valid() && |acts| == lanes
      modifies this
      ensures Valid() && budget <= visited <= lanes
      ensures next == Advance(old(next), visited, lanes)
      ensures progressed == Progress(acts, old(next), visited) <= budget
      ensures progressed < budget ==> visited == lanes
    {
      visited, progressed := 0, 0;
      for turn := 0 to lanes
        invariant visited == turn && next == Advance(old(next), visited, lanes) && next < lanes
        invariant progressed == Progress(acts, old(next), visited) <= visited
        invariant progressed < budget
      {
        var slot := next;
        next := (next + 1) % lanes;
        visited := visited + 1;
        WrapStep(slot, lanes);
        if acts[slot] {
          progressed := progressed + 1;
          if progressed == budget { break; }
        }
      }
    }
  }

  lemma WrapStep(next: nat, lanes: nat)
    requires next < lanes
    ensures (next + 1) % lanes == if next + 1 == lanes then 0 else next + 1
  {
  }
}

/** The normal-cancel actor group.

    Each actor owns one connection context, at most one HTTP reply in flight and at most
    one retained lifecycle update. Blocking control work moves the context to a worker and
    back over two capacity-one channels. The actor, its worker and the command senders
    interleave freely, one atomic or channel operation at a time; what an HTTP reply, an
    outbox or a health hint answers is supplied by the environment. */
module CancelReactor {
  import opened Common
  import opened BoundedReactor

  const HEARTBEAT_NS: nat := 100_000_000
  const RETRY_NS: nat := 50_000
  const INBOX_CAPACITY: nat := 256

  /** A cancel carries its order id and the sender that must hear about it; `routed` says
      whether the account's route is known. Blocking stands for one probe or fallback job. */
  datatype Command =
    | Cancel(orderId: nat, sender: nat, routed: bool)
    | RefreshTransport(generation: nat)
    | Blocking(job: nat)

  /** An order and the sender it belongs to. */
  datatype Ticket = Ticket(orderId: nat, sender: nat)

  /** A retained update keeps the time it was built, however often publication is retried. */
  datatype Delivery = Delivery(ticket: Ticket, builtNs: nat)

  /** A cancel that has left the actor: published, or dropped on a disconnected outbox. */
  datatype Resolution = Resolution(ticket: Ticket, published: bool)

  datatype SendResult = Sent | Full | Disconnected

  /** What the environment answers when the actor is polled. */
  datatype Input = Input(nowNs: nat, outbox: SendResult, replyReady: bool, healthHint: bool)

  /** Inside a visit, between its channel operation and what follows it: the actor is about
      to drop an occupancy guard, or to send its context away. */
  datatype Hand = Free | Dropping | Transferring(command: Command)

  /** The worker waits, holds context and guard, or has dropped the guard and still holds the
      context. */
  datatype Worker = Waiting | Running(command: Command) | Returning

  datatype Actor = Actor(
    context: bool,                  // the actor holds its context
    hand: Hand,
    claimed: seq<Command>,          // senders that set the flag and have not sent yet
    inbox: seq<Command>,
    inboxOpen: bool,
    pending: Option<Ticket>,        // HTTP reply in flight
    delivery: Option<Delivery>,     // update not yet published
    guard: bool,                    // the actor retains an occupancy guard
    control: seq<Command>,          // jobs sent to the worker, each with context and guard
    worker: Worker,
    workerAlive: bool,
    returned: nat,                  // contexts on their way back
    occupied: bool,                 // the lane's occupancy flag, shared with the senders
    closed: bool,
    nextMaintenanceNs: nat,
    snapshots: nat,                 // health snapshots published
    panicked: bool,
    direct: nat,                    // history: commands sent past the flag at shutdown
    dequeued: seq<Ticket>,          // history: cancels taken from the inbox
    resolved: seq<Resolution>,      // history: cancels that have left
    refreshed: seq<nat>)            // history: generations whose transport was asked to refresh

  function NewActor(): Actor {
    Actor(true, Free, [], [], true, None, None, false, [], Waiting, true, 0, false, false, 0, 0, false, 0, [], [], [])
  }

  /** What no step takes back: resolutions, shutdown sends, closing. */
  predicate Forward(s: Actor, t: Actor) {
    s.resolved <= t.resolved && s.direct <= t.direct && (s.closed ==> t.closed)
  }

  // ------------------------------------------------------------------ senders

  /** The first half of `try_send`: the compare-and-swap on the flag. */
  function Claimed(s: Actor, command: Command): (t: Actor)
    ensures Forward(s, t)
  {
    if !s.inboxOpen || s.occupied then s else s.(occupied := true, claimed := s.claimed + [command])
  }

  /** The second half: a sender that holds the claim sends, or gives the flag back. */
  function SentClaim(s: Actor, i: nat): (t: Actor)
    ensures Forward(s, t)
  {
    if i >= |s.claimed| then s
    else
      var others := s.claimed[..i] + s.claimed[i + 1..];
      if |s.inbox| < INBOX_CAPACITY then s.(claimed := others, inbox := s.inbox + [s.claimed[i]])
      else s.(claimed := others, occupied := false)
  }

  /** `send_shutdown` waits for room and never looks at the flag. */
  function SentDirect(s: Actor, command: Command): (t: Actor)
    ensures Forward(s, t)
  {
    if !s.inboxOpen || |s.inbox| >= INBOX_CAPACITY then s
    else s.(inbox := s.inbox + [command], direct := s.direct + 1)
  }

  /** The senders are gone; none of them is inside a send. */
  function InboxClosed(s: Actor): (t: Actor)
    ensures Forward(s, t)
  {
    if s.claimed != [] then s else s.(inboxOpen := false)
  }

  // ------------------------------------------------------------------ worker

  function WorkerTakes(s: Actor): (t: Actor)
    ensures Forward(s, t)
  {
    if s.workerAlive && s.worker.Waiting? && s.control != []
    then s.(worker := Running(s.control[0]), control := s.control[1..]) else s
  }

  function WorkerReleases(s: Actor): (t: Actor)
    ensures Forward(s, t)
  {
    if s.worker.Running? then s.(worker := Returning, occupied := false) else s
  }

  /** A full return channel would end the worker. */
  function WorkerReturns(s: Actor): (t: Actor)
    ensures Forward(s, t)
  {
    if !s.worker.Returning? then s
    else if s.returned < 1 then s.(worker := Waiting, returned := s.returned + 1)
    else s.(worker := Waiting, workerAlive := false)
  }

  // ------------------------------------------------------------------ actor

  /** A cancel is fired, or its rejection retained at once. */
  function Started(s: Actor, ticket: Ticket, routed: bool, nowNs: nat): (t: Actor)
    ensures Forward(s, t)
  {
    s.(guard := true,
       dequeued := s.dequeued + [ticket],
       pending := if routed then Some(ticket) else s.pending,
       delivery := if routed then s.delivery else Some(Delivery(ticket, nowNs)))
  }

  function Dequeued(s: Actor, nowNs: nat): (t: Actor)
    requires s.inbox != []
    ensures Forward(s, t)
  {
    var rest := s.inbox[1..];
    match s.inbox[0]
    case Cancel(orderId, sender, routed) => Started(s.(inbox := rest), Ticket(orderId, sender), routed, nowNs)
    case RefreshTransport(generation) =>
      s.(inbox := rest, hand := Dropping, refreshed := s.refreshed + [generation])
    case Blocking(_) => s.(inbox := rest, context := false, hand := Transferring(s.inbox[0]))
  }

  /** One visit up to its channel operation: the new state and whether it made progress. */
  function Polled(s: Actor, input: Input): (r: (Actor, bool))
    ensures Forward(s, r.0)
  {
    if s.closed || s.hand != Free then (s, false)
    else if !s.context then
      if s.returned > 0 then (s.(context := true, returned := s.returned - 1), true)
      else if s.workerAlive then (s, false)
      else (s.(panicked := true), false)
    else if s.delivery.Some? then
      if input.outbox.Full? then (s, false)
      else
        var done := Resolution(s.delivery.value.ticket, input.outbox.Sent?);
        (s.(delivery := None, guard := false, hand := Dropping, resolved := s.resolved + [done]), true)
    else if s.pending.Some? then
      if !input.replyReady then (s, false)
      else (s.(pending := None, delivery := Some(Delivery(s.pending.value, input.nowNs))), true)
    else if input.healthHint || input.nowNs >= s.nextMaintenanceNs then
      (s.(snapshots := s.snapshots + 1, nextMaintenanceNs := SatAdd(input.nowNs, HEARTBEAT_NS)), true)
    else if s.inbox != [] then (Dequeued(s, input.nowNs), true)
    else if s.inboxOpen then (s, false)
    else (s.(closed := true), false)
  }

  /** The rest of the visit: the guard is dropped, or the context sent to the worker. */
  function Finished(s: Actor): (t: Actor)
    ensures Forward(s, t)
  {
    match s.hand
    case Free => s
    case Dropping => s.(hand := Free, occupied := false)
    case Transferring(command) =>
      if s.control == [] && s.workerAlive then s.(hand := Free, control := [command])
      else s.(hand := Free, panicked := true)
  }

  /** A whole visit, with nothing in between. */
  function Visited(s: Actor, input: Input): (Actor, bool) {
    (Finished(Polled(s, input).0), Polled(s, input).1)
  }

  datatype Event =
    | Claim(command: Command)
    | SendClaim(sender: nat)
    | SendDirect(command: Command)
    | CloseInbox
    | WorkerTake
    | WorkerRelease
    | WorkerReturn
    | Poll(input: Input)
    | Finish

  function Next(s: Actor, event: Event): (t: Actor)
    ensures Forward(s, t)
  {
    match event
    case Claim(command) => Claimed(s, command)
    case SendClaim(i) => SentClaim(s, i)
    case SendDirect(command) => SentDirect(s, command)
    case CloseInbox => InboxClosed(s)
    case WorkerTake => WorkerTakes(s)
    case WorkerRelease => WorkerReleases(s)
    case WorkerReturn => WorkerReturns(s)
    case Poll(input) => Polled(s, input).0
    case Finish => Finished(s)
  }

  function Run(s: Actor, events: seq<Event>): Actor
    decreases |events|
  {
    if events == [] then s else Run(Next(s, events[0]), events[1..])
  }

  // ------------------------------------------------------------------ invariant

  /** Where the context is, counted over all five places it can be. */
  function Holders(s: Actor): nat {
    (if s.context then 1 else 0) + (if s.hand.Transferring? then 1 else 0) + |s.control|
    + (if s.worker.Waiting? then 0 else 1) + s.returned
  }

  /** Everything the flag stands for: claims on their way, commands, guards. */
  function Claims(s: Actor): nat {
    |s.claimed| + |s.inbox| + (if s.guard then 1 else 0) + (if s.hand.Free? then 0 else 1) + |s.control|
    + (if s.worker.Running? then 1 else 0)
  }

  /** The flag is set for exactly one claim and clear for none. */
  predicate FlagExact(s: Actor) {
    Claims(s) == if s.occupied then 1 else 0
  }

  function InFlight(s: Actor): seq<Ticket> {
    (if s.pending.Some? then [s.pending.value] else [])
    + (if s.delivery.Some? then [s.delivery.value.ticket] else [])
  }

  function Tickets(resolved: seq<Resolution>): (tickets: seq<Ticket>)
    ensures |tickets| == |resolved|
  {
    seq(|resolved|, i requires 0 <= i < |resolved| => resolved[i].ticket)
  }

  /** Who holds what. */
  predicate HoldersOk(s: Actor) {
    && Holders(s) == 1 && s.workerAlive && !s.panicked
    && (s.guard <==> s.pending.Some? || s.delivery.Some?)
    && !(s.pending.Some? && s.delivery.Some?)
    && (!s.context || !s.hand.Free? ==> !s.guard)
    && (s.hand.Dropping? ==> s.context)
    && (!s.inboxOpen ==> s.claimed == [])
    && (s.closed ==> s.inbox == [] && !s.inboxOpen && s.context && !s.guard && s.hand.Free?)
  }

  predicate Inv(s: Actor) {
    && HoldersOk(s)
    && (s.occupied ==> Claims(s) >= 1)
    && (s.direct == 0 ==> FlagExact(s))
    && Tickets(s.resolved) + InFlight(s) == s.dequeued
  }

  lemma DequeuedKeepsInv(s: Actor, nowNs: nat)
    requires Inv(s) && !s.closed && s.context && s.hand.Free? && !s.guard && s.inbox != []
    ensures Inv(Dequeued(s, nowNs))
  {
    var t := Dequeued(s, nowNs);
    assert t.dequeued == s.dequeued + InFlight(t);
  }

  lemma ResolvedKeepsInv(s: Actor, input: Input)
    requires Inv(s) && !s.closed && s.context && s.hand.Free? && s.delivery.Some? && !input.outbox.Full?
    ensures Inv(Polled(s, input).0)
  {
    assert Tickets(Polled(s, input).0.resolved) == Tickets(s.resolved) + InFlight(s);
  }

  lemma PolledKeepsInv(s: Actor, input: Input)
    requires Inv(s)
    ensures Inv(Polled(s, input).0)
  {
    if s.closed || !s.hand.Free? || !s.context {
    } else if s.delivery.Some? {
      if !input.outbox.Full? { ResolvedKeepsInv(s, input); }
    } else if s.pending.None? && s.inbox != [] {
      DequeuedKeepsInv(s, input.nowNs);
    }
  }

  lemma FinishedKeepsInv(s: Actor)
    requires Inv(s)
    ensures Inv(Finished(s)) && Finished(s).hand.Free?
  {}

  lemma VisitedKeepsInv(s: Actor, input: Input)
    requires Inv(s) && s.hand.Free?
    ensures Inv(Visited(s, input).0) && Visited(s, input).0.hand.Free?
  {
    PolledKeepsInv(s, input);
    FinishedKeepsInv(Polled(s, input).0);
  }

  lemma ClaimKeepsInv(s: Actor, event: Event)
    requires Inv(s) && (event.Claim? || event.SendClaim?)
    ensures Inv(Next(s, event))
  {}

  lemma SendersKeepInv(s: Actor, event: Event)
    requires Inv(s) && (event.Claim? || event.SendClaim? || event.SendDirect? || event.CloseInbox?)
    ensures Inv(Next(s, event))
  {
    if event.Claim? || event.SendClaim? { ClaimKeepsInv(s, event); }
  }

  lemma WorkerKeepsInv(s: Actor, event: Event)
    requires Inv(s) && (event.WorkerTake? || event.WorkerRelease? || event.WorkerReturn?)
    ensures Inv(Next(s, event))
  {}

  lemma NextKeepsInv(s: Actor, event: Event)
    requires Inv(s)
    ensures Inv(Next(s, event))
  {
    match event
    case Poll(input) => PolledKeepsInv(s, input);
    case Finish => FinishedKeepsInv(s);
    case WorkerTake => WorkerKeepsInv(s, event);
    case WorkerRelease => WorkerKeepsInv(s, event);
    case WorkerReturn => WorkerKeepsInv(s, event);
    case _ => SendersKeepInv(s, event);
  }

  lemma {:induction false} RunKeepsInv(s: Actor, events: seq<Event>)
    requires Inv(s)
    ensures Inv(Run(s, events))
    decreases |events|
  {
    if events != [] {
      NextKeepsInv(s, events[0]);
      RunKeepsInv(Next(s, events[0]), events[1..]);
    }
  }

  // ------------------------------------------------------------------ theorems

  /** Exactly once, in order, to its own sender: in every run, shutdown sends included, the
      cancels dequeued are the ones resolved followed by the one, if any, still awaiting its
      reply or its outbox. A full outbox resolves nothing, and only a disconnected one drops. */
  lemma DeliveredExactlyOnce(events: seq<Event>, input: Input)
    ensures var s := Run(NewActor(), events);
            && Tickets(s.resolved) + InFlight(s) == s.dequeued
            && |InFlight(s)| <= 1
            && (var t := Polled(s, input).0;
                && s.resolved <= t.resolved
                && (input.outbox.Full? ==> t.resolved == s.resolved && (s.delivery.Some? ==> t.delivery == s.delivery))
                && (|t.resolved| > |s.resolved| ==>
                      && s.delivery.Some?
                      && t.resolved == s.resolved + [Resolution(s.delivery.value.ticket, input.outbox.Sent?)]))
  {
    RunKeepsInv(NewActor(), events);
  }

  /** A retained update, with the time it was built, is what leaves: whatever happens later, it
      is still there unchanged and nothing was resolved, or it was the next to be resolved. */
  predicate Outlasts(s: Actor, t: Actor)
    requires s.delivery.Some?
  {
    || (t.delivery == s.delivery && t.resolved == s.resolved)
    || (|t.resolved| > |s.resolved| && t.resolved[..|s.resolved|] == s.resolved
        && t.resolved[|s.resolved|].ticket == s.delivery.value.ticket)
  }

  lemma {:induction false} RunForward(s: Actor, events: seq<Event>)
    ensures Forward(s, Run(s, events))
    decreases |events|
  {
    if events != [] { RunForward(Next(s, events[0]), events[1..]); }
  }

  lemma {:induction false} RetainedUntilResolved(s: Actor, events: seq<Event>)
    requires Inv(s) && s.delivery.Some?
    ensures Outlasts(s, Run(s, events))
    decreases |events|
  {
    if events != [] {
      var t := Next(s, events[0]);
      NextKeepsInv(s, events[0]);
      assert Outlasts(s, t);
      if t.delivery == s.delivery && t.resolved == s.resolved {
        RetainedUntilResolved(t, events[1..]);
      } else {
        RunForward(t, events[1..]);
      }
    }
  }

  /** The context has exactly one holder, so neither hand-off can overflow or find its
      worker gone: the panics are unreachable. */
  lemma ContextHasOneHolder(events: seq<Event>)
    ensures var s := Run(NewActor(), events);
            Holders(s) == 1 && !s.panicked && s.workerAlive
  {
    RunKeepsInv(NewActor(), events);
  }

  /** In every run the flag never outlives what it stands for, and the actor retains a guard
      exactly while a reply or an update is pending. */
  lemma FlagHasCause(events: seq<Event>)
    ensures var s := Run(NewActor(), events);
            && (s.occupied ==> Claims(s) >= 1)
            && (s.guard <==> s.pending.Some? || s.delivery.Some?)
  {
    RunKeepsInv(NewActor(), events);
  }

  /** The flag was exact before and after every step of the run. */
  ghost predicate AlwaysExact(s: Actor, events: seq<Event>)
    decreases |events|
  {
    FlagExact(s) && (events == [] || AlwaysExact(Next(s, events[0]), events[1..]))
  }

  /** The first command sent past the flag breaks it, on an idle lane and on a busy one. */
  lemma DirectBreaksFlag(s: Actor, event: Event)
    requires Inv(s) && s.direct == 0
    ensures Next(s, event).direct > 0 ==> !FlagExact(Next(s, event))
  {}

  lemma {:induction false} ExactFrom(s: Actor, events: seq<Event>)
    requires Inv(s) && s.direct == 0
    ensures AlwaysExact(s, events) <==> Run(s, events).direct == 0
    decreases |events|
  {
    if events != [] {
      var t := Next(s, events[0]);
      NextKeepsInv(s, events[0]);
      if t.direct == 0 {
        ExactFrom(t, events[1..]);
      } else {
        DirectBreaksFlag(s, events[0]);
        RunForward(t, events[1..]);
      }
    }
  }

  /** The lane is occupied exactly while one claim, command, reply, update or job exists, at
      every step of a run, if and only if no command was sent past the flag at shutdown. */
  lemma FlagExactUnlessShutdown(events: seq<Event>)
    ensures AlwaysExact(NewActor(), events) <==> Run(NewActor(), events).direct == 0
  {
    ExactFrom(NewActor(), events);
  }

  /** So without shutdown sends a claimed send always finds room. */
  lemma ClaimedSendHasRoom(events: seq<Event>, i: nat)
    ensures var s := Run(NewActor(), events);
            s.direct == 0 && i < |s.claimed| ==> s.inbox == [] && |s.claimed| == 1
  {
    RunKeepsInv(NewActor(), events);
  }

  /** A shutdown cancel on an idle lane: a reply is outstanding and the flag is clear. */
  lemma ShutdownReplyUnflagged()
    ensures var s := Next(Next(NewActor(), SendDirect(Cancel(1, 2, true))), Poll(Input(0, Sent, false, true)));
            var t := Next(s, Poll(Input(0, Sent, false, false)));
            s.inbox != [] && !s.occupied && t.pending == Some(Ticket(1, 2)) && !t.occupied && !FlagExact(t)
  {}

  /** An actor closes only with nothing left: no claim, command, reply, update, or job, the flag
      clear and its context at home; every cancel it ever dequeued, shutdown ones included, has
      been resolved. And it stays so. */
  lemma ClosedMeansDone(events: seq<Event>, later: seq<Event>)
    requires Run(NewActor(), events).closed
    ensures var s := Run(Run(NewActor(), events), later);
            && s.closed && s.context && s.inbox == [] && s.pending.None? && s.delivery.None?
            && s.claimed == [] && s.control == [] && s.worker.Waiting? && s.hand.Free? && !s.occupied
            && Tickets(s.resolved) == s.dequeued
  {
    RunKeepsInv(NewActor(), events);
    RunKeepsInv(Run(NewActor(), events), later);
    RunForward(Run(NewActor(), events), later);
  }

  // ------------------------------------------------------------------ the actor object

  /** The actor as the code has it, its fields taken and set by `poll`. */
  class Owner {
    var context: bool
    var inbox: seq<Command>
    var inboxOpen: bool
    var pending: Option<Ticket>
    var delivery: Option<Delivery>
    var guard: bool
    var control: seq<Command>
    var worker: Worker
    var workerAlive: bool
    var returned: nat
    var occupied: bool
    var closed: bool
    var nextMaintenanceNs: nat
    var snapshots: nat
    ghost var claimed: seq<Command>
    ghost var direct: nat
    ghost var dequeued: seq<Ticket>
    ghost var resolved: seq<Resolution>
    ghost var refreshed: seq<nat>

    /** The actor between visits. */
    ghost function View(): Actor
      reads this
    {
      Actor(context, Free, claimed, inbox, inboxOpen, pending, delivery, guard, control, worker, workerAlive, returned,
            occupied, closed, nextMaintenanceNs, snapshots, false, direct, dequeued, resolved, refreshed)
    }

    constructor ()
      ensures View() == NewActor() && Inv(View())
    {
      context, inbox, inboxOpen, pending, delivery, guard := true, [], true, None, None, false;
      control, worker, workerAlive, returned, occupied := [], Waiting, true, 0, false;
      closed, nextMaintenanceNs, snapshots := false, 0, 0;
      claimed, direct, dequeued, resolved, refreshed := [], 0, [], [], [];
    }

    method RetainUpdate(ticket: Ticket, builtNs: nat)
      modifies this`delivery
      ensures delivery == Some(Delivery(ticket, builtNs))
    {
      delivery := Some(Delivery(ticket, builtNs));
    }

    /** Tries to publish the retained update; a full outbox leaves it where it was. */
    method Publish(outbox: SendResult) returns (progress: bool)
      requires guard && delivery.Some?
      modifies this`delivery, this`guard, this`occupied, this`resolved
      ensures progress == !outbox.Full?
      ensures outbox.Full? ==> View() == old(View())
      ensures !outbox.Full? ==> delivery.None? && !guard && !occupied
                                && resolved == old(resolved) + [Resolution(old(delivery).value.ticket, outbox.Sent?)]
    {
      var taken := delivery.value;
      delivery := None;
      if outbox.Full? {
        delivery := Some(taken);
        return false;
      }
      resolved := resolved + [Resolution(taken.ticket, outbox.Sent?)];
      guard, occupied := false, false;
      return true;
    }

    method StartCancel(ticket: Ticket, routed: bool, nowNs: nat)
      modifies this`dequeued, this`guard, this`pending, this`delivery
      ensures View() == Started(old(View()), ticket, routed, nowNs)
    {
      dequeued := dequeued + [ticket];
      guard := true;
      if routed {
        pending := Some(ticket);
      } else {
        RetainUpdate(ticket, nowNs);
      }
    }

    /** The transfer cannot fail: the control channel is empty and its worker alive. */
    method TransferContext(command: Command)
      requires context && control == [] && workerAlive
      modifies this`context, this`control
      ensures !context && control == [command]
    {
      context := false;
      control := [command];
    }

    method Refresh(generation: nat)
      modifies this`refreshed, this`occupied
      ensures refreshed == old(refreshed) + [generation] && !occupied
    {
      refreshed := refreshed + [generation];
      occupied := false;
    }

    method Maintain(nowNs: nat)
      modifies this`snapshots, this`nextMaintenanceNs
      ensures snapshots == old(snapshots) + 1 && nextMaintenanceNs == SatAdd(nowNs, HEARTBEAT_NS)
    {
      snapshots := snapshots + 1;
      nextMaintenanceNs := SatAdd(nowNs, HEARTBEAT_NS);
    }

    method TakeCommand() returns (command: Command)
      requires inbox != []
      modifies this`inbox
      ensures [command] + inbox == old(inbox)
    {
      command := inbox[0];
      inbox := inbox[1..];
    }

    method TakeCancel(nowNs: nat)
      requires inbox != [] && inbox[0].Cancel?
      modifies this`inbox, this`dequeued, this`guard, this`pending, this`delivery
      ensures View() == Dequeued(old(View()), nowNs)
    {
      var command := TakeCommand();
      StartCancel(Ticket(command.orderId, command.sender), command.routed, nowNs);
    }

    method TakeRefresh(ghost nowNs: nat)
      requires inbox != [] && inbox[0].RefreshTransport?
      modifies this`inbox, this`refreshed, this`occupied
      ensures View() == Finished(Dequeued(old(View()), nowNs))
    {
      var command := TakeCommand();
      Refresh(command.generation);
    }

    method TakeBlocking(ghost nowNs: nat)
      requires context && inbox != [] && inbox[0].Blocking? && control == [] && workerAlive
      modifies this`inbox, this`context, this`control
      ensures View() == Finished(Dequeued(old(View()), nowNs))
    {
      var command := TakeCommand();
      TransferContext(command);
    }

    /** Takes the next command. */
    method Dequeue(nowNs: nat)
      requires context && !guard && inbox != [] && control == [] && workerAlive
      modifies this
      ensures View() == Finished(Dequeued(old(View()), nowNs))
    {
      match inbox[0] {
        case Cancel(_, _, _) => TakeCancel(nowNs);
        case RefreshTransport(_) => TakeRefresh(nowNs);
        case Blocking(_) => TakeBlocking(nowNs);
      }
    }

    /** A visit with nothing retained and no reply awaited. */
    method PollIdle(input: Input) returns (progress: bool)
      requires !closed && context && delivery.None? && pending.None? && !guard && control == [] && workerAlive
      modifies this
      ensures (View(), progress) == Visited(old(View()), input)
    {
      if input.healthHint || input.nowNs >= nextMaintenanceNs {
        Maintain(input.nowNs);
        return true;
      }
      if inbox != [] {
        Dequeue(input.nowNs);
        return true;
      }
      closed := !inboxOpen;
      return false;
    }

    /** The reply has come: its update is retained with the time it was built. */
    method Complete(nowNs: nat)
      requires pending.Some?
      modifies this`pending, this`delivery
      ensures pending.None? && delivery == Some(Delivery(old(pending).value, nowNs))
    {
      var ticket := pending.value;
      pending := None;
      RetainUpdate(ticket, nowNs);
    }

    method TakeBack()
      requires returned > 0
      modifies this`returned, this`context
      ensures context && returned == old(returned) - 1
    {
      returned := returned - 1;
      context := true;
    }

    /** One visit. Where the code would panic for want of a context, its worker is shown to
        be alive. */
    method Poll(input: Input) returns (progress: bool)
      requires Inv(View())
      modifies this
      ensures (View(), progress) == Visited(old(View()), input) && Inv(View())
    {
      VisitedKeepsInv(View(), input);
      if closed {
        return false;
      }
      if !context {
        if returned == 0 {
          assert workerAlive;
          return false;
        }
        TakeBack();
        return true;
      }
      if delivery.Some? {
        progress := Publish(input.outbox);
        return;
      }
      if pending.Some? {
        if !input.replyReady {
          return false;
        }
        Complete(input.nowNs);
        return true;
      }
      progress := PollIdle(input);
    }
  }

  // ------------------------------------------------------------------ the reactor

  /** How long the reactor may sleep: 50 us while an update waits for outbox space, never
      past the next maintenance of an actor that could do it. */
  method IdleWait(owners: seq<Actor>, nowNs: nat) returns (wait: nat)
    ensures wait <= HEARTBEAT_NS
    ensures forall i :: 0 <= i < |owners| && owners[i].delivery.Some? ==> wait <= RETRY_NS
    ensures forall i :: 0 <= i < |owners| && MaintainsNext(owners[i]) ==>
        nowNs + wait <= Max(owners[i].nextMaintenanceNs, nowNs)
    ensures wait == HEARTBEAT_NS || (wait == RETRY_NS && exists i :: 0 <= i < |owners| && owners[i].delivery.Some?)
            || exists i :: 0 <= i < |owners| && MaintainsNext(owners[i])
                           && wait == SatSub(owners[i].nextMaintenanceNs, nowNs)
  {
    wait := HEARTBEAT_NS;
    for i := 0 to |owners|
      invariant wait == HEARTBEAT_NS || (wait == RETRY_NS && exists j :: 0 <= j < i && owners[j].delivery.Some?)
      invariant forall j :: 0 <= j < i && owners[j].delivery.Some? ==> wait == RETRY_NS
    {
      if owners[i].delivery.Some? { wait := RETRY_NS; }
    }
    ghost var start := wait;
    for i := 0 to |owners|
      invariant wait <= start
      invariant forall j :: 0 <= j < i && MaintainsNext(owners[j]) ==>
          nowNs + wait <= Max(owners[j].nextMaintenanceNs, nowNs)
      invariant wait == start
                || exists j :: 0 <= j < i && MaintainsNext(owners[j])
                               && wait == SatSub(owners[j].nextMaintenanceNs, nowNs)
    {
      if MaintainsNext(owners[i]) {
        wait := Min(wait, SatSub(owners[i].nextMaintenanceNs, nowNs));
      }
    }
  }

  predicate MaintainsNext(s: Actor) {
    !s.closed && s.pending.None? && s.delivery.None? && s.context
  }

  function WouldProgress(owners: seq<Actor>, inputs: seq<Input>): (acts: seq<bool>)
    requires |inputs| == |owners|
    ensures |acts| == |owners| && forall i :: 0 <= i < |owners| ==> acts[i] == Visited(owners[i], inputs[i]).1
  {
    seq(|owners|, i requires 0 <= i < |owners| && |inputs| == |owners| => Visited(owners[i], inputs[i]).1)
  }

  /** Every visited actor polled once. */
  function AfterTurn(owners: seq<Actor>, inputs: seq<Input>, start: nat, visited: nat): (r: seq<Actor>)
    requires |inputs| == |owners|
    ensures |r| == |owners|
    ensures forall i :: 0 <= i < |owners| ==>
              r[i] == if Visits(start, visited, i, |owners|) then Visited(owners[i], inputs[i]).0 else owners[i]
  {
    seq(|owners|, i requires 0 <= i < |owners| && |inputs| == |owners| =>
      if Visits(start, visited, i, |owners|) then Visited(owners[i], inputs[i]).0 else owners[i])
  }

  lemma AfterTurnInv(owners: seq<Actor>, inputs: seq<Input>, start: nat, visited: nat)
    requires |inputs| == |owners| && forall i :: 0 <= i < |owners| ==> AtRest(owners[i])
    ensures forall i :: 0 <= i < |owners| ==> AtRest(AfterTurn(owners, inputs, start, visited)[i])
  {
    forall i | 0 <= i < |owners| ensures AtRest(AfterTurn(owners, inputs, start, visited)[i]) {
      VisitedKeepsInv(owners[i], inputs[i]);
    }
  }

  /** Between visits. */
  predicate AtRest(s: Actor) {
    Inv(s) && s.hand.Free?
  }

  /** The actors of one core under one cursor. */
  class Reactor {
    var owners: seq<Actor>
    const cursor: Cursor

    ghost predicate Valid()
      reads this, cursor
    {
      cursor.Valid() && |owners| == cursor.lanes && forall i :: 0 <= i < |owners| ==> AtRest(owners[i])
    }

    constructor (count: nat, batch: nat)
      requires 1 <= count <= 64 && batch >= 1
      ensures Valid() && fresh(cursor) && cursor.budget == Min(batch, count) && owners == seq(count, _ => NewActor())
    {
      cursor := new Cursor(count, Min(batch, count));
      owners := seq(count, _ => NewActor());
    }

    /** One turn of the run loop: consecutive actors from the cursor are polled once each,
        in rotation, until the budget is spent; the others are untouched. */
    method Turn(inputs: seq<Input>) returns (visited: nat, progressed: nat)
      requires Valid() && |inputs| == |owners|
      modifies this, cursor
      ensures Valid() && cursor.budget <= visited <= cursor.lanes
      ensures cursor.next == Advance(old(cursor.next), visited, cursor.lanes)
      ensures |owners| == |old(owners)|
      ensures forall i :: 0 <= i < |owners| ==>
                owners[i] == if Visits(old(cursor.next), visited, i, cursor.lanes)
                             then Visited(old(owners)[i], inputs[i]).0 else old(owners)[i]
      ensures progressed <= cursor.budget && (progressed < cursor.budget ==> visited == cursor.lanes)
    {
      // A visit reads and writes only its own actor, so what each visit would do is known
      // before the turn starts.
      var before, start := owners, cursor.next;
      visited, progressed := cursor.Poll(WouldProgress(before, inputs));
      owners := AfterTurn(before, inputs, start, visited);
      AfterTurnInv(before, inputs, start, visited);
    }

    /** The loop's exit test: it leaves only when no actor has anything pending. */
    method Finished() returns (finished: bool)
      requires Valid()
      ensures finished <==> forall i :: 0 <= i < |owners| ==> owners[i].closed
      ensures finished ==> forall i :: 0 <= i < |owners| ==>
                owners[i].context && owners[i].inbox == [] && InFlight(owners[i]) == []
                && Tickets(owners[i].resolved) == owners[i].dequeued
    {
      finished := true;
      for i := 0 to |owners|
        invariant finished <==> forall j :: 0 <= j < i ==> owners[j].closed
      {
        finished := finished && owners[i].closed;
      }
    }
  }
}
