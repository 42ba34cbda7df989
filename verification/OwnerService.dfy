/** `ready_for` and `step` agree: a step takes up only work that is due, time moves the
    watchdog on, callbacks of one owner never overlap, and an instant is soon exhausted. */
module OwnerService {
  import opened Common
  import opened VirtualOwner

  /** Steps and outages happen in time order, strictly before the end of u64 time and not
      before what has been received, and no market entry's ready time saturates. Ingress comes
      first: what is received at an instant is enqueued before the step at that instant. */
  predicate Legal<K, T>(c: Config, clockNs: nat, op: Op<K, T>) {
    match op
    case Market(receivedNs, _, _) => receivedNs + c.applyDelayNs < U64_MAX
    case Prepend(receivedNs, _) => receivedNs + c.applyDelayNs < U64_MAX
    case SuspendAt(nowNs) => clockNs <= nowNs < U64_MAX
    case RebaseAt(nowNs, _) => clockNs <= nowNs < U64_MAX
    case ResumeAt(nowNs) => clockNs <= nowNs < U64_MAX
    case Step(nowNs) => clockNs <= nowNs < U64_MAX
    case _ => true
  }

  /** The latest instant any operation has been about. */
  function Clock<K, T>(clockNs: nat, op: Op<K, T>): nat {
    match op
    case Market(receivedNs, _, _) => Max(clockNs, receivedNs)
    case Prepend(receivedNs, _) => Max(clockNs, receivedNs)
    case Private(receivedNs, _) => Max(clockNs, receivedNs)
    case SuspendAt(nowNs) => nowNs
    case RebaseAt(nowNs, _) => nowNs
    case ResumeAt(nowNs) => nowNs
    case Step(nowNs) => nowNs
    case _ => clockNs
  }

  /** Nothing waiting was received later than now, unless it is not ready before then. */
  predicate CausalEntry<K, T>(clockNs: nat, p: Pending<K, T>) {
    p.receivedNs <= Max(clockNs, p.readyNs)
  }

  /** The spans in which callbacks of this owner were in service, oldest first; a span cut
      short by a suspension ends there. */
  datatype Span = Span(applyNs: nat, endNs: nat)

  function LastEnd(spans: seq<Span>): nat {
    if spans == [] then 0 else spans[|spans| - 1].endNs
  }

  predicate Disjoint(spans: seq<Span>) {
    && (forall i :: 0 <= i < |spans| ==> spans[i].applyNs <= spans[i].endNs)
    && (forall i :: 0 < i < |spans| ==> spans[i - 1].endNs <= spans[i].applyNs)
  }

  /** The market lane's readiness is representable: an entry whose ready time saturated at
      the end of u64 time is taken for an empty lane by `ready_for`. */
  predicate MarketEntry<K, T>(clockNs: nat, p: Pending<K, T>) {
    CausalEntry(clockNs, p) && p.readyNs < U64_MAX
  }

  /** What waits, and what is in service, has been received. */
  ghost predicate Causal<K, T>(c: Config, o: Owner<K, T>, clockNs: nat) {
    && (c.watchdogIntervalNs == 0 ==> o.nextWatchdogNs == U64_MAX)
    && (forall i :: 0 <= i < |o.market| ==> MarketEntry(clockNs, o.market[i]))
    && (forall i :: 0 <= i < |o.private| ==> CausalEntry(clockNs, o.private[i]))
    && (o.history.Some? ==> CausalEntry(clockNs, o.history.value))
    && (o.running.Some? ==>
          && o.running.value.receivedNs <= o.running.value.applyNs <= clockNs
          && o.running.value.applyNs <= o.running.value.completedNs)
  }

  /** The spans of the past are disjoint, and the callback in service began after them. */
  ghost predicate Timeline<K, T>(o: Owner<K, T>, clockNs: nat, spans: seq<Span>) {
    && Disjoint(spans) && LastEnd(spans) <= clockNs
    && (o.running.Some? ==> LastEnd(spans) <= o.running.value.applyNs)
    && (o.pausedUntilNs == U64_MAX || (o.pausedUntilNs == 0 && LastEnd(spans) <= o.availableNs))
  }

  /** What it means that a step at `nowNs` is due. */
  predicate Due<K, T>(c: Config, o: Owner<K, T>, nowNs: nat) {
    if o.running.Some? then o.running.value.completedNs <= nowNs
    else
      && o.availableNs <= nowNs
      && match Choose(c, o, nowNs)
         case TakePrivate => o.private[0].readyNs <= nowNs && o.private[0].receivedNs <= nowNs
         case TakeHistory => o.history.value.readyNs <= nowNs && o.history.value.receivedNs <= nowNs
         case TakeMarket => o.market[0].readyNs <= nowNs && o.market[0].receivedNs <= nowNs
         case TakeWatchdog => o.nextWatchdogNs <= nowNs && o.nextWatchdogNs <= c.endNs
  }

  /** Whatever `ready_for` announces at or before now, the step finds: it completes or
      starts work that is really due, and an empty market lane is never mistaken for a
      watchdog tick. */
  lemma StepFindsDueWork<K, T>(c: Config, o: Owner<K, T>, clockNs: nat, nowNs: nat)
    requires Causal(c, o, clockNs) && clockNs <= nowNs < U64_MAX && ReadyFor(c, o) <= nowNs
    ensures Due(c, o, nowNs)
  {
  }

  /** Everything waiting was received and every time is a u64. */
  ghost predicate Plausible<K, T>(o: Owner<K, T>, clockNs: nat) {
    && (forall i :: 0 <= i < |o.market| ==> CausalEntry(clockNs, o.market[i]) && o.market[i].readyNs <= U64_MAX)
    && (forall i :: 0 <= i < |o.private| ==> CausalEntry(clockNs, o.private[i]) && o.private[i].readyNs <= U64_MAX)
    && (o.history.Some? ==> CausalEntry(clockNs, o.history.value) && o.history.value.readyNs <= U64_MAX)
    && (o.running.Some? ==> o.running.value.completedNs <= U64_MAX)
    && o.availableNs <= U64_MAX && o.nextWatchdogNs <= U64_MAX
  }

  /** The market lane is headed by an entry whose ready time saturated, no other input is ready,
      and the watchdog's gap has not passed. */
  predicate SaturatedFront<K, T>(o: Owner<K, T>, nowNs: nat) {
    && o.running.None? && o.market != [] && o.market[0].readyNs == U64_MAX
    && (o.private == [] || o.private[0].readyNs > nowNs)
    && (o.history.None? || o.history.value.readyNs > nowNs)
    && nowNs < o.lastWatchdogNs + WATCHDOG_GAP_NS
  }

  /** Nothing in service, nothing queued and no tick left before the end of the replay. */
  predicate NothingLeft<K, T>(c: Config, o: Owner<K, T>) {
    o.running.None? && o.market == [] && o.private == [] && o.history.None? && o.nextWatchdogNs > c.endNs
  }

  /** Exactly when a selected owner has nothing due: before the last u64 instant only behind a
      saturated market entry, at that instant only if nothing is left at all. */
  lemma StepFindsDueWorkExactly<K, T>(c: Config, o: Owner<K, T>, clockNs: nat, nowNs: nat)
    requires Plausible(o, clockNs) && clockNs <= nowNs <= U64_MAX && ReadyFor(c, o) <= nowNs
    ensures nowNs < U64_MAX ==> (!Due(c, o, nowNs) <==> SaturatedFront(o, nowNs))
    ensures nowNs == U64_MAX ==> (!Due(c, o, nowNs) <==> NothingLeft(c, o))
  {
  }

  /** The two conditions are needed. At the last u64 instant an owner with nothing to do is
      selected and served a watchdog that is not due; and a market entry whose ready time
      saturated is popped, unready, when a watchdog tick comes within the 500 ms gap. */
  lemma EndOfTimeIsNotDue()
    ensures var c := Config(0, 0, 1, 0, 0, 0);
            var o := New<int, int>(c);
            ReadyFor(c, o) <= U64_MAX && Choose(c, o, U64_MAX).TakeWatchdog? && !Due(c, o, U64_MAX)
  {
  }

  lemma SaturatedEntryIsNotDue()
    ensures var c := Config(U64_MAX, 0, 1, 10, 0, 100);
            var entry: Pending<int, int> := Pending(1, U64_MAX, 0, Some(7), 0);
            var o := New<int, int>(c).(market := [entry]);
            ReadyFor(c, o) <= 10 && Choose(c, o, 10).TakeMarket? && !Due(c, o, 10)
  {
  }

  /** A watchdog tick always moves the next one strictly past now. */
  lemma WatchdogMovesOn(c: Config, nextNs: nat, nowNs: nat)
    requires c.watchdogIntervalNs > 0 && nextNs <= nowNs < U64_MAX
    ensures NextTick(c, nextNs, nowNs) > nowNs
  {
    var gap, interval := nowNs - nextNs, c.watchdogIntervalNs;
    var missed := gap / interval;
    assert (missed + 1) * interval == missed * interval + interval;
    assert gap < missed * interval + interval;
  }

  lemma Floor(gap: nat, interval: nat) returns (missed: nat)
    requires interval > 0
    ensures missed == gap / interval && missed * interval <= gap < missed * interval + interval
  {
    missed := gap / interval;
  }

  /** Ticks that were missed coalesce: the next one is the first after now on the same grid. */
  lemma WatchdogStaysOnGrid(c: Config, nextNs: nat, nowNs: nat) returns (ticks: nat)
    requires c.watchdogIntervalNs > 0 && nextNs <= nowNs && nowNs + c.watchdogIntervalNs <= U64_MAX
    ensures NextTick(c, nextNs, nowNs) == nextNs + ticks * c.watchdogIntervalNs
    ensures nowNs < NextTick(c, nextNs, nowNs) <= nowNs + c.watchdogIntervalNs
  {
    var interval := c.watchdogIntervalNs;
    var missed := Floor(nowNs - nextNs, interval);
    ticks := missed + 1;
    GridStep(missed, interval);
    assert SatMul(missed + 1, interval) == missed * interval + interval;
  }

  lemma GridStep(missed: nat, interval: nat)
    ensures (missed + 1) * interval == missed * interval + interval
  {}

  // ------------------------------------------------------------------ what is due is found, and what is found

  predicate FrontDue<K, T>(queue: seq<Pending<K, T>>, nowNs: nat) {
    queue != [] && queue[0].readyNs <= nowNs
  }

  /** A tick inside the replay whose time has come; beside market work only half a second after
      the last one. */
  predicate TickComes<K, T>(c: Config, o: Owner<K, T>, nowNs: nat) {
    && o.nextWatchdogNs <= c.endNs && o.nextWatchdogNs <= nowNs
    && (o.market == [] || nowNs >= o.lastWatchdogNs + WATCHDOG_GAP_NS)
  }

  /** There is something for this owner to do: a callback that has been served its time, or, once
      it is available, an input whose time has come. */
  predicate HasDue<K, T>(c: Config, o: Owner<K, T>, nowNs: nat) {
    && o.pausedUntilNs == 0
    && if o.running.Some? then o.running.value.completedNs <= nowNs
       else
         && o.availableNs <= nowNs
         && (|| FrontDue(o.private, nowNs) || (o.history.Some? && o.history.value.readyNs <= nowNs)
             || FrontDue(o.market, nowNs) || TickComes(c, o, nowNs))
  }

  /** `ready_for` is exact: an owner is announced ready at the very instants at which it has
      something to do. */
  lemma ReadyExactly<K, T>(c: Config, o: Owner<K, T>, nowNs: nat)
    requires nowNs < U64_MAX && (o.pausedUntilNs == 0 || o.pausedUntilNs == U64_MAX)
    requires o.market != [] ==> o.market[0].readyNs < U64_MAX
    ensures ReadyFor(c, o) <= nowNs <==> HasDue(c, o, nowNs)
  {}

  /** The callback that a step of an idle owner begins. */
  function Begun<K, T>(c: Config, o: Owner<K, T>, nowNs: nat): Option<Completion<T>> {
    if c.serviceTimeNs == 0 then Serve(c, o, nowNs).1 else Serve(c, o, nowNs).0.running
  }

  /** It is the first of these whose time has come: the oldest private message, the history job, a
      watchdog tick, the head of the market lane. It carries that input's payload and receipt
      time, begins now and lasts the configured service time. */
  lemma BeginsByPriority<K, T>(c: Config, o: Owner<K, T>, nowNs: nat)
    requires o.running.None?
    ensures Begun(c, o, nowNs).Some?
    ensures var begun := Begun(c, o, nowNs).value;
            && begun.applyNs == nowNs && begun.completedNs == SatAdd(nowNs, c.serviceTimeNs)
            && (if FrontDue(o.private, nowNs) then
                  && begun.privateLane && !begun.historyLane
                  && begun.work == Event(o.private[0].payload) && begun.receivedNs == o.private[0].receivedNs
                else if o.history.Some? && o.history.value.readyNs <= nowNs then
                  && !begun.privateLane && begun.historyLane
                  && begun.work == Event(o.history.value.payload) && begun.receivedNs == o.history.value.receivedNs
                else if o.market == [] || TickComes(c, o, nowNs) then
                  && !begun.privateLane && !begun.historyLane
                  && begun.work == Watchdog && begun.receivedNs == o.nextWatchdogNs
                else
                  && !begun.privateLane && !begun.historyLane
                  && begun.work == Event(o.market[0].payload) && begun.receivedNs == o.market[0].receivedNs)
  {}

  /** After a tick, beside market work, the next one waits half a second. */
  lemma TicksAreSpaced<K, T>(c: Config, o: Owner<K, T>, nowNs: nat, laterNs: nat)
    requires o.running.None? && Begun(c, o, nowNs).Some? && Begun(c, o, nowNs).value.work.Watchdog?
    requires o.market != [] && nowNs <= laterNs < nowNs + WATCHDOG_GAP_NS
    ensures !TickComes(c, Serve(c, o, nowNs).0, laterNs)
  {
    BeginsByPriority(c, o, nowNs);
  }

  /** An owner that resumes with nothing waiting is next ready for a tick one whole interval
      later, if that is still inside the replay; and market work is not held up by a tick for the
      first half second. */
  lemma ResumesAnew<K, T>(c: Config, o: Owner<K, T>, nowNs: nat)
    requires o.running.None? && o.private == [] && o.history.None? && nowNs + c.watchdogIntervalNs <= U64_MAX
    ensures var r := Resume(c, o, nowNs);
            && (o.market == [] ==>
                  ReadyFor(c, r) == if c.watchdogIntervalNs == 0 || nowNs + c.watchdogIntervalNs > c.endNs
                                    then Max(U64_MAX, nowNs) else nowNs + c.watchdogIntervalNs)
            && (forall t | nowNs <= t < nowNs + WATCHDOG_GAP_NS && o.market != [] :: !TickComes(c, r, t))
  {}

  // ------------------------------------------------------------------ an instant is finite

  predicate TickDue<K, T>(c: Config, o: Owner<K, T>, nowNs: nat) {
    o.nextWatchdogNs <= nowNs && o.nextWatchdogNs <= c.endNs
  }

  /** How much an owner can still do at one instant. */
  function Backlog<K, T>(c: Config, o: Owner<K, T>, nowNs: nat): nat {
    2 * (|o.private| + |o.market| + (if o.history.Some? then 1 else 0) + (if TickDue(c, o, nowNs) then 1 else 0))
    + (if o.running.Some? then 1 else 0)
  }

  /** Each step at a fixed instant uses some of it up. */
  lemma StepShrinksBacklog<K, T>(c: Config, o: Owner<K, T>, nowNs: nat)
    requires (c.watchdogIntervalNs == 0 ==> o.nextWatchdogNs == U64_MAX) && nowNs < U64_MAX
    requires ReadyFor(c, o) <= nowNs
    ensures Backlog(c, Serve(c, o, nowNs).0, nowNs) < Backlog(c, o, nowNs)
  {
    if o.running.None? && Choose(c, o, nowNs).TakeWatchdog? {
      WatchdogMovesOn(c, o.nextWatchdogNs, nowNs);
    }
  }

  // ------------------------------------------------------------------ runs

  /** The spans after an operation. */
  function Spans<K(==), T>(spans: seq<Span>, c: Config, o: Owner<K, T>, op: Op<K, T>): seq<Span> {
    if op.SuspendAt? && o.running.Some? then spans + [Span(o.running.value.applyNs, op.nowNs)]
    else if op.Step? && ReadyFor(c, o) <= op.nowNs then
      var done := Serve(c, o, op.nowNs).1;
      if done.Some? then spans + [Span(done.value.applyNs, done.value.completedNs)] else spans
    else spans
  }

  lemma {:induction false} RetainedCausal<K, T>(market: seq<Pending<K, T>>, retire: T -> bool, clockNs: nat)
    requires forall i :: 0 <= i < |market| ==> MarketEntry(clockNs, market[i])
    ensures forall i :: 0 <= i < |Retained(market, retire)| ==> MarketEntry(clockNs, Retained(market, retire)[i])
  {
    if market != [] { RetainedCausal(market[..|market| - 1], retire, clockNs); }
  }

  lemma {:induction false} RebasedCausal<K, T>(c: Config, queue: seq<Pending<K, T>>, nowNs: nat, update: (T, nat) -> T)
    ensures forall i :: 0 <= i < |queue| ==> CausalEntry(nowNs, Rebased(c, queue, nowNs, update)[i])
  {
    if queue != [] {
      RebasedCausal(c, queue[1..], nowNs, update);
      var rest := Rebased(c, queue[1..], nowNs, update);
      assert forall i :: 0 < i < |queue| ==> Rebased(c, queue, nowNs, update)[i] == rest[i - 1];
    }
  }

  lemma TakenCausal<K, T>(c: Config, o: Owner<K, T>, clockNs: nat, nowNs: nat)
    requires Causal(c, o, clockNs) && clockNs <= nowNs < U64_MAX && ReadyFor(c, o) <= nowNs && o.running.None?
    ensures Due(c, o, nowNs) && Causal(c, Taken(c, o, Choose(c, o, nowNs), nowNs), nowNs)
  {
    StepFindsDueWork(c, o, clockNs, nowNs);
  }

  lemma ServeCausal<K, T>(c: Config, o: Owner<K, T>, clockNs: nat, nowNs: nat)
    requires Causal(c, o, clockNs) && clockNs <= nowNs < U64_MAX && ReadyFor(c, o) <= nowNs
    ensures Causal(c, Serve(c, o, nowNs).0, nowNs)
  {
    if o.running.None? { TakenCausal(c, o, clockNs, nowNs); }
  }

  lemma EnqueueCausal<K, T>(c: Config, o: Owner<K, T>, clockNs: nat, op: Op<K, T>)
    requires Causal(c, o, clockNs) && Legal(c, clockNs, op) && Apply(c, o, op).Ok?
    requires op.Market? || op.Prepend? || op.Private?
    ensures Causal(c, Apply(c, o, op).value.0, Clock(clockNs, op))
  {
    if op.Market? {
      var t := Apply(c, o, op).value.0;
      forall i | 0 <= i < |t.market| ensures MarketEntry(Clock(clockNs, op), t.market[i]) {
        assert i < |o.market| ==> MarketEntry(clockNs, o.market[i]);
      }
    }
  }

  lemma OutageCausal<K, T>(c: Config, o: Owner<K, T>, clockNs: nat, op: Op<K, T>)
    requires Causal(c, o, clockNs) && Legal(c, clockNs, op) && Apply(c, o, op).Ok?
    requires op.SuspendAt? || op.ResumeAt? || op.RebaseAt?
    ensures Causal(c, Apply(c, o, op).value.0, op.nowNs)
  {
    if op.RebaseAt? { RebasedCausal(c, o.private, op.nowNs, op.update); }
  }

  lemma ApplyCausal<K, T>(c: Config, o: Owner<K, T>, clockNs: nat, op: Op<K, T>)
    requires Causal(c, o, clockNs) && Legal(c, clockNs, op) && Apply(c, o, op).Ok?
    ensures Causal(c, Apply(c, o, op).value.0, Clock(clockNs, op))
  {
    match op
    case Retire(retire) => RetainedCausal(o.market, retire, clockNs);
    case History(_, _) =>
    case SuspendAt(_) => OutageCausal(c, o, clockNs, op);
    case ResumeAt(_) => OutageCausal(c, o, clockNs, op);
    case RebaseAt(_, _) => OutageCausal(c, o, clockNs, op);
    case Step(nowNs) => if ReadyFor(c, o) <= nowNs { ServeCausal(c, o, clockNs, nowNs); }
    case _ => EnqueueCausal(c, o, clockNs, op);
  }

  lemma ServeTimeline<K, T>(c: Config, o: Owner<K, T>, clockNs: nat, spans: seq<Span>, nowNs: nat)
    requires Causal(c, o, clockNs) && Timeline(o, clockNs, spans)
    requires clockNs <= nowNs < U64_MAX && ReadyFor(c, o) <= nowNs
    ensures Timeline(Serve(c, o, nowNs).0, nowNs, Spans(spans, c, o, Step(nowNs)))
  {
    assert o.pausedUntilNs == 0;
    if o.running.None? {
      StepFindsDueWork(c, o, clockNs, nowNs);
    }
  }

  lemma OutageTimeline<K, T>(c: Config, o: Owner<K, T>, clockNs: nat, spans: seq<Span>, op: Op<K, T>)
    requires Causal(c, o, clockNs) && Timeline(o, clockNs, spans)
    requires Legal(c, clockNs, op) && Apply(c, o, op).Ok? && (op.SuspendAt? || op.ResumeAt?)
    ensures Timeline(Apply(c, o, op).value.0, Clock(clockNs, op), Spans(spans, c, o, op))
  {}

  lemma ApplyTimeline<K, T>(c: Config, o: Owner<K, T>, clockNs: nat, spans: seq<Span>, op: Op<K, T>)
    requires Causal(c, o, clockNs) && Timeline(o, clockNs, spans)
    requires Legal(c, clockNs, op) && Apply(c, o, op).Ok?
    ensures Timeline(Apply(c, o, op).value.0, Clock(clockNs, op), Spans(spans, c, o, op))
  {
    if op.Step? {
      if ReadyFor(c, o) <= op.nowNs { ServeTimeline(c, o, clockNs, spans, op.nowNs); }
    } else if op.SuspendAt? || op.ResumeAt? {
      OutageTimeline(c, o, clockNs, spans, op);
    } else {
      var t := Apply(c, o, op).value.0;
      assert t.running == o.running && t.pausedUntilNs == o.pausedUntilNs && t.availableNs == o.availableNs;
    }
  }

  /** The states a run passes through are legal, and no lane overflows. */
  predicate LegalRun<K(==), T>(c: Config, o: Owner<K, T>, clockNs: nat, ops: seq<Op<K, T>>)
    decreases |ops|
  {
    ops == [] ||
    (&& Legal(c, clockNs, ops[0]) && Apply(c, o, ops[0]).Ok?
     && LegalRun(c, Apply(c, o, ops[0]).value.0, Clock(clockNs, ops[0]), ops[1..]))
  }

  function After<K(==), T>(c: Config, o: Owner<K, T>, clockNs: nat, spans: seq<Span>, ops: seq<Op<K, T>>)
    : (Owner<K, T>, nat, seq<Span>)
    requires LegalRun(c, o, clockNs, ops)
    decreases |ops|
  {
    if ops == [] then (o, clockNs, spans)
    else After(c, Apply(c, o, ops[0]).value.0, Clock(clockNs, ops[0]), Spans(spans, c, o, ops[0]), ops[1..])
  }

  lemma {:induction false} AfterInv<K, T>(c: Config, o: Owner<K, T>, clockNs: nat, spans: seq<Span>, ops: seq<Op<K, T>>)
    requires LegalRun(c, o, clockNs, ops) && Causal(c, o, clockNs) && Timeline(o, clockNs, spans)
    ensures var (end, clock, past) := After(c, o, clockNs, spans, ops);
            Causal(c, end, clock) && Timeline(end, clock, past)
    decreases |ops|
  {
    if ops != [] {
      ApplyCausal(c, o, clockNs, ops[0]);
      ApplyTimeline(c, o, clockNs, spans, ops[0]);
      AfterInv(c, Apply(c, o, ops[0]).value.0, Clock(clockNs, ops[0]), Spans(spans, c, o, ops[0]), ops[1..]);
    }
  }

  /** In every legal run from a fresh owner: whenever the owner is announced ready, the
      step takes up due work, and moves a watchdog it serves strictly past now; and the
      spans in which its callbacks were in service never overlap. */
  lemma ServiceIsDueAndDisjoint<K, T>(c: Config, ops: seq<Op<K, T>>, nowNs: nat)
    requires LegalRun(c, New<K, T>(c), c.startNs, ops)
    requires var (o, clock, _) := After(c, New<K, T>(c), c.startNs, [], ops); clock <= nowNs < U64_MAX
    ensures var (o, _, past) := After(c, New<K, T>(c), c.startNs, [], ops);
            && (ReadyFor(c, o) <= nowNs ==> Due(c, o, nowNs))
            && (ReadyFor(c, o) <= nowNs && o.running.None? && Choose(c, o, nowNs).TakeWatchdog? ==>
                  Serve(c, o, nowNs).0.nextWatchdogNs > nowNs)
            && Disjoint(past) && (o.running.Some? ==> LastEnd(past) <= o.running.value.applyNs)
  {
    AfterInv(c, New<K, T>(c), c.startNs, [], ops);
    var (o, clock, past) := After(c, New<K, T>(c), c.startNs, [], ops);
    if ReadyFor(c, o) <= nowNs && o.running.None? && Choose(c, o, nowNs).TakeWatchdog? {
      StepFindsDueWork(c, o, clock, nowNs);
      WatchdogMovesOn(c, o.nextWatchdogNs, nowNs);
    }
  }

  // ------------------------------------------------------------------ service takes its time

  /** When the callback in service was begun, by the clock of the step that began it. */
  function Began<K, T>(beganNs: nat, c: Config, o: Owner<K, T>, op: Op<K, T>): nat {
    if op.Step? && o.running.None? && ReadyFor(c, o) <= op.nowNs then op.nowNs else beganNs
  }

  predicate Paced<T>(c: Config, beganNs: nat, done: Completion<T>) {
    done.applyNs == beganNs && done.completedNs == SatAdd(beganNs, c.serviceTimeNs)
  }

  predicate PacedOwner<K, T>(c: Config, beganNs: nat, o: Owner<K, T>) {
    o.running.Some? ==> Paced(c, beganNs, o.running.value)
  }

  /** Every completion was begun by the last step that found the owner idle, was in service for
      the configured time, and is delivered no earlier. */
  lemma PacedStep<K, T>(c: Config, beganNs: nat, o: Owner<K, T>, op: Op<K, T>)
    requires PacedOwner(c, beganNs, o) && Apply(c, o, op).Ok?
    ensures var (after, done) := Apply(c, o, op).value;
            && PacedOwner(c, Began(beganNs, c, o, op), after)
            && (done.Some? ==> op.Step? && Paced(c, Began(beganNs, c, o, op), done.value)
                               && (op.nowNs < U64_MAX ==> done.value.completedNs <= op.nowNs))
  {
    if op.Step? && ReadyFor(c, o) <= op.nowNs && o.running.None? { BeginsByPriority(c, o, op.nowNs); }
  }

  function RunBegan<K(==), T>(c: Config, beganNs: nat, o: Owner<K, T>, ops: seq<Op<K, T>>): Outcome<(Owner<K, T>, nat)>
    decreases |ops|
  {
    if ops == [] then Ok((o, beganNs))
    else
      match Apply(c, o, ops[0])
      case Overflow => Overflow
      case Ok(after) => RunBegan(c, Began(beganNs, c, o, ops[0]), after.0, ops[1..])
  }

  lemma {:induction false} RunPaced<K, T>(c: Config, beganNs: nat, o: Owner<K, T>, ops: seq<Op<K, T>>)
    requires PacedOwner(c, beganNs, o) && RunBegan(c, beganNs, o, ops).Ok?
    ensures var (end, began) := RunBegan(c, beganNs, o, ops).value; PacedOwner(c, began, end)
    decreases |ops|
  {
    if ops != [] {
      PacedStep(c, beganNs, o, ops[0]);
      RunPaced(c, Began(beganNs, c, o, ops[0]), Apply(c, o, ops[0]).value.0, ops[1..]);
    }
  }

  /** In every run without overflow. */
  lemma ServiceTakesItsTime<K, T>(c: Config, ops: seq<Op<K, T>>, op: Op<K, T>)
    requires RunBegan(c, 0, New<K, T>(c), ops).Ok?
    requires Apply(c, RunBegan(c, 0, New<K, T>(c), ops).value.0, op).Ok?
    ensures var (o, began) := RunBegan(c, 0, New<K, T>(c), ops).value;
            var done := Apply(c, o, op).value.1;
            done.Some? ==>
              && op.Step? && done.value.applyNs == Began(began, c, o, op)
              && done.value.completedNs == SatAdd(Began(began, c, o, op), c.serviceTimeNs)
              && (op.nowNs < U64_MAX ==> done.value.completedNs <= op.nowNs)
  {
    RunPaced(c, 0, New<K, T>(c), ops);
    var (o, began) := RunBegan(c, 0, New<K, T>(c), ops).value;
    PacedStep(c, began, o, op);
  }

  // ------------------------------------------------------------------ bounded lanes

  /** What overflows, exactly: new work for a lane that is full, be it a market event that replaces
      nothing, metadata, a private message, or one that an outage returns to its lane. */
  predicate Overflows<K(==), T>(c: Config, o: Owner<K, T>, op: Op<K, T>) {
    match op
    case Market(_, key, _) =>
      |o.market| == c.capacity && (key.None? || Replaceable(o.market, o.epoch, key.value).None?)
    case Prepend(_, _) => |o.market| == c.capacity
    case Private(_, _) => |o.private| == c.capacity
    case SuspendAt(_) => o.running.Some? && o.running.value.privateLane && |o.private| >= c.capacity
    case _ => false
  }

  predicate WithinCapacity<K, T>(c: Config, o: Owner<K, T>) {
    |o.market| <= c.capacity && |o.private| <= c.capacity
  }

  lemma {:induction false} RetainsNoMore<K, T>(market: seq<Pending<K, T>>, retire: T -> bool)
    ensures |Retained(market, retire)| <= |market|
  {
    if market != [] { RetainsNoMore(market[..|market| - 1], retire); }
  }

  lemma OverflowsExactly<K, T>(c: Config, o: Owner<K, T>, op: Op<K, T>)
    requires WithinCapacity(c, o)
    ensures Apply(c, o, op).Overflow? <==> Overflows(c, o, op)
    ensures Apply(c, o, op).Ok? ==> WithinCapacity(c, Apply(c, o, op).value.0)
  {
    if op.Retire? { RetainsNoMore(o.market, op.retire); }
  }

  /** Work that an outage interrupted waits from then on: a resumed owner is due at once, with the
      message or the history job it was serving, and when that was received. */
  lemma InterruptedIsDue<K, T>(c: Config, o: Owner<K, T>, stopNs: nat, resumeNs: nat)
    requires o.running.Some? && o.running.value.work.Event?
    requires o.running.value.privateLane || (o.running.value.historyLane && o.history.None?)
    requires Suspend(c, o, stopNs).Ok? && stopNs <= resumeNs
    ensures var work := o.running.value;
            var resumed := Resume(c, Suspend(c, o, stopNs).value, resumeNs);
            && ReadyFor(c, resumed) <= resumeNs
            && if work.privateLane
               then Choose(c, resumed, resumeNs).TakePrivate? && Holds(resumed.private[0], work)
               else resumed.history.Some? && Holds(resumed.history.value, work)
                    && (Choose(c, resumed, resumeNs).TakePrivate? || Choose(c, resumed, resumeNs).TakeHistory?)
  {
  }

  ghost predicate Holds<K, T>(entry: Pending<K, T>, work: Completion<T>) {
    work.work.Event? && entry.payload == work.work.payload && entry.receivedNs == work.receivedNs
  }
}
