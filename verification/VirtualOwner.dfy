/** One virtual owner of the deterministic backtest scheduler: a lossless private FIFO, a
    coalescing market lane split into barrier epochs, one history job, a watchdog timer
    and at most one callback in service. Every operation the scheduler performs on an
    owner is a function here; `Scheduler` holds the object that applies them in place. */
module VirtualOwner {
  import opened Common

  const WATCHDOG_GAP_NS: nat := 500_000_000

  datatype Config = Config(
    applyDelayNs: nat,
    serviceTimeNs: nat,
    capacity: nat,
    watchdogIntervalNs: nat,
    startNs: nat,
    endNs: nat)

  datatype Pending<+K, +T> = Pending(receivedNs: nat, readyNs: nat, epoch: nat, key: Option<K>, payload: T)

  datatype Work<+T> = Event(payload: T) | Watchdog

  datatype Completion<+T> = Completion(
    receivedNs: nat,
    applyNs: nat,
    completedNs: nat,
    work: Work<T>,
    privateLane: bool,
    historyLane: bool)

  datatype Owner<+K, +T> = Owner(
    market: seq<Pending<K, T>>,
    private: seq<Pending<K, T>>,
    history: Option<Pending<K, T>>,
    running: Option<Completion<T>>,
    epoch: nat,
    nextWatchdogNs: nat,
    lastWatchdogNs: nat,
    availableNs: nat,
    pausedUntilNs: nat)

  /** Overflow of a bounded lane invalidates the run. */
  datatype Outcome<+T> = Ok(value: T) | Overflow

  function FirstWatchdog(c: Config, fromNs: nat): nat {
    if c.watchdogIntervalNs == 0 then U64_MAX else SatAdd(fromNs, c.watchdogIntervalNs)
  }

  function New<K, T>(c: Config): Owner<K, T> {
    Owner([], [], None, None, 0, FirstWatchdog(c, c.startNs), c.startNs, c.startNs, 0)
  }

  // ------------------------------------------------------------------ market lane

  /** The newest pending entry with this key, looking back no further than the barrier
      that opened the current epoch. */
  function Replaceable<K(==), T>(market: seq<Pending<K, T>>, epoch: nat, key: K): (at: Option<nat>)
    ensures at.Some? ==> at.value < |market| && market[at.value].epoch == epoch && market[at.value].key == Some(key)
  {
    if market == [] then None
    else
      var last := |market| - 1;
      if market[last].epoch != epoch then None
      else if market[last].key == Some(key) then Some(last)
      else Replaceable(market[..last], epoch, key)
  }

  /** A keyed event replaces a pending event of its key and epoch, keeping that entry's
      place and eligibility; an unkeyed event is a barrier that opens a new epoch. */
  function EnqueueMarket<K(==), T>(c: Config, o: Owner<K, T>, receivedNs: nat, key: Option<K>, payload: T)
    : Outcome<Owner<K, T>>
  {
    var at := if key.Some? then Replaceable(o.market, o.epoch, key.value) else None;
    if at.Some? then
      var entry := o.market[at.value];
      Ok(o.(market := o.market[at.value := entry.(payload := payload, receivedNs := receivedNs)]))
    else
      var epoch := if key.Some? then o.epoch else o.epoch + 1;
      if |o.market| == c.capacity then Overflow
      else
        var entry := Pending(receivedNs, SatAdd(receivedNs, c.applyDelayNs), epoch, key, payload);
        Ok(o.(epoch := epoch, market := o.market + [entry]))
  }

  function PrependMarket<K, T>(c: Config, o: Owner<K, T>, receivedNs: nat, payload: T): Outcome<Owner<K, T>> {
    if |o.market| == c.capacity then Overflow
    else
      var entry := Pending(receivedNs, SatAdd(receivedNs, c.applyDelayNs), o.epoch + 1, None, payload);
      Ok(o.(epoch := o.epoch + 1, market := [entry] + o.market))
  }

  function Retained<K, T>(market: seq<Pending<K, T>>, retire: T -> bool): seq<Pending<K, T>> {
    if market == [] then []
    else
      var last := |market| - 1;
      var kept := Retained(market[..last], retire);
      if retire(market[last].payload) then kept else kept + [market[last]]
  }

  function RetireMarket<K, T>(o: Owner<K, T>, retire: T -> bool): Owner<K, T> {
    o.(market := Retained(o.market, retire), epoch := o.epoch + 1)
  }

  // ------------------------------------------------------------------ private and history lanes

  function EnqueuePrivate<K, T>(c: Config, o: Owner<K, T>, receivedNs: nat, payload: T): Outcome<Owner<K, T>> {
    if |o.private| == c.capacity then Overflow
    else
      var entry := Pending(receivedNs, SatAdd(receivedNs, c.applyDelayNs), o.epoch, None, payload);
      Ok(o.(private := o.private + [entry]))
  }

  function ScheduleHistory<K, T>(o: Owner<K, T>, readyNs: nat, payload: T): Owner<K, T> {
    o.(history := Some(Pending(readyNs, readyNs, o.epoch, None, payload)))
  }

  // ------------------------------------------------------------------ outages

  /** Paused, with its market lane cleared and nothing in service. */
  function Stopped<K, T>(o: Owner<K, T>): Owner<K, T> {
    o.(pausedUntilNs := U64_MAX, epoch := o.epoch + 1, market := [], running := None)
  }

  /** The callback in service has not run: a private message returns to the head of its
      lane, a history job is kept unless a newer one waits, market work is discarded. */
  function Suspend<K, T>(c: Config, o: Owner<K, T>, nowNs: nat): Outcome<Owner<K, T>> {
    var stopped := Stopped(o);
    if o.running.None? then Ok(stopped)
    else
      var running := o.running.value;
      if running.privateLane then
        if |o.private| >= c.capacity then Overflow
        else if running.work.Event? then
          var entry := Pending(running.receivedNs, nowNs, o.epoch + 1, None, running.work.payload);
          Ok(stopped.(private := [entry] + o.private))
        else Ok(stopped)
      else if running.historyLane && o.history.None? && running.work.Event? then
        var entry := Pending(running.receivedNs, nowNs, o.epoch + 1, None, running.work.payload);
        Ok(stopped.(history := Some(entry)))
      else Ok(stopped)
  }

  function Rebased<K, T>(c: Config, private: seq<Pending<K, T>>, nowNs: nat, update: (T, nat) -> T)
    : (r: seq<Pending<K, T>>)
    ensures |r| == |private|
  {
    if private == [] then []
    else
      [private[0].(receivedNs := nowNs, readyNs := SatAdd(nowNs, c.applyDelayNs),
                   payload := update(private[0].payload, nowNs))]
      + Rebased(c, private[1..], nowNs, update)
  }

  function Rebase<K, T>(c: Config, o: Owner<K, T>, nowNs: nat, update: (T, nat) -> T): Owner<K, T> {
    o.(private := Rebased(c, o.private, nowNs, update))
  }

  function Resume<K, T>(c: Config, o: Owner<K, T>, nowNs: nat): Owner<K, T> {
    o.(pausedUntilNs := 0, availableNs := nowNs, lastWatchdogNs := nowNs, nextWatchdogNs := FirstWatchdog(c, nowNs))
  }

  // ------------------------------------------------------------------ service

  function FrontReady<K, T>(queue: seq<Pending<K, T>>): nat {
    if queue == [] then U64_MAX else queue[0].readyNs
  }

  function ReadyFor<K, T>(c: Config, o: Owner<K, T>): nat {
    if o.pausedUntilNs == U64_MAX then U64_MAX
    else if o.running.Some? then Max(o.running.value.completedNs, o.pausedUntilNs)
    else
      var market := FrontReady(o.market);
      var private := FrontReady(o.private);
      var history := if o.history.Some? then o.history.value.readyNs else U64_MAX;
      var watchdog :=
        if o.nextWatchdogNs > c.endNs then U64_MAX
        else if market != U64_MAX then Max(o.nextWatchdogNs, SatAdd(o.lastWatchdogNs, WATCHDOG_GAP_NS))
        else o.nextWatchdogNs;
      Max(Max(Min(Min(Min(market, private), history), watchdog), o.availableNs), o.pausedUntilNs)
  }

  /** What a step of an idle owner takes up. */
  datatype Choice = TakePrivate | TakeHistory | TakeMarket | TakeWatchdog

  function Choose<K, T>(c: Config, o: Owner<K, T>, nowNs: nat): Choice {
    if o.private != [] && o.private[0].readyNs <= nowNs then TakePrivate
    else if o.history.Some? && o.history.value.readyNs <= nowNs then TakeHistory
    else if o.nextWatchdogNs <= c.endNs && o.nextWatchdogNs <= nowNs
            && (o.market == [] || SatSub(nowNs, o.lastWatchdogNs) >= WATCHDOG_GAP_NS) then TakeWatchdog
    else if o.market == [] then TakeWatchdog
    else TakeMarket
  }

  /** The next watchdog tick after `nowNs`: missed ticks coalesce into one. */
  function NextTick(c: Config, nextNs: nat, nowNs: nat): nat {
    var missed := SatSub(nowNs, nextNs) / Max(c.watchdogIntervalNs, 1);
    SatAdd(nextNs, SatMul(missed + 1, c.watchdogIntervalNs))
  }

  /** The owner with its chosen input removed. */
  function Taken<K, T>(c: Config, o: Owner<K, T>, choice: Choice, nowNs: nat): Owner<K, T>
    requires choice.TakePrivate? ==> o.private != []
    requires choice.TakeMarket? ==> o.market != []
  {
    match choice
    case TakePrivate => o.(private := o.private[1..])
    case TakeHistory => o.(history := None)
    case TakeMarket => o.(market := o.market[1..])
    case TakeWatchdog => o.(lastWatchdogNs := nowNs, nextWatchdogNs := NextTick(c, o.nextWatchdogNs, nowNs))
  }

  function Started<K, T>(c: Config, o: Owner<K, T>, choice: Choice, nowNs: nat): Completion<T>
    requires choice.TakePrivate? ==> o.private != []
    requires choice.TakeHistory? ==> o.history.Some?
    requires choice.TakeMarket? ==> o.market != []
  {
    var (receivedNs, work) := match choice {
      case TakePrivate => (o.private[0].receivedNs, Event(o.private[0].payload))
      case TakeHistory => (o.history.value.receivedNs, Event(o.history.value.payload))
      case TakeMarket => (o.market[0].receivedNs, Event(o.market[0].payload))
      case TakeWatchdog => (o.nextWatchdogNs, Watchdog)
    };
    Completion(receivedNs, nowNs, SatAdd(nowNs, c.serviceTimeNs), work, choice.TakePrivate?, choice.TakeHistory?)
  }

  /** One scheduler step on this owner, already selected: it completes the callback in
      service, or starts one, returning it at once when service takes no time. */
  function Serve<K, T>(c: Config, o: Owner<K, T>, nowNs: nat): (Owner<K, T>, Option<Completion<T>>) {
    if o.running.Some? then (o.(running := None, availableNs := nowNs), o.running)
    else
      var choice := Choose(c, o, nowNs);
      var started := Started(c, o, choice, nowNs);
      var rest := Taken(c, o, choice, nowNs);
      if c.serviceTimeNs == 0 then (rest.(availableNs := nowNs), Some(started))
      else (rest.(running := Some(started)), None)
  }

  function PrivateDrained<K, T>(o: Owner<K, T>): bool {
    o.private == [] && !(o.running.Some? && o.running.value.privateLane)
  }

  // ------------------------------------------------------------------ runs of one owner

  /** Everything that can happen to one owner. `Step` is the scheduler selecting it. */
  datatype Op<!K, !T> =
    | Market(receivedNs: nat, key: Option<K>, payload: T)
    | Prepend(receivedNs: nat, payload: T)
    | Retire(retire: T -> bool)
    | Private(receivedNs: nat, payload: T)
    | History(readyNs: nat, payload: T)
    | SuspendAt(nowNs: nat)
    | RebaseAt(nowNs: nat, update: (T, nat) -> T)
    | ResumeAt(nowNs: nat)
    | Step(nowNs: nat)

  /** The owner and the completion delivered, if any. The scheduler steps an owner only
      when it is due. */
  function Apply<K(==), T>(c: Config, o: Owner<K, T>, op: Op<K, T>): Outcome<(Owner<K, T>, Option<Completion<T>>)> {
    match op
    case Market(receivedNs, key, payload) => Silent(EnqueueMarket(c, o, receivedNs, key, payload))
    case Prepend(receivedNs, payload) => Silent(PrependMarket(c, o, receivedNs, payload))
    case Retire(retire) => Ok((RetireMarket(o, retire), None))
    case Private(receivedNs, payload) => Silent(EnqueuePrivate(c, o, receivedNs, payload))
    case History(readyNs, payload) => Ok((ScheduleHistory(o, readyNs, payload), None))
    case SuspendAt(nowNs) => Silent(Suspend(c, o, nowNs))
    case RebaseAt(nowNs, update) => Ok((Rebase(c, o, nowNs, update), None))
    case ResumeAt(nowNs) => Ok((Resume(c, o, nowNs), None))
    case Step(nowNs) => Ok(if ReadyFor(c, o) <= nowNs then Serve(c, o, nowNs) else (o, None))
  }

  function Silent<K, T>(r: Outcome<Owner<K, T>>): Outcome<(Owner<K, T>, Option<Completion<T>>)> {
    match r
    case Ok(o) => Ok((o, None))
    case Overflow => Overflow
  }
}
