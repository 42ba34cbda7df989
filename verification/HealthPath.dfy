/** The health path, end to end: HTTP results recorded by a connection owner, the totals it
    captures once a command is complete, snapshots built from that capture, the replaceable
    lane that carries them word by word, and the router's admission. The lane loses snapshots
    by design; this module proves that it loses no bad news.

    A dedicated owner captures its totals at its loop boundary and publishes that capture, with
    fresh transport health, until the next one; it reads its lane's occupancy flag some time
    before it builds. A cancel actor reads both as it builds: its capture, its reading and its
    build follow each other at once. */
module HealthPath {
  import opened Common
  import opened Admission
  import opened AdmissionLanes
  import opened SnapshotWords
  import AdmissionFence
  import AdmissionRecovery
  import AdmissionReport
  import L = LatestSnapshot

  // ------------------------------------------------------------------ the owner

  datatype Reply = Ok | Status(code: nat) | Timeout | Transport | NotSent | InvalidResponse | Other

  /** Business rejections prove that the endpoint answers; throttling, authentication, server
      errors and unknown states do not. */
  predicate Responsive(reply: Reply) {
    match reply
    case Ok => true
    case Status(code) => 400 <= code < 500 && code != 425 && code != 401 && code != 403 && code != 408 && code != 429
    case _ => false
  }

  function Classify(reply: Reply, elapsedNs: nat, statusCode: nat): HttpOutcome {
    if statusCode == 0 || reply.Timeout? || reply.Transport? then TransportUncertain
    else if !Responsive(reply) then Failure
    else if elapsedNs >= SLOW_HTTP_NS then SlowResponded
    else Healthy
  }

  /** A slot's cumulative totals, which no snapshot resets. */
  datatype Totals = Totals(
    attemptId: nat,
    business: Option<Business>,
    failures: nat,
    slow: nat,
    noResponse: nat,
    slowRetired: nat,
    slowRetiredGeneration: nat,
    noResponseGeneration: nat,
    noResponsePeer: Option<nat>,
    slowStreak: nat,
    slowStreakGeneration: nat)

  const NO_TOTALS: Totals := Totals(0, None, 0, 0, 0, 0, 0, 0, None, 0, 0)

  /** The totals as they stand, the owner's last capture of them, its transport, and its lane's
      occupancy flag, as it stands and as the owner last read it. */
  datatype Owner = Owner(
    live: Totals,
    captured: Totals,
    sequence: nat,
    generation: nat,
    quarantined: bool,
    busy: bool,
    seenBusy: bool)

  const NEW_OWNER: Owner := Owner(NO_TOTALS, NO_TOTALS, 0, 0, false, false, false)

  /** A completed HTTP attempt, made on the client of generation `picked`. */
  datatype Attempt = Attempt(
    attemptId: nat,
    picked: nat,
    elapsedNs: nat,
    reply: Reply,
    statusCode: nat,
    peer: Option<nat>)

  /** The attempt is the owner's next one; older ones are not recorded twice. */
  predicate Fits(w: Owner, x: Attempt) {
    x.attemptId > w.live.attemptId && x.picked <= w.generation
  }

  /** Two slow responses in a row on one generation retire it. */
  function Streak(w: Totals, x: Attempt): nat {
    if Classify(x.reply, x.elapsedNs, x.statusCode) != SlowResponded then 0
    else if w.slowStreakGeneration == x.picked then w.slowStreak + 1
    else 1
  }

  function Outcome(w: Totals, x: Attempt): HttpOutcome {
    if Streak(w, x) >= 2 then SlowRetired else Classify(x.reply, x.elapsedNs, x.statusCode)
  }

  function AfterAttempt(w: Totals, x: Attempt): Totals {
    var outcome := Outcome(w, x);
    var failed := outcome == Failure || outcome == TransportUncertain;
    var slow := outcome == SlowResponded || outcome == SlowRetired;
    var silent := failed && x.statusCode == 0;
    w.(attemptId := x.attemptId,
       business := Some(Business(x.attemptId, x.picked, x.elapsedNs, outcome)),
       slowStreak := Streak(w, x),
       slowStreakGeneration := x.picked,
       failures := if failed then w.failures + 1 else w.failures,
       slow := if slow then w.slow + 1 else w.slow,
       noResponse := if silent then w.noResponse + 1 else w.noResponse,
       noResponseGeneration := if silent then x.picked else w.noResponseGeneration,
       noResponsePeer := if silent then x.peer else w.noResponsePeer,
       slowRetired := if outcome == SlowRetired then w.slowRetired + 1 else w.slowRetired,
       slowRetiredGeneration :=
         if outcome == SlowRetired then Max(w.slowRetiredGeneration, x.picked) else w.slowRetiredGeneration)
  }

  function Snapshot(w: Owner, raced: bool, nowNs: nat): Observation {
    var t := w.captured;
    Observation(w.sequence, nowNs, w.generation, w.quarantined || raced, t.business, w.seenBusy, t.failures, t.slow,
                t.noResponse, t.slowRetired, t.slowRetiredGeneration, t.noResponseGeneration, t.noResponsePeer)
  }

  // ------------------------------------------------------------------ the system

  /** One owner, its lane, and the router. Four parts belong to no program: `bad`, how many
      attempts so far did not come back promptly from a responsive endpoint; `captured`, what
      `bad` was at the owner's last capture; and, for each snapshot built, the snapshot and
      what `captured` was then. */
  datatype System = System(
    owner: Owner,
    lane: L.Lane<Field>,
    account: Account,
    role: Role,
    slot: nat,
    clockNs: nat,
    bad: nat,
    captured: nat,
    built: seq<Observation>,
    ledger: seq<nat>)

  predicate Good(x: Attempt) {
    x.statusCode != 0 && Responsive(x.reply) && x.elapsedNs < SLOW_HTTP_NS
  }

  /** Everything that can happen next, in any order: the clock advances, the transport is
      repaired, the lane is occupied or freed, an attempt completes, the owner captures its
      totals, reads the occupancy flag or starts to publish a snapshot, either end of the lane
      takes one atomic step, or the router does anything else. */
  datatype Step =
    | Tick(nowNs: nat)
    | Repaired(generation: nat, quarantined: bool)
    | Occupied(busy: bool)
    | Completed(attempt: Attempt)
    | Capture
    | ReadFlag
    | Build(raced: bool)
    | Move(move: L.Step<Field>)
    | Route(op: Op)

  /** The router observes what the copied words say. */
  function Receive(s: System): System
    requires L.Enabled(s.lane, L.ReturnValue)
  {
    var value := Decode(s.lane.receiver.copied);
    var lane := L.Next(s.lane, L.ReturnValue);
    if value.Some?
    then s.(lane := lane, account := Apply(s.account, Observe(s.role, s.slot, value.value, s.clockNs)))
    else s.(lane := lane)
  }

  function Publish(s: System, raced: bool): System {
    var owner := s.owner.(sequence := s.owner.sequence + 1);
    var o := Snapshot(owner, raced, s.clockNs);
    s.(owner := owner, lane := L.Next(s.lane, L.BeginPublish(Encode(o))), built := s.built + [o],
       ledger := s.ledger + [s.captured])
  }

  function Next(s: System, step: Step): System {
    match step
    case Tick(nowNs) => s.(clockNs := Max(s.clockNs, nowNs))
    case Repaired(generation, quarantined) =>
      s.(owner := s.owner.(generation := Max(s.owner.generation, generation), quarantined := quarantined))
    case Occupied(busy) => s.(owner := s.owner.(busy := busy))
    case Completed(x) =>
      if !Fits(s.owner, x) then s
      else s.(owner := s.owner.(live := AfterAttempt(s.owner.live, x)), bad := if Good(x) then s.bad else s.bad + 1)
    case Capture => s.(owner := s.owner.(captured := s.owner.live), captured := s.bad)
    case ReadFlag => s.(owner := s.owner.(seenBusy := s.owner.busy))
    case Build(raced) => if s.lane.publisher.Ready? then Publish(s, raced) else s
    case Move(move) =>
      if move.BeginPublish? || !L.Enabled(s.lane, move) then s
      else if move.ReturnValue? then Receive(s)
      else s.(lane := L.Next(s.lane, move))
    case Route(op) =>
      if op.Observe? && op.role == s.role && op.slot == s.slot then s else s.(account := Apply(s.account, op))
  }

  function Run(s: System, steps: seq<Step>): System
    decreases |steps|
  {
    if steps == [] then s else Run(Next(s, steps[0]), steps[1..])
  }

  function Start(account: Account, role: Role, slot: nat, clockNs: nat): System {
    System(NEW_OWNER, L.Channel(WIDTH), account, role, slot, clockNs, 0, 0, [], [])
  }

  // ------------------------------------------------------------------ invariant

  predicate WellFormed(o: Observation) {
    && o.slowRetired <= o.slow && o.noResponse <= o.failures && o.sequence > 0
    && (o.slowRetired > 0 ==> o.slowRetiredGeneration <= o.poolGeneration)
    && (o.noResponse > 0 ==> o.noResponseGeneration <= o.poolGeneration)
  }

  predicate NoLater(o: Observation, p: Observation) {
    && o.sequence <= p.sequence && o.observedAtNs <= p.observedAtNs && o.poolGeneration <= p.poolGeneration
    && o.failures <= p.failures && o.slow <= p.slow && o.noResponse <= p.noResponse && o.slowRetired <= p.slowRetired
  }

  /** What a snapshot built right now would say. */
  function Current(s: System): Observation {
    Snapshot(s.owner, false, s.clockNs)
  }

  /** The words of every snapshot built so far: those published, then the one being written. */
  function Written(lane: L.Lane<Field>): seq<seq<Field>> {
    if lane.publisher.Writing? then lane.published + [lane.publisher.value] else lane.published
  }

  predicate TotalsOk(t: Totals, generation: nat, bad: nat) {
    && t.slowRetired <= t.slow && t.noResponse <= t.failures
    && t.slowRetiredGeneration <= generation && t.noResponseGeneration <= generation
    && bad == t.failures + t.slow
  }

  predicate OwnerOk(s: System) {
    && TotalsOk(s.owner.live, s.owner.generation, s.bad) && TotalsOk(s.owner.captured, s.owner.generation, s.captured)
    && s.owner.captured.failures <= s.owner.live.failures && s.owner.captured.slow <= s.owner.live.slow
    && s.owner.captured.noResponse <= s.owner.live.noResponse
    && s.owner.captured.slowRetired <= s.owner.live.slowRetired
  }

  ghost predicate WordsOk(s: System) {
    && |Written(s.lane)| == |s.built|
    && forall i :: 0 <= i < |s.built| ==> Written(s.lane)[i] == Encode(s.built[i])
  }

  ghost predicate HistoryOk(s: System) {
    && |s.ledger| == |s.built|
    && (forall i :: 0 <= i < |s.built| ==>
          && WellFormed(s.built[i]) && NoLater(s.built[i], Current(s))
          && s.ledger[i] == s.built[i].failures + s.built[i].slow)
    && (forall i, j | 0 <= i < j < |s.built| ::
        NoLater(s.built[i], s.built[j]) && s.built[i].sequence < s.built[j].sequence)
  }

  /** The router's lane holds exactly what this snapshot says. */
  predicate Mirrors(lane: Lane, o: Observation) {
    && lane.sequence == o.sequence && lane.observedAtNs == o.observedAtNs && lane.generation == o.poolGeneration
    && lane.failures == o.failures && lane.slow == o.slow && lane.noResponse == o.noResponse
    && lane.slowRetired == o.slowRetired
  }

  const SILENCE: Observation := Observation(0, 0, 0, false, None, false, 0, 0, 0, 0, 0, 0, None)

  /** How many snapshots had been built when the one last handed to the router was. */
  function TakenBefore(lane: L.Lane<Field>): nat {
    if 0 < |lane.returned| <= |lane.received| then lane.received[|lane.returned| - 1] + 1 else 0
  }

  /** The last snapshot handed to the router. */
  function LastTaken(s: System): Observation {
    var n := TakenBefore(s.lane);
    if 0 < n <= |s.built| then s.built[n - 1] else SILENCE
  }

  ghost predicate RouterOk(s: System) {
    HasLane(s.account, s.role, s.slot) && Mirrors(LaneOf(s.account, s.role, s.slot), LastTaken(s))
  }

  ghost predicate Inv(s: System) {
    L.Inv(s.lane) && s.lane.width == WIDTH && OwnerOk(s) && WordsOk(s) && HistoryOk(s) && RouterOk(s)
  }

  // ------------------------------------------------------------------ owner and lane steps

  /** An attempt adds to the failure or slow total exactly when it was not good. */
  lemma BadIsCounted(w: Totals, x: Attempt)
    ensures AfterAttempt(w, x).failures + AfterAttempt(w, x).slow == w.failures + w.slow + (if Good(x) then 0 else 1)
    ensures Outcome(w, x) == Healthy <==> Good(x)
  {}

  /** No answer, a failed exchange, or an answer that says nothing good of the endpoint. */
  predicate Unserved(x: Attempt) {
    match x.reply
    case Ok => x.statusCode == 0
    case Status(code) => x.statusCode == 0 || code / 100 != 4 || code in {401, 403, 408, 425, 429}
    case _ => true
  }

  predicate Late(x: Attempt) {
    !Unserved(x) && x.elapsedNs >= 500_000_000
  }

  /** Which total an attempt moves: failures if it was not served, slow responses if it was served
      late; and a request without any answer is counted as such, with its generation and peer. */
  lemma TotalsCount(w: Totals, x: Attempt)
    ensures var t := AfterAttempt(w, x);
            && t.failures == w.failures + (if Unserved(x) then 1 else 0)
            && t.slow == w.slow + (if Late(x) then 1 else 0)
            && t.noResponse == w.noResponse + (if x.statusCode == 0 then 1 else 0)
            && (t.noResponseGeneration, t.noResponsePeer) ==
               (if x.statusCode == 0 then (x.picked, x.peer) else (w.noResponseGeneration, w.noResponsePeer))
            && t.business.Some? && t.business.value.attemptId == t.attemptId == x.attemptId
            && t.business.value.poolGeneration == x.picked && t.business.value.elapsedNs == x.elapsedNs
            && (t.business.value.outcome == Healthy <==> !Unserved(x) && !Late(x))
            && (t.business.value.outcome in {Failure, TransportUncertain} <==> Unserved(x))
            && (t.business.value.outcome == TransportUncertain <==>
                  x.statusCode == 0 || x.reply.Timeout? || x.reply.Transport?)
  {}

  /** A generation is retired by its second late answer in a row, and not by its first. */
  lemma SecondLateRetires(w: Totals, x: Attempt, y: Attempt)
    requires Late(y)
    ensures var t := AfterAttempt(w, x);
            var u := AfterAttempt(t, y);
            if Late(x) && x.picked == y.picked
            then
              && u.business.value.outcome == SlowRetired && u.slowRetired == t.slowRetired + 1
              && u.slowRetiredGeneration == Max(t.slowRetiredGeneration, y.picked)
            else
              && u.business.value.outcome == SlowResponded && u.slowRetired == t.slowRetired
              && u.slowRetiredGeneration == t.slowRetiredGeneration
  {}

  /** The owner and the clock only move forward, so every old snapshot stays no later. */
  lemma ForwardKeepsHistory(s: System, t: System)
    requires HistoryOk(s) && t.built == s.built && t.ledger == s.ledger && NoLater(Current(s), Current(t))
    ensures HistoryOk(t)
  {
    forall i | 0 <= i < |s.built| ensures NoLater(s.built[i], Current(t)) {
      assert NoLater(s.built[i], Current(s));
    }
  }

  lemma OwnerKeepsInv(s: System, t: System)
    requires Inv(s) && OwnerOk(t) && NoLater(Current(s), Current(t))
    requires t == s.(owner := t.owner, clockNs := t.clockNs, bad := t.bad, captured := t.captured)
    ensures Inv(t)
  {
    ForwardKeepsHistory(s, t);
  }

  lemma CompletedKeepsInv(s: System, x: Attempt)
    requires Inv(s) && Fits(s.owner, x)
    ensures Inv(Next(s, Completed(x)))
  {
    BadIsCounted(s.owner.live, x);
    OwnerKeepsInv(s, Next(s, Completed(x)));
  }

  lemma BuiltIsWellFormed(w: Owner, s: System, raced: bool, nowNs: nat)
    requires OwnerOk(s) && w == s.owner.(sequence := s.owner.sequence + 1)
    ensures var o := Snapshot(w, raced, nowNs); WellFormed(o) && s.captured == o.failures + o.slow
  {}

  lemma PublishKeepsHistory(s: System, raced: bool)
    requires Inv(s) && s.lane.publisher.Ready?
    ensures HistoryOk(Publish(s, raced))
  {
    var t := Publish(s, raced);
    var n := |s.built|;
    BuiltIsWellFormed(t.owner, s, raced, s.clockNs);
    BuiltIsLater(s, raced);
    assert t.built[..n] == s.built && t.ledger[..n] == s.ledger;
    assert t.ledger[n] == t.built[n].failures + t.built[n].slow;
  }

  lemma BuiltIsLater(s: System, raced: bool)
    requires HistoryOk(s)
    ensures var t := Publish(s, raced);
            var o := t.built[|s.built|];
            && NoLater(o, Current(t))
            && forall i :: 0 <= i < |s.built| ==>
                 NoLater(s.built[i], o) && s.built[i].sequence < o.sequence && NoLater(s.built[i], Current(t))
  {
    forall i | 0 <= i < |s.built| ensures NoLater(s.built[i], Current(s)) {}
  }

  lemma PublishKeepsWords(s: System, raced: bool)
    requires Inv(s) && s.lane.publisher.Ready?
    ensures var t := Publish(s, raced); L.Inv(t.lane) && t.lane.width == WIDTH && WordsOk(t)
  {
    var t := Publish(s, raced);
    L.NextKeepsInv(s.lane, L.BeginPublish(Encode(t.built[|s.built|])));
    assert Written(t.lane) == Written(s.lane) + [Encode(t.built[|s.built|])];
  }

  lemma PublishKeepsRouter(s: System, raced: bool)
    requires Inv(s) && s.lane.publisher.Ready?
    ensures RouterOk(Publish(s, raced))
  {
    var t := Publish(s, raced);
    TakenWasBuilt(s);
    assert TakenBefore(t.lane) == TakenBefore(s.lane);
    assert LastTaken(t) == LastTaken(s);
  }

  lemma PublishKeepsInv(s: System, raced: bool)
    requires Inv(s) && s.lane.publisher.Ready?
    ensures Inv(Publish(s, raced))
  {
    PublishKeepsWords(s, raced);
    PublishKeepsHistory(s, raced);
    PublishKeepsRouter(s, raced);
  }

  /** What the router took had been built. */
  lemma TakenWasBuilt(s: System)
    requires Inv(s)
    ensures TakenBefore(s.lane) <= |s.lane.published| <= |s.built|
  {}

  lemma MoveKeepsWords(s: System, move: L.Step<Field>)
    requires Inv(s) && !move.BeginPublish? && L.Enabled(s.lane, move)
    ensures Written(L.Next(s.lane, move)) == Written(s.lane)
  {}

  lemma MoveKeepsInv(s: System, move: L.Step<Field>)
    requires Inv(s) && !move.BeginPublish? && !move.ReturnValue? && L.Enabled(s.lane, move)
    ensures Inv(s.(lane := L.Next(s.lane, move)))
  {
    var t := s.(lane := L.Next(s.lane, move));
    L.NextKeepsInv(s.lane, move);
    MoveKeepsWords(s, move);
    ForwardKeepsHistory(s, t);
    assert TakenBefore(t.lane) == TakenBefore(s.lane);
  }

  // ------------------------------------------------------------------ router steps

  lemma RouteKeepsMirror(a: Account, op: Op, role: Role, slot: nat, o: Observation)
    requires HasLane(a, role, slot) && Mirrors(LaneOf(a, role, slot), o)
    requires !(op.Observe? && op.role == role && op.slot == slot)
    ensures HasLane(Apply(a, op), role, slot) && Mirrors(LaneOf(Apply(a, op), role, slot), o)
  {
    ApplyBrushes(a, op, role, slot);
    BrushedMirrors(LaneOf(a, role, slot), LaneOf(Apply(a, op), role, slot), o);
  }

  lemma BrushedMirrors(before: Lane, after: Lane, o: Observation)
    requires Mirrors(before, o) && Brushed(before, after)
    ensures Mirrors(after, o)
  {}

  lemma JudgedMirrors(config: Config, previous: Lane, o: Observation, nowNs: nat)
    ensures Mirrors(Judged(config, previous, Admission.Recorded(previous, o), o, NewsOf(previous, o), nowNs), o)
  {}

  lemma ObserveMirrors(a: Account, role: Role, slot: nat, o: Observation, nowNs: nat)
    requires Accepts(a, role, slot, o, nowNs)
    ensures var b := Apply(a, Observe(role, slot, o, nowNs));
            HasLane(b, role, slot) && Mirrors(LaneOf(b, role, slot), o)
  {
    ApplyKeepsLanes(a, Observe(role, slot, o, nowNs));
    AbsorbedLane(a, role, slot, o, nowNs, role, slot);
    JudgedMirrors(a.config, LaneOf(a, role, slot), o, nowNs);
  }

  // ------------------------------------------------------------------ receiving

  /** Which snapshot the router is about to be handed, as a number. */
  function Taking(lane: L.Lane<Field>): nat
    requires |lane.returned| < |lane.received|
  {
    lane.received[|lane.returned|]
  }

  /** The words about to be handed over are those of one snapshot, built after the last one. */
  lemma ReceivesLater(s: System)
    requires Inv(s) && L.Enabled(s.lane, L.ReturnValue)
    ensures |s.lane.returned| < |s.lane.received| && TakenBefore(s.lane) <= Taking(s.lane) < |s.built|
    ensures s.lane.receiver.copied == L.Words(Encode(s.built[Taking(s.lane)]))
    ensures NoLater(LastTaken(s), s.built[Taking(s.lane)])
    ensures LastTaken(s).sequence < s.built[Taking(s.lane)].sequence
  {
    var q := Taking(s.lane);
    assert q < |s.lane.published| <= |s.built|;
    assert Written(s.lane)[q] == s.lane.published[q] == Encode(s.built[q]);
    assert WellFormed(s.built[q]);
  }

  /** Owners are always believed: whatever the interleaving, the snapshot the router takes from
      the lane is newer than the last one and trips none of the delivery-fault checks. */
  lemma OwnerIsBelieved(s: System)
    requires Inv(s) && L.Enabled(s.lane, L.ReturnValue)
    ensures |s.lane.returned| < |s.lane.received| && Taking(s.lane) < |s.built|
    ensures Accepts(s.account, s.role, s.slot, s.built[Taking(s.lane)], s.clockNs)
  {
    ReceivesLater(s);
    var o := s.built[Taking(s.lane)];
    assert WellFormed(o) && NoLater(o, Current(s));
  }

  /** And only such reports are: after the snapshot `last`, the router believes exactly those that
      are well formed, newer, not from the future, and take nothing back. */
  lemma BelievedExactly(a: Account, role: Role, slot: nat, last: Observation, o: Observation, nowNs: nat)
    requires HasLane(a, role, slot) && Mirrors(LaneOf(a, role, slot), last)
    ensures Accepts(a, role, slot, o, nowNs) <==>
            WellFormed(o) && NoLater(last, o) && last.sequence < o.sequence && o.observedAtNs <= nowNs
  {}

  lemma CopiedDecodes(s: System)
    requires Inv(s) && L.Enabled(s.lane, L.ReturnValue)
    ensures |s.lane.returned| < |s.lane.received| && Taking(s.lane) < |s.built|
    ensures Decode(s.lane.receiver.copied) == Some(s.built[Taking(s.lane)])
  {
    ReceivesLater(s);
    RoundTrip(s.built[Taking(s.lane)]);
  }

  /** A receipt observes, of all its words, the very snapshot that was built. */
  lemma ReceiveObserves(s: System)
    requires Inv(s) && L.Enabled(s.lane, L.ReturnValue)
    ensures |s.lane.returned| < |s.lane.received| && Taking(s.lane) < |s.built|
    ensures var o := s.built[Taking(s.lane)];
            && LastTaken(Receive(s)) == o
            && Receive(s) == s.(lane := L.Next(s.lane, L.ReturnValue),
                                account := Apply(s.account, Observe(s.role, s.slot, o, s.clockNs)))
  {
    CopiedDecodes(s);
    ReceiveIs(s, s.built[Taking(s.lane)]);
    TakenAfter(s);
  }

  lemma ReceiveIs(s: System, o: Observation)
    requires L.Enabled(s.lane, L.ReturnValue) && Decode(s.lane.receiver.copied) == Some(o)
    ensures Receive(s) == s.(lane := L.Next(s.lane, L.ReturnValue),
                             account := Apply(s.account, Observe(s.role, s.slot, o, s.clockNs)))
  {}

  lemma TakenAfter(s: System)
    requires L.Enabled(s.lane, L.ReturnValue) && |s.lane.returned| < |s.lane.received| && Taking(s.lane) < |s.built|
    ensures LastTaken(Receive(s)) == s.built[Taking(s.lane)]
  {}

  lemma ReceiveKeepsInv(s: System)
    requires Inv(s) && L.Enabled(s.lane, L.ReturnValue)
    ensures Inv(Receive(s))
  {
    OwnerIsBelieved(s);
    ReceiveObserves(s);
    L.NextKeepsInv(s.lane, L.ReturnValue);
    MoveKeepsWords(s, L.ReturnValue);
    ObserveMirrors(s.account, s.role, s.slot, s.built[Taking(s.lane)], s.clockNs);
    ForwardKeepsHistory(s, Receive(s));
  }

  /** Only the router's own lane ties the account to the rest. */
  lemma AccountKeepsInv(s: System, a: Account)
    requires Inv(s) && HasLane(a, s.role, s.slot) && Mirrors(LaneOf(a, s.role, s.slot), LastTaken(s))
    ensures Inv(s.(account := a))
  {
    ForwardKeepsHistory(s, s.(account := a));
  }

  lemma RouteKeepsInv(s: System, op: Op)
    requires Inv(s)
    ensures Inv(Next(s, Route(op)))
  {
    if !(op.Observe? && op.role == s.role && op.slot == s.slot) {
      RouteKeepsMirror(s.account, op, s.role, s.slot, LastTaken(s));
      AccountKeepsInv(s, Apply(s.account, op));
    }
  }

  lemma OwnerStepKeepsInv(s: System, step: Step)
    requires Inv(s) && (step.Tick? || step.Repaired? || step.Occupied? || step.Capture? || step.ReadFlag?)
    ensures Inv(Next(s, step))
  {
    OwnerKeepsInv(s, Next(s, step));
  }

  lemma MovingKeepsInv(s: System, move: L.Step<Field>)
    requires Inv(s)
    ensures Inv(Next(s, Move(move)))
  {
    if !move.BeginPublish? && L.Enabled(s.lane, move) {
      if move.ReturnValue? { ReceiveKeepsInv(s); } else { MoveKeepsInv(s, move); }
    }
  }

  lemma NextKeepsInv(s: System, step: Step)
    requires Inv(s)
    ensures Inv(Next(s, step))
  {
    match step
    case Completed(x) => if Fits(s.owner, x) { CompletedKeepsInv(s, x); }
    case Build(raced) => if s.lane.publisher.Ready? { PublishKeepsInv(s, raced); }
    case Move(move) => MovingKeepsInv(s, move);
    case Route(op) => RouteKeepsInv(s, op);
    case _ => OwnerStepKeepsInv(s, step);
  }

  lemma {:induction false} RunKeepsInv(s: System, steps: seq<Step>)
    requires Inv(s)
    ensures Inv(Run(s, steps))
    decreases |steps|
  {
    if steps != [] {
      NextKeepsInv(s, steps[0]);
      RunKeepsInv(Next(s, steps[0]), steps[1..]);
    }
  }

  // ------------------------------------------------------------------ no bad news is lost

  /** A report whose totals moved leaves its lane unverified, and the account without a probe
      and without a recovery success, whatever its last business result says. */
  lemma MovedTotalsLand(a: Account, role: Role, slot: nat, o: Observation, nowNs: nat)
    requires Accepts(a, role, slot, o, nowNs)
    requires o.failures + o.slow > LaneOf(a, role, slot).failures + LaneOf(a, role, slot).slow
    ensures var b := Apply(a, Observe(role, slot, o, nowNs));
            && HasLane(b, role, slot) && !LaneOf(b, role, slot).verified
            && b.probe.None? && b.recoverySuccesses == 0
  {
    AbsorbedLane(a, role, slot, o, nowNs, role, slot);
    ApplyKeepsLanes(a, Observe(role, slot, o, nowNs));
    AdmissionRecovery.AbsorbedRecovery(a, role, slot, o, nowNs);
    AdmissionRecovery.RecomputeKeeps(Absorbed(a, role, slot, o, nowNs), nowNs);
  }

  /** How many bad attempts had been captured when the router's last snapshot was built. */
  function KnownBad(s: System): nat {
    var n := TakenBefore(s.lane);
    if 0 < n <= |s.ledger| then s.ledger[n - 1] else 0
  }

  lemma KnownBadIsMirrored(s: System)
    requires Inv(s)
    ensures KnownBad(s) == LaneOf(s.account, s.role, s.slot).failures + LaneOf(s.account, s.role, s.slot).slow
  {
    TakenWasBuilt(s);
  }

  /** What a receipt does: the snapshot is accepted; and if any attempt that completed between
      the captures behind the previously received snapshot and behind this one was bad, even
      one whose own snapshot was replaced unread and followed by successes, the lane ends
      unverified, and the account holds no probe and no recovery success. */
  ghost predicate ReceiptIsSound(s: System)
    requires L.Enabled(s.lane, L.ReturnValue)
  {
    && |s.lane.returned| < |s.lane.received| && Taking(s.lane) < |s.built| == |s.ledger|
    && Accepts(s.account, s.role, s.slot, s.built[Taking(s.lane)], s.clockNs)
    && (s.ledger[Taking(s.lane)] > KnownBad(s) ==>
          var a := Receive(s).account;
          && HasLane(a, s.role, s.slot) && !LaneOf(a, s.role, s.slot).verified
          && a.probe.None? && a.recoverySuccesses == 0)
  }

  lemma ReceiptLands(s: System)
    requires Inv(s) && L.Enabled(s.lane, L.ReturnValue)
    ensures ReceiptIsSound(s)
  {
    OwnerIsBelieved(s);
    ReceiveObserves(s);
    KnownBadIsMirrored(s);
    if s.ledger[Taking(s.lane)] > KnownBad(s) {
      MovedTotalsLand(s.account, s.role, s.slot, s.built[Taking(s.lane)], s.clockNs);
    }
  }

  lemma StartInv(account: Account, role: Role, slot: nat, clockNs: nat)
    requires HasLane(account, role, slot) && Mirrors(LaneOf(account, role, slot), SILENCE)
    ensures Inv(Start(account, role, slot, clockNs))
  {
    L.ChannelInv<Field>(WIDTH);
  }

  /** No bad news is lost, in any interleaving, from a lane that has not reported yet. */
  lemma {:induction false} NoBadNewsLost(account: Account, role: Role, slot: nat, clockNs: nat, steps: seq<Step>)
    requires HasLane(account, role, slot) && Mirrors(LaneOf(account, role, slot), SILENCE)
    requires L.Enabled(Run(Start(account, role, slot, clockNs), steps).lane, L.ReturnValue)
    ensures ReceiptIsSound(Run(Start(account, role, slot, clockNs), steps))
  {
    StartInv(account, role, slot, clockNs);
    RunKeepsInv(Start(account, role, slot, clockNs), steps);
    ReceiptLands(Run(Start(account, role, slot, clockNs), steps));
  }

  /** The condition is exact: the totals the router is shown moved if and only if a bad attempt
      completed between the two captures. */
  lemma TotalsMoveExactly(s: System)
    requires Inv(s) && L.Enabled(s.lane, L.ReturnValue)
    ensures |s.lane.returned| < |s.lane.received| && Taking(s.lane) < |s.built| == |s.ledger|
    ensures var o, lane := s.built[Taking(s.lane)], LaneOf(s.account, s.role, s.slot);
            s.ledger[Taking(s.lane)] > KnownBad(s) <==> o.failures > lane.failures || o.slow > lane.slow
  {
    ReceivesLater(s);
    KnownBadIsMirrored(s);
  }

  /** A request without an answer reaches the whole account: whatever the interleaving, a receipt
      that shows one, on a generation the lane has not retired, leaves no lane of the account
      ready and asks for a new transport. */
  lemma NoAnswerReaches(s: System)
    requires Inv(s) && L.Enabled(s.lane, L.ReturnValue)
    ensures |s.lane.returned| < |s.lane.received| && Taking(s.lane) < |s.built|
    ensures var o, lane := s.built[Taking(s.lane)], LaneOf(s.account, s.role, s.slot);
            var a := Receive(s).account;
            o.noResponse > lane.noResponse && AdmissionFence.Rank(lane) <= o.noResponseGeneration ==>
              && a.transportResetPending && a.transportResetPeer == o.noResponsePeer
              && (forall r, k: nat | HasLane(s.account, r, k) :: HasLane(a, r, k) && !LaneOf(a, r, k).Ready())
  {
    OwnerIsBelieved(s);
    ReceiveObserves(s);
    AdmissionReport.ResetsExactly(s.account, s.role, s.slot, s.built[Taking(s.lane)], s.clockNs);
  }

  // ------------------------------------------------------------------ why the capture is the boundary

  const CONFIG: Config := Config(100, 10, 10, 40, 3)
  const GOOD: Attempt := Attempt(1, 0, 5, Ok, 200, None)
  const BAD: Attempt := Attempt(2, 0, 5, Timeout, 0, None)
  const FIRST: Observation :=
    Observation(1, 7, 0, false, Some(Business(1, 0, 5, Healthy)), false, 0, 0, 0, 0, 0, 0, None)

  function Begin(): System {
    Start(New(CONFIG, 1, 1, 0), Fast, 0, 7)
  }

  /** A good attempt is captured, a bad one completes, and a snapshot is built. */
  function Raced(): System {
    Next(Next(Next(Next(Begin(), Completed(GOOD)), Capture), Completed(BAD)), Build(false))
  }

  lemma RacedIsBuilt()
    ensures var s := Raced();
            && s.lane == L.Channel<Field>(WIDTH).(publisher := L.Writing(Encode(FIRST), 0))
            && s.account == New(CONFIG, 1, 1, 0) && s.role == Fast && s.slot == 0 && s.clockNs == 7 && s.bad == 1
            && s.built == [FIRST]
  {
    assert Good(GOOD) && Outcome(NO_TOTALS, GOOD) == Healthy && !Good(BAD);
    var t := AfterAttempt(NO_TOTALS, GOOD);
    assert t.business == Some(Business(1, 0, 5, Healthy)) && t.failures == 0 && t.slow == 0;
  }

  lemma FirstIsGoodNews()
    ensures Newer(NEW_LANE, FIRST) && !Faulty(NEW_LANE, FIRST, 7)
    ensures var n := NewsOf(NEW_LANE, FIRST);
            !n.transportReset && Judged(CONFIG, NEW_LANE, Admission.Recorded(NEW_LANE, FIRST), FIRST, n, 7).verified
  {
    var n := NewsOf(NEW_LANE, FIRST);
    assert n.healthy && !Adverse(n);
  }

  lemma FirstVerifies()
    ensures var a := Apply(New(CONFIG, 1, 1, 0), Observe(Fast, 0, FIRST, 7));
            |a.fast| == 1 && a.fast[0].verified
  {
    var a := New(CONFIG, 1, 1, 0);
    FirstIsGoodNews();
    ApplyKeepsLanes(a, Observe(Fast, 0, FIRST, 7));
    AbsorbedLane(a, Fast, 0, FIRST, 7, Fast, 0);
    ChangedRegistry(a, Observe(Fast, 0, FIRST, 7));
  }

  function Moves(moves: seq<L.Step<Field>>): (steps: seq<Step>)
    ensures |steps| == |moves| && forall i :: 0 <= i < |moves| ==> steps[i] == Move(moves[i])
  {
    seq(|moves|, i requires 0 <= i < |moves| => Move(moves[i]))
  }

  lemma {:induction false} MovesMoveLane(s: System, moves: seq<L.Step<Field>>)
    requires L.Inner(moves)
    ensures Run(s, Moves(moves)) == s.(lane := L.Run(s.lane, moves))
    decreases |moves|
  {
    if moves != [] {
      assert Moves(moves)[1..] == Moves(moves[1..]);
      MovesMoveLane(s.(lane := L.Next(s.lane, moves[0])), moves[1..]);
    }
  }

  /** A bad attempt completes before the snapshot is built and before it is received, but after
      the capture it is built from: that receipt still verifies the lane. */
  lemma BadBeforeBuildIsNotEnough() returns (moves: seq<L.Step<Field>>)
    ensures var s := Run(Raced(), Moves(moves));
            && s.bad == 1 && L.Enabled(s.lane, L.ReturnValue) && |Receive(s).account.fast| == 1
            && Receive(s).account.fast[0].verified
  {
    RacedIsBuilt();
    RacedInv();
    moves := L.Deliver(Raced().lane);
    MovesMoveLane(Raced(), moves);
    RunKeepsInv(Raced(), Moves(moves));
    ReceiveObserves(Run(Raced(), Moves(moves)));
    FirstVerifies();
  }

  lemma FourKeepInv(s: System, w: Step, x: Step, y: Step, z: Step)
    requires Inv(s)
    ensures Inv(Next(Next(Next(Next(s, w), x), y), z))
  {
    NextKeepsInv(s, w);
    NextKeepsInv(Next(s, w), x);
    NextKeepsInv(Next(Next(s, w), x), y);
    NextKeepsInv(Next(Next(Next(s, w), x), y), z);
  }

  lemma RacedInv()
    ensures Inv(Raced())
  {
    StartInv(New(CONFIG, 1, 1, 0), Fast, 0, 7);
    FourKeepInv(Begin(), Completed(GOOD), Capture, Completed(BAD), Build(false));
  }
}
