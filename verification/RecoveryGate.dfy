/** The runtime half of warm recovery: which observations let an owner quote again. */
module RecoveryGate {
  import opened Common
  import opened Recovery

  datatype Phase = Ready | Offline | Reconciling | Catchup

  datatype OwnerState = OwnerState(
    phase: Phase,
    restartNs: nat,
    freshBookApplied: bool,
    freshUntilNs: nat,
    stops: nat,
    readyTransitions: nat,
    readyAtNs: nat,
    oraclePending: bool,
    oraclePricesReady: bool)

  const INITIAL_OWNER: OwnerState := OwnerState(Ready, 0, false, 0, 0, 0, 0, false, false)

  datatype Replay = Replay(edges: seq<Edge>, cursor: nat, states: seq<OwnerState>, oracleQueries: nat)

  /** A book applied by an owner's strategy. */
  datatype Book = Book(receivedNs: nat, sourceNs: nat, appliedNs: nat, valid: bool, maxAgeNs: nat)

  datatype Op =
    | Advance(nowNs: nat)
    | CompleteOracle(owner: nat, pricesReady: bool)
    | ObserveBook(owner: nat, book: Book)
    | TryReady(owner: nat, privateDrained: bool, nowNs: nat)

  function Start(edges: seq<Edge>, owners: nat): Replay {
    Replay(edges, 0, seq(owners, _ => INITIAL_OWNER), 0)
  }

  predicate WellFormed(r: Replay) {
    r.cursor <= |r.edges| && forall i :: 0 <= i < |r.edges| ==> r.edges[i].owner < |r.states|
  }

  predicate Due(r: Replay, nowNs: nat) {
    r.cursor < |r.edges| && r.edges[r.cursor].whenNs <= nowNs
  }

  function AfterEdge(s: OwnerState, edge: Edge): OwnerState {
    match edge.action
    case Stop =>
      s.(phase := Offline, freshBookApplied := false, stops := s.stops + 1, oraclePending := true,
         oraclePricesReady := false)
    case Restart => s.(phase := Reconciling, restartNs := edge.whenNs, freshBookApplied := false)
    case ReconcileComplete => s.(phase := Catchup)
  }

  function AfterOracle(s: OwnerState, pricesReady: bool): OwnerState {
    s.(oraclePricesReady := pricesReady, oraclePending := s.oraclePending && !pricesReady)
  }

  predicate FreshBook(s: OwnerState, book: Book) {
    && book.valid && book.receivedNs >= s.restartNs && book.sourceNs != 0
    && SatSub(book.appliedNs, book.sourceNs) <= book.maxAgeNs
  }

  function AfterBook(s: OwnerState, book: Book): OwnerState {
    if s.phase != Catchup then s
    else if FreshBook(s, book) then
      s.(freshBookApplied := true, freshUntilNs := SatAdd(book.sourceNs, book.maxAgeNs))
    else s.(freshBookApplied := false)
  }

  predicate CanReady(s: OwnerState, privateDrained: bool, nowNs: nat) {
    s.phase == Catchup && !s.oraclePending && s.freshBookApplied && nowNs <= s.freshUntilNs && privateDrained
  }

  function AfterTry(s: OwnerState, privateDrained: bool, nowNs: nat): OwnerState {
    if CanReady(s, privateDrained, nowNs)
    then s.(phase := Ready, readyTransitions := s.readyTransitions + 1, readyAtNs := nowNs)
    else s
  }

  function Apply(r: Replay, op: Op): (t: Replay)
    requires WellFormed(r)
    ensures WellFormed(t) && t.edges == r.edges && |t.states| == |r.states|
  {
    match op
    case Advance(nowNs) =>
      if !Due(r, nowNs) then r
      else
        var edge := r.edges[r.cursor];
        r.(cursor := r.cursor + 1, states := r.states[edge.owner := AfterEdge(r.states[edge.owner], edge)])
    case CompleteOracle(owner, pricesReady) =>
      if owner >= |r.states| then r
      else r.(states := r.states[owner := AfterOracle(r.states[owner], pricesReady)],
              oracleQueries := r.oracleQueries + 1)
    case ObserveBook(owner, book) =>
      if owner >= |r.states| then r
      else r.(states := r.states[owner := AfterBook(r.states[owner], book)])
    case TryReady(owner, privateDrained, nowNs) =>
      if owner >= |r.states| then r
      else r.(states := r.states[owner := AfterTry(r.states[owner], privateDrained, nowNs)])
  }

  predicate QuoteAllowed(r: Replay, owner: nat)
    requires owner < |r.states|
  {
    r.states[owner].phase == Ready
  }

  /** The replay object, updated in place; each method is proved to make the change that
      `Apply` describes. */
  class RecoveryReplay {
    var edges: seq<Edge>
    var cursor: nat
    var states: seq<OwnerState>
    var oracleQueries: nat

    ghost function View(): Replay
      reads this
    {
      Replay(edges, cursor, states, oracleQueries)
    }

    constructor (edges: seq<Edge>, owners: nat)
      requires forall i :: 0 <= i < |edges| ==> edges[i].owner < owners
      ensures View() == Start(edges, owners) && WellFormed(View())
    {
      this.edges, this.cursor, this.oracleQueries := edges, 0, 0;
      this.states := seq(owners, _ => INITIAL_OWNER);
    }

    method Step(nowNs: nat) returns (edge: Option<Edge>)
      requires WellFormed(View())
      modifies this
      ensures View() == Apply(old(View()), Advance(nowNs))
      ensures edge == if Due(old(View()), nowNs) then Some(old(edges[cursor])) else None
    {
      if cursor >= |edges| || edges[cursor].whenNs > nowNs {
        return None;
      }
      var due := edges[cursor];
      cursor := cursor + 1;
      var state := states[due.owner];
      match due.action {
        case Stop =>
          state := state.(phase := Offline, freshBookApplied := false, stops := state.stops + 1);
          state := state.(oraclePending := true, oraclePricesReady := false);
        case Restart =>
          state := state.(phase := Reconciling, restartNs := due.whenNs, freshBookApplied := false);
        case ReconcileComplete =>
          state := state.(phase := Catchup);
      }
      states := states[due.owner := state];
      edge := Some(due);
    }

    method CompleteOracleHistory(owner: nat, pricesReady: bool)
      requires WellFormed(View()) && owner < |states| && oracleQueries < MAX_RECOVERY_WINDOWS
      modifies this
      ensures View() == Apply(old(View()), CompleteOracle(owner, pricesReady))
    {
      var state := states[owner].(oraclePricesReady := pricesReady);
      if pricesReady {
        state := state.(oraclePending := false);
      }
      states := states[owner := state];
      oracleQueries := oracleQueries + 1;
    }

    method ObserveFreshBook(owner: nat, book: Book)
      requires WellFormed(View()) && owner < |states|
      modifies this
      ensures View() == Apply(old(View()), ObserveBook(owner, book))
    {
      var state := states[owner];
      if state.phase == Catchup {
        state := state.(freshBookApplied := false);
      }
      if state.phase == Catchup && book.valid && book.receivedNs >= state.restartNs && book.sourceNs != 0
         && SatSub(book.appliedNs, book.sourceNs) <= book.maxAgeNs
      {
        state := state.(freshBookApplied := true, freshUntilNs := SatAdd(book.sourceNs, book.maxAgeNs));
      }
      states := states[owner := state];
    }

    method TryReadyNow(owner: nat, privateDrained: bool, nowNs: nat) returns (ready: bool)
      requires WellFormed(View()) && owner < |states|
      modifies this
      ensures View() == Apply(old(View()), TryReady(owner, privateDrained, nowNs))
      ensures ready <==> old(states[owner].phase) == Catchup && states[owner].phase == Ready
    {
      var state := states[owner];
      if state.phase == Catchup && !state.oraclePending && state.freshBookApplied
         && nowNs <= state.freshUntilNs && privateDrained
      {
        state := state.(phase := Ready, readyTransitions := state.readyTransitions + 1);
        states := states[owner := state.(readyAtNs := nowNs)];
        return true;
      }
      assert states[owner := states[owner]] == states;
      return false;
    }
  }

  // ------------------------------------------------------------------ runs

  function Run(r: Replay, ops: seq<Op>): (t: Replay)
    requires WellFormed(r)
    ensures WellFormed(t) && t.edges == r.edges && |t.states| == |r.states|
    decreases |ops|
  {
    if ops == [] then r else Run(Apply(r, ops[0]), ops[1..])
  }

  /** The owner's edges come in whole Stop, Restart, ReconcileComplete cycles. */
  predicate CyclePattern(edges: seq<Edge>) {
    forall k :: 0 <= k < |edges| ==> Rank(edges[k].action) == k % 3
  }

  /** Strictly separated windows give that pattern. */
  lemma {:induction false} CyclesPattern(b: Bounds, windows: seq<Window>, owner: nat)
    ensures CyclePattern(Cycles(b, windows, owner)) && |Cycles(b, windows, owner)| == 3 * |windows|
  {
    if windows != [] {
      CyclesPattern(b, windows[1..], owner);
      var rest := Cycles(b, windows[1..], owner);
      forall k | 0 <= k < 3 + |rest| ensures Rank((WindowEdges(b, windows[0], owner) + rest)[k].action) == k % 3 {
        if k >= 3 { assert Rank(rest[k - 3].action) == (k - 3) % 3; }
      }
    }
  }

  lemma JournalPattern(b: Bounds, windows: seq<Window>, owner: nat)
    requires Journal(b, windows).Ok?
    requires StrictlySeparated(b, OwnerWindows(b, StableSort.Sort(WindowLe, windows), owner))
    ensures CyclePattern(Project(Journal(b, windows).value, owner))
  {
    EdgesCycleIffSeparated(b, windows, owner);
    CyclesPattern(b, OwnerWindows(b, StableSort.Sort(WindowLe, windows), owner), owner);
  }

  /** How many of the owner's edges have been applied. */
  function Applied(r: Replay, owner: nat): nat
    requires WellFormed(r)
  {
    |Project(r.edges[..r.cursor], owner)|
  }

  lemma NextProjected(r: Replay, owner: nat)
    requires WellFormed(r) && r.cursor < |r.edges|
    ensures var mine := Project(r.edges, owner);
            var edge := r.edges[r.cursor];
            Project(r.edges[..r.cursor + 1], owner) ==
              Project(r.edges[..r.cursor], owner) + (if edge.owner == owner then [edge] else [])
            && (edge.owner == owner ==> Applied(r, owner) < |mine| && mine[Applied(r, owner)] == edge)
  {
    var prefix, edge, suffix := r.edges[..r.cursor], r.edges[r.cursor], r.edges[r.cursor + 1..];
    assert r.edges[..r.cursor + 1] == prefix + [edge];
    assert r.edges == (prefix + [edge]) + suffix;
    ProjectAppend(prefix, [edge], owner);
    ProjectAppend(prefix + [edge], suffix, owner);
    assert Project([edge], owner) == if edge.owner == owner then [edge] else [];
  }

  /** Within well-ordered edges the phase tells how far the owner is in its cycle. */
  predicate InStep(r: Replay, owner: nat)
    requires WellFormed(r) && owner < |r.states|
  {
    match r.states[owner].phase
    case Offline => Applied(r, owner) % 3 == 1
    case Reconciling => Applied(r, owner) % 3 == 2
    case Catchup => Applied(r, owner) % 3 == 0
    case Ready => Applied(r, owner) % 3 == 0
  }

  // ------------------------------------------------------------------ an outside observer

  /** What an observer of one owner has seen of its latest outage: it watches the edges
      handed out, the reports made and the readiness granted, never the gate's state. */
  datatype Seen = Seen(
    stopped: bool,
    restartNs: Option<nat>,
    reconciled: bool,
    pricesAnswered: bool,
    lastBook: Option<Book>,
    readiness: Option<Readiness>)

  datatype Readiness = Readiness(outage: Seen, privateDrained: bool, nowNs: nat)

  const NOTHING_SEEN: Seen := Seen(false, None, false, false, None, None)

  function Watch(seen: Seen, r: Replay, op: Op, owner: nat): Seen
    requires WellFormed(r) && owner < |r.states|
  {
    match op
    case Advance(nowNs) =>
      if !Due(r, nowNs) || r.edges[r.cursor].owner != owner then seen
      else
        match r.edges[r.cursor].action {
          case Stop => NOTHING_SEEN.(stopped := true)
          case Restart => seen.(restartNs := Some(r.edges[r.cursor].whenNs), lastBook := None)
          case ReconcileComplete => seen.(reconciled := true)
        }
    case CompleteOracle(who, pricesReady) =>
      if who == owner && pricesReady then seen.(pricesAnswered := true) else seen
    case ObserveBook(who, book) =>
      if who == owner && seen.reconciled && seen.readiness.None? then seen.(lastBook := Some(book)) else seen
    case TryReady(who, privateDrained, nowNs) =>
      if who == owner && CanReady(r.states[owner], privateDrained, nowNs)
      then seen.(readiness := Some(Readiness(seen, privateDrained, nowNs)))
      else seen
  }

  function Watched(seen: Seen, r: Replay, ops: seq<Op>, owner: nat): Seen
    requires WellFormed(r) && owner < |r.states|
    decreases |ops|
  {
    if ops == [] then seen else Watched(Watch(seen, r, ops[0], owner), Apply(r, ops[0]), ops[1..], owner)
  }

  /** The evidence that must be on record before an owner may quote again. */
  predicate Justified(seen: Seen, privateDrained: bool, nowNs: nat) {
    && seen.reconciled && seen.pricesAnswered && seen.restartNs.Some?
    && seen.lastBook.Some?
    && (var book := seen.lastBook.value;
        && book.valid && book.receivedNs >= seen.restartNs.value && book.sourceNs != 0
        && SatSub(book.appliedNs, book.sourceNs) <= book.maxAgeNs
        && nowNs <= SatAdd(book.sourceNs, book.maxAgeNs))
    && privateDrained
  }

  /** The gate's state agrees with what the observer has seen. */
  predicate Agrees(seen: Seen, s: OwnerState) {
    seen.stopped ==>
      && (s.phase != Offline ==> seen.restartNs == Some(s.restartNs))
      && (seen.reconciled <==> s.phase == Catchup || s.phase == Ready)
      && (seen.pricesAnswered <==> !s.oraclePending)
      && (seen.readiness.Some? <==> s.phase == Ready)
      && (s.phase == Offline || s.phase == Reconciling ==> !s.freshBookApplied && seen.lastBook.None?)
      && (s.phase == Catchup ==>
            && (s.freshBookApplied <==> seen.lastBook.Some? && FreshBook(s, seen.lastBook.value))
            && (s.freshBookApplied ==>
                  s.freshUntilNs == SatAdd(seen.lastBook.value.sourceNs, seen.lastBook.value.maxAgeNs)))
      && (seen.readiness.Some? ==>
            var ready := seen.readiness.value;
            ready.outage.stopped && Justified(ready.outage, ready.privateDrained, ready.nowNs))
  }

  predicate Tracks(seen: Seen, r: Replay, owner: nat)
    requires WellFormed(r) && owner < |r.states|
  {
    && CyclePattern(Project(r.edges, owner)) && InStep(r, owner) && Agrees(seen, r.states[owner])
    && (!seen.stopped ==> r.states[owner].phase == Ready && Applied(r, owner) == 0)
  }

  lemma ApplyTracks(seen: Seen, r: Replay, op: Op, owner: nat)
    requires WellFormed(r) && owner < |r.states| && Tracks(seen, r, owner)
    ensures Tracks(Watch(seen, r, op, owner), Apply(r, op), owner)
  {
    if op.Advance? && Due(r, op.nowNs) {
      NextProjected(r, owner);
      if r.edges[r.cursor].owner == owner {
        assert Rank(r.edges[r.cursor].action) == Applied(r, owner) % 3;
      }
    }
  }

  lemma {:induction false} RunTracks(seen: Seen, r: Replay, ops: seq<Op>, owner: nat)
    requires WellFormed(r) && owner < |r.states| && Tracks(seen, r, owner)
    ensures Tracks(Watched(seen, r, ops, owner), Run(r, ops), owner)
    decreases |ops|
  {
    if ops != [] {
      ApplyTracks(seen, r, ops[0], owner);
      RunTracks(Watch(seen, r, ops[0], owner), Apply(r, ops[0]), ops[1..], owner);
    }
  }

  lemma StartTracks(edges: seq<Edge>, owners: nat, owner: nat)
    requires WellFormed(Start(edges, owners)) && owner < owners && CyclePattern(Project(edges, owner))
    ensures Tracks(NOTHING_SEEN, Start(edges, owners), owner)
  {
    assert edges[..0] == [];
  }

  // ------------------------------------------------------------------ theorems

  /** After any Stop an owner may quote again only with the whole chain on record: its
      ReconcileComplete, an oracle answer with the required prices since that Stop, a last
      catchup book that was valid, received since the restart and unexpired at the instant
      of readiness, and a drained private lane. And while it may quote, every outage begun
      has been reconciled. */
  lemma QuoteNeedsEvidence(edges: seq<Edge>, owners: nat, ops: seq<Op>, owner: nat)
    requires WellFormed(Start(edges, owners)) && owner < owners && CyclePattern(Project(edges, owner))
    ensures var r := Run(Start(edges, owners), ops);
            var seen := Watched(NOTHING_SEEN, Start(edges, owners), ops, owner);
            QuoteAllowed(r, owner) ==>
              && Applied(r, owner) % 3 == 0
              && (seen.stopped ==>
                    seen.readiness.Some?
                    && (var ready := seen.readiness.value;
                        ready.outage.stopped && Justified(ready.outage, ready.privateDrained, ready.nowNs)))
  {
    StartTracks(edges, owners, owner);
    RunTracks(NOTHING_SEEN, Start(edges, owners), ops, owner);
  }

  /** And the gate asks for nothing more: in catchup, `try_ready` succeeds exactly when the
      observer's record justifies it. */
  lemma ReadyExactlyWhenJustified(edges: seq<Edge>, owners: nat, ops: seq<Op>, owner: nat, drained: bool, nowNs: nat)
    requires WellFormed(Start(edges, owners)) && owner < owners && CyclePattern(Project(edges, owner))
    ensures var r := Run(Start(edges, owners), ops);
            var seen := Watched(NOTHING_SEEN, Start(edges, owners), ops, owner);
            seen.stopped && !QuoteAllowed(r, owner) ==>
              (QuoteAllowed(Apply(r, TryReady(owner, drained, nowNs)), owner) <==> Justified(seen, drained, nowNs))
  {
    StartTracks(edges, owners, owner);
    RunTracks(NOTHING_SEEN, Start(edges, owners), ops, owner);
  }

  // ------------------------------------------------------------------ any journal

  /** What anyone can count of an owner: the stops handed out, how often it became ready, and the
      last oracle answer since its last stop. */
  datatype Tally = Tally(stops: nat, readies: nat, prices: bool)

  function Count(tally: Tally, r: Replay, op: Op, owner: nat): Tally
    requires WellFormed(r) && owner < |r.states|
  {
    match op
    case Advance(nowNs) =>
      if Due(r, nowNs) && r.edges[r.cursor].owner == owner && r.edges[r.cursor].action.Stop?
      then tally.(stops := tally.stops + 1, prices := false) else tally
    case CompleteOracle(who, pricesReady) => if who == owner then tally.(prices := pricesReady) else tally
    case TryReady(_, _, _) =>
      if !QuoteAllowed(r, owner) && QuoteAllowed(Apply(r, op), owner)
      then tally.(readies := tally.readies + 1) else tally
    case _ => tally
  }

  function Counted(tally: Tally, r: Replay, ops: seq<Op>, owner: nat): Tally
    requires WellFormed(r) && owner < |r.states|
    decreases |ops|
  {
    if ops == [] then tally else Counted(Count(tally, r, ops[0], owner), Apply(r, ops[0]), ops[1..], owner)
  }

  /** The owner's record agrees with it, and no book counts while the process is down. */
  predicate Kept(tally: Tally, s: OwnerState) {
    && s.stops == tally.stops && s.readyTransitions == tally.readies && s.oraclePricesReady == tally.prices
    && (s.phase == Offline || s.phase == Reconciling ==> !s.freshBookApplied)
  }

  lemma {:induction false} RunKept(tally: Tally, r: Replay, ops: seq<Op>, owner: nat)
    requires WellFormed(r) && owner < |r.states| && Kept(tally, r.states[owner])
    ensures Kept(Counted(tally, r, ops, owner), Run(r, ops).states[owner])
    decreases |ops|
  {
    if ops != [] {
      assert Kept(Count(tally, r, ops[0], owner), Apply(r, ops[0]).states[owner]);
      RunKept(Count(tally, r, ops[0], owner), Apply(r, ops[0]), ops[1..], owner);
    }
  }

  /** In every run of every journal, separated windows or not, an owner's counters are right, and a
      book applied before a restart is forgotten by it. */
  lemma RecordIsKept(edges: seq<Edge>, owners: nat, ops: seq<Op>, owner: nat)
    requires WellFormed(Start(edges, owners)) && owner < owners
    ensures var s := Run(Start(edges, owners), ops).states[owner];
            var tally := Counted(Tally(0, 0, false), Start(edges, owners), ops, owner);
            && s.stops == tally.stops && s.readyTransitions == tally.readies && s.oraclePricesReady == tally.prices
            && (s.phase == Offline || s.phase == Reconciling ==> !s.freshBookApplied)
  {
    RunKept(Tally(0, 0, false), Start(edges, owners), ops, owner);
  }

  const TOUCHING: seq<Window> :=
    [Window("a", 10, 20, "observed_log_boundary"), Window("a", 25, 40, "observed_log_boundary")]
  const ONE_OWNER: Bounds := Bounds(map["a" := 0], 5, 0, U64_MAX)

  const TOUCHING_EDGES: seq<Edge> :=
    [Edge(10, 0, Stop), Edge(20, 0, Restart), Edge(25, 0, Stop), Edge(25, 0, ReconcileComplete),
     Edge(40, 0, Restart), Edge(45, 0, ReconcileComplete)]

  lemma RunCons(r: Replay, op: Op, ops: seq<Op>)
    requires WellFormed(r)
    ensures Run(r, [op] + ops) == Run(Apply(r, op), ops)
  {
    assert ([op] + ops)[1..] == ops;
  }

  lemma RunThree(r: Replay, x: Op, y: Op, z: Op)
    requires WellFormed(r)
    ensures Run(r, [x] + ([y] + ([z] + []))) == Apply(Apply(Apply(r, x), y), z)
  {
    RunCons(r, x, [y] + ([z] + []));
    RunCons(Apply(r, x), y, [z] + []);
    RunCons(Apply(Apply(r, x), y), z, []);
  }

  lemma {:induction false} RunConcat(r: Replay, xs: seq<Op>, ys: seq<Op>)
    requires WellFormed(r)
    ensures Run(r, xs + ys) == Run(Run(r, xs), ys)
    decreases |xs|
  {
    if xs == [] {
      assert xs + ys == ys;
    } else {
      assert (xs + ys)[1..] == xs[1..] + ys;
      RunConcat(Apply(r, xs[0]), xs[1..], ys);
    }
  }

  lemma TouchingJournal()
    ensures Journal(ONE_OWNER, TOUCHING) == Ok(TOUCHING_EDGES)
  {
    var first, second := TOUCHING[0], TOUCHING[1];
    assert TOUCHING[1..] == [second] && [second][1..] == [];
    assert StableSort.Sort(WindowLe, [second]) == [second];
    assert StableSort.Sort(WindowLe, TOUCHING) == TOUCHING;
    var e1, e2 := WindowEdges(ONE_OWNER, first, 0), WindowEdges(ONE_OWNER, second, 0);
    assert Build(ONE_OWNER, [second], map[0 := 25]) == Ok(e2 + []);
    assert e1 + (e2 + []) == e1 + e2;
    assert Build(ONE_OWNER, TOUCHING, map[]) == Ok(e1 + e2);
    EdgeOrder();
    assert StableSort.Sort(EdgeLe, e2) == e2 by { StableSort.SortIdentity(EdgeLe, e2); }
    var tail := [Edge(25, 0, Stop), Edge(25, 0, ReconcileComplete), Edge(40, 0, Restart),
                 Edge(45, 0, ReconcileComplete)];
    assert StableSort.Sort(EdgeLe, [e1[2]] + e2) == tail by {
      assert ([e1[2]] + e2)[1..] == e2;
      assert e2[1..] == [e2[1], e2[2]];
      assert StableSort.Insert(EdgeLe, e1[2], e2) == tail;
    }
    assert StableSort.Sort(EdgeLe, [e1[1]] + ([e1[2]] + e2)) == [e1[1]] + tail by {
      assert ([e1[1]] + ([e1[2]] + e2))[1..] == [e1[2]] + e2;
    }
    assert e1 + e2 == [e1[0]] + ([e1[1]] + ([e1[2]] + e2));
    assert (e1 + e2)[1..] == [e1[1]] + ([e1[2]] + e2);
    assert [e1[0]] + ([e1[1]] + tail) == TOUCHING_EDGES;
  }

  /** The four edges due by 25: two outages have stopped, one is reconciled. */
  const TOUCHING_ADVANCES: seq<Op> := [Advance(10)] + ([Advance(20)] + ([Advance(25)] + ([Advance(25)] + [])))

  const TOUCHING_BOOK: Op := ObserveBook(0, Book(26, 26, 26, true, 100))
  const TOUCHING_EVIDENCE: seq<Op> := [CompleteOracle(0, true)] + ([TOUCHING_BOOK] + ([TryReady(0, true, 30)] + []))

  lemma TouchingCatchup()
    ensures WellFormed(Start(TOUCHING_EDGES, 1))
    ensures var r := Run(Start(TOUCHING_EDGES, 1), TOUCHING_ADVANCES);
            r.cursor == 4 && r.states[0].phase == Catchup && r.states[0].restartNs == 20
  {
    var r := Start(TOUCHING_EDGES, 1);
    var r1 := Apply(r, Advance(10));
    var r2 := Apply(r1, Advance(20));
    assert r2.cursor == 2 && r2.states[0].restartNs == 20;
    var r3 := Apply(r2, Advance(25));
    assert r3.cursor == 3 && r3.states[0].restartNs == 20;
    RunCons(r3, Advance(25), []);
    RunCons(r2, Advance(25), [Advance(25)] + []);
    RunCons(r1, Advance(20), [Advance(25)] + ([Advance(25)] + []));
    RunCons(r, Advance(10), [Advance(20)] + ([Advance(25)] + ([Advance(25)] + [])));
  }

  lemma TouchingOpens(r: Replay)
    requires WellFormed(r) && |r.states| == 1 && r.states[0].phase == Catchup && r.states[0].restartNs == 20
    ensures var t := Run(r, TOUCHING_EVIDENCE);
            QuoteAllowed(t, 0) && t.states[0].readyAtNs == 30 && t.cursor == r.cursor
  {
    var r1 := Apply(r, CompleteOracle(0, true));
    var r2 := Apply(r1, TOUCHING_BOOK);
    assert r2.states[0].freshBookApplied && r2.states[0].freshUntilNs == 126;
    RunThree(r, CompleteOracle(0, true), TOUCHING_BOOK, TryReady(0, true, 30));
  }

  /** Strict separation is needed: for two windows that touch (one reconciles at 25, the
      instant the next one stops) the loader accepts the journal, orders the second Stop
      before the first ReconcileComplete, and lets the owner quote at time 30, inside its
      second outage, which ends at 40. */
  lemma TouchingWindowsQuoteDuringOutage() returns (ops: seq<Op>)
    ensures Journal(ONE_OWNER, TOUCHING) == Ok(TOUCHING_EDGES) && WellFormed(Start(TOUCHING_EDGES, 1))
    ensures var r := Run(Start(TOUCHING_EDGES, 1), ops);
            QuoteAllowed(r, 0) && r.states[0].readyAtNs == 30 && r.cursor == 4
  {
    TouchingJournal();
    TouchingCatchup();
    var r := Start(TOUCHING_EDGES, 1);
    ops := TOUCHING_ADVANCES + TOUCHING_EVIDENCE;
    TouchingOpens(Run(r, TOUCHING_ADVANCES));
    RunConcat(r, TOUCHING_ADVANCES, TOUCHING_EVIDENCE);
  }
}
