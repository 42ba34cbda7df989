/** Exactly which journals keep the gate shut through an outage. */
module RecoveryExposure {
  import opened Common
  import opened Recovery
  import opened RecoveryGate
  import RecoveryJournal
  import StableSort

  function Mine(b: Bounds, windows: seq<Window>, owner: nat): seq<Window> {
    OwnerWindows(b, StableSort.Sort(WindowLe, windows), owner)
  }

  /** The owner may quote although a window of its own has stopped and not restarted. */
  ghost predicate Exposed(b: Bounds, mine: seq<Window>, r: Replay, owner: nat)
    requires WellFormed(r) && owner < |r.states|
  {
    && QuoteAllowed(r, owner)
    && exists i :: 0 <= i < |mine| && WindowEdges(b, mine[i], owner)[0] in r.edges[..r.cursor]
                   && WindowEdges(b, mine[i], owner)[1] !in r.edges[..r.cursor]
  }

  // ------------------------------------------------------------------ edges of one owner

  lemma {:induction false} CyclesAt(b: Bounds, mine: seq<Window>, owner: nat, k: nat, j: nat)
    requires k < |mine| && j < 3
    ensures |Cycles(b, mine, owner)| == 3 * |mine|
    ensures Cycles(b, mine, owner)[3 * k + j] == WindowEdges(b, mine[k], owner)[j]
  {
    CyclesPattern(b, mine, owner);
    if k > 0 {
      CyclesAt(b, mine[1..], owner, k - 1, j);
      assert Cycles(b, mine, owner)[3 * k + j] == Cycles(b, mine[1..], owner)[3 * (k - 1) + j];
    }
  }

  lemma {:induction false} ProjectContains(xs: seq<Edge>, e: Edge)
    requires e in xs
    ensures e in Project(xs, e.owner)
  {
    if e != xs[0] { ProjectContains(xs[1..], e); }
  }

  /** What the journal holds of one owner: its windows' edges, sorted. */
  lemma JournalOf(b: Bounds, windows: seq<Window>, owner: nat)
    requires Journal(b, windows).Ok?
    ensures var edges, mine := Journal(b, windows).value, Mine(b, windows, owner);
            && StableSort.Sorted(EdgeLe, edges)
            && Project(edges, owner) == StableSort.Sort(EdgeLe, Cycles(b, mine, owner))
            && InScope(b, mine) && Chained(b, mine)
  {
    var sorted := StableSort.Sort(WindowLe, windows);
    var raw := Build(b, sorted, map[]).value;
    EdgeOrder();
    StableSort.SortSorted(EdgeLe, raw);
    BuildCycles(b, sorted, map[], owner);
    BuildChained(b, sorted, map[], owner);
    ProjectSort(raw, owner);
  }

  lemma JournalHolds(b: Bounds, windows: seq<Window>, owner: nat, k: nat, j: nat)
    requires Journal(b, windows).Ok? && k < |Mine(b, windows, owner)| && j < 3
    ensures WindowEdges(b, Mine(b, windows, owner)[k], owner)[j] in Journal(b, windows).value
  {
    var edges, mine := Journal(b, windows).value, Mine(b, windows, owner);
    var cycles := Cycles(b, mine, owner);
    JournalOf(b, windows, owner);
    EdgeOrder();
    StableSort.SortSorted(EdgeLe, cycles);
    CyclesAt(b, mine, owner, k, j);
    var e := WindowEdges(b, mine[k], owner)[j];
    assert e in multiset(cycles) && e in multiset(Project(edges, owner));
    ProjectMembers(edges, owner);
  }

  // ------------------------------------------------------------------ touching windows expose

  lemma {:induction false} TouchingPair(b: Bounds, mine: seq<Window>) returns (i: nat)
    requires Chained(b, mine) && !StrictlySeparated(b, mine)
    ensures i + 1 < |mine| && ReconciledNs(b, mine[i]) == mine[i + 1].stopNs
  {
    if ReconciledNs(b, mine[0]) == mine[1].stopNs {
      i := 0;
    } else {
      i := TouchingPair(b, mine[1..]);
      i := i + 1;
    }
  }

  function Advances(nowNs: nat, n: nat): seq<Op> {
    seq(n, _ => Advance(nowNs))
  }

  lemma {:induction false} AdvancesRun(r: Replay, nowNs: nat, n: nat)
    requires WellFormed(r) && r.cursor + n <= |r.edges|
    requires forall k :: r.cursor <= k < r.cursor + n ==> r.edges[k].whenNs <= nowNs
    ensures Run(r, Advances(nowNs, n)).cursor == r.cursor + n
    decreases n
  {
    if n > 0 {
      assert Advances(nowNs, n)[1..] == Advances(nowNs, n - 1);
      AdvancesRun(Apply(r, Advance(nowNs)), nowNs, n - 1);
    }
  }

  /** Once a ReconcileComplete puts the owner in catchup, an oracle answer, a book and a drained
      private lane make it ready, whatever else is under way. */
  lemma CatchupOpens(r: Replay, owner: nat, nowNs: nat, book: Book)
    requires WellFormed(r) && owner < |r.states| && r.states[owner].phase == Catchup && 0 < nowNs <= U64_MAX
    requires book == Book(r.states[owner].restartNs, nowNs, nowNs, true, 0)
    ensures var answered := Apply(Apply(r, CompleteOracle(owner, true)), ObserveBook(owner, book));
            var t := Apply(answered, TryReady(owner, true, nowNs));
            QuoteAllowed(t, owner) && t.cursor == r.cursor
  {
    var r1 := Apply(r, CompleteOracle(owner, true));
    assert r1.states[owner].phase == Catchup && !r1.states[owner].oraclePending;
    var r2 := Apply(r1, ObserveBook(owner, book));
    assert r2.states[owner].freshBookApplied && r2.states[owner].freshUntilNs == nowNs;
  }

  /** The ReconcileComplete that a later Stop ties with comes after that Stop and before its
      Restart. */
  lemma TouchingOrder(edges: seq<Edge>, stop: Edge, reconcile: Edge, restart: Edge) returns (m: nat)
    requires StableSort.Sorted(EdgeLe, edges) && stop in edges && reconcile in edges
    requires stop.owner == reconcile.owner == restart.owner && stop.whenNs == reconcile.whenNs < restart.whenNs
    requires stop.action == Stop && reconcile.action == ReconcileComplete
    ensures m < |edges| && edges[m] == reconcile
    ensures stop in edges[..m + 1] && restart !in edges[..m + 1]
    ensures forall k :: 0 <= k <= m ==> edges[k].whenNs <= reconcile.whenNs
  {
    m :| 0 <= m < |edges| && edges[m] == reconcile;
    var s :| 0 <= s < |edges| && edges[s] == stop;
    assert m < s ==> EdgeLe(edges[m], edges[s]);
    assert edges[..m + 1][s] == stop;
    forall k | 0 <= k <= m ensures edges[k].whenNs <= reconcile.whenNs {
      if k < m { assert EdgeLe(edges[k], edges[m]); }
    }
  }

  /** Any ReconcileComplete in a journal can be the last edge before its owner quotes. */
  lemma OpensAt(edges: seq<Edge>, owners: nat, m: nat) returns (ops: seq<Op>)
    requires WellFormed(Start(edges, owners)) && m < |edges| && edges[m].action == ReconcileComplete
    requires 0 < edges[m].whenNs <= U64_MAX && forall k :: 0 <= k <= m ==> edges[k].whenNs <= edges[m].whenNs
    ensures var r := Run(Start(edges, owners), ops); r.cursor == m + 1 && QuoteAllowed(r, edges[m].owner)
  {
    var start, now, owner := Start(edges, owners), edges[m].whenNs, edges[m].owner;
    AdvancesRun(start, now, m);
    var r1 := Run(start, Advances(now, m));
    var r2 := Apply(r1, Advance(now));
    assert r2.cursor == m + 1 && r2.states[owner].phase == Catchup;
    var book := Book(r2.states[owner].restartNs, now, now, true, 0);
    CatchupOpens(r2, owner, now, book);
    RunThree(r2, CompleteOracle(owner, true), ObserveBook(owner, book), TryReady(owner, true, now));
    var last := [CompleteOracle(owner, true)] + ([ObserveBook(owner, book)] + ([TryReady(owner, true, now)] + []));
    ops := Advances(now, m) + ([Advance(now)] + last);
    RunConcat(start, Advances(now, m), [Advance(now)] + last);
    RunCons(r1, Advance(now), last);
  }

  /** Every journal with touching windows lets the owner quote inside an outage. */
  lemma ExposedIfTouching(b: Bounds, windows: seq<Window>, owners: nat, owner: nat) returns (ops: seq<Op>)
    requires Journal(b, windows).Ok? && WellFormed(Start(Journal(b, windows).value, owners)) && owner < owners
    requires !StrictlySeparated(b, Mine(b, windows, owner))
    ensures Exposed(b, Mine(b, windows, owner), Run(Start(Journal(b, windows).value, owners), ops), owner)
  {
    var edges, mine := Journal(b, windows).value, Mine(b, windows, owner);
    JournalOf(b, windows, owner);
    var i := TouchingPair(b, mine);
    JournalHolds(b, windows, owner, i, 2);
    JournalHolds(b, windows, owner, i + 1, 0);
    var reconcile := WindowEdges(b, mine[i], owner)[2];
    var next := WindowEdges(b, mine[i + 1], owner);
    var m := TouchingOrder(edges, next[0], reconcile, next[1]);
    ops := OpensAt(edges, owners, m);
  }

  // ------------------------------------------------------------------ separated windows do not

  lemma {:induction false} EndsBefore(b: Bounds, mine: seq<Window>, k: nat, i: nat)
    requires StrictlySeparated(b, mine) && InScope(b, mine) && k < i < |mine|
    ensures ReconciledNs(b, mine[k]) < mine[i].stopNs
    decreases |mine|
  {
    if k > 0 {
      EndsBefore(b, mine[1..], k - 1, i - 1);
    } else if i > 1 {
      assert mine[1..][i - 1] == mine[i];
      EndsBefore(b, mine[1..], 0, i - 1);
    }
  }

  lemma {:induction false} PrefixProjects(edges: seq<Edge>, n: nat, owner: nat)
    requires n <= |edges|
    ensures |Project(edges[..n], owner)| <= |Project(edges, owner)|
    ensures Project(edges[..n], owner) == Project(edges, owner)[..|Project(edges[..n], owner)|]
  {
    ProjectAppend(edges[..n], edges[n..], owner);
    assert edges[..n] + edges[n..] == edges;
  }

  /** With whole cycles applied, every applied Stop has its Restart applied. */
  lemma WholeCycles(b: Bounds, mine: seq<Window>, applied: seq<Edge>, owner: nat, i: nat)
    requires StrictlySeparated(b, mine) && InScope(b, mine) && i < |mine|
    requires |applied| <= 3 * |mine| == |Cycles(b, mine, owner)| && |applied| % 3 == 0
    requires applied == Cycles(b, mine, owner)[..|applied|]
    requires WindowEdges(b, mine[i], owner)[0] in applied
    ensures WindowEdges(b, mine[i], owner)[1] in applied
  {
    var q :| 0 <= q < |applied| && applied[q] == WindowEdges(b, mine[i], owner)[0];
    CyclesPattern(b, mine, owner);
    var k := q / 3;
    assert q == 3 * k + q % 3 && q % 3 == 0;
    CyclesAt(b, mine, owner, k, 0);
    if k < i { EndsBefore(b, mine, k, i); }
    CyclesAt(b, mine, owner, i, 1);
    assert 3 * i + 1 < |applied|;
    assert applied[3 * i + 1] == WindowEdges(b, mine[i], owner)[1];
  }

  lemma NotExposedIfSeparated(b: Bounds, windows: seq<Window>, owners: nat, owner: nat, ops: seq<Op>)
    requires Journal(b, windows).Ok? && WellFormed(Start(Journal(b, windows).value, owners)) && owner < owners
    requires StrictlySeparated(b, Mine(b, windows, owner))
    ensures !Exposed(b, Mine(b, windows, owner), Run(Start(Journal(b, windows).value, owners), ops), owner)
  {
    var edges, mine := Journal(b, windows).value, Mine(b, windows, owner);
    var r := Run(Start(edges, owners), ops);
    JournalPattern(b, windows, owner);
    EdgesCycleIffSeparated(b, windows, owner);
    JournalOf(b, windows, owner);
    QuoteNeedsEvidence(edges, owners, ops, owner);
    PrefixProjects(edges, r.cursor, owner);
    CyclesPattern(b, mine, owner);
    ProjectMembers(edges[..r.cursor], owner);
    if QuoteAllowed(r, owner) {
      forall i | 0 <= i < |mine| && WindowEdges(b, mine[i], owner)[0] in edges[..r.cursor]
        ensures WindowEdges(b, mine[i], owner)[1] in edges[..r.cursor]
      {
        ProjectContains(edges[..r.cursor], WindowEdges(b, mine[i], owner)[0]);
        WholeCycles(b, mine, Project(edges[..r.cursor], owner), owner, i);
      }
    }
  }

  // ------------------------------------------------------------------ told from the input windows

  /** An input window of this owner that the replay has something of. */
  ghost predicate Concerns(b: Bounds, w: Window, owner: nat) {
    !RecoveryJournal.Outside(b, w) && w.instance in b.owners && b.owners[w.instance] == owner
  }

  lemma {:induction false} OwnerWindowsAre(b: Bounds, sorted: seq<Window>, owner: nat, w: Window)
    ensures w in OwnerWindows(b, sorted, owner) <==>
            w in sorted && !Skipped(b, w) && w.instance in b.owners && b.owners[w.instance] == owner
  {
    if sorted != [] {
      assert sorted == [sorted[0]] + sorted[1..];
      OwnerWindowsAre(b, sorted[1..], owner, w);
    }
  }

  lemma MineAre(b: Bounds, windows: seq<Window>, owner: nat, w: Window)
    requires RecoveryJournal.Replayable(b) && Journal(b, windows).Ok?
    ensures w in Mine(b, windows, owner) <==> w in windows && Concerns(b, w, owner)
  {
    var sorted := StableSort.Sort(WindowLe, windows);
    OwnerWindowsAre(b, sorted, owner, w);
    assert StableSort.TotalPreorder(WindowLe);
    StableSort.SortSorted(WindowLe, windows);
    assert w in sorted <==> w in multiset(sorted);
    assert w in windows <==> w in multiset(windows);
    RecoveryJournal.SkippedIsOutside(b, w);
    JournalOf(b, windows, owner);
  }

  /** The owner may quote although, of its input windows, one has stopped and not restarted. */
  ghost predicate QuotesInOutage(b: Bounds, windows: seq<Window>, r: Replay, owner: nat)
    requires WellFormed(r) && owner < |r.states|
  {
    && QuoteAllowed(r, owner)
    && exists w :: w in windows && Concerns(b, w, owner) && RecoveryJournal.StopOf(b, w, owner) in r.edges[..r.cursor]
                   && RecoveryJournal.RestartOf(b, w, owner) !in r.edges[..r.cursor]
  }

  lemma QuotesIsExposed(b: Bounds, windows: seq<Window>, r: Replay, owner: nat)
    requires RecoveryJournal.Replayable(b) && Journal(b, windows).Ok? && WellFormed(r) && owner < |r.states|
    ensures QuotesInOutage(b, windows, r, owner) <==> Exposed(b, Mine(b, windows, owner), r, owner)
  {
    var mine := Mine(b, windows, owner);
    if QuotesInOutage(b, windows, r, owner) {
      var w :| w in windows && Concerns(b, w, owner) && RecoveryJournal.StopOf(b, w, owner) in r.edges[..r.cursor]
               && RecoveryJournal.RestartOf(b, w, owner) !in r.edges[..r.cursor];
      MineAre(b, windows, owner, w);
      var i :| 0 <= i < |mine| && mine[i] == w;
      assert WindowEdges(b, mine[i], owner)[0] == RecoveryJournal.StopOf(b, w, owner);
    }
    if Exposed(b, mine, r, owner) {
      var i :| 0 <= i < |mine| && WindowEdges(b, mine[i], owner)[0] in r.edges[..r.cursor]
               && WindowEdges(b, mine[i], owner)[1] !in r.edges[..r.cursor];
      MineAre(b, windows, owner, mine[i]);
      assert WindowEdges(b, mine[i], owner)[0] == RecoveryJournal.StopOf(b, mine[i], owner);
    }
  }

  /** One outage of the owner is reconciled at the very instant another one stops. */
  ghost predicate Touching(b: Bounds, windows: seq<Window>, owner: nat) {
    exists x, y :: x in windows && y in windows && Concerns(b, x, owner) && Concerns(b, y, owner)
                   && x.restartNs + b.delayNs == y.stopNs
  }

  lemma TouchingIsNotSeparated(b: Bounds, windows: seq<Window>, owner: nat)
    requires RecoveryJournal.Replayable(b) && Journal(b, windows).Ok?
    ensures Touching(b, windows, owner) <==> !StrictlySeparated(b, Mine(b, windows, owner))
  {
    var mine := Mine(b, windows, owner);
    JournalOf(b, windows, owner);
    if !StrictlySeparated(b, mine) {
      var i := TouchingPair(b, mine);
      MineAre(b, windows, owner, mine[i]);
      MineAre(b, windows, owner, mine[i + 1]);
    } else if Touching(b, windows, owner) {
      var x, y :| x in windows && y in windows && Concerns(b, x, owner) && Concerns(b, y, owner)
                  && x.restartNs + b.delayNs == y.stopNs;
      MineAre(b, windows, owner, x);
      MineAre(b, windows, owner, y);
      var i :| 0 <= i < |mine| && mine[i] == x;
      var j :| 0 <= j < |mine| && mine[j] == y;
      if i < j { EndsBefore(b, mine, i, j); }
      if j < i { EndsBefore(b, mine, j, i); }
    }
  }

  /** These operations, on this journal, expose the owner. */
  ghost predicate Exposes(b: Bounds, windows: seq<Window>, owners: nat, owner: nat, ops: seq<Op>)
    requires Journal(b, windows).Ok? && WellFormed(Start(Journal(b, windows).value, owners)) && owner < owners
  {
    QuotesInOutage(b, windows, Run(Start(Journal(b, windows).value, owners), ops), owner)
  }

  /** Exactly: some run lets the owner quote inside one of its outages if and only if two of
      its input windows touch, one reconciling at the very instant the other one stops. */
  lemma ExposedExactlyIfTouching(b: Bounds, windows: seq<Window>, owners: nat, owner: nat)
    requires RecoveryJournal.Replayable(b)
    requires Journal(b, windows).Ok? && WellFormed(Start(Journal(b, windows).value, owners)) && owner < owners
    ensures (exists ops :: Exposes(b, windows, owners, owner, ops)) <==> Touching(b, windows, owner)
  {
    var start := Start(Journal(b, windows).value, owners);
    TouchingIsNotSeparated(b, windows, owner);
    if StrictlySeparated(b, Mine(b, windows, owner)) {
      forall ops ensures !Exposes(b, windows, owners, owner, ops) {
        NotExposedIfSeparated(b, windows, owners, owner, ops);
        QuotesIsExposed(b, windows, Run(start, ops), owner);
      }
    } else {
      var ops := ExposedIfTouching(b, windows, owners, owner);
      QuotesIsExposed(b, windows, Run(start, ops), owner);
      assert Exposes(b, windows, owners, owner, ops);
    }
  }
}
