/** What a journal holds, and which journals are accepted, told from the windows it was given. */
module RecoveryJournal {
  import opened Common
  import opened StableSort
  import opened Recovery

  /** The replay starts at a u64 instant. */
  predicate Replayable(b: Bounds) {
    b.startNs <= U64_MAX
  }

  /** The window, up to its reconciliation, lies wholly before or wholly after the replay. */
  predicate Outside(b: Bounds, w: Window) {
    w.restartNs + b.delayNs < b.startNs || b.endNs < w.stopNs
  }

  predicate WellFormed(b: Bounds, w: Window) {
    && w.instance in b.owners && w.stopNs < w.restartNs && w.restartNs + b.delayNs <= U64_MAX
    && w.evidenceClass == "observed_log_boundary"
  }

  predicate InOutage(b: Bounds, w: Window, t: nat) {
    w.stopNs <= t <= w.restartNs + b.delayNs
  }

  /** An outage is not outside exactly when it has an instant in common with the replay. */
  lemma InsideMeets(b: Bounds, w: Window)
    requires b.startNs <= b.endNs && w.stopNs < w.restartNs
    ensures !Outside(b, w) <==> exists t: nat :: InOutage(b, w, t) && b.startNs <= t <= b.endNs
  {
    if !Outside(b, w) { assert InOutage(b, w, Max(w.stopNs, b.startNs)); }
  }

  lemma SkippedIsOutside(b: Bounds, w: Window)
    requires Replayable(b)
    ensures Skipped(b, w) <==> Outside(b, w)
  {}

  // ------------------------------------------------------------------ the edges

  /** What one window contributes: an outage that is not outside the replay is stopped, restarted and
      reconciled for its owner, the first two no earlier than the replay starts. */
  ghost function Share(b: Bounds, w: Window): multiset<Edge> {
    if !Outside(b, w) && w.instance in b.owners
    then
      var owner := b.owners[w.instance];
      multiset{StopOf(b, w, owner), RestartOf(b, w, owner), Edge(w.restartNs + b.delayNs, owner, ReconcileComplete)}
    else multiset{}
  }

  function StopOf(b: Bounds, w: Window, owner: nat): Edge {
    Edge(if w.stopNs < b.startNs then b.startNs else w.stopNs, owner, Stop)
  }

  function RestartOf(b: Bounds, w: Window, owner: nat): Edge {
    Edge(if w.restartNs < b.startNs then b.startNs else w.restartNs, owner, Restart)
  }

  ghost function Shares(b: Bounds, windows: seq<Window>): multiset<Edge> {
    if windows == [] then multiset{} else Share(b, windows[0]) + Shares(b, windows[1..])
  }

  lemma {:induction false} SharesInsert(b: Bounds, w: Window, windows: seq<Window>)
    ensures Shares(b, Insert(WindowLe, w, windows)) == Share(b, w) + Shares(b, windows)
  {
    if windows == [] || WindowLe(w, windows[0]) {
      assert ([w] + windows)[1..] == windows;
    } else {
      SharesInsert(b, w, windows[1..]);
      var rest := Insert(WindowLe, w, windows[1..]);
      assert ([windows[0]] + rest)[1..] == rest;
    }
  }

  lemma {:induction false} SharesSort(b: Bounds, windows: seq<Window>)
    ensures Shares(b, Sort(WindowLe, windows)) == Shares(b, windows)
  {
    if windows != [] {
      SharesSort(b, windows[1..]);
      SharesInsert(b, windows[0], Sort(WindowLe, windows[1..]));
    }
  }

  lemma ShareIs(b: Bounds, w: Window, previousEnd: map<nat, nat>)
    requires Replayable(b)
    ensures Skipped(b, w) ==> Share(b, w) == multiset{}
    ensures !Skipped(b, w) && Check(b, w, previousEnd).Ok? ==>
              multiset(WindowEdges(b, w, Check(b, w, previousEnd).value)) == Share(b, w)
  {
    SkippedIsOutside(b, w);
  }

  lemma {:induction false} BuildShares(b: Bounds, windows: seq<Window>, previousEnd: map<nat, nat>)
    requires Replayable(b) && Build(b, windows, previousEnd).Ok?
    ensures multiset(Build(b, windows, previousEnd).value) == Shares(b, windows)
  {
    if windows != [] {
      ShareIs(b, windows[0], previousEnd);
      if Skipped(b, windows[0]) {
        BuildShares(b, windows[1..], previousEnd);
      } else {
        var owner := Check(b, windows[0], previousEnd).value;
        var next := previousEnd[owner := ReconciledNs(b, windows[0])];
        BuildShares(b, windows[1..], next);
        assert multiset(WindowEdges(b, windows[0], owner) + Build(b, windows[1..], next).value)
            == multiset(WindowEdges(b, windows[0], owner)) + multiset(Build(b, windows[1..], next).value);
      }
    }
  }

  /** By time, then owner, then Stop before Restart before ReconcileComplete. */
  predicate InOrder(x: Edge, y: Edge) {
    || x.whenNs < y.whenNs
    || (x.whenNs == y.whenNs && x.owner < y.owner)
    || (x.whenNs == y.whenNs && x.owner == y.owner
        && (x.action == Stop || y.action == ReconcileComplete || x.action == y.action))
  }

  lemma JournalOrder(b: Bounds, windows: seq<Window>)
    requires Journal(b, windows).Ok?
    ensures var edges := Journal(b, windows).value;
            forall i, j | 0 <= i < j < |edges| :: InOrder(edges[i], edges[j])
  {
    var raw := Build(b, Sort(WindowLe, windows), map[]).value;
    EdgeOrder();
    SortSorted(EdgeLe, raw);
    var edges := Sort(EdgeLe, raw);
    forall i, j | 0 <= i < j < |edges| ensures InOrder(edges[i], edges[j]) {
      assert EdgeLe(edges[i], edges[j]);
    }
  }

  /** An accepted journal is, edge for edge, what its windows contribute, in order. */
  lemma JournalIsItsWindows(b: Bounds, windows: seq<Window>)
    requires Replayable(b) && Journal(b, windows).Ok?
    ensures multiset(Journal(b, windows).value) == Shares(b, windows)
    ensures var edges := Journal(b, windows).value;
            forall i, j | 0 <= i < j < |edges| :: InOrder(edges[i], edges[j])
  {
    var raw := Build(b, Sort(WindowLe, windows), map[]).value;
    BuildShares(b, Sort(WindowLe, windows), map[]);
    SharesSort(b, windows);
    EdgeOrder();
    SortSorted(EdgeLe, raw);
    JournalOrder(b, windows);
  }

  // ------------------------------------------------------------------ acceptance

  predicate SameOwner(b: Bounds, x: Window, y: Window) {
    x.instance in b.owners && y.instance in b.owners && b.owners[x.instance] == b.owners[y.instance]
  }

  /** Two outages of one owner do not overlap; they may touch. */
  predicate Apart(b: Bounds, x: Window, y: Window) {
    || Outside(b, x) || Outside(b, y) || !SameOwner(b, x, y)
    || x.restartNs + b.delayNs <= y.stopNs || y.restartNs + b.delayNs <= x.stopNs
  }

  predicate ApartFrom(b: Bounds, w: Window, windows: seq<Window>) {
    forall i :: 0 <= i < |windows| ==> Apart(b, w, windows[i])
  }

  predicate AllApart(b: Bounds, windows: seq<Window>) {
    windows == [] || (ApartFrom(b, windows[0], windows[1..]) && AllApart(b, windows[1..]))
  }

  lemma {:induction false} AllApartMeans(b: Bounds, windows: seq<Window>)
    ensures AllApart(b, windows) <==> forall i, j :: 0 <= i < j < |windows| ==> Apart(b, windows[i], windows[j])
  {
    if windows != [] {
      AllApartMeans(b, windows[1..]);
      var rest := windows[1..];
      if AllApart(b, windows) {
        forall i, j | 0 <= i < j < |windows| ensures Apart(b, windows[i], windows[j]) {
          if i == 0 { assert rest[j - 1] == windows[j]; } else { assert Apart(b, rest[i - 1], rest[j - 1]); }
        }
      } else if !ApartFrom(b, windows[0], rest) {
        var j :| 0 <= j < |rest| && !Apart(b, windows[0], rest[j]);
        assert !Apart(b, windows[0], windows[j + 1]);
      } else {
        var i, j :| 0 <= i < j < |rest| && !Apart(b, rest[i], rest[j]);
        assert !Apart(b, windows[i + 1], windows[j + 1]);
      }
    }
  }

  lemma {:induction false} ApartFromInsert(b: Bounds, x: Window, w: Window, windows: seq<Window>)
    ensures ApartFrom(b, x, Insert(WindowLe, w, windows)) <==> Apart(b, x, w) && ApartFrom(b, x, windows)
  {
    if windows == [] || WindowLe(w, windows[0]) {
      ApartFromCons(b, x, w, windows);
    } else {
      ApartFromInsert(b, x, w, windows[1..]);
      ApartFromCons(b, x, windows[0], Insert(WindowLe, w, windows[1..]));
      ApartFromCons(b, x, windows[0], windows[1..]);
      assert windows == [windows[0]] + windows[1..];
    }
  }

  lemma ApartFromCons(b: Bounds, x: Window, w: Window, windows: seq<Window>)
    ensures ApartFrom(b, x, [w] + windows) <==> Apart(b, x, w) && ApartFrom(b, x, windows)
  {
    var all := [w] + windows;
    assert all[0] == w;
    forall i | 0 <= i < |windows| ensures windows[i] == all[i + 1] {}
    if Apart(b, x, w) && ApartFrom(b, x, windows) {
      forall i | 0 <= i < |all| ensures Apart(b, x, all[i]) {
        if i > 0 { assert Apart(b, x, windows[i - 1]); }
      }
    }
    if ApartFrom(b, x, all) {
      forall i | 0 <= i < |windows| ensures Apart(b, x, windows[i]) { assert Apart(b, x, all[i + 1]); }
    }
  }

  lemma {:induction false} AllApartInsert(b: Bounds, w: Window, windows: seq<Window>)
    ensures AllApart(b, Insert(WindowLe, w, windows)) <==> ApartFrom(b, w, windows) && AllApart(b, windows)
  {
    if windows == [] || WindowLe(w, windows[0]) {
      assert ([w] + windows)[1..] == windows;
    } else {
      var rest := Insert(WindowLe, w, windows[1..]);
      assert ([windows[0]] + rest)[1..] == rest;
      AllApartInsert(b, w, windows[1..]);
      ApartFromInsert(b, windows[0], w, windows[1..]);
      ApartFromCons(b, w, windows[0], windows[1..]);
      assert windows == [windows[0]] + windows[1..];
    }
  }

  lemma {:induction false} AllApartSort(b: Bounds, windows: seq<Window>)
    ensures AllApart(b, Sort(WindowLe, windows)) <==> AllApart(b, windows)
  {
    if windows != [] {
      var rest := windows[1..];
      AllApartSort(b, rest);
      AllApartInsert(b, windows[0], Sort(WindowLe, rest));
      ApartFromSort(b, windows[0], rest);
    }
  }

  lemma {:induction false} ApartFromSort(b: Bounds, x: Window, windows: seq<Window>)
    ensures ApartFrom(b, x, Sort(WindowLe, windows)) <==> ApartFrom(b, x, windows)
  {
    if windows != [] {
      ApartFromSort(b, x, windows[1..]);
      ApartFromInsert(b, x, windows[0], Sort(WindowLe, windows[1..]));
      ApartFromCons(b, x, windows[0], windows[1..]);
      assert windows == [windows[0]] + windows[1..];
    }
  }

  /** Every window that is not outside the replay is well-formed. */
  predicate AllFine(b: Bounds, windows: seq<Window>) {
    forall i :: 0 <= i < |windows| ==> Outside(b, windows[i]) || WellFormed(b, windows[i])
  }

  /** In order of their stops, outages that do not overlap follow each other. */
  predicate Follows(b: Bounds, w: Window, windows: seq<Window>) {
    forall i :: 0 <= i < |windows| ==>
      Outside(b, w) || Outside(b, windows[i]) || !SameOwner(b, w, windows[i]) || ReconciledNs(b, w) <= windows[i].stopNs
  }

  predicate After(b: Bounds, previousEnd: map<nat, nat>, windows: seq<Window>) {
    forall i :: 0 <= i < |windows| ==> Succeeds(b, previousEnd, windows[i])
  }

  lemma SortedFollows(b: Bounds, w: Window, windows: seq<Window>)
    requires AllFine(b, windows) && (Outside(b, w) || WellFormed(b, w))
    requires forall i :: 0 <= i < |windows| ==> WindowLe(w, windows[i])
    ensures ApartFrom(b, w, windows) <==> Follows(b, w, windows)
  {
    if ApartFrom(b, w, windows) {
      forall i | 0 <= i < |windows|
        ensures Outside(b, w) || Outside(b, windows[i]) || !SameOwner(b, w, windows[i])
                || ReconciledNs(b, w) <= windows[i].stopNs
      {
        assert Apart(b, w, windows[i]) && WindowLe(w, windows[i]);
      }
    }
  }

  /** The window comes after its owner's last one. */
  predicate Succeeds(b: Bounds, previousEnd: map<nat, nat>, w: Window) {
    !Outside(b, w) && w.instance in b.owners && b.owners[w.instance] in previousEnd ==>
      previousEnd[b.owners[w.instance]] <= w.stopNs
  }

  /** The first window comes after its owner's last, and the others after it. */
  lemma AfterCons(b: Bounds, previousEnd: map<nat, nat>, w: Window, windows: seq<Window>)
    requires !Outside(b, w) && WellFormed(b, w)
    ensures After(b, previousEnd, [w] + windows) && Follows(b, w, windows) <==>
            Succeeds(b, previousEnd, w) && After(b, previousEnd[b.owners[w.instance] := ReconciledNs(b, w)], windows)
  {
    var all, next := [w] + windows, previousEnd[b.owners[w.instance] := ReconciledNs(b, w)];
    assert forall i :: 0 <= i < |windows| ==> windows[i] == all[i + 1];
    if After(b, previousEnd, all) && Follows(b, w, windows) {
      assert all[0] == w;
    }
    if Succeeds(b, previousEnd, w) && After(b, next, windows) {
      forall i | 0 <= i < |all| ensures Succeeds(b, previousEnd, all[i]) {
        if i > 0 { assert Succeeds(b, next, windows[i - 1]); }
      }
    }
  }

  lemma {:induction false} BuildAccepts(b: Bounds, windows: seq<Window>, previousEnd: map<nat, nat>)
    requires Replayable(b) && Sorted(WindowLe, windows)
    ensures Build(b, windows, previousEnd).Ok? <==>
            AllFine(b, windows) && AllApart(b, windows) && After(b, previousEnd, windows)
  {
    if windows != [] {
      var w, rest := windows[0], windows[1..];
      assert windows == [w] + rest;
      SkippedIsOutside(b, w);
      assert AllFine(b, windows) <==> (Outside(b, w) || WellFormed(b, w)) && AllFine(b, rest) by {
        assert forall i :: 0 <= i < |rest| ==> rest[i] == windows[i + 1];
      }
      if Outside(b, w) {
        BuildAccepts(b, rest, previousEnd);
        assert After(b, previousEnd, windows) <==> After(b, previousEnd, rest) by {
          assert forall i :: 0 <= i < |rest| ==> rest[i] == windows[i + 1];
        }
      } else if WellFormed(b, w) {
        var owner := b.owners[w.instance];
        BuildAccepts(b, rest, previousEnd[owner := ReconciledNs(b, w)]);
        AfterCons(b, previousEnd, w, rest);
        if AllFine(b, rest) { SortedFollows(b, w, rest); }
      }
    }
  }

  lemma AllFineSort(b: Bounds, windows: seq<Window>)
    ensures AllFine(b, Sort(WindowLe, windows)) <==> AllFine(b, windows)
  {
    var sorted := Sort(WindowLe, windows);
    assert TotalPreorder(WindowLe);
    SortSorted(WindowLe, windows);
    assert forall w :: w in sorted <==> w in multiset(sorted);
    assert forall w :: w in windows <==> w in multiset(windows);
    assert AllFine(b, sorted) <==> forall w :: w in sorted ==> Outside(b, w) || WellFormed(b, w);
    assert AllFine(b, windows) <==> forall w :: w in windows ==> Outside(b, w) || WellFormed(b, w);
  }

  /** Exactly which journals are accepted: few enough windows, each outside the replay or
      well-formed, and no two outages of one owner overlapping. */
  lemma AcceptedExactly(b: Bounds, windows: seq<Window>)
    requires Replayable(b)
    ensures Journal(b, windows).Ok? <==>
              && |windows| <= MAX_RECOVERY_WINDOWS
              && (forall i :: 0 <= i < |windows| ==> Outside(b, windows[i]) || WellFormed(b, windows[i]))
              && (forall i, j :: 0 <= i < j < |windows| ==> Apart(b, windows[i], windows[j]))
  {
    var sorted := Sort(WindowLe, windows);
    assert TotalPreorder(WindowLe);
    SortSorted(WindowLe, windows);
    BuildAccepts(b, sorted, map[]);
    AllFineSort(b, windows);
    AllApartSort(b, windows);
    AllApartMeans(b, windows);
  }

  // ------------------------------------------------------------------ rejection

  /** What the loader says is wrong with a journal is wrong with it. */
  predicate Faulty(b: Bounds, windows: seq<Window>, e: Error) {
    match e
    case WindowCapacity => |windows| > MAX_RECOVERY_WINDOWS
    case UnknownOwner => exists w :: w in windows && !Outside(b, w) && w.instance !in b.owners
    case StopNotBeforeRestart => exists w :: w in windows && !Outside(b, w) && w.restartNs <= w.stopNs
    case NotObserved => exists w :: w in windows && !Outside(b, w) && w.evidenceClass != "observed_log_boundary"
    case Overflow => exists w :: w in windows && !Outside(b, w) && w.restartNs + b.delayNs > U64_MAX
    case Overlapping =>
      exists x, y :: x in windows && y in windows && !Outside(b, x) && !Outside(b, y) && SameOwner(b, x, y)
                     && y.stopNs < x.restartNs + b.delayNs
  }

  /** Every end on record is that of a window already seen. */
  ghost predicate Recorded(b: Bounds, seen: seq<Window>, previousEnd: map<nat, nat>) {
    forall owner :: owner in previousEnd ==>
      exists w :: w in seen && !Outside(b, w) && w.instance in b.owners && b.owners[w.instance] == owner
                  && w.restartNs + b.delayNs == previousEnd[owner]
  }

  lemma CheckHasCause(b: Bounds, all: seq<Window>, w: Window, previousEnd: map<nat, nat>)
    requires w in all && !Outside(b, w) && Recorded(b, all, previousEnd) && Check(b, w, previousEnd).Err?
    ensures Faulty(b, all, Check(b, w, previousEnd).error)
  {
    if Check(b, w, previousEnd) == Err(Overlapping) {
      var owner := b.owners[w.instance];
      var x :| x in all && !Outside(b, x) && x.instance in b.owners && b.owners[x.instance] == owner
               && x.restartNs + b.delayNs == previousEnd[owner];
      assert SameOwner(b, x, w);
    }
  }

  lemma {:induction false} BuildHasCause(b: Bounds, all: seq<Window>, windows: seq<Window>, previousEnd: map<nat, nat>)
    requires Replayable(b) && (forall w :: w in windows ==> w in all) && Recorded(b, all, previousEnd)
    requires Build(b, windows, previousEnd).Err?
    ensures Faulty(b, all, Build(b, windows, previousEnd).error)
    decreases |windows|
  {
    var w := windows[0];
    SkippedIsOutside(b, w);
    if Skipped(b, w) {
      BuildHasCause(b, all, windows[1..], previousEnd);
    } else if Check(b, w, previousEnd).Err? {
      CheckHasCause(b, all, w, previousEnd);
    } else {
      var next := previousEnd[b.owners[w.instance] := ReconciledNs(b, w)];
      assert Recorded(b, all, next);
      BuildHasCause(b, all, windows[1..], next);
    }
  }

  lemma RejectionHasCause(b: Bounds, windows: seq<Window>)
    requires Replayable(b) && Journal(b, windows).Err?
    ensures Faulty(b, windows, Journal(b, windows).error)
  {
    if |windows| <= MAX_RECOVERY_WINDOWS {
      var sorted := Sort(WindowLe, windows);
      assert TotalPreorder(WindowLe);
      SortSorted(WindowLe, windows);
      forall w | w in sorted ensures w in windows { assert w in multiset(sorted) && w in multiset(windows); }
      BuildHasCause(b, windows, sorted, map[]);
    }
  }
}
