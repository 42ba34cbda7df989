/** Sorting by a key, as the journal loader does it (stable, by a total preorder). */
module StableSort {

  ghost predicate TotalPreorder<T(!new)>(le: (T, T) -> bool) {
    && (forall x, y :: le(x, y) || le(y, x))
    && (forall x, y, z :: le(x, y) && le(y, z) ==> le(x, z))
  }

  ghost predicate Sorted<T(!new)>(le: (T, T) -> bool, xs: seq<T>) {
    forall i, j :: 0 <= i < j < |xs| ==> le(xs[i], xs[j])
  }

  function Insert<T>(le: (T, T) -> bool, x: T, xs: seq<T>): seq<T> {
    if xs == [] || le(x, xs[0]) then [x] + xs else [xs[0]] + Insert(le, x, xs[1..])
  }

  function Sort<T>(le: (T, T) -> bool, xs: seq<T>): seq<T> {
    if xs == [] then [] else Insert(le, xs[0], Sort(le, xs[1..]))
  }

  lemma {:induction false} InsertSorted<T(!new)>(le: (T, T) -> bool, x: T, xs: seq<T>)
    requires TotalPreorder(le) && Sorted(le, xs)
    ensures Sorted(le, Insert(le, x, xs))
    ensures multiset(Insert(le, x, xs)) == multiset(xs) + multiset{x}
  {
    if xs == [] {
    } else if le(x, xs[0]) {
    } else {
      assert xs == [xs[0]] + xs[1..];
      InsertSorted(le, x, xs[1..]);
      var rest := Insert(le, x, xs[1..]);
      forall j | 0 <= j < |rest| ensures le(xs[0], rest[j]) {
        assert rest[j] in multiset(rest);
        assert rest[j] == x || rest[j] in xs[1..];
      }
    }
  }

  lemma {:induction false} SortSorted<T(!new)>(le: (T, T) -> bool, xs: seq<T>)
    requires TotalPreorder(le)
    ensures Sorted(le, Sort(le, xs)) && multiset(Sort(le, xs)) == multiset(xs)
  {
    if xs != [] {
      assert xs == [xs[0]] + xs[1..];
      SortSorted(le, xs[1..]);
      InsertSorted(le, xs[0], Sort(le, xs[1..]));
    }
  }

  lemma SortedAppend<T(!new)>(le: (T, T) -> bool, xs: seq<T>, ys: seq<T>)
    requires TotalPreorder(le) && xs != [] && ys != []
    ensures Sorted(le, xs + ys) <==> Sorted(le, xs) && Sorted(le, ys) && le(xs[|xs| - 1], ys[0])
  {
    var all := xs + ys;
    assert forall i :: 0 <= i < |xs| ==> all[i] == xs[i];
    assert forall i :: 0 <= i < |ys| ==> all[|xs| + i] == ys[i];
    if Sorted(le, xs) && Sorted(le, ys) && le(xs[|xs| - 1], ys[0]) {
      forall i, j | 0 <= i < j < |all| ensures le(all[i], all[j]) {
        if i < |xs| <= j {
          assert le(xs[i], xs[|xs| - 1]) && le(ys[0], ys[j - |xs|]);
        }
      }
    }
  }

  /** Sorting leaves a sequence alone exactly when it was sorted. */
  lemma {:induction false} SortIdentity<T(!new)>(le: (T, T) -> bool, xs: seq<T>)
    requires TotalPreorder(le)
    ensures Sort(le, xs) == xs <==> Sorted(le, xs)
  {
    SortSorted(le, xs);
    if Sorted(le, xs) && xs != [] {
      SortIdentity(le, xs[1..]);
    }
  }
}

/** The warm-recovery protocol: an outage journal becomes a sorted edge list that drives
    each owner through offline, reconciling and catchup back to ready. */
module Recovery {
  import opened Common
  import opened StableSort

  const MAX_RECOVERY_WINDOWS: nat := 16384

  datatype Window = Window(instance: string, stopNs: nat, restartNs: nat, evidenceClass: string)

  datatype Action = Stop | Restart | ReconcileComplete

  datatype Edge = Edge(whenNs: nat, owner: nat, action: Action)

  datatype Error = WindowCapacity | UnknownOwner | StopNotBeforeRestart | NotObserved | Overlapping | Overflow

  datatype Result<+T> = Ok(value: T) | Err(error: Error)

  /** What the loader is given besides the parsed windows. */
  datatype Bounds = Bounds(owners: map<string, nat>, delayNs: nat, startNs: nat, endNs: nat)

  function Rank(action: Action): nat {
    match action
    case Stop => 0
    case Restart => 1
    case ReconcileComplete => 2
  }

  predicate WindowLe(a: Window, b: Window) {
    a.stopNs < b.stopNs || (a.stopNs == b.stopNs && a.restartNs <= b.restartNs)
  }

  predicate EdgeLe(a: Edge, b: Edge) {
    || a.whenNs < b.whenNs
    || (a.whenNs == b.whenNs && (a.owner < b.owner || (a.owner == b.owner && Rank(a.action) <= Rank(b.action))))
  }

  /** A window wholly outside the replayed interval contributes nothing. */
  predicate Skipped(b: Bounds, w: Window) {
    SatAdd(w.restartNs, b.delayNs) < b.startNs || w.stopNs > b.endNs
  }

  function ReconciledNs(b: Bounds, w: Window): nat {
    w.restartNs + b.delayNs
  }

  /** The three edges of one window, the first two clamped to the replay start. */
  function WindowEdges(b: Bounds, w: Window, owner: nat): seq<Edge> {
    [Edge(Max(w.stopNs, b.startNs), owner, Stop),
     Edge(Max(w.restartNs, b.startNs), owner, Restart),
     Edge(ReconciledNs(b, w), owner, ReconcileComplete)]
  }

  function Check(b: Bounds, w: Window, previousEnd: map<nat, nat>): Result<nat> {
    if w.instance !in b.owners then Err(UnknownOwner)
    else
      var owner := b.owners[w.instance];
      if w.stopNs >= w.restartNs then Err(StopNotBeforeRestart)
      else if w.evidenceClass != "observed_log_boundary" then Err(NotObserved)
      else if owner in previousEnd && previousEnd[owner] > w.stopNs then Err(Overlapping)
      else if ReconciledNs(b, w) > U64_MAX then Err(Overflow)
      else Ok(owner)
  }

  /** The edges of the sorted windows, in window order. */
  function Build(b: Bounds, windows: seq<Window>, previousEnd: map<nat, nat>): Result<seq<Edge>> {
    if windows == [] then Ok([])
    else if Skipped(b, windows[0]) then Build(b, windows[1..], previousEnd)
    else
      match Check(b, windows[0], previousEnd)
      case Err(e) => Err(e)
      case Ok(owner) =>
        match Build(b, windows[1..], previousEnd[owner := ReconciledNs(b, windows[0])])
        case Err(e) => Err(e)
        case Ok(rest) => Ok(WindowEdges(b, windows[0], owner) + rest)
  }

  function Journal(b: Bounds, windows: seq<Window>): Result<seq<Edge>> {
    if |windows| > MAX_RECOVERY_WINDOWS then Err(WindowCapacity)
    else
      match Build(b, Sort(WindowLe, windows), map[])
      case Err(e) => Err(e)
      case Ok(edges) => Ok(Sort(EdgeLe, edges))
  }

  /** `from_text_bounded` after parsing. */
  method Load(b: Bounds, windows: seq<Window>) returns (r: Result<seq<Edge>>)
    ensures r == Journal(b, windows)
  {
    if |windows| > MAX_RECOVERY_WINDOWS {
      return Err(WindowCapacity);
    }
    var sorted := Sort(WindowLe, windows);
    var previousEnd: map<nat, nat> := map[];
    var edges: seq<Edge> := [];
    var i := 0;
    assert sorted[0..] == sorted;
    assert Build(b, sorted, map[]).Ok? ==> [] + Build(b, sorted, map[]).value == Build(b, sorted, map[]).value;
    while i < |sorted|
      invariant 0 <= i <= |sorted|
      invariant Build(b, sorted, map[]) ==
                match Build(b, sorted[i..], previousEnd) {
                  case Err(e) => Err(e)
                  case Ok(rest) => Ok(edges + rest)
                }
    {
      var window := sorted[i];
      assert sorted[i..][1..] == sorted[i + 1..];
      if !Skipped(b, window) {
        var checked := Check(b, window, previousEnd);
        if checked.Err? {
          return Err(checked.error);
        }
        ghost var grown := edges + WindowEdges(b, window, checked.value);
        ghost var end := previousEnd[checked.value := ReconciledNs(b, window)];
        ghost var rest := Build(b, sorted[i + 1..], end);
        assert rest.Ok? ==> edges + (WindowEdges(b, window, checked.value) + rest.value) == grown + rest.value;
        previousEnd := previousEnd[checked.value := ReconciledNs(b, window)];
        edges := edges + WindowEdges(b, window, checked.value);
      }
      i := i + 1;
    }
    assert sorted[i..] == [] && edges + [] == edges;
    r := Ok(Sort(EdgeLe, edges));
  }

  // ------------------------------------------------------------ order of the edges

  function Project(edges: seq<Edge>, owner: nat): seq<Edge> {
    if edges == [] then []
    else if edges[0].owner == owner then [edges[0]] + Project(edges[1..], owner)
    else Project(edges[1..], owner)
  }

  /** The windows of one owner that fall in the replayed interval. */
  function OwnerWindows(b: Bounds, windows: seq<Window>, owner: nat): seq<Window> {
    if windows == [] then []
    else if !Skipped(b, windows[0]) && windows[0].instance in b.owners && b.owners[windows[0].instance] == owner
    then [windows[0]] + OwnerWindows(b, windows[1..], owner)
    else OwnerWindows(b, windows[1..], owner)
  }

  /** Stop, Restart, ReconcileComplete of each window in turn. */
  function Cycles(b: Bounds, windows: seq<Window>, owner: nat): seq<Edge> {
    if windows == [] then [] else WindowEdges(b, windows[0], owner) + Cycles(b, windows[1..], owner)
  }

  /** Every window ends strictly before the owner's next one stops. */
  predicate StrictlySeparated(b: Bounds, windows: seq<Window>) {
    |windows| < 2 || (ReconciledNs(b, windows[0]) < windows[1].stopNs && StrictlySeparated(b, windows[1..]))
  }

  /** No window stops before the owner's previous one ended: all that the loader checks. */
  predicate Chained(b: Bounds, windows: seq<Window>) {
    |windows| < 2 || (ReconciledNs(b, windows[0]) <= windows[1].stopNs && Chained(b, windows[1..]))
  }

  /** Windows that the loader keeps: stop before restart, not wholly before the start. */
  predicate InScope(b: Bounds, windows: seq<Window>) {
    forall i :: 0 <= i < |windows| ==>
      && windows[i].stopNs < windows[i].restartNs
      && b.startNs <= ReconciledNs(b, windows[i]) <= U64_MAX
  }

  lemma EdgeOrder()
    ensures TotalPreorder(EdgeLe)
  {
  }

  lemma {:induction false} ProjectAppend(xs: seq<Edge>, ys: seq<Edge>, owner: nat)
    ensures Project(xs + ys, owner) == Project(xs, owner) + Project(ys, owner)
  {
    if xs == [] {
      assert xs + ys == ys;
    } else {
      assert (xs + ys)[1..] == xs[1..] + ys;
      ProjectAppend(xs[1..], ys, owner);
    }
  }

  lemma {:induction false} ProjectMembers(xs: seq<Edge>, owner: nat)
    ensures forall e :: e in Project(xs, owner) ==> e in xs && e.owner == owner
  {
    if xs != [] {
      ProjectMembers(xs[1..], owner);
    }
  }

  /** Taking one owner's edges commutes with inserting into a sorted list. */
  lemma {:induction false} ProjectInsert(e: Edge, xs: seq<Edge>, owner: nat)
    requires Sorted(EdgeLe, xs)
    ensures Project(Insert(EdgeLe, e, xs), owner) ==
            if e.owner == owner then Insert(EdgeLe, e, Project(xs, owner)) else Project(xs, owner)
  {
    if xs == [] || EdgeLe(e, xs[0]) {
      assert ([e] + xs)[1..] == xs;
      ProjectMembers(xs, owner);
      var mine := Project(xs, owner);
      if mine != [] {
        assert mine[0] in xs;
        assert EdgeLe(e, mine[0]);
      }
    } else {
      ProjectInsert(e, xs[1..], owner);
      var rest := Insert(EdgeLe, e, xs[1..]);
      assert ([xs[0]] + rest)[1..] == rest;
      assert xs[0].owner == owner ==> ([xs[0]] + Project(xs[1..], owner))[1..] == Project(xs[1..], owner);
    }
  }

  lemma {:induction false} ProjectSort(xs: seq<Edge>, owner: nat)
    ensures Project(Sort(EdgeLe, xs), owner) == Sort(EdgeLe, Project(xs, owner))
  {
    EdgeOrder();
    if xs != [] {
      ProjectSort(xs[1..], owner);
      SortSorted(EdgeLe, xs[1..]);
      ProjectInsert(xs[0], Sort(EdgeLe, xs[1..]), owner);
      assert xs[0].owner == owner ==> ([xs[0]] + Project(xs[1..], owner))[1..] == Project(xs[1..], owner);
    }
  }

  lemma ProjectThree(three: seq<Edge>, owner: nat)
    requires |three| == 3 && three[0].owner == three[1].owner == three[2].owner
    ensures Project(three, owner) == if three[0].owner == owner then three else []
  {
    assert three == [three[0]] + ([three[1]] + [three[2]]);
    ProjectAppend([three[0]], [three[1]] + [three[2]], owner);
    ProjectAppend([three[1]], [three[2]], owner);
  }

  /** The loader lays down one owner's cycles in window order. */
  lemma {:induction false} BuildCycles(b: Bounds, windows: seq<Window>, previousEnd: map<nat, nat>, owner: nat)
    requires Build(b, windows, previousEnd).Ok?
    ensures Project(Build(b, windows, previousEnd).value, owner) == Cycles(b, OwnerWindows(b, windows, owner), owner)
  {
    if windows == [] {
    } else if Skipped(b, windows[0]) {
      BuildCycles(b, windows[1..], previousEnd, owner);
    } else {
      var who := Check(b, windows[0], previousEnd).value;
      var next := previousEnd[who := ReconciledNs(b, windows[0])];
      BuildCycles(b, windows[1..], next, owner);
      var three := WindowEdges(b, windows[0], who);
      ProjectAppend(three, Build(b, windows[1..], next).value, owner);
      ProjectThree(three, owner);
      var tail := OwnerWindows(b, windows[1..], owner);
      assert ([windows[0]] + tail)[1..] == tail;
      assert [] + Cycles(b, tail, owner) == Cycles(b, tail, owner);
    }
  }

  /** Each window it keeps starts no earlier than the end of the owner's previous one. */
  lemma {:induction false} BuildChained(b: Bounds, windows: seq<Window>, previousEnd: map<nat, nat>, owner: nat)
    requires Build(b, windows, previousEnd).Ok?
    ensures var mine := OwnerWindows(b, windows, owner);
            && InScope(b, mine) && Chained(b, mine)
            && (mine != [] && owner in previousEnd ==> previousEnd[owner] <= mine[0].stopNs)
  {
    if windows == [] {
    } else if Skipped(b, windows[0]) {
      BuildChained(b, windows[1..], previousEnd, owner);
    } else {
      var who := Check(b, windows[0], previousEnd).value;
      BuildChained(b, windows[1..], previousEnd[who := ReconciledNs(b, windows[0])], owner);
      var tail := OwnerWindows(b, windows[1..], owner);
      assert ([windows[0]] + tail)[1..] == tail;
    }
  }

  lemma {:induction false} CyclesSorted(b: Bounds, windows: seq<Window>, owner: nat)
    requires InScope(b, windows) && Chained(b, windows)
    ensures Sorted(EdgeLe, Cycles(b, windows, owner)) <==> StrictlySeparated(b, windows)
  {
    if windows != [] {
      var tail := windows[1..];
      var three := WindowEdges(b, windows[0], owner);
      CyclesSorted(b, tail, owner);
      assert Sorted(EdgeLe, three);
      if tail == [] {
        assert Cycles(b, windows, owner) == three;
      } else {
        EdgeOrder();
        SortedAppend(EdgeLe, three, Cycles(b, tail, owner));
      }
    }
  }

  /** The edges one owner sees are its windows' Stop, Restart, ReconcileComplete cycles in
      time order exactly when its windows are strictly separated. The loader also accepts
      windows that merely touch; for those, and only those, a Stop is sorted before the
      ReconcileComplete of the window it touches. */
  lemma EdgesCycleIffSeparated(b: Bounds, windows: seq<Window>, owner: nat)
    requires Journal(b, windows).Ok?
    ensures var mine := OwnerWindows(b, Sort(WindowLe, windows), owner);
            Project(Journal(b, windows).value, owner) == Cycles(b, mine, owner) <==> StrictlySeparated(b, mine)
  {
    var sorted := Sort(WindowLe, windows);
    var raw := Build(b, sorted, map[]).value;
    BuildCycles(b, sorted, map[], owner);
    BuildChained(b, sorted, map[], owner);
    CyclesSorted(b, OwnerWindows(b, sorted, owner), owner);
    ProjectSort(raw, owner);
    EdgeOrder();
    SortIdentity(EdgeLe, Project(raw, owner));
  }
}
