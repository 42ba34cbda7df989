/** What an owner delivers is what waited at the head of its lanes: an observer that sees only
    completions finds the market events in order of birth, each with the payload last received
    for it, and of the history jobs always the latest. */
module OwnerDelivery {
  import opened Common
  import opened VirtualOwner
  import opened OwnerMarket

  // ------------------------------------------------------------------ market deliveries

  /** What the entry with this origin holds. */
  function Content<K, T>(track: Track<K, T>, mark: Mark): Option<Shown<T>> {
    match mark
    case Prepended(n) => if n < |track.metadata| then Some(track.metadata[n]) else None
    case Appended(_, carries) =>
      if carries < |track.log| then Some(Shown(track.log[carries].receivedNs, track.log[carries].payload)) else None
  }

  function InService<K, T>(o: Owner<K, T>): seq<Shown<T>> {
    if MarketRunning(o) then [ShownBy(o.running.value)] else []
  }

  /** `late` does not overtake `early`: it is younger, and if it is a barrier then nothing received
      after it is carried by `early`. */
  predicate Ordered<K, T>(log: seq<Arrival<K, T>>, early: Mark, late: Mark) {
    early.Appended? && late.Appended? ==>
      && early.born < late.born < |log|
      && (log[late.born].key.None? ==> early.carries < late.born)
  }

  /** Delivered, then in service: exactly what the entries taken held, in the order taken. */
  ghost predicate Delivered<K, T>(track: Track<K, T>, o: Owner<K, T>) {
    var all := track.shown + InService(o);
    && |all| == |track.served|
    && forall i :: 0 <= i < |all| ==> Content(track, track.served[i]) == Some(all[i])
  }

  ghost predicate InOrder<K, T>(track: Track<K, T>) {
    && (forall i, j :: 0 <= i < j < |track.served| ==> Ordered(track.log, track.served[i], track.served[j]))
    && (forall i, k :: 0 <= i < |track.served| && 0 <= k < |track.marks| ==>
          Ordered(track.log, track.served[i], track.marks[k]))
    && (forall i :: 0 <= i < |track.served| && track.served[i].Appended? ==>
          track.served[i].born <= track.served[i].carries < |track.log|)
  }

  /** The entries that wait are in that order too. */
  lemma LaneInOrder<K, T>(c: Config, track: Track<K, T>, o: Owner<K, T>, i: nat, k: nat)
    requires Inv(c, track, o) && i < k < |track.marks|
    ensures Ordered(track.log, track.marks[i], track.marks[k])
  {
    assert EntryOk(c, track.log, track.metadata, o.market[i], track.marks[i]);
    assert EntryOk(c, track.log, track.metadata, o.market[k], track.marks[k]);
  }

  lemma ContentStays<K, T>(track: Track<K, T>, next: Track<K, T>, mark: Mark)
    requires track.log <= next.log && track.metadata <= next.metadata && Content(track, mark).Some?
    ensures Content(next, mark) == Content(track, mark)
  {}

  /** Growing the logs changes nothing that was said. */
  lemma GrownKeeps<K, T>(track: Track<K, T>, next: Track<K, T>, o: Owner<K, T>, after: Owner<K, T>)
    requires Delivered(track, o) && InOrder(track)
    requires track.log <= next.log && track.metadata <= next.metadata
    requires next.served == track.served && next.shown + InService(after) == track.shown + InService(o)
    requires forall k :: 0 <= k < |next.marks| ==>
               || next.marks[k] in track.marks || next.marks[k].Prepended?
               || (exists m :: m in track.marks && m.Appended? && next.marks[k].Appended?
                               && m.born == next.marks[k].born)
               || next.marks[k] == Appended(|track.log|, |track.log|)
    requires forall k :: 0 <= k < |next.marks| && next.marks[k].Appended? ==> next.marks[k].born < |next.log|
    ensures Delivered(next, after) && InOrder(next)
  {
    forall i | 0 <= i < |next.served| ensures Content(next, next.served[i]) == Content(track, track.served[i]) {
      ContentStays(track, next, track.served[i]);
    }
    forall i, k | 0 <= i < |next.served| && 0 <= k < |next.marks|
      ensures Ordered(next.log, next.served[i], next.marks[k])
    {
      var late := next.marks[k];
      if late in track.marks {
        var j :| 0 <= j < |track.marks| && track.marks[j] == late;
        assert Ordered(track.log, track.served[i], track.marks[j]);
      } else if m :| m in track.marks && m.Appended? && late.Appended? && m.born == late.born {
        var j :| 0 <= j < |track.marks| && track.marks[j] == m;
        assert Ordered(track.log, track.served[i], track.marks[j]);
      }
    }
  }

  lemma TakeShows<K, T>(track: Track<K, T>, c: Config, o: Owner<K, T>, op: Op<K, T>)
    requires TakesMarket(c, o, op) && |track.marks| == |o.market| && o.market != []
    ensures var next, after := Follow(track, c, o, op), Apply(c, o, op).value.0;
            && next.shown + InService(after) ==
               track.shown + InService(o) + [Shown(o.market[0].receivedNs, o.market[0].payload)]
            && next.served == track.served + [track.marks[0]] && next.marks == track.marks[1..]
            && next.log == track.log && next.metadata == track.metadata
  {
    assert InService(o) == [];
  }

  lemma TakeKeeps<K, T>(track: Track<K, T>, c: Config, o: Owner<K, T>, op: Op<K, T>)
    requires Inv(c, track, o) && Delivered(track, o) && InOrder(track) && TakesMarket(c, o, op)
    ensures Delivered(Follow(track, c, o, op), Apply(c, o, op).value.0) && InOrder(Follow(track, c, o, op))
  {
    var next, after := Follow(track, c, o, op), Apply(c, o, op).value.0;
    TakeShows(track, c, o, op);
    assert EntryOk(c, track.log, track.metadata, o.market[0], track.marks[0]);
    assert Content(next, track.marks[0]) == Some(Shown(o.market[0].receivedNs, o.market[0].payload));
    var n := |track.served|;
    forall i | 0 <= i < n
      ensures next.served[i] == track.served[i]
              && Content(next, next.served[i]) == Content(track, track.served[i]) {}
    forall k | 0 < k < |track.marks| ensures Ordered(track.log, track.marks[0], track.marks[k]) {
      LaneInOrder(c, track, o, 0, k);
    }
    forall i, j | 0 <= i < j < |next.served| ensures Ordered(next.log, next.served[i], next.served[j]) {
      if j == n { assert Ordered(track.log, track.served[i], track.marks[0]); }
    }
    forall i, k | 0 <= i < |next.served| && 0 <= k < |next.marks|
      ensures Ordered(next.log, next.served[i], next.marks[k])
    {
      assert next.marks[k] == track.marks[k + 1];
      if i < n { assert Ordered(track.log, track.served[i], track.marks[k + 1]); }
    }
  }

  lemma OtherStepKeeps<K, T>(track: Track<K, T>, c: Config, o: Owner<K, T>, op: Op<K, T>)
    requires Inv(c, track, o) && Delivered(track, o) && InOrder(track) && op.Step? && !TakesMarket(c, o, op)
    ensures Delivered(Follow(track, c, o, op), Apply(c, o, op).value.0) && InOrder(Follow(track, c, o, op))
  {
    var next, after := Follow(track, c, o, op), Apply(c, o, op).value.0;
    assert next.shown + InService(after) == track.shown + InService(o);
    GrownKeeps(track, next, o, after);
  }

  lemma MarketKeeps<K, T>(track: Track<K, T>, c: Config, o: Owner<K, T>, op: Op<K, T>)
    requires Inv(c, track, o) && Delivered(track, o) && InOrder(track) && op.Market? && Apply(c, o, op).Ok?
    ensures Delivered(Follow(track, c, o, op), Apply(c, o, op).value.0) && InOrder(Follow(track, c, o, op))
  {
    var next, after := Follow(track, c, o, op), Apply(c, o, op).value.0;
    assert InService(after) == InService(o);
    var at := if op.key.Some? then Replaceable(o.market, o.epoch, op.key.value) else None;
    if at.Some? {
      assert EntryOk(c, track.log, track.metadata, o.market[at.value], track.marks[at.value]);
      forall k | 0 <= k < |next.marks|
        ensures next.marks[k] in track.marks
                || (exists m :: m in track.marks && m.Appended? && next.marks[k].Appended?
                               && m.born == next.marks[k].born)
      {
        if k == at.value { assert track.marks[k] in track.marks; } else { assert next.marks[k] == track.marks[k]; }
      }
    }
    forall k | 0 <= k < |track.marks| ensures track.marks[k].Appended? ==> track.marks[k].born < |track.log| {
      assert EntryOk(c, track.log, track.metadata, o.market[k], track.marks[k]);
    }
    GrownKeeps(track, next, o, after);
  }

  lemma QuietKeeps<K, T>(track: Track<K, T>, c: Config, o: Owner<K, T>, op: Op<K, T>)
    requires Inv(c, track, o) && Delivered(track, o) && InOrder(track) && Apply(c, o, op).Ok?
    requires op.Prepend? || op.Retire? || op.Private? || op.History? || op.RebaseAt? || op.ResumeAt?
    ensures Delivered(Follow(track, c, o, op), Apply(c, o, op).value.0) && InOrder(Follow(track, c, o, op))
  {
    var next, after := Follow(track, c, o, op), Apply(c, o, op).value.0;
    assert InService(after) == InService(o);
    forall k | 0 <= k < |track.marks| ensures track.marks[k].Appended? ==> track.marks[k].born < |track.log| {
      assert EntryOk(c, track.log, track.metadata, o.market[k], track.marks[k]);
    }
    if op.Retire? {
      var idx := Survivors(o.market, op.retire);
      forall k | 0 <= k < |next.marks| ensures next.marks[k] in track.marks {
        assert next.marks[k] == track.marks[idx[k]];
      }
    }
    GrownKeeps(track, next, o, after);
  }

  /** An outage throws away the market callback in service: it is neither delivered nor served. */
  lemma SuspendKeeps<K, T>(track: Track<K, T>, c: Config, o: Owner<K, T>, op: Op<K, T>)
    requires Inv(c, track, o) && Delivered(track, o) && InOrder(track) && op.SuspendAt? && Apply(c, o, op).Ok?
    ensures Delivered(Follow(track, c, o, op), Apply(c, o, op).value.0) && InOrder(Follow(track, c, o, op))
  {
    var next, after := Follow(track, c, o, op), Apply(c, o, op).value.0;
    assert InService(after) == [] && next.marks == [];
    assert next.shown == track.shown;
    assert |next.served| == |next.shown|;
    forall i | 0 <= i < |next.served|
      ensures next.served[i] == track.served[i] && Content(next, next.served[i]) == Some(next.shown[i])
    {
      assert (track.shown + InService(o))[i] == track.shown[i];
    }
  }

  lemma FollowKeeps<K, T>(track: Track<K, T>, c: Config, o: Owner<K, T>, op: Op<K, T>)
    requires Inv(c, track, o) && Delivered(track, o) && InOrder(track) && Apply(c, o, op).Ok?
    ensures Delivered(Follow(track, c, o, op), Apply(c, o, op).value.0) && InOrder(Follow(track, c, o, op))
  {
    match op
    case Market(_, _, _) => MarketKeeps(track, c, o, op);
    case SuspendAt(_) => SuspendKeeps(track, c, o, op);
    case Step(_) => if TakesMarket(c, o, op) { TakeKeeps(track, c, o, op); } else { OtherStepKeeps(track, c, o, op); }
    case _ => QuietKeeps(track, c, o, op);
  }

  lemma {:induction false} RunKeeps<K, T>(track: Track<K, T>, c: Config, o: Owner<K, T>, ops: seq<Op<K, T>>)
    requires Inv(c, track, o) && Delivered(track, o) && InOrder(track) && Run(track, c, o, ops).Ok?
    ensures var (end, seen) := Run(track, c, o, ops).value; Delivered(seen, end) && InOrder(seen)
    decreases |ops|
  {
    if ops != [] {
      FollowKeepsInv(track, c, o, ops[0]);
      FollowKeeps(track, c, o, ops[0]);
      RunKeeps(Follow(track, c, o, ops[0]), c, Apply(c, o, ops[0]).value.0, ops[1..]);
    }
  }

  /** In every run without overflow, the market events delivered, and then the one in service, are
      what the entries taken from the lane held: each the last payload received for its entry, in
      order of birth, and nothing received after a barrier is delivered before it. */
  lemma MarketDeliveries<K, T>(c: Config, ops: seq<Op<K, T>>)
    requires Run(Blank<K, T>(), c, New<K, T>(c), ops).Ok?
    ensures var (o, track) := Run(Blank<K, T>(), c, New<K, T>(c), ops).value;
            var all := track.shown + InService(o);
            && |all| == |track.served|
            && (forall i :: 0 <= i < |all| ==> Content(track, track.served[i]) == Some(all[i]))
            && (forall i, j :: 0 <= i < j < |track.served| ==> Ordered(track.log, track.served[i], track.served[j]))
  {
    RunKeeps(Blank<K, T>(), c, New<K, T>(c), ops);
  }

  // ------------------------------------------------------------------ fences

  /** What was received before the last fence lies in an older epoch, and no entry from before it
      carries anything received since. */
  ghost predicate Fenced<K, T>(track: Track<K, T>, o: Owner<K, T>) {
    && track.fence <= |track.log|
    && (forall i :: 0 <= i < track.fence ==> track.log[i].epoch < o.epoch)
    && (forall k :: 0 <= k < |track.marks| && track.marks[k].Appended? && track.marks[k].born < track.fence ==>
          track.marks[k].carries < track.fence)
  }

  lemma CarriesLogged<K, T>(c: Config, track: Track<K, T>, o: Owner<K, T>)
    requires Inv(c, track, o)
    ensures forall k :: 0 <= k < |track.marks| && track.marks[k].Appended? ==>
              track.marks[k].carries < |track.log| && track.marks[k].born < |track.log|
  {
    forall k | 0 <= k < |track.marks| && track.marks[k].Appended?
      ensures track.marks[k].carries < |track.log| && track.marks[k].born < |track.log|
    {
      assert EntryOk(c, track.log, track.metadata, o.market[k], track.marks[k]);
    }
  }

  lemma MarketFenced<K, T>(track: Track<K, T>, c: Config, o: Owner<K, T>, op: Op<K, T>)
    requires Inv(c, track, o) && Fenced(track, o) && Apply(c, o, op).Ok? && op.Market?
    ensures Fenced(Follow(track, c, o, op), Apply(c, o, op).value.0)
  {
    CarriesLogged(c, track, o);
    var at := if op.key.Some? then Replaceable(o.market, o.epoch, op.key.value) else None;
    if at.Some? {
      assert EntryOk(c, track.log, track.metadata, o.market[at.value], track.marks[at.value]);
      assert track.marks[at.value].born >= track.fence;
    }
  }

  lemma RetireFenced<K, T>(track: Track<K, T>, c: Config, o: Owner<K, T>, op: Op<K, T>)
    requires Inv(c, track, o) && Fenced(track, o) && op.Retire?
    ensures Fenced(Follow(track, c, o, op), Apply(c, o, op).value.0)
  {
    CarriesLogged(c, track, o);
    var idx := Survivors(o.market, op.retire);
    assert forall k :: 0 <= k < |idx| ==> Follow(track, c, o, op).marks[k] == track.marks[idx[k]];
  }

  lemma StepFenced<K, T>(track: Track<K, T>, c: Config, o: Owner<K, T>, op: Op<K, T>)
    requires Fenced(track, o) && op.Step?
    ensures Fenced(Follow(track, c, o, op), Apply(c, o, op).value.0)
  {
    var next, after := Follow(track, c, o, op), Apply(c, o, op).value.0;
    assert after.epoch == o.epoch && next.log == track.log && next.fence == track.fence;
    assert next.marks == track.marks || (track.marks != [] && next.marks == track.marks[1..]);
  }

  lemma FenceKeeps<K, T>(track: Track<K, T>, c: Config, o: Owner<K, T>, op: Op<K, T>)
    requires Inv(c, track, o) && Fenced(track, o) && Apply(c, o, op).Ok?
    ensures Fenced(Follow(track, c, o, op), Apply(c, o, op).value.0)
  {
    match op
    case Market(_, _, _) => MarketFenced(track, c, o, op);
    case Retire(_) => RetireFenced(track, c, o, op);
    case Prepend(_, _) => CarriesLogged(c, track, o);
    case Step(_) => StepFenced(track, c, o, op);
    case _ =>
  }

  lemma {:induction false} RunFenced<K, T>(track: Track<K, T>, c: Config, o: Owner<K, T>, ops: seq<Op<K, T>>)
    requires Inv(c, track, o) && Fenced(track, o) && Run(track, c, o, ops).Ok?
    ensures var (end, seen) := Run(track, c, o, ops).value; Fenced(seen, end)
    decreases |ops|
  {
    if ops != [] {
      FollowKeepsInv(track, c, o, ops[0]);
      FenceKeeps(track, c, o, ops[0]);
      RunFenced(Follow(track, c, o, ops[0]), c, Apply(c, o, ops[0]).value.0, ops[1..]);
    }
  }

  /** Nothing received since the last barrier, metadata, retirement or outage has replaced what
      was received before it. */
  lemma FencesHold<K, T>(c: Config, ops: seq<Op<K, T>>)
    requires Run(Blank<K, T>(), c, New<K, T>(c), ops).Ok?
    ensures var (o, track) := Run(Blank<K, T>(), c, New<K, T>(c), ops).value;
            && track.fence <= |track.log|
            && forall k :: 0 <= k < |track.marks| && track.marks[k].Appended? && track.marks[k].born < track.fence ==>
                 track.marks[k].carries < track.fence
  {
    RunFenced(Blank<K, T>(), c, New<K, T>(c), ops);
  }

  // ------------------------------------------------------------------ history deliveries

  /** The jobs scheduled, which of them is in service, and which were delivered, with what the
      completions showed. */
  datatype Jobs<+T> = Jobs(scheduled: seq<T>, serving: nat, order: seq<nat>, shown: seq<T>)

  predicate HistoryRunning<K, T>(o: Owner<K, T>) {
    o.running.Some? && o.running.value.historyLane
  }

  predicate TakesHistory<K, T>(c: Config, o: Owner<K, T>, op: Op<K, T>) {
    op.Step? && ReadyFor(c, o) <= op.nowNs && o.running.None? && Choose(c, o, op.nowNs).TakeHistory?
  }

  function Note<K(==), T>(jobs: Jobs<T>, c: Config, o: Owner<K, T>, op: Op<K, T>): Jobs<T> {
    var latest := if jobs.scheduled == [] then 0 else |jobs.scheduled| - 1;
    var begun := if TakesHistory(c, o, op) then jobs.(serving := latest) else jobs;
    if op.History? then jobs.(scheduled := jobs.scheduled + [op.payload])
    else
      match Apply(c, o, op)
      case Overflow => begun
      case Ok(after) =>
        if after.1.Some? && after.1.value.historyLane && after.1.value.work.Event?
        then begun.(order := begun.order + [begun.serving], shown := begun.shown + [after.1.value.work.payload])
        else begun
  }

  /** What was delivered: jobs below `bound`, each once, in order, with its own payload. */
  ghost predicate Showed<T>(jobs: Jobs<T>, bound: nat) {
    && |jobs.order| == |jobs.shown| && bound <= |jobs.scheduled|
    && (forall i :: 0 <= i < |jobs.order| ==> jobs.order[i] < bound && jobs.shown[i] == jobs.scheduled[jobs.order[i]])
    && (forall i, j :: 0 <= i < j < |jobs.order| ==> jobs.order[i] < jobs.order[j])
  }

  /** The latest job, if it is not waiting and not in service, was the last one delivered. */
  predicate LastShown<T>(jobs: Jobs<T>) {
    jobs.scheduled == [] || (jobs.order != [] && jobs.order[|jobs.order| - 1] == |jobs.scheduled| - 1)
  }

  ghost predicate Latest<K, T>(jobs: Jobs<T>, o: Owner<K, T>) {
    var n := |jobs.scheduled|;
    && (o.history.Some? ==> n > 0 && o.history.value.payload == jobs.scheduled[n - 1])
    && (if HistoryRunning(o)
        then
          && jobs.serving < n && o.running.value.work == Event(jobs.scheduled[jobs.serving])
          && !o.running.value.privateLane && Showed(jobs, jobs.serving)
          && (if o.history.Some? then jobs.serving < n - 1 else jobs.serving == n - 1)
        else
          Showed(jobs, if o.history.Some? then n - 1 else n) && (o.history.None? ==> LastShown(jobs)))
  }

  lemma ShowedMore<T>(jobs: Jobs<T>, next: Jobs<T>, bound: nat, wider: nat)
    requires Showed(jobs, bound) && next.order == jobs.order && next.shown == jobs.shown
    requires jobs.scheduled <= next.scheduled && bound <= wider <= |next.scheduled|
    ensures Showed(next, wider)
  {}

  lemma ShowedAnother<T>(jobs: Jobs<T>, next: Jobs<T>)
    requires jobs.serving < |jobs.scheduled| && Showed(jobs, jobs.serving) && next.scheduled == jobs.scheduled
    requires next.order == jobs.order + [jobs.serving] && next.shown == jobs.shown + [jobs.scheduled[jobs.serving]]
    ensures Showed(next, jobs.serving + 1)
  {}

  lemma FinishKeeps<K, T>(jobs: Jobs<T>, c: Config, o: Owner<K, T>, op: Op<K, T>)
    requires Latest(jobs, o) && op.Step? && o.running.Some?
    ensures Latest(Note(jobs, c, o, op), Apply(c, o, op).value.0)
  {
    if ReadyFor(c, o) <= op.nowNs && HistoryRunning(o) {
      var next := Note(jobs, c, o, op);
      ShowedAnother(jobs, next);
      var n := |jobs.scheduled|;
      ShowedMore(next, next, jobs.serving + 1, if o.history.Some? then n - 1 else n);
    }
  }

  lemma TakenLatest<K, T>(jobs: Jobs<T>, c: Config, o: Owner<K, T>, op: Op<K, T>)
    requires Latest(jobs, o) && TakesHistory(c, o, op)
    ensures Latest(Note(jobs, c, o, op), Apply(c, o, op).value.0)
  {
    var begun := jobs.(serving := |jobs.scheduled| - 1);
    ShowedMore(jobs, begun, begun.serving, begun.serving);
    if c.serviceTimeNs == 0 { ShowedAnother(begun, Note(jobs, c, o, op)); }
  }

  lemma StartKeeps<K, T>(jobs: Jobs<T>, c: Config, o: Owner<K, T>, op: Op<K, T>)
    requires Latest(jobs, o) && op.Step? && o.running.None?
    ensures Latest(Note(jobs, c, o, op), Apply(c, o, op).value.0)
  {
    if TakesHistory(c, o, op) {
      TakenLatest(jobs, c, o, op);
    } else {
      var after := Apply(c, o, op).value;
      assert after.0.history == o.history && !HistoryRunning(after.0) && Note(jobs, c, o, op) == jobs;
    }
  }

  lemma SuspendLatest<K, T>(jobs: Jobs<T>, c: Config, o: Owner<K, T>, op: Op<K, T>)
    requires Latest(jobs, o) && op.SuspendAt? && Apply(c, o, op).Ok?
    ensures Latest(Note(jobs, c, o, op), Apply(c, o, op).value.0)
  {
    if HistoryRunning(o) {
      ShowedMore(jobs, jobs, jobs.serving, |jobs.scheduled| - 1);
    }
  }

  lemma ScheduleKeeps<K, T>(jobs: Jobs<T>, c: Config, o: Owner<K, T>, op: Op<K, T>)
    requires Latest(jobs, o) && op.History?
    ensures Latest(Note(jobs, c, o, op), Apply(c, o, op).value.0)
  {
    var next := Note(jobs, c, o, op);
    var bound := if HistoryRunning(o) then jobs.serving else if o.history.Some? then |jobs.scheduled| - 1
                 else |jobs.scheduled|;
    ShowedMore(jobs, next, bound, if HistoryRunning(o) then jobs.serving else |jobs.scheduled|);
  }

  lemma ElseKeeps<K, T>(jobs: Jobs<T>, c: Config, o: Owner<K, T>, op: Op<K, T>)
    requires Latest(jobs, o) && Apply(c, o, op).Ok? && !op.Step? && !op.SuspendAt? && !op.History?
    ensures Latest(Note(jobs, c, o, op), Apply(c, o, op).value.0)
  {
    var after := Apply(c, o, op).value;
    assert after.0.history == o.history && after.0.running == o.running && after.1.None?;
  }

  lemma NoteKeeps<K, T>(jobs: Jobs<T>, c: Config, o: Owner<K, T>, op: Op<K, T>)
    requires Latest(jobs, o) && Apply(c, o, op).Ok?
    ensures Latest(Note(jobs, c, o, op), Apply(c, o, op).value.0)
  {
    match op
    case Step(_) => if o.running.Some? { FinishKeeps(jobs, c, o, op); } else { StartKeeps(jobs, c, o, op); }
    case SuspendAt(_) => SuspendLatest(jobs, c, o, op);
    case History(_, _) => ScheduleKeeps(jobs, c, o, op);
    case _ => ElseKeeps(jobs, c, o, op);
  }

  function RunJobs<K(==), T>(jobs: Jobs<T>, c: Config, o: Owner<K, T>, ops: seq<Op<K, T>>)
    : Outcome<(Owner<K, T>, Jobs<T>)>
    decreases |ops|
  {
    if ops == [] then Ok((o, jobs))
    else
      match Apply(c, o, ops[0])
      case Overflow => Overflow
      case Ok(after) => RunJobs(Note(jobs, c, o, ops[0]), c, after.0, ops[1..])
  }

  lemma {:induction false} RunLatest<K, T>(jobs: Jobs<T>, c: Config, o: Owner<K, T>, ops: seq<Op<K, T>>)
    requires Latest(jobs, o) && RunJobs(jobs, c, o, ops).Ok?
    ensures var (end, seen) := RunJobs(jobs, c, o, ops).value; Latest(seen, end)
    decreases |ops|
  {
    if ops != [] {
      NoteKeeps(jobs, c, o, ops[0]);
      RunLatest(Note(jobs, c, o, ops[0]), c, Apply(c, o, ops[0]).value.0, ops[1..]);
    }
  }

  /** Of the history jobs, in every run without overflow: each is delivered at most once and in
      order of scheduling, with its own payload; what waits is the latest; and the latest is
      waiting, in service or the last one delivered, through outages too. */
  lemma HistoryDeliveries<K, T>(c: Config, ops: seq<Op<K, T>>)
    requires RunJobs(Jobs([], 0, [], []), c, New<K, T>(c), ops).Ok?
    ensures var (o, jobs) := RunJobs(Jobs([], 0, [], []), c, New<K, T>(c), ops).value;
            var n := |jobs.scheduled|;
            && |jobs.order| == |jobs.shown|
            && (forall i :: 0 <= i < |jobs.order| ==>
                  jobs.order[i] < n && jobs.shown[i] == jobs.scheduled[jobs.order[i]])
            && (forall i, j :: 0 <= i < j < |jobs.order| ==> jobs.order[i] < jobs.order[j])
            && (o.history.Some? ==> n > 0 && o.history.value.payload == jobs.scheduled[n - 1])
            && (|| n == 0 || o.history.Some? || LastShown(jobs)
                || (HistoryRunning(o) && o.running.value.work == Event(jobs.scheduled[n - 1])))
  {
    RunLatest(Jobs([], 0, [], []), c, New<K, T>(c), ops);
    var (o, jobs) := RunJobs(Jobs([], 0, [], []), c, New<K, T>(c), ops).value;
    assert Latest(jobs, o);
  }
}
