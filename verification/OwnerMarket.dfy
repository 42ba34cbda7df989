/** Coalescing in the market lane respects barriers, and what is delivered is what was taken. */
module OwnerMarket {
  import opened Common
  import opened VirtualOwner

  /** One enqueued market event, with the epoch it fell in. */
  datatype Arrival<+K, +T> = Arrival(receivedNs: nat, epoch: nat, key: Option<K>, payload: T)

  /** A delivered event as its completion shows it. */
  datatype Shown<+T> = Shown(receivedNs: nat, payload: T)

  /** Where a pending entry comes from: the n-th recovery metadata put at the front, or an arrival.
      `born` is the arrival that created the entry and fixed its place, `carries` the
      arrival whose payload it now holds. */
  datatype Mark = Prepended(n: nat) | Appended(born: nat, carries: nat)

  /** The arrivals and metadata so far, the origin of each pending entry, and the births of the
      entries taken into service, in order; the origins of those not thrown away there by an
      outage, and what was delivered; and how many arrivals the last fence (a barrier, metadata,
      a retirement or an outage) had before it. */
  datatype Track<+K, +T> = Track(
    log: seq<Arrival<K, T>>,
    metadata: seq<Shown<T>>,
    marks: seq<Mark>,
    taken: seq<nat>,
    served: seq<Mark>,
    shown: seq<Shown<T>>,
    fence: nat)

  function Blank<K, T>(): Track<K, T> {
    Track([], [], [], [], [], [], 0)
  }

  /** The positions that survive a retirement. */
  function Survivors<K, T>(market: seq<Pending<K, T>>, retire: T -> bool): (idx: seq<nat>)
    ensures |idx| == |Retained(market, retire)|
    ensures forall k :: 0 <= k < |idx| ==> idx[k] < |market| && Retained(market, retire)[k] == market[idx[k]]
    ensures forall j, k :: 0 <= j < k < |idx| ==> idx[j] < idx[k]
  {
    if market == [] then []
    else
      var last := |market| - 1;
      var kept := Survivors(market[..last], retire);
      if retire(market[last].payload) then kept else kept + [last]
  }

  predicate TakesMarket<K, T>(c: Config, o: Owner<K, T>, op: Op<K, T>) {
    op.Step? && ReadyFor(c, o) <= op.nowNs && o.running.None? && Choose(c, o, op.nowNs).TakeMarket?
  }

  function MarkAt(marks: seq<Mark>, i: nat): Mark {
    if i < |marks| then marks[i] else Prepended(0)
  }

  /** The callback in service is market work. */
  predicate MarketRunning<K, T>(o: Owner<K, T>) {
    o.running.Some? && IsMarket(o.running.value)
  }

  predicate IsMarket<T>(done: Completion<T>) {
    !done.privateLane && !done.historyLane && done.work.Event?
  }

  function ShownBy<T>(done: Completion<T>): Shown<T>
    requires done.work.Event?
  {
    Shown(done.receivedNs, done.work.payload)
  }

  /** The observer of deliveries sees completions and nothing else. */
  function Seen<K(==), T>(shown: seq<Shown<T>>, c: Config, o: Owner<K, T>, op: Op<K, T>): seq<Shown<T>> {
    match Apply(c, o, op)
    case Ok(after) =>
      if after.1.Some? && IsMarket(after.1.value) then shown + [ShownBy(after.1.value)] else shown
    case Overflow => shown
  }

  function Follow<K(==), T>(track: Track<K, T>, c: Config, o: Owner<K, T>, op: Op<K, T>): Track<K, T> {
    Moved(track, c, o, op).(shown := Seen(track.shown, c, o, op))
  }

  function Moved<K(==), T>(track: Track<K, T>, c: Config, o: Owner<K, T>, op: Op<K, T>): Track<K, T> {
    match op
    case Market(receivedNs, key, payload) =>
      var now := |track.log|;
      var at := if key.Some? then Replaceable(o.market, o.epoch, key.value) else None;
      var log := track.log + [Arrival(receivedNs, if key.Some? then o.epoch else o.epoch + 1, key, payload)];
      if at.Some? && MarkAt(track.marks, at.value).Appended? then
        track.(log := log, marks := track.marks[at.value := Appended(track.marks[at.value].born, now)])
      else track.(log := log, marks := track.marks + [Appended(now, now)],
                  fence := if key.Some? then track.fence else now)
    case Prepend(receivedNs, payload) =>
      track.(metadata := track.metadata + [Shown(receivedNs, payload)], fence := |track.log|,
             marks := [Prepended(|track.metadata|)] + track.marks)
    case Retire(retire) =>
      var idx := Survivors(o.market, retire);
      track.(marks := seq(|idx|, k requires 0 <= k < |idx| => MarkAt(track.marks, idx[k])), fence := |track.log|)
    case SuspendAt(_) =>
      track.(marks := [], fence := |track.log|,
             served := if MarketRunning(o) && track.served != [] then track.served[..|track.served| - 1]
                       else track.served)
    case Step(_) =>
      if !TakesMarket(c, o, op) || track.marks == [] then track
      else
        var taken := if track.marks[0].Appended? then [track.marks[0].born] else [];
        track.(marks := track.marks[1..], taken := track.taken + taken, served := track.served + [track.marks[0]])
    case _ => track
  }

  /** Epochs never go back, and a barrier's epoch is above that of everything before it. */
  predicate EpochsOrdered<K, T>(log: seq<Arrival<K, T>>, epoch: nat) {
    && (forall i :: 0 <= i < |log| ==> log[i].epoch <= epoch)
    && (forall i, j :: 0 <= i < j < |log| ==>
          log[i].epoch <= log[j].epoch && (log[j].key.None? ==> log[i].epoch < log[j].epoch))
  }

  /** A pending entry agrees with the arrivals behind it, and carries the last payload
      enqueued for its key in its epoch. */
  ghost predicate EntryOk<K, T>(c: Config, log: seq<Arrival<K, T>>, metadata: seq<Shown<T>>, p: Pending<K, T>,
                                mark: Mark)
  {
    match mark
    case Prepended(n) =>
      && p.key.None? && n < |metadata| && metadata[n] == Shown(p.receivedNs, p.payload)
      && p.readyNs == SatAdd(p.receivedNs, c.applyDelayNs)
    case Appended(born, carries) =>
      && born <= carries < |log|
      && p.readyNs == SatAdd(log[born].receivedNs, c.applyDelayNs) && log[carries].receivedNs == p.receivedNs
      && log[born].epoch == p.epoch && log[carries].epoch == p.epoch
      && log[born].key == p.key && log[carries].key == p.key
      && log[carries].payload == p.payload
      && (p.key.None? ==> born == carries)
      && forall d :: carries < d < |log| && log[d].epoch == p.epoch && p.key.Some? ==> log[d].key != p.key
  }

  /** Order in the lane: metadata first, then entries in order of birth, at most one per
      key and epoch. */
  ghost predicate LaneOrdered<K, T>(market: seq<Pending<K, T>>, marks: seq<Mark>)
    requires |marks| == |market|
  {
    forall i, j :: 0 <= i < j < |marks| && marks[i].Appended? ==>
      && marks[j].Appended? && marks[i].born < marks[j].born
      && (market[i].key.Some? && market[i].epoch == market[j].epoch ==> market[i].key != market[j].key)
  }

  predicate Increasing(xs: seq<nat>) {
    forall i, j :: 0 <= i < j < |xs| ==> xs[i] < xs[j]
  }

  ghost predicate Inv<K, T>(c: Config, track: Track<K, T>, o: Owner<K, T>) {
    && |track.marks| == |o.market|
    && EpochsOrdered(track.log, o.epoch)
    && (forall i :: 0 <= i < |o.market| ==> EntryOk(c, track.log, track.metadata, o.market[i], track.marks[i]))
    && LaneOrdered(o.market, track.marks)
    && Increasing(track.taken)
    && (forall i :: 0 <= i < |track.taken| ==> track.taken[i] < |track.log|)
    && (forall i, k :: 0 <= i < |track.taken| && 0 <= k < |track.marks| && track.marks[k].Appended? ==>
          track.taken[i] < track.marks[k].born)
  }

  // ------------------------------------------------------------------ coalescing

  /** Stopping at the barrier misses nothing: if no entry is replaceable, no pending
      entry has this key in the current epoch. */
  lemma {:induction false} NothingReplaceable<K, T>(c: Config, log: seq<Arrival<K, T>>, metadata: seq<Shown<T>>,
                                                    market: seq<Pending<K, T>>, marks: seq<Mark>, epoch: nat, key: K)
    requires |marks| == |market| && EpochsOrdered(log, epoch) && LaneOrdered(market, marks)
    requires forall i :: 0 <= i < |market| ==> EntryOk(c, log, metadata, market[i], marks[i])
    requires Replaceable(market, epoch, key).None?
    ensures forall i :: 0 <= i < |market| && market[i].epoch == epoch ==> market[i].key != Some(key)
  {
    if market != [] {
      var last := |market| - 1;
      if market[last].epoch == epoch {
        NothingReplaceable(c, log, metadata, market[..last], marks[..last], epoch, key);
        assert forall i :: 0 <= i < last ==> market[i] == market[..last][i];
      } else {
        forall i | 0 <= i < last && market[i].key == Some(key) ensures market[i].epoch != epoch {
          assert EntryOk(c, log, metadata, market[i], marks[i]);
          assert marks[i].Appended? && marks[last].Appended?;
          assert EntryOk(c, log, metadata, market[last], marks[last]);
        }
      }
    }
  }

  lemma FollowReplace<K, T>(track: Track<K, T>, c: Config, o: Owner<K, T>, receivedNs: nat, key: K, payload: T)
    requires Inv(c, track, o) && Replaceable(o.market, o.epoch, key).Some?
    ensures Inv(c, Follow(track, c, o, Market(receivedNs, Some(key), payload)),
                EnqueueMarket(c, o, receivedNs, Some(key), payload).value)
  {
    var at := Replaceable(o.market, o.epoch, key).value;
    assert EntryOk(c, track.log, track.metadata, o.market[at], track.marks[at]);
    var t := EnqueueMarket(c, o, receivedNs, Some(key), payload).value;
    var next := Follow(track, c, o, Market(receivedNs, Some(key), payload));
    forall i | 0 <= i < |t.market| ensures EntryOk(c, next.log, next.metadata, t.market[i], next.marks[i]) {
      assert EntryOk(c, track.log, track.metadata, o.market[i], track.marks[i]);
      if i != at && o.market[i].epoch == o.epoch {
        assert i < at ==> o.market[i].key != Some(key);
        assert at < i ==> o.market[i].key != Some(key);
      }
    }
  }

  lemma AppendEntries<K, T>(track: Track<K, T>, c: Config, o: Owner<K, T>, receivedNs: nat, key: Option<K>, payload: T)
    requires Inv(c, track, o) && (key.Some? ==> Replaceable(o.market, o.epoch, key.value).None?)
    requires EnqueueMarket(c, o, receivedNs, key, payload).Ok?
    ensures var t := EnqueueMarket(c, o, receivedNs, key, payload).value;
            var next := Follow(track, c, o, Market(receivedNs, key, payload));
            && |next.marks| == |t.market|
            && forall i :: 0 <= i < |t.market| ==> EntryOk(c, next.log, next.metadata, t.market[i], next.marks[i])
  {
    if key.Some? { NothingReplaceable(c, track.log, track.metadata, o.market, track.marks, o.epoch, key.value); }
    var t := EnqueueMarket(c, o, receivedNs, key, payload).value;
    var next := Follow(track, c, o, Market(receivedNs, key, payload));
    forall i | 0 <= i < |t.market| ensures EntryOk(c, next.log, next.metadata, t.market[i], next.marks[i]) {
      if i < |o.market| { assert EntryOk(c, track.log, track.metadata, o.market[i], track.marks[i]); }
    }
  }

  lemma AppendOrder<K, T>(track: Track<K, T>, c: Config, o: Owner<K, T>, receivedNs: nat, key: Option<K>, payload: T)
    requires Inv(c, track, o) && (key.Some? ==> Replaceable(o.market, o.epoch, key.value).None?)
    requires EnqueueMarket(c, o, receivedNs, key, payload).Ok?
    ensures var t := EnqueueMarket(c, o, receivedNs, key, payload).value;
            var next := Follow(track, c, o, Market(receivedNs, key, payload));
            |next.marks| == |t.market| && LaneOrdered(t.market, next.marks)
  {
    if key.Some? { NothingReplaceable(c, track.log, track.metadata, o.market, track.marks, o.epoch, key.value); }
    var t := EnqueueMarket(c, o, receivedNs, key, payload).value;
    var next := Follow(track, c, o, Market(receivedNs, key, payload));
    forall i, j | 0 <= i < j < |next.marks| && next.marks[i].Appended?
      ensures next.marks[j].Appended? && next.marks[i].born < next.marks[j].born
      ensures t.market[i].key.Some? && t.market[i].epoch == t.market[j].epoch ==> t.market[i].key != t.market[j].key
    {
      assert EntryOk(c, track.log, track.metadata, o.market[i], track.marks[i]);
    }
  }

  lemma FollowAppend<K, T>(track: Track<K, T>, c: Config, o: Owner<K, T>, receivedNs: nat, key: Option<K>, payload: T)
    requires Inv(c, track, o) && (key.Some? ==> Replaceable(o.market, o.epoch, key.value).None?)
    requires EnqueueMarket(c, o, receivedNs, key, payload).Ok?
    ensures Inv(c, Follow(track, c, o, Market(receivedNs, key, payload)),
                EnqueueMarket(c, o, receivedNs, key, payload).value)
  {
    AppendEntries(track, c, o, receivedNs, key, payload);
    AppendOrder(track, c, o, receivedNs, key, payload);
  }

  lemma FollowRetire<K, T>(track: Track<K, T>, c: Config, o: Owner<K, T>, retire: T -> bool)
    requires Inv(c, track, o)
    ensures Inv(c, Follow(track, c, o, Retire(retire)), RetireMarket(o, retire))
  {
    var idx := Survivors(o.market, retire);
    var next := Follow(track, c, o, Retire(retire));
    var t := RetireMarket(o, retire);
    assert forall k :: 0 <= k < |idx| ==> next.marks[k] == track.marks[idx[k]] && t.market[k] == o.market[idx[k]];
  }

  lemma FollowPrepend<K, T>(track: Track<K, T>, c: Config, o: Owner<K, T>, receivedNs: nat, payload: T)
    requires Inv(c, track, o) && PrependMarket(c, o, receivedNs, payload).Ok?
    ensures Inv(c, Follow(track, c, o, Prepend(receivedNs, payload)), PrependMarket(c, o, receivedNs, payload).value)
  {
    var t := PrependMarket(c, o, receivedNs, payload).value;
    var next := Follow(track, c, o, Prepend(receivedNs, payload));
    assert forall i :: 0 < i < |t.market| ==> t.market[i] == o.market[i - 1] && next.marks[i] == track.marks[i - 1];
  }

  lemma FollowTake<K, T>(track: Track<K, T>, c: Config, o: Owner<K, T>, op: Op<K, T>)
    requires Inv(c, track, o) && TakesMarket(c, o, op)
    ensures Inv(c, Follow(track, c, o, op), Serve(c, o, op.nowNs).0)
  {
    var t := Serve(c, o, op.nowNs).0;
    assert t.market == o.market[1..] && t.epoch == o.epoch;
    assert EntryOk(c, track.log, track.metadata, o.market[0], track.marks[0]);
  }

  lemma FollowKeepsInv<K, T>(track: Track<K, T>, c: Config, o: Owner<K, T>, op: Op<K, T>)
    requires Inv(c, track, o) && Apply(c, o, op).Ok?
    ensures Inv(c, Follow(track, c, o, op), Apply(c, o, op).value.0)
  {
    match op
    case Market(receivedNs, key, payload) =>
      if key.Some? && Replaceable(o.market, o.epoch, key.value).Some? {
        FollowReplace(track, c, o, receivedNs, key.value, payload);
      } else {
        FollowAppend(track, c, o, receivedNs, key, payload);
      }
    case Prepend(receivedNs, payload) => FollowPrepend(track, c, o, receivedNs, payload);
    case Retire(retire) => FollowRetire(track, c, o, retire);
    case Step(_) => if TakesMarket(c, o, op) { FollowTake(track, c, o, op); }
    case _ =>
  }

  function Run<K(==), T>(track: Track<K, T>, c: Config, o: Owner<K, T>, ops: seq<Op<K, T>>)
    : Outcome<(Owner<K, T>, Track<K, T>)>
    decreases |ops|
  {
    if ops == [] then Ok((o, track))
    else
      match Apply(c, o, ops[0])
      case Overflow => Overflow
      case Ok(after) => Run(Follow(track, c, o, ops[0]), c, after.0, ops[1..])
  }

  lemma {:induction false} RunKeepsInv<K, T>(track: Track<K, T>, c: Config, o: Owner<K, T>, ops: seq<Op<K, T>>)
    requires Inv(c, track, o) && Run(track, c, o, ops).Ok?
    ensures var (end, seen) := Run(track, c, o, ops).value; Inv(c, seen, end)
    decreases |ops|
  {
    if ops != [] {
      FollowKeepsInv(track, c, o, ops[0]);
      RunKeepsInv(Follow(track, c, o, ops[0]), c, Apply(c, o, ops[0]).value.0, ops[1..]);
    }
  }

  /** After every run without overflow, at most one pending market entry exists per epoch
      and key, and it carries the last payload enqueued for that key in that epoch. */
  lemma OneEntryPerKeyAndEpoch<K, T>(c: Config, ops: seq<Op<K, T>>)
    requires Run(Blank<K, T>(), c, New<K, T>(c), ops).Ok?
    ensures var (o, track) := Run(Blank<K, T>(), c, New<K, T>(c), ops).value;
            && (forall i, j :: 0 <= i < j < |o.market| && o.market[i].key.Some? ==>
                  o.market[i].key != o.market[j].key || o.market[i].epoch != o.market[j].epoch)
            && |track.marks| == |o.market|
            && (forall i :: 0 <= i < |o.market| && o.market[i].key.Some? ==>
                  && track.marks[i].Appended? && track.marks[i].carries < |track.log|
                  && track.log[track.marks[i].carries] ==
                      Arrival(o.market[i].receivedNs, o.market[i].epoch, o.market[i].key, o.market[i].payload)
                  && (forall d :: track.marks[i].carries < d < |track.log| ==>
                        track.log[d].key != o.market[i].key || track.log[d].epoch != o.market[i].epoch))
  {
    RunKeepsInv(Blank<K, T>(), c, New<K, T>(c), ops);
    var (o, track) := Run(Blank<K, T>(), c, New<K, T>(c), ops).value;
    forall i | 0 <= i < |o.market| && o.market[i].key.Some? ensures track.marks[i].Appended? {
      assert EntryOk(c, track.log, track.metadata, o.market[i], track.marks[i]);
    }
  }

  /** Entries leave in order of birth, so appended unkeyed events leave in arrival order;
      and when a keyed payload reaches the front, every barrier received before that
      payload has already left the lane. */
  lemma BarriersLeaveFirst<K, T>(c: Config, ops: seq<Op<K, T>>)
    requires Run(Blank<K, T>(), c, New<K, T>(c), ops).Ok?
    ensures var (o, track) := Run(Blank<K, T>(), c, New<K, T>(c), ops).value;
            && Increasing(track.taken)
            && |track.marks| == |o.market|
            && (forall i, k :: 0 <= i < |track.taken| && 0 <= k < |track.marks| && track.marks[k].Appended? ==>
                  track.taken[i] < track.marks[k].born)
            && (o.market != [] && track.marks[0].Appended? ==>
                  forall k :: 0 < k < |o.market| && o.market[k].key.None? ==>
                    track.marks[k].Appended? && track.marks[0].carries < track.marks[k].born)
  {
    RunKeepsInv(Blank<K, T>(), c, New<K, T>(c), ops);
    var (o, track) := Run(Blank<K, T>(), c, New<K, T>(c), ops).value;
    if o.market != [] && track.marks[0].Appended? {
      forall k | 0 < k < |o.market| && o.market[k].key.None?
        ensures track.marks[k].Appended? && track.marks[0].carries < track.marks[k].born
      {
        assert EntryOk(c, track.log, track.metadata, o.market[0], track.marks[0]);
        assert EntryOk(c, track.log, track.metadata, o.market[k], track.marks[k]);
      }
    }
  }
}
