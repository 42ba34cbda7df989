/** The private lane is a lossless FIFO across outages. */
module OwnerPrivate {
  import opened Common
  import opened VirtualOwner

  /** What has been accepted for an owner and what has been applied, by identity: a
      recovery rebase may restamp a queued payload but not change what it is. */
  datatype Ledger<+I> = Ledger(accepted: seq<I>, applied: seq<I>)

  function Identities<K, T, I>(queue: seq<Pending<K, T>>, id: T -> I): (ids: seq<I>)
    ensures |ids| == |queue|
  {
    seq(|queue|, i requires 0 <= i < |queue| => id(queue[i].payload))
  }

  function InService<K, T, I>(o: Owner<K, T>, id: T -> I): seq<I> {
    if o.running.Some? && o.running.value.privateLane && o.running.value.work.Event?
    then [id(o.running.value.work.payload)] else []
  }

  function Record<K(==), T, I>(ledger: Ledger<I>, c: Config, o: Owner<K, T>, op: Op<K, T>, id: T -> I): Ledger<I> {
    if op.Private? then ledger.(accepted := ledger.accepted + [id(op.payload)])
    else if op.Step? && ReadyFor(c, o) <= op.nowNs then
      var done := Serve(c, o, op.nowNs).1;
      if done.Some? && done.value.privateLane && done.value.work.Event?
      then ledger.(applied := ledger.applied + [id(done.value.work.payload)])
      else ledger
    else ledger
  }

  /** Applied, then in service, then queued: exactly what was accepted, in order. */
  ghost predicate Balanced<K, T, I>(ledger: Ledger<I>, o: Owner<K, T>, id: T -> I) {
    && (o.running.Some? && o.running.value.privateLane ==> o.running.value.work.Event?)
    && ledger.applied + InService(o, id) + Identities(o.private, id) == ledger.accepted
  }

  /** A recovery rebase keeps the identity of every payload it restamps. */
  ghost predicate KeepsIdentity<K, T(!new), I>(op: Op<K, T>, id: T -> I) {
    op.RebaseAt? ==> forall x :: id(op.update(x, op.nowNs)) == id(x)
  }

  lemma {:induction false} RebasedIdentities<K, T(!new), I>(c: Config, queue: seq<Pending<K, T>>, nowNs: nat,
                                                            update: (T, nat) -> T, id: T -> I)
    requires forall x :: id(update(x, nowNs)) == id(x)
    ensures Identities(Rebased(c, queue, nowNs, update), id) == Identities(queue, id)
  {
    if queue != [] {
      RebasedIdentities(c, queue[1..], nowNs, update, id);
      var rest := Rebased(c, queue[1..], nowNs, update);
      assert forall i :: 0 <= i < |rest| ==> Identities(rest, id)[i] == id(rest[i].payload);
      assert forall i :: 0 < i < |queue| ==> queue[i] == queue[1..][i - 1];
      assert forall i :: 0 < i < |queue| ==> Identities(queue[1..], id)[i - 1] == id(queue[i].payload);
    }
  }

  lemma ServeBalanced<K, T(!new), I>(ledger: Ledger<I>, c: Config, o: Owner<K, T>, nowNs: nat, id: T -> I)
    requires Balanced(ledger, o, id) && ReadyFor(c, o) <= nowNs
    ensures Balanced(Record(ledger, c, o, Step(nowNs), id), Serve(c, o, nowNs).0, id)
  {
    if o.running.None? && Choose(c, o, nowNs).TakePrivate? {
      var t := Serve(c, o, nowNs).0;
      assert Identities(o.private, id) == [id(o.private[0].payload)] + Identities(t.private, id);
    }
  }

  lemma SuspendBalanced<K, T(!new), I>(ledger: Ledger<I>, c: Config, o: Owner<K, T>, nowNs: nat, id: T -> I)
    requires Balanced(ledger, o, id) && Suspend(c, o, nowNs).Ok?
    ensures Balanced(ledger, Suspend(c, o, nowNs).value, id)
  {
    var t := Suspend(c, o, nowNs).value;
    assert InService(t, id) == [];
    assert Identities(t.private, id) == InService(o, id) + Identities(o.private, id);
  }

  lemma ApplyBalanced<K, T(!new), I>(ledger: Ledger<I>, c: Config, o: Owner<K, T>, op: Op<K, T>, id: T -> I)
    requires Balanced(ledger, o, id) && KeepsIdentity(op, id) && Apply(c, o, op).Ok?
    ensures Balanced(Record(ledger, c, o, op, id), Apply(c, o, op).value.0, id)
  {
    match op
    case Private(receivedNs, payload) =>
      assert Identities(Apply(c, o, op).value.0.private, id) == Identities(o.private, id) + [id(payload)];
    case SuspendAt(nowNs) => SuspendBalanced(ledger, c, o, nowNs, id);
    case RebaseAt(nowNs, update) => RebasedIdentities(c, o.private, nowNs, update, id);
    case Step(nowNs) => if ReadyFor(c, o) <= nowNs { ServeBalanced(ledger, c, o, nowNs, id); }
    case _ =>
  }

  /** An owner and its ledger after a sequence of operations; `Overflow` if any failed. */
  function Run<K(==), T, I>(ledger: Ledger<I>, c: Config, o: Owner<K, T>, ops: seq<Op<K, T>>, id: T -> I)
    : Outcome<(Owner<K, T>, Ledger<I>)>
    decreases |ops|
  {
    if ops == [] then Ok((o, ledger))
    else
      match Apply(c, o, ops[0])
      case Overflow => Overflow
      case Ok(after) => Run(Record(ledger, c, o, ops[0], id), c, after.0, ops[1..], id)
  }

  lemma {:induction false} RunBalanced<K, T(!new), I>(ledger: Ledger<I>, c: Config, o: Owner<K, T>,
                                                      ops: seq<Op<K, T>>, id: T -> I)
    requires Balanced(ledger, o, id) && forall i :: 0 <= i < |ops| ==> KeepsIdentity(ops[i], id)
    requires Run(ledger, c, o, ops, id).Ok?
    ensures var (end, book) := Run(ledger, c, o, ops, id).value; Balanced(book, end, id)
    decreases |ops|
  {
    if ops != [] {
      ApplyBalanced(ledger, c, o, ops[0], id);
      RunBalanced(Record(ledger, c, o, ops[0], id), c, Apply(c, o, ops[0]).value.0, ops[1..], id);
    }
  }

  /** Lossless FIFO: after every run without overflow, through any number of suspensions,
      rebases and resumptions, the private messages applied, the one in service and those
      queued are, in that order, exactly the messages accepted; and the lane reports
      itself drained exactly when everything accepted has been applied. */
  lemma PrivateLosslessFifo<K, T(!new), I>(c: Config, ops: seq<Op<K, T>>, id: T -> I)
    requires forall i :: 0 <= i < |ops| ==> KeepsIdentity(ops[i], id)
    requires Run(Ledger([], []), c, New<K, T>(c), ops, id).Ok?
    ensures var (o, book) := Run(Ledger([], []), c, New<K, T>(c), ops, id).value;
            && book.applied + InService(o, id) + Identities(o.private, id) == book.accepted
            && (PrivateDrained(o) <==> book.applied == book.accepted)
  {
    RunBalanced(Ledger([], []), c, New<K, T>(c), ops, id);
  }

  // ------------------------------------------------------------------ receipt times

  function Receipts<K, T>(queue: seq<Pending<K, T>>): (stamps: seq<nat>)
    ensures |stamps| == |queue|
  {
    seq(|queue|, i requires 0 <= i < |queue| => queue[i].receivedNs)
  }

  predicate PrivateRunning<K, T>(o: Owner<K, T>) {
    o.running.Some? && o.running.value.privateLane
  }

  function Carried<K, T>(o: Owner<K, T>): seq<nat> {
    if PrivateRunning(o) then [o.running.value.receivedNs] else []
  }

  /** When each message not yet applied counts as received: when it was enqueued, or when a rebase
      found it waiting. */
  function Stamp<K(==), T>(stamps: seq<nat>, c: Config, o: Owner<K, T>, op: Op<K, T>): seq<nat> {
    match op
    case Private(receivedNs, _) => stamps + [receivedNs]
    case RebaseAt(nowNs, _) => Carried(o) + seq(|o.private|, _ => nowNs)
    case Step(_) =>
      var done := Apply(c, o, op);
      if done.Ok? && done.value.1.Some? && done.value.1.value.privateLane && stamps != [] then stamps[1..] else stamps
    case _ => stamps
  }

  predicate Stamped<K, T>(stamps: seq<nat>, o: Owner<K, T>) {
    && stamps == Carried(o) + Receipts(o.private)
    && (PrivateRunning(o) ==> o.running.value.work.Event?)
  }

  lemma {:induction false} RebasedReceipts<K, T>(c: Config, queue: seq<Pending<K, T>>, nowNs: nat,
                                                 update: (T, nat) -> T)
    ensures Receipts(Rebased(c, queue, nowNs, update)) == seq(|queue|, _ => nowNs)
    ensures forall i :: 0 <= i < |queue| ==>
              Rebased(c, queue, nowNs, update)[i].readyNs == SatAdd(nowNs, c.applyDelayNs)
  {
    if queue != [] {
      RebasedReceipts(c, queue[1..], nowNs, update);
      var rest, all := Rebased(c, queue[1..], nowNs, update), Rebased(c, queue, nowNs, update);
      forall i | 0 < i < |queue| ensures all[i] == rest[i - 1] && rest[i - 1].receivedNs == nowNs {
        assert rest[i - 1].receivedNs == Receipts(rest)[i - 1];
      }
    }
  }

  lemma StampStep<K, T>(stamps: seq<nat>, c: Config, o: Owner<K, T>, op: Op<K, T>)
    requires Stamped(stamps, o) && op.Step?
    ensures Stamped(Stamp(stamps, c, o, op), Apply(c, o, op).value.0)
    ensures var done := Apply(c, o, op).value.1;
            done.Some? && done.value.privateLane ==> stamps != [] && done.value.receivedNs == stamps[0]
  {
    if ReadyFor(c, o) <= op.nowNs && o.running.None? && Choose(c, o, op.nowNs).TakePrivate? {
      var after := Apply(c, o, op).value.0;
      assert Receipts(o.private) == [o.private[0].receivedNs] + Receipts(after.private);
    }
  }

  lemma StampKeeps<K, T>(stamps: seq<nat>, c: Config, o: Owner<K, T>, op: Op<K, T>)
    requires Stamped(stamps, o) && Apply(c, o, op).Ok?
    ensures Stamped(Stamp(stamps, c, o, op), Apply(c, o, op).value.0)
  {
    var after := Apply(c, o, op).value.0;
    match op
    case Private(receivedNs, _) => assert Receipts(after.private) == Receipts(o.private) + [receivedNs];
    case RebaseAt(nowNs, update) => RebasedReceipts(c, o.private, nowNs, update);
    case SuspendAt(_) => assert Receipts(after.private) == Carried(o) + Receipts(o.private);
    case Step(_) => StampStep(stamps, c, o, op);
    case _ =>
  }

  function RunStamps<K(==), T>(stamps: seq<nat>, c: Config, o: Owner<K, T>, ops: seq<Op<K, T>>)
    : Outcome<(Owner<K, T>, seq<nat>)>
    decreases |ops|
  {
    if ops == [] then Ok((o, stamps))
    else
      match Apply(c, o, ops[0])
      case Overflow => Overflow
      case Ok(after) => RunStamps(Stamp(stamps, c, o, ops[0]), c, after.0, ops[1..])
  }

  lemma {:induction false} RunStamped<K, T>(stamps: seq<nat>, c: Config, o: Owner<K, T>, ops: seq<Op<K, T>>)
    requires Stamped(stamps, o) && RunStamps(stamps, c, o, ops).Ok?
    ensures var (end, seen) := RunStamps(stamps, c, o, ops).value; Stamped(seen, end)
    decreases |ops|
  {
    if ops != [] {
      StampKeeps(stamps, c, o, ops[0]);
      RunStamped(Stamp(stamps, c, o, ops[0]), c, Apply(c, o, ops[0]).value.0, ops[1..]);
    }
  }

  /** In every run without overflow, a private message is delivered with the time it was enqueued,
      or with that of the last rebase that found it waiting; a suspension does not change it. */
  lemma PrivateReceiptTimes<K, T>(c: Config, ops: seq<Op<K, T>>, nowNs: nat)
    requires RunStamps([], c, New<K, T>(c), ops).Ok?
    ensures var (o, stamps) := RunStamps([], c, New<K, T>(c), ops).value;
            var done := Apply(c, o, Step(nowNs)).value.1;
            done.Some? && done.value.privateLane ==> stamps != [] && done.value.receivedNs == stamps[0]
  {
    RunStamped([], c, New<K, T>(c), ops);
    var (o, stamps) := RunStamps([], c, New<K, T>(c), ops).value;
    StampStep(stamps, c, o, Step(nowNs));
  }

  // ------------------------------------------------------------------ ready times

  function ReadyTimes<K, T>(queue: seq<Pending<K, T>>): (times: seq<nat>)
    ensures |times| == |queue|
  {
    seq(|queue|, i requires 0 <= i < |queue| => queue[i].readyNs)
  }

  predicate TakesPrivate<K, T>(c: Config, o: Owner<K, T>, op: Op<K, T>) {
    op.Step? && ReadyFor(c, o) <= op.nowNs && o.running.None? && Choose(c, o, op.nowNs).TakePrivate?
  }

  /** From when each waiting message may be taken: the apply delay after it counts as received, or
      at once if an outage returned it to its lane. */
  function Ripen<K(==), T>(times: seq<nat>, c: Config, o: Owner<K, T>, op: Op<K, T>): seq<nat> {
    match op
    case Private(receivedNs, _) => times + [SatAdd(receivedNs, c.applyDelayNs)]
    case RebaseAt(nowNs, _) => seq(|times|, _ => SatAdd(nowNs, c.applyDelayNs))
    case SuspendAt(nowNs) => if PrivateRunning(o) then [nowNs] + times else times
    case Step(_) => if TakesPrivate(c, o, op) && times != [] then times[1..] else times
    case _ => times
  }

  lemma RipenKeeps<K, T>(times: seq<nat>, c: Config, o: Owner<K, T>, op: Op<K, T>)
    requires times == ReadyTimes(o.private) && Apply(c, o, op).Ok?
    requires PrivateRunning(o) ==> o.running.value.work.Event?
    ensures var after := Apply(c, o, op).value.0;
            && Ripen(times, c, o, op) == ReadyTimes(after.private)
            && (PrivateRunning(after) ==> after.running.value.work.Event?)
  {
    var after := Apply(c, o, op).value.0;
    match op
    case Private(receivedNs, _) =>
      assert ReadyTimes(after.private) == ReadyTimes(o.private) + [SatAdd(receivedNs, c.applyDelayNs)];
    case RebaseAt(nowNs, update) => RebasedReceipts(c, o.private, nowNs, update);
    case SuspendAt(nowNs) =>
      if PrivateRunning(o) { assert ReadyTimes(after.private) == [nowNs] + ReadyTimes(o.private); }
    case Step(_) =>
      if TakesPrivate(c, o, op) { assert ReadyTimes(after.private) == ReadyTimes(o.private)[1..]; }
    case _ =>
  }

  function RunTimes<K(==), T>(times: seq<nat>, c: Config, o: Owner<K, T>, ops: seq<Op<K, T>>)
    : Outcome<(Owner<K, T>, seq<nat>)>
    decreases |ops|
  {
    if ops == [] then Ok((o, times))
    else
      match Apply(c, o, ops[0])
      case Overflow => Overflow
      case Ok(after) => RunTimes(Ripen(times, c, o, ops[0]), c, after.0, ops[1..])
  }

  lemma {:induction false} RunRipens<K, T>(times: seq<nat>, c: Config, o: Owner<K, T>, ops: seq<Op<K, T>>)
    requires times == ReadyTimes(o.private) && RunTimes(times, c, o, ops).Ok?
    requires PrivateRunning(o) ==> o.running.value.work.Event?
    ensures var (end, seen) := RunTimes(times, c, o, ops).value; seen == ReadyTimes(end.private)
    decreases |ops|
  {
    if ops != [] {
      RipenKeeps(times, c, o, ops[0]);
      RunRipens(Ripen(times, c, o, ops[0]), c, Apply(c, o, ops[0]).value.0, ops[1..]);
    }
  }

  /** In every run without overflow, every waiting private message is ready exactly then. */
  lemma PrivateReadyTimes<K, T>(c: Config, ops: seq<Op<K, T>>)
    requires RunTimes([], c, New<K, T>(c), ops).Ok?
    ensures var (o, times) := RunTimes([], c, New<K, T>(c), ops).value;
            |times| == |o.private| && forall i :: 0 <= i < |times| ==> o.private[i].readyNs == times[i]
  {
    RunRipens([], c, New<K, T>(c), ops);
    var (o, times) := RunTimes([], c, New<K, T>(c), ops).value;
    assert forall i :: 0 <= i < |times| ==> ReadyTimes(o.private)[i] == o.private[i].readyNs;
  }
}
