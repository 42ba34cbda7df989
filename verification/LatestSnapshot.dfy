/** The single-producer/single-consumer replaceable snapshot lane.

    Three slots, one atomic `middle` word holding an index and a dirty bit, a
    publisher-private `back` and a receiver-private `front`. Every load, store and
    exchange is one sequentially consistent step; the copy of a snapshot into or out of
    a slot is many steps, one per word, so a torn value would be visible. */
module LatestSnapshot {
  import opened Common

  /** One word of slot memory. */
  datatype Cell<+T> = Uninit | Word(value: T)

  const DIRTY: nat := 4

  function Index(middle: nat): nat {
    middle % DIRTY
  }

  predicate Dirty(middle: nat) {
    middle / DIRTY % 2 == 1
  }

  /** Where the producer is inside `publish`. */
  datatype PublisherPc<+T> =
    | Ready
    | Writing(value: seq<T>, written: nat)
    | Dropped

  /** Where the consumer is inside `try_recv`. */
  datatype ReceiverPc<+T> =
    | Polling
    | SawLiveness(alive: bool)
    | SawDirty
    | Copying(copied: seq<Cell<T>>)

  /** The shared memory, both endpoints, and the history of the run: every published
      snapshot, the publication number taken by each receive exchange, the values
      handed to the caller, how often `publish` returned true, and whether `try_recv`
      has reported disconnection. */
  datatype Lane<+T> = Lane(
    width: nat,
    slots: seq<seq<Cell<T>>>,
    middle: nat,
    alive: bool,
    back: nat,
    front: nat,
    publisher: PublisherPc<T>,
    receiver: ReceiverPc<T>,
    published: seq<seq<T>>,
    received: seq<nat>,
    returned: seq<seq<Cell<T>>>,
    replaced: nat,
    disconnected: bool)

  datatype Step<+T> =
    | BeginPublish(value: seq<T>)
    | WriteWord
    | PublishExchange
    | DropPublisher
    | LoadAlive
    | LoadMiddle
    | ReceiveExchange
    | CopyWord
    | ReturnValue

  function Channel<T>(width: nat): Lane<T> {
    var blank := seq(width, _ => Uninit);
    Lane(width, [blank, blank, blank], 1, true, 2, 0, Ready, Polling, [], [], [], 0, false)
  }

  function Words<T>(value: seq<T>): (cells: seq<Cell<T>>)
    ensures |cells| == |value|
  {
    seq(|value|, i requires 0 <= i < |value| => Word(value[i]))
  }

  predicate Enabled<T>(s: Lane<T>, step: Step<T>) {
    match step
    case BeginPublish(value) => s.publisher.Ready? && |value| == s.width
    case WriteWord =>
      && s.publisher.Writing? && s.publisher.written < |s.publisher.value|
      && s.back < |s.slots| && s.publisher.written < |s.slots[s.back]|
    case PublishExchange => s.publisher.Writing? && s.publisher.written == |s.publisher.value|
    case DropPublisher => s.publisher.Ready?
    case LoadAlive => s.receiver.Polling?
    case LoadMiddle => s.receiver.SawLiveness?
    case ReceiveExchange => s.receiver.SawDirty?
    case CopyWord =>
      && s.receiver.Copying? && |s.receiver.copied| < s.width
      && s.front < |s.slots| && |s.receiver.copied| < |s.slots[s.front]|
    case ReturnValue => s.receiver.Copying? && |s.receiver.copied| == s.width
  }

  /** One atomic step of either endpoint; a step that is not enabled changes nothing, so
      every sequence of steps is a run. */
  function Next<T>(s: Lane<T>, step: Step<T>): Lane<T> {
    if !Enabled(s, step) then s
    else
      match step
      case BeginPublish(value) => s.(publisher := Writing(value, 0))
      case WriteWord =>
        var Writing(value, written) := s.publisher;
        s.(slots := s.slots[s.back := s.slots[s.back][written := Word(value[written])]],
           publisher := Writing(value, written + 1))
      case PublishExchange =>
        s.(middle := s.back + DIRTY,
           back := Index(s.middle),
           publisher := Ready,
           published := s.published + [s.publisher.value],
           replaced := s.replaced + if Dirty(s.middle) then 1 else 0)
      case DropPublisher => s.(publisher := Dropped, alive := false)
      case LoadAlive => s.(receiver := SawLiveness(s.alive))
      case LoadMiddle =>
        if Dirty(s.middle) then s.(receiver := SawDirty)
        else s.(receiver := Polling, disconnected := s.disconnected || !s.receiver.alive)
      case ReceiveExchange =>
        s.(middle := s.front,
           front := Index(s.middle),
           receiver := Copying([]),
           received := s.received + [SatSub(|s.published|, 1)])
      case CopyWord =>
        s.(receiver := Copying(s.receiver.copied + [s.slots[s.front][|s.receiver.copied|]]))
      case ReturnValue =>
        s.(receiver := Polling, returned := s.returned + [s.receiver.copied])
  }

  function Run<T>(s: Lane<T>, steps: seq<Step<T>>): Lane<T>
    decreases |steps|
  {
    if steps == [] then s else Run(Next(s, steps[0]), steps[1..])
  }

  /** `back`, `front` and the index in `middle` are a permutation of {0, 1, 2}. */
  ghost predicate Exclusive<T>(s: Lane<T>) {
    && s.back < 3 && s.front < 3 && Index(s.middle) < 3 && s.middle < 2 * DIRTY
    && s.back != s.front && s.back != Index(s.middle) && s.front != Index(s.middle)
  }

  ghost predicate StrictlyIncreasing(xs: seq<nat>) {
    forall i, j :: 0 <= i < j < |xs| ==> xs[i] < xs[j]
  }

  /** Number of the newest publication the consumer has taken, counted from one. */
  function Taken<T>(s: Lane<T>): nat {
    if s.received == [] then 0 else s.received[|s.received| - 1] + 1
  }

  ghost predicate ShapeOk<T>(s: Lane<T>) {
    && Exclusive(s)
    && |s.slots| == 3 && (forall i :: 0 <= i < 3 ==> |s.slots[i]| == s.width)
    && (forall i :: 0 <= i < |s.published| ==> |s.published[i]| == s.width)
    && StrictlyIncreasing(s.received)
    && (forall i :: 0 <= i < |s.received| ==> s.received[i] < |s.published|)
  }

  /** The dirty bit is set exactly while the newest publication is unread, and the middle
      slot then holds all of its words. */
  ghost predicate MiddleOk<T>(s: Lane<T>)
    requires ShapeOk(s)
  {
    && (Dirty(s.middle) ==>
          && |s.published| > Taken(s)
          && s.slots[Index(s.middle)] == Words(s.published[|s.published| - 1]))
    && (!Dirty(s.middle) ==> |s.published| == Taken(s))
    && |s.published| == |s.received| + s.replaced + if Dirty(s.middle) then 1 else 0
  }

  ghost predicate PublisherOk<T>(s: Lane<T>)
    requires ShapeOk(s)
  {
    && (s.publisher.Writing? ==>
          && |s.publisher.value| == s.width && s.publisher.written <= s.width
          && s.slots[s.back][..s.publisher.written] == Words(s.publisher.value)[..s.publisher.written])
    && (!s.alive <==> s.publisher.Dropped?)
  }

  ghost predicate ReceiverOk<T>(s: Lane<T>)
    requires ShapeOk(s)
  {
    && (s.receiver.SawDirty? ==> Dirty(s.middle))
    && (s.receiver.SawLiveness? && !s.receiver.alive ==> !s.alive)
    && (s.receiver.Copying? ==>
          && |s.received| == |s.returned| + 1
          && |s.receiver.copied| <= s.width
          && s.slots[s.front] == Words(s.published[s.received[|s.returned|]])
          && s.receiver.copied == s.slots[s.front][..|s.receiver.copied|])
    && (!s.receiver.Copying? ==> |s.received| == |s.returned|)
    && (s.disconnected ==> !s.alive && !Dirty(s.middle))
  }

  /** What the consumer has been given: the i-th value returned is, word for word, the
      publication whose number was taken by the i-th exchange. */
  ghost predicate ReturnedOk<T>(s: Lane<T>)
    requires ShapeOk(s)
  {
    && |s.returned| <= |s.received|
    && forall i :: 0 <= i < |s.returned| ==> s.returned[i] == Words(s.published[s.received[i]])
  }

  ghost predicate Inv<T>(s: Lane<T>) {
    ShapeOk(s) && MiddleOk(s) && PublisherOk(s) && ReceiverOk(s) && ReturnedOk(s)
  }

  /** The two encodings of the middle word: an index, or an index with the dirty bit. */
  lemma MiddleEncoding(index: nat)
    requires index < DIRTY
    ensures Index(index) == index && !Dirty(index)
    ensures Index(index + DIRTY) == index && Dirty(index + DIRTY)
  {
  }

  lemma WriteKeepsInv<T>(s: Lane<T>)
    requires Inv(s) && Enabled(s, WriteWord)
    ensures Inv(Next(s, WriteWord))
  {
    var t := Next(s, WriteWord);
    var v, k := s.publisher.value, s.publisher.written;
    assert t.slots[t.back][..k + 1] == s.slots[s.back][..k] + [Word(v[k])];
    assert Words(v)[..k + 1] == Words(v)[..k] + [Words(v)[k]];
    assert t.slots[t.front] == s.slots[s.front];
    assert t.slots[Index(t.middle)] == s.slots[Index(s.middle)];
  }

  lemma PublishKeepsInv<T>(s: Lane<T>)
    requires Inv(s) && Enabled(s, PublishExchange)
    ensures Inv(Next(s, PublishExchange))
  {
    MiddleEncoding(s.back);
    assert s.slots[s.back] == Words(s.publisher.value);
    assert Taken(Next(s, PublishExchange)) == Taken(s);
  }

  lemma ReceiveKeepsInv<T>(s: Lane<T>)
    requires Inv(s) && Enabled(s, ReceiveExchange)
    ensures Inv(Next(s, ReceiveExchange))
  {
    MiddleEncoding(s.front);
    var t := Next(s, ReceiveExchange);
    assert Taken(t) == |s.published|;
  }

  lemma CopyKeepsInv<T>(s: Lane<T>)
    requires Inv(s) && Enabled(s, CopyWord)
    ensures Inv(Next(s, CopyWord))
  {
    var k := |s.receiver.copied|;
    assert s.slots[s.front][..k + 1] == s.slots[s.front][..k] + [s.slots[s.front][k]];
  }

  lemma NextKeepsInv<T>(s: Lane<T>, step: Step<T>)
    requires Inv(s)
    ensures Inv(Next(s, step))
  {
    if Enabled(s, step) {
      match step
      case BeginPublish(value) =>
      case WriteWord => WriteKeepsInv(s);
      case PublishExchange => PublishKeepsInv(s);
      case DropPublisher =>
      case LoadAlive =>
      case LoadMiddle =>
      case ReceiveExchange => ReceiveKeepsInv(s);
      case CopyWord => CopyKeepsInv(s);
      case ReturnValue =>
        assert s.receiver.copied == s.slots[s.front];
    }
  }

  lemma {:induction false} RunKeepsInv<T>(s: Lane<T>, steps: seq<Step<T>>)
    requires Inv(s)
    ensures Inv(Run(s, steps))
    decreases |steps|
  {
    if steps != [] {
      NextKeepsInv(s, steps[0]);
      RunKeepsInv(Next(s, steps[0]), steps[1..]);
    }
  }

  lemma ChannelInv<T>(width: nat)
    ensures Inv(Channel<T>(width))
  {
  }

  /** Neither endpoint ever waits for the other: in every reachable state a live
      publisher has a step it can take, and so does the receiver, whatever point of its
      own operation the peer was preempted at. */
  lemma NeverWaitsForPeer<T>(width: nat, steps: seq<Step<T>>, value: seq<T>)
    requires |value| == width
    ensures var s := Run(Channel<T>(width), steps);
            && (s.publisher.Dropped? || Enabled(s, BeginPublish(value)) || Enabled(s, WriteWord)
                || Enabled(s, PublishExchange))
            && (Enabled(s, LoadAlive) || Enabled(s, LoadMiddle) || Enabled(s, ReceiveExchange)
                || Enabled(s, CopyWord) || Enabled(s, ReturnValue))
  {
    ChannelInv<T>(width);
    RunKeepsInv(Channel<T>(width), steps);
    WidthFixed(Channel<T>(width), steps);
  }

  lemma {:induction false} WidthFixed<T>(s: Lane<T>, steps: seq<Step<T>>)
    ensures Run(s, steps).width == s.width
    decreases |steps|
  {
    if steps != [] {
      WidthFixed(Next(s, steps[0]), steps[1..]);
    }
  }

  /** Exclusivity in every interleaving: the three indices stay a permutation, so the
      slot being filled is neither the one being read nor the one on offer. */
  lemma SlotsNeverShared<T>(width: nat, steps: seq<Step<T>>)
    ensures var s := Run(Channel<T>(width), steps);
            {s.back, s.front, Index(s.middle)} == {0, 1, 2}
  {
    ChannelInv<T>(width);
    RunKeepsInv(Channel<T>(width), steps);
  }

  /** No torn, repeated or reordered value: everything handed to the consumer is a
      complete published snapshot, and publication numbers strictly increase. */
  lemma ReceivesCompleteIncreasing<T>(width: nat, steps: seq<Step<T>>)
    ensures var s := Run(Channel<T>(width), steps);
            && |s.returned| <= |s.received|
            && StrictlyIncreasing(s.received)
            && (forall i :: 0 <= i < |s.received| ==> s.received[i] < |s.published|)
            && (forall i :: 0 <= i < |s.returned| ==> s.returned[i] == Words(s.published[s.received[i]]))
  {
    ChannelInv<T>(width);
    RunKeepsInv(Channel<T>(width), steps);
  }

  /** Freshness: a receive that gets as far as its exchange returns, unchanged by
      whatever the producer does meanwhile, the newest snapshot published at the instant
      of that exchange. */
  lemma ReceivesNewest<T>(width: nat, before: seq<Step<T>>, after: seq<Step<T>>)
    requires Enabled(Run(Channel<T>(width), before), ReceiveExchange)
    ensures var s := Run(Channel<T>(width), before);
            var t := Run(Next(s, ReceiveExchange), after);
            |t.returned| > |s.returned| ==>
              |s.published| > 0 && t.returned[|s.returned|] == Words(s.published[|s.published| - 1])
  {
    ChannelInv<T>(width);
    RunKeepsInv(Channel<T>(width), before);
    var s := Run(Channel<T>(width), before);
    NextKeepsInv(s, ReceiveExchange);
    RunKeepsInv(Next(s, ReceiveExchange), after);
    HistoryGrows(Next(s, ReceiveExchange), after);
  }

  ghost predicate Grows<T>(s: Lane<T>, t: Lane<T>) {
    s.published <= t.published && s.received <= t.received && s.returned <= t.returned
  }

  lemma NextGrows<T>(s: Lane<T>, step: Step<T>)
    ensures Grows(s, Next(s, step))
  {
  }

  /** Histories are append-only along a run. */
  lemma {:induction false} HistoryGrows<T>(s: Lane<T>, steps: seq<Step<T>>)
    ensures Grows(s, Run(s, steps))
    decreases |steps|
  {
    if steps != [] {
      NextGrows(s, steps[0]);
      HistoryGrows(Next(s, steps[0]), steps[1..]);
    }
  }

  /** Conservation: every publication has been received, was replaced unread (one `true`
      returned by `publish` each), or is the single one still on offer. */
  lemma PublicationsConserved<T>(width: nat, steps: seq<Step<T>>)
    ensures var s := Run(Channel<T>(width), steps);
            |s.published| == |s.received| + s.replaced + if Dirty(s.middle) then 1 else 0
  {
    ChannelInv<T>(width);
    RunKeepsInv(Channel<T>(width), steps);
  }

  /** Drain before disconnect: once `try_recv` has answered Disconnected, the last
      published snapshot has been received and nothing is published afterwards. */
  lemma DisconnectedAfterDrain<T>(width: nat, before: seq<Step<T>>, after: seq<Step<T>>)
    requires Run(Channel<T>(width), before).disconnected
    ensures var s := Run(Channel<T>(width), before);
            && Run(s, after).published == s.published
            && |s.published| == Taken(s)
            && (s.published != [] ==> |s.received| > 0 && s.received[|s.received| - 1] == |s.published| - 1)
  {
    ChannelInv<T>(width);
    RunKeepsInv(Channel<T>(width), before);
    NothingAfterDrop(Run(Channel<T>(width), before), after);
  }

  lemma {:induction false} NothingAfterDrop<T>(s: Lane<T>, steps: seq<Step<T>>)
    requires s.publisher.Dropped?
    ensures Run(s, steps).published == s.published
    decreases |steps|
  {
    if steps != [] {
      NothingAfterDrop(Next(s, steps[0]), steps[1..]);
    }
  }

  // ------------------------------------------------------------------ delivery

  lemma {:induction false} RunConcat<T>(s: Lane<T>, xs: seq<Step<T>>, ys: seq<Step<T>>)
    ensures Run(s, xs + ys) == Run(Run(s, xs), ys)
    decreases |xs|
  {
    if xs == [] {
      assert xs + ys == ys;
    } else {
      assert (xs + ys)[1..] == xs[1..] + ys;
      RunConcat(Next(s, xs[0]), xs[1..], ys);
    }
  }

  /** Steps inside `publish` and `try_recv`. */
  ghost predicate Inner<T>(steps: seq<Step<T>>) {
    forall i :: 0 <= i < |steps| ==> !steps[i].BeginPublish? && !steps[i].ReturnValue?
  }

  lemma {:induction false} WritesFinish<T>(s: Lane<T>) returns (steps: seq<Step<T>>)
    requires Inv(s) && s.publisher.Writing? && s.receiver.Polling?
    ensures Inner(steps)
    ensures var t := Run(s, steps); Inv(t) && t.receiver.Polling? && Dirty(t.middle)
    decreases s.width - s.publisher.written
  {
    if s.publisher.written == s.width {
      steps := [PublishExchange];
      RunOne(s, PublishExchange);
      NextKeepsInv(s, PublishExchange);
      MiddleEncoding(s.back);
    } else {
      NextKeepsInv(s, WriteWord);
      var rest := WritesFinish(Next(s, WriteWord));
      steps := [WriteWord] + rest;
      assert steps[1..] == rest;
    }
  }

  lemma {:induction false} CopiesFinish<T>(s: Lane<T>) returns (steps: seq<Step<T>>)
    requires Inv(s) && s.receiver.Copying?
    ensures Inner(steps) && Enabled(Run(s, steps), ReturnValue)
    decreases s.width - |s.receiver.copied|
  {
    if |s.receiver.copied| == s.width {
      steps := [];
    } else {
      NextKeepsInv(s, CopyWord);
      var rest := CopiesFinish(Next(s, CopyWord));
      steps := [CopyWord] + rest;
      assert steps[1..] == rest;
    }
  }

  /** An offered snapshot is received by the consumer's own steps. */
  lemma ReceiveStarts<T>(s: Lane<T>) returns (steps: seq<Step<T>>)
    requires Inv(s) && s.receiver.Polling? && Dirty(s.middle)
    ensures Inner(steps) && Inv(Run(s, steps)) && Run(s, steps).receiver.Copying?
  {
    steps := [LoadAlive] + ([LoadMiddle] + ([ReceiveExchange] + []));
    RunConcat(s, [LoadAlive], [LoadMiddle] + ([ReceiveExchange] + []));
    RunOne(s, LoadAlive);
    var a := Next(s, LoadAlive);
    RunConcat(a, [LoadMiddle], [ReceiveExchange] + []);
    RunOne(a, LoadMiddle);
    var b := Next(a, LoadMiddle);
    RunConcat(b, [ReceiveExchange], []);
    RunOne(b, ReceiveExchange);
    RunKeepsInv(s, steps);
  }

  lemma RunOne<T>(s: Lane<T>, step: Step<T>)
    ensures Run(s, [step]) == Next(s, step)
  {
    assert [step][1..] == [];
  }

  /** A snapshot being written can always be delivered, by the two endpoints' own steps. */
  lemma Deliver<T>(s: Lane<T>) returns (steps: seq<Step<T>>)
    requires Inv(s) && s.publisher.Writing? && s.receiver.Polling?
    ensures Inner(steps) && Enabled(Run(s, steps), ReturnValue)
  {
    var writes := WritesFinish(s);
    var offered := Run(s, writes);
    var starts := ReceiveStarts(offered);
    var copies := CopiesFinish(Run(offered, starts));
    steps := writes + (starts + copies);
    RunConcat(s, writes, starts + copies);
    RunConcat(offered, starts, copies);
  }

  // ------------------------------------------------------------------ the end of the lane

  /** The consumer's only next step. */
  function OwnStep<T>(s: Lane<T>): Step<T> {
    match s.receiver
    case Polling => LoadAlive
    case SawLiveness(_) => LoadMiddle
    case SawDirty => ReceiveExchange
    case Copying(copied) => if |copied| < s.width then CopyWord else ReturnValue
  }

  function Alone<T>(s: Lane<T>, n: nat): Lane<T>
    decreases n
  {
    if n == 0 then s else Alone(Next(s, OwnStep(s)), n - 1)
  }

  /** How many steps a consumer whose producer is gone takes to find out. */
  function Distance<T>(s: Lane<T>): nat {
    match s.receiver
    case Polling => if Dirty(s.middle) then s.width + 6 else 2
    case SawLiveness(alive) => if Dirty(s.middle) then s.width + 5 else if alive then 3 else 1
    case SawDirty => s.width + 4
    case Copying(copied) => SatSub(s.width, |copied|) + 1 + if Dirty(s.middle) then s.width + 6 else 2
  }

  lemma OwnStepApproaches<T>(s: Lane<T>)
    requires Inv(s) && s.publisher.Dropped? && !s.disconnected
    ensures var t := Next(s, OwnStep(s));
            t.publisher.Dropped? && (t.disconnected || Distance(t) < Distance(s))
  {
    if s.receiver.SawDirty? { MiddleEncoding(s.front); }
  }

  /** Once the producer is gone, a consumer that goes on polling receives what is left and is then
      told so, within two copies of a snapshot and seven more steps. */
  lemma {:induction false} DropIsReported<T>(s: Lane<T>, n: nat)
    requires Inv(s) && s.publisher.Dropped? && n >= Distance(s)
    ensures Distance(s) <= 2 * s.width + 7 && Alone(s, n).disconnected
    decreases n
  {
    NextKeepsInv(s, OwnStep(s));
    if s.disconnected {
      StaysDisconnected(s, n);
    } else if n > 0 {
      OwnStepApproaches(s);
      var t := Next(s, OwnStep(s));
      if t.disconnected { StaysDisconnected(t, n - 1); } else { DropIsReported(t, n - 1); }
    }
  }

  lemma {:induction false} StaysDisconnected<T>(s: Lane<T>, n: nat)
    requires s.disconnected
    ensures Alone(s, n).disconnected
    decreases n
  {
    if n > 0 { StaysDisconnected(Next(s, OwnStep(s)), n - 1); }
  }
}
