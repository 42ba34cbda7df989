/** The scheduler object: a fixed set of virtual owners, updated in place. */
module Scheduler {
  import opened Common
  import opened VirtualOwner
  import OwnerService

  /** Owner i is the one a step at `nowNs` serves: due, earliest, lowest index. */
  predicate IsNext<K, T>(c: Config, owners: seq<Owner<K, T>>, nowNs: nat, i: nat) {
    && i < |owners| && ReadyFor(c, owners[i]) <= nowNs
    && forall j :: 0 <= j < |owners| ==>
         ReadyFor(c, owners[i]) < ReadyFor(c, owners[j]) || (ReadyFor(c, owners[i]) == ReadyFor(c, owners[j]) && i <= j)
         || ReadyFor(c, owners[j]) > nowNs
  }

  predicate NoneDue<K, T>(c: Config, owners: seq<Owner<K, T>>, nowNs: nat) {
    forall j :: 0 <= j < |owners| ==> ReadyFor(c, owners[j]) > nowNs
  }

  class VirtualOwnerScheduler<K(==), T> {
    const config: Config
    var owners: seq<Owner<K, T>>

    constructor (count: nat, config: Config)
      requires config.capacity > 0 && config.endNs >= config.startNs
      ensures this.config == config && owners == seq(count, _ => VirtualOwner.New<K, T>(config))
    {
      this.config := config;
      this.owners := seq(count, _ => VirtualOwner.New<K, T>(config));
    }

    /** Fails only when the lane is full; the run is then invalid. */
    method EnqueueMarket(owner: nat, receivedNs: nat, key: Option<K>, payload: T) returns (ok: bool)
      requires owner < |owners|
      modifies this
      ensures var r := VirtualOwner.EnqueueMarket(config, old(owners[owner]), receivedNs, key, payload);
              && ok == r.Ok?
              && (ok ==> owners == old(owners)[owner := r.value])
      ensures !ok ==> |old(owners[owner].market)| == config.capacity
      ensures !ok ==> var epoch := if key.Some? then old(owners[owner].epoch) else old(owners[owner].epoch) + 1;
                      owners == old(owners)[owner := old(owners[owner]).(epoch := epoch)]
    {
      var state := owners[owner];
      var market := state.market;
      if key.Some? {
        var i := |market|;
        assert market[..i] == market;
        while i > 0 && market[i - 1].epoch == state.epoch
          invariant 0 <= i <= |market|
          invariant Replaceable(market, state.epoch, key.value) == Replaceable(market[..i], state.epoch, key.value)
        {
          i := i - 1;
          assert market[..i + 1][..i] == market[..i];
          if market[i].key == key {
            var pending := market[i].(payload := payload, receivedNs := receivedNs);
            owners := owners[owner := state.(market := market[i := pending])];
            return true;
          }
        }
      } else {
        state := state.(epoch := state.epoch + 1);
        owners := owners[owner := state];
      }
      if |market| == config.capacity {
        assert owners == old(owners)[owner := old(owners[owner]).(epoch := state.epoch)];
        return false;
      }
      var entry := Pending(receivedNs, SatAdd(receivedNs, config.applyDelayNs), state.epoch, key, payload);
      owners := owners[owner := state.(market := market + [entry])];
      return true;
    }

    method EnqueuePrivate(owner: nat, receivedNs: nat, payload: T) returns (ok: bool)
      requires owner < |owners|
      modifies this
      ensures var r := VirtualOwner.EnqueuePrivate(config, old(owners[owner]), receivedNs, payload);
              ok == r.Ok? && owners == if ok then old(owners)[owner := r.value] else old(owners)
    {
      var state := owners[owner];
      if |state.private| == config.capacity {
        return false;
      }
      var entry := Pending(receivedNs, SatAdd(receivedNs, config.applyDelayNs), state.epoch, None, payload);
      owners := owners[owner := state.(private := state.private + [entry])];
      return true;
    }

    method PrependMarket(owner: nat, receivedNs: nat, payload: T) returns (ok: bool)
      requires owner < |owners|
      modifies this
      ensures var r := VirtualOwner.PrependMarket(config, old(owners[owner]), receivedNs, payload);
              ok == r.Ok? && owners == if ok then old(owners)[owner := r.value] else old(owners)
    {
      var state := owners[owner];
      if |state.market| == config.capacity {
        return false;
      }
      state := state.(epoch := state.epoch + 1);
      var entry := Pending(receivedNs, SatAdd(receivedNs, config.applyDelayNs), state.epoch, None, payload);
      owners := owners[owner := state.(market := [entry] + state.market)];
      return true;
    }

    method RetireMarket(retire: T -> bool)
      modifies this
      ensures |owners| == |old(owners)|
      ensures forall i :: 0 <= i < |owners| ==> owners[i] == VirtualOwner.RetireMarket(old(owners)[i], retire)
    {
      var i := 0;
      while i < |owners|
        invariant 0 <= i <= |owners| == |old(owners)|
        invariant forall j :: 0 <= j < i ==> owners[j] == VirtualOwner.RetireMarket(old(owners)[j], retire)
        invariant forall j :: i <= j < |owners| ==> owners[j] == old(owners)[j]
      {
        var state := owners[i].(epoch := owners[i].epoch + 1);
        owners := owners[i := state.(market := Retained(state.market, retire))];
        i := i + 1;
      }
    }

    /** The earliest time at which some owner is ready, if any is before the end of time. */
    method PeekWhen() returns (when: Option<nat>)
      ensures when.Some? ==>
                && when.value != U64_MAX
                && exists i :: 0 <= i < |owners| && ReadyFor(config, owners[i]) == when.value
      ensures forall i :: 0 <= i < |owners| && ReadyFor(config, owners[i]) < U64_MAX ==>
                when.Some? && when.value <= ReadyFor(config, owners[i])
    {
      var earliest: Option<nat> := None;
      for i := 0 to |owners|
        invariant earliest.None? ==> i == 0
        invariant earliest.Some? ==> exists j :: 0 <= j < i && ReadyFor(config, owners[j]) == earliest.value
        invariant forall j :: 0 <= j < i ==> earliest.Some? && earliest.value <= ReadyFor(config, owners[j])
      {
        var ready := ReadyFor(config, owners[i]);
        if earliest.None? || ready < earliest.value {
          earliest := Some(ready);
          assert ReadyFor(config, owners[i]) == earliest.value;
        }
      }
      when := if earliest.Some? && earliest.value == U64_MAX then None else earliest;
    }

    /** The earliest due owner, lowest index first. */
    method Select(nowNs: nat) returns (chosen: Option<nat>)
      ensures chosen.None? ==> NoneDue(config, owners, nowNs)
      ensures chosen.Some? ==> IsNext(config, owners, nowNs, chosen.value)
    {
      chosen := None;
      for i := 0 to |owners|
        invariant chosen.None? ==> NoneDue(config, owners[..i], nowNs)
        invariant chosen.Some? ==> IsNext(config, owners[..i], nowNs, chosen.value)
      {
        assert owners[..i + 1] == owners[..i] + [owners[i]];
        if ReadyFor(config, owners[i]) <= nowNs
           && (chosen.None? || ReadyFor(config, owners[i]) < ReadyFor(config, owners[chosen.value]))
        {
          chosen := Some(i);
        }
      }
      assert owners[..|owners|] == owners;
    }

    /** Serves the earliest due owner, lowest index first; nothing changes when none is. */
    method Step(nowNs: nat) returns (done: Option<(nat, Completion<T>)>, ghost served: nat)
      modifies this
      ensures NoneDue(config, old(owners), nowNs) ==> owners == old(owners) && done == None
      ensures !NoneDue(config, old(owners), nowNs) ==>
                && IsNext(config, old(owners), nowNs, served)
                && var (state, completion) := Serve(config, old(owners)[served], nowNs);
                   && owners == old(owners)[served := state]
                   && done == if completion.Some? then Some((served, completion.value)) else None
    {
      var chosen := Select(nowNs);
      if chosen.None? {
        return None, 0;
      }
      served := chosen.value;
      var state, completion := ServeOwner(owners[chosen.value], nowNs);
      owners := owners[chosen.value := state];
      done := if completion.Some? then Some((chosen.value, completion.value)) else None;
    }

    /** Completes what is in service, or takes up the next input by priority. */
    method ServeOwner(owner: Owner<K, T>, nowNs: nat) returns (state: Owner<K, T>, done: Option<Completion<T>>)
      ensures (state, done) == Serve(config, owner, nowNs)
    {
      state := owner;
      if state.running.Some? {
        return state.(running := None, availableNs := nowNs), state.running;
      }
      var privateLane := state.private != [] && state.private[0].readyNs <= nowNs;
      var historyLane := !privateLane && state.history.Some? && state.history.value.readyNs <= nowNs;
      var pending: Option<Pending<K, T>> := None;
      if privateLane {
        pending := Some(state.private[0]);
        state := state.(private := state.private[1..]);
      } else if historyLane {
        pending := state.history;
        state := state.(history := None);
      } else if state.nextWatchdogNs <= config.endNs && state.nextWatchdogNs <= nowNs
                && (state.market == [] || SatSub(nowNs, state.lastWatchdogNs) >= WATCHDOG_GAP_NS) {
      } else if state.market != [] {
        pending := Some(state.market[0]);
        state := state.(market := state.market[1..]);
      }
      var received, work := 0, Watchdog;
      if pending.Some? {
        received, work := pending.value.receivedNs, Event(pending.value.payload);
      } else {
        received := state.nextWatchdogNs;
        var missed := SatSub(nowNs, state.nextWatchdogNs) / Max(config.watchdogIntervalNs, 1);
        var next := SatAdd(state.nextWatchdogNs, SatMul(missed + 1, config.watchdogIntervalNs));
        state := state.(lastWatchdogNs := nowNs, nextWatchdogNs := next);
      }
      var completed := SatAdd(nowNs, config.serviceTimeNs);
      var completion := Completion(received, nowNs, completed, work, privateLane, historyLane);
      if config.serviceTimeNs == 0 {
        return state.(availableNs := nowNs), Some(completion);
      }
      return state.(running := Some(completion)), None;
    }

    method SuspendOwner(owner: nat, nowNs: nat) returns (ok: bool)
      requires owner < |owners|
      modifies this
      ensures var r := Suspend(config, old(owners[owner]), nowNs);
              ok == r.Ok? && (ok ==> owners == old(owners)[owner := r.value])
      ensures !ok ==> |old(owners[owner].private)| >= config.capacity
                      && owners == old(owners)[owner := Stopped(old(owners[owner]))]
    {
      var state := owners[owner].(pausedUntilNs := U64_MAX, epoch := owners[owner].epoch + 1, market := []);
      var running := state.running;
      state := state.(running := None);
      owners := owners[owner := state];
      if running.None? {
        return true;
      }
      if running.value.privateLane {
        if |state.private| >= config.capacity {
          return false;
        }
        if running.value.work.Event? {
          var entry := Pending(running.value.receivedNs, nowNs, state.epoch, None, running.value.work.payload);
          owners := owners[owner := state.(private := [entry] + state.private)];
        }
      } else if running.value.historyLane && state.history.None? && running.value.work.Event? {
        var entry := Pending(running.value.receivedNs, nowNs, state.epoch, None, running.value.work.payload);
        owners := owners[owner := state.(history := Some(entry))];
      }
      return true;
    }

    /** Messages buffered during an outage count as received when recovery delivers them. */
    method RebasePrivateRecoveryReceive(owner: nat, nowNs: nat, update: (T, nat) -> T)
      requires owner < |owners|
      modifies this
      ensures owners == old(owners)[owner := Rebase(config, old(owners[owner]), nowNs, update)]
    {
      var private := owners[owner].private;
      var rebased: seq<Pending<K, T>> := [];
      var i := 0;
      assert private[0..] == private;
      while i < |private|
        invariant 0 <= i <= |private|
        invariant rebased + Rebased(config, private[i..], nowNs, update) == Rebased(config, private, nowNs, update)
      {
        assert private[i..][1..] == private[i + 1..];
        var entry := private[i].(receivedNs := nowNs, readyNs := SatAdd(nowNs, config.applyDelayNs));
        rebased := rebased + [entry.(payload := update(entry.payload, nowNs))];
        i := i + 1;
      }
      assert private[i..] == [] && rebased + [] == rebased;
      owners := owners[owner := owners[owner].(private := rebased)];
    }

    method ScheduleHistory(owner: nat, readyNs: nat, payload: T)
      requires owner < |owners|
      modifies this
      ensures owners == old(owners)[owner := VirtualOwner.ScheduleHistory(old(owners[owner]), readyNs, payload)]
    {
      var entry := Pending(readyNs, readyNs, owners[owner].epoch, None, payload);
      owners := owners[owner := owners[owner].(history := Some(entry))];
    }

    method ResumeOwner(owner: nat, nowNs: nat)
      requires owner < |owners|
      modifies this
      ensures owners == old(owners)[owner := Resume(config, old(owners[owner]), nowNs)]
    {
      var state := owners[owner].(pausedUntilNs := 0, availableNs := nowNs, lastWatchdogNs := nowNs);
      var next := U64_MAX;
      if config.watchdogIntervalNs != 0 {
        next := SatAdd(nowNs, config.watchdogIntervalNs);
      }
      owners := owners[owner := state.(nextWatchdogNs := next)];
    }
  }

  // ------------------------------------------------------------------ an instant is finite

  function TotalBacklog<K, T>(c: Config, owners: seq<Owner<K, T>>, nowNs: nat): nat {
    if owners == [] then 0 else OwnerService.Backlog(c, owners[0], nowNs) + TotalBacklog(c, owners[1..], nowNs)
  }

  lemma {:induction false} BacklogUpdate<K, T>(c: Config, owners: seq<Owner<K, T>>, nowNs: nat, i: nat, o: Owner<K, T>)
    requires i < |owners|
    ensures TotalBacklog(c, owners[i := o], nowNs) + OwnerService.Backlog(c, owners[i], nowNs)
            == TotalBacklog(c, owners, nowNs) + OwnerService.Backlog(c, o, nowNs)
  {
    if i > 0 {
      assert owners[i := o][1..] == owners[1..][i - 1 := o];
      BacklogUpdate(c, owners[1..], nowNs, i - 1, o);
    } else {
      assert owners[0 := o][1..] == owners[1..];
    }
  }

  predicate Armed<K, T>(c: Config, owners: seq<Owner<K, T>>) {
    forall i :: 0 <= i < |owners| ==> c.watchdogIntervalNs == 0 ==> owners[i].nextWatchdogNs == U64_MAX
  }

  /** Serving any due owner at one fixed instant strictly uses up the finite amount of work
      available at that instant, so repeated steps at one instant come to an end, after at
      most as many steps as the backlog says. */
  lemma {:induction false} InstantTerminates<K, T>(c: Config, owners: seq<Owner<K, T>>, nowNs: nat, served: seq<nat>)
    requires Armed(c, owners) && nowNs < U64_MAX && EachDue(c, owners, nowNs, served)
    ensures |served| <= TotalBacklog(c, owners, nowNs)
    decreases |served|
  {
    if served != [] {
      var i := served[0];
      var o := Serve(c, owners[i], nowNs).0;
      OwnerService.StepShrinksBacklog(c, owners[i], nowNs);
      BacklogUpdate(c, owners, nowNs, i, o);
      InstantTerminates(c, owners[i := o], nowNs, served[1..]);
    }
  }

  /** Owners served one after another at the same instant, each due when its turn comes. */
  predicate EachDue<K, T>(c: Config, owners: seq<Owner<K, T>>, nowNs: nat, served: seq<nat>)
    decreases |served|
  {
    served == [] ||
    (&& served[0] < |owners| && ReadyFor(c, owners[served[0]]) <= nowNs
     && EachDue(c, owners[served[0] := Serve(c, owners[served[0]], nowNs).0], nowNs, served[1..]))
  }
}
