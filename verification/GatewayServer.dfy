/**
 The gateway object, updated in place. Each method is the code that runs between
 two awaits of the source, so no other event can come in between; the gateway model
 steps with the functions that the methods are proved against.
 */
module GatewayServer {
  import opened Wrappers
  import opened SshTables
  import opened Gateway
  import G = GatewayRegistry
  import R = RelayRegistry
  import opened Tombstones

  class QilnSshGateway {
    const config: Config
    const registry: G.SshRelayRegistry
    var phase: Phase
    var accepting: bool
    var setups: map<SetupId, Setup>
    var closures: map<RelayId, Reason>
    /** What only the model keeps account of. */
    ghost var started: multiset<RelayId>
    ghost var delivered: set<RelayId>
    ghost var others: Process

    ghost function State(): Process
      reads this, registry
    {
      others.(phase := phase, accepting := accepting, registry := registry.State(), setups := setups,
              closures := closures, started := started, delivered := delivered)
    }

    ghost predicate Valid()
      reads this, registry, registry.clock
    {
      registry.Valid() && registry.limits == config.limits
    }

    constructor (config: Config, clock: G.Clock)
      ensures Valid() && fresh(registry) && registry.clock == clock && State() == IDLE
    {
      this.config := config;
      this.registry := new G.SshRelayRegistry(config.limits, clock);
      phase, accepting, setups, closures := Serving, true, map[], map[];
      started, delivered, others := multiset{}, {}, IDLE;
    }

    /** The relay was unregistered, and both its sockets destroyed; no other relay was touched. */
    predicate Gone(before: map<RelayId, R.LocalRelay>, id: RelayId)
      reads registry
    {
      registry.relays == before - {id} && (id in before ==> registry.SocketsGone(before[id]))
    }

    // ----- closing -----

    method TrackDurableClosure(id: RelayId, reason: Reason)
      modifies this`closures, this`started
      ensures State() == TrackClosure(old(State()), id, reason)
      ensures closures == old(closures)[id := reason]
    {
      closures := closures[id := reason];
      started := started + multiset{id};
    }

    /** The close callback of a registered relay; a host revocation confirms durable closure itself. */
    method OnRelayClosed(id: RelayId, origin: R.Origin)
      modifies this`closures, this`started
      ensures State() == if origin == R.Host then old(State()) else TrackClosure(old(State()), id, ReasonOf(origin))
      ensures closures ==
        match origin
        case Host => old(closures)
        case Natural => old(closures)[id := "gateway_stream_closed"]
        case SetupFailure => old(closures)[id := "gateway_setup_failed"]
        case Shutdown => old(closures)[id := "gateway_shutdown"]
    {
      if origin == R.Host {
        return;
      }
      var reason := match origin
        case Shutdown => SHUTDOWN_REASON
        case SetupFailure => SETUP_FAILED_REASON
        case _ => STREAM_CLOSED_REASON;
      TrackDurableClosure(id, reason);
    }

    method CloseRelay(id: RelayId, origin: R.Origin) returns (ghost at: R.Reading)
      requires Valid() && origin != R.Host
      modifies this`closures, this`started, registry, registry.clock
      ensures Valid()
      ensures State() == CloseHere(config, old(State()), id, origin, at)
      ensures Gone(old(registry.relays), id)
      ensures id !in old(registry.relays) ==> closures == old(closures)
      ensures id in old(registry.relays) && origin == R.SetupFailure ==>
        closures == old(closures)[id := "gateway_setup_failed"]
      ensures id in old(registry.relays) && origin == R.Natural ==>
        closures == old(closures)[id := "gateway_stream_closed"]
    {
      hide R.Close, R.Sound;
      var known;
      known, at := registry.Close(id, origin);
      if known {
        OnRelayClosed(id, origin);
      }
    }

    /** The relay closer of the host: closes every given relay here, registered or not. */
    method CloseRelayIds(ids: seq<RelayId>) returns (confirmed: seq<RelayId>, ghost at: seq<R.Reading>)
      requires Valid()
      modifies registry, registry.clock
      ensures Valid() && |at| == |confirmed| && Elements(confirmed) == Elements(ids)
      ensures State() == old(State()).(registry := R.CloseEach(old(registry.State()), confirmed, R.Host, at, config.limits))
      ensures registry.relays == old(registry.relays) - (set id | id in ids)
      ensures forall id :: id in ids && id in old(registry.relays) ==> registry.SocketsGone(old(registry.relays)[id])
    {
      hide R.CloseEach;
      confirmed, at := registry.CloseRelayIds(ids);
    }

    // ----- a relay setup -----

    /** The relay is gone, and if it was registered its durable closure starts for a failed setup. */
    predicate Failed(before: map<RelayId, R.LocalRelay>, pending: map<RelayId, Reason>, id: RelayId)
      reads this, registry
    {
      Gone(before, id) && closures == if id in before then pending[id := "gateway_setup_failed"] else pending
    }

    /** The end of a setup, failed for a reason of this process. */
    method Fail(setup: SetupId, id: RelayId) returns (ghost at: R.Reading)
      requires Valid()
      modifies this`closures, this`started, this`setups, registry, registry.clock
      ensures Valid()
      ensures State() == FailSetup(config, old(State()), setup, id, at)
      ensures Failed(old(registry.relays), old(closures), id) && setups == old(setups) - {setup}
    {
      hide CloseHere, R.Sound;
      at := CloseRelay(id, R.SetupFailure);
      setups := setups - {setup};
    }

    /** After the redemption. `gone` says that the connection or the channel is closed by now. */
    method ContinueOpened(setup: SetupId, gone: bool, channel: R.Socket) returns (ghost read: int, ghost again: R.Reading)
      requires Valid() && setup in setups && setups[setup].HasOpening?
      modifies this`closures, this`started, this`setups, this`delivered, registry, registry.clock
      ensures Valid()
      ensures State() == Continued(config, old(State()), setup, old(setups)[setup].id, gone, channel, read, again)
      ensures
        var id := old(setups)[setup].id;
        if phase == Serving && !gone && !Live(old(registry.tombstones), id, read) && id !in old(registry.relays)
           && |old(registry.relays)| < config.limits.maxRelays
        then
          && registry.relays == old(registry.relays)[id := R.LocalRelay(R.Registered, channel, None)]
          && closures == old(closures)
          && setups == old(setups)[setup := if accepting then AwaitsActivation(id) else ActivationRefused(id)]
        else
          && registry.relays == old(registry.relays) && channel in registry.destroyed
          && closures == old(closures)[id := "gateway_registration_rejected"]
          && setups == old(setups) - {setup}
    {
      hide R.Register, R.Sound;
      var id := setups[setup].id;
      delivered := delivered + {id};
      read, again := 0, R.Reading(0, 0);
      if phase != Serving || gone {
        registry.Destroy(channel);
        TrackDurableClosure(id, REGISTRATION_REJECTED_REASON);
        setups := setups - {setup};
        return;
      }
      var registration;
      registration, read, again := registry.Register(id, channel);
      if registration != R.Accepted {
        TrackDurableClosure(id, REGISTRATION_REJECTED_REASON);
        setups := setups - {setup};
        return;
      }
      setups := setups[setup := if accepting then AwaitsActivation(id) else ActivationRefused(id)];
    }

    /** After the activation: the dial begins, and its socket is attached before it connects. */
    method ContinueActivated(setup: SetupId, validDestination: bool, upstream: R.Socket)
      returns (ghost begun: int, ghost attached: int, ghost closed: R.Reading)
      requires Valid() && setup in setups && setups[setup].HasActivation?
      modifies this`closures, this`started, this`setups, registry, registry.clock
      ensures Valid()
      ensures State() == Dialed(config, old(State()), setup, old(setups)[setup].id, validDestination, upstream, begun,
                                attached, closed)
      ensures
        var id := old(setups)[setup].id;
        if id in old(registry.relays) && old(registry.relays)[id].state == R.Registered && validDestination
           && !Live(old(registry.tombstones), id, begun) && !Live(old(registry.tombstones), id, attached)
        then
          && registry.relays == old(registry.relays)[id :=
               R.LocalRelay(R.Dialing, old(registry.relays)[id].channel, Some(upstream))]
          && closures == old(closures) && setups == old(setups)[setup := AwaitsDial(id)]
        else Failed(old(registry.relays), old(closures), id) && setups == old(setups) - {setup}
    {
      hide R.BeginDial, R.AttachUpstream, FailSetup, R.Sound, Live;
      var id := setups[setup].id;
      attached, closed := 0, R.Reading(0, 0);
      var ok;
      ok, begun := registry.BeginDial(id);
      if !ok || !validDestination {
        closed := Fail(setup, id);
        return;
      }
      var kept;
      kept, attached := registry.AttachUpstream(id, upstream);
      if !kept {
        closed := Fail(setup, id);
        return;
      }
      setups := setups[setup := AwaitsDial(id)];
    }

    /** After the dial. */
    method DialEnds(setup: SetupId, connected: bool) returns (ghost read: int, ghost closed: R.Reading)
      requires Valid() && setup in setups && setups[setup].AwaitsDial?
      modifies this`closures, this`started, this`setups, registry, registry.clock
      ensures Valid()
      ensures State() == Piped(config, old(State()), setup, old(setups)[setup].id, connected, read, closed)
      ensures
        var id := old(setups)[setup].id;
        var relays := old(registry.relays);
        && setups == old(setups) - {setup}
        && if connected && id in relays && relays[id].state == R.Dialing && !Live(old(registry.tombstones), id, read)
              && relays[id].upstream.Some? && relays[id].upstream.value !in old(registry.destroyed)
           then registry.relays == relays[id := relays[id].(state := R.Active)] && closures == old(closures)
           else Failed(relays, old(closures), id)
    {
      hide R.Activate, FailSetup, R.Sound;
      var id := setups[setup].id;
      read, closed := 0, R.Reading(0, 0);
      if !connected {
        closed := Fail(setup, id);
        return;
      }
      var ok;
      ok, read := registry.Activate(id);
      if !ok {
        closed := Fail(setup, id);
        return;
      }
      setups := setups - {setup};
    }

    // ----- shutdown -----

    /** Stops at most once: every registered relay is closed here before anything is awaited. */
    method Stop() returns (ghost order: seq<RelayId>, ghost at: seq<R.Reading>)
      requires Valid()
      modifies this`phase, this`accepting, this`closures, this`started, registry, registry.clock
      ensures Valid()
      ensures old(phase) != Serving ==> State() == old(State())
      ensures old(phase) == Serving ==>
        && |at| == |order| && Elements(order) == old(registry.relays).Keys
        && State() == Stopped(config, old(State()), order, at)
      ensures old(phase) == Serving ==>
        && phase == Stopping && !accepting && registry.relays == map[]
        && ShutDown(old(closures), old(registry.relays).Keys)
        && (forall id :: id in old(registry.relays) ==> registry.SocketsGone(old(registry.relays)[id]))
    {
      hide R.CloseEach, R.Sound, WithShutdown, Elements, Distinct, ShutDown;
      order, at := [], [];
      if phase != Serving {
        return;
      }
      phase, accepting := Stopping, false;
      var ids;
      ids, at := CloseRegistered();
      order := ids;
      TrackShutdown(ids);
    }

    /** The durable closures of the relays are pending for the shutdown, beside those that were pending before. */
    predicate ShutDown(pending: map<RelayId, Reason>, ids: set<RelayId>)
      reads this`closures
    {
      && closures.Keys == pending.Keys + ids
      && (forall id :: id in ids ==> closures[id] == "gateway_shutdown")
      && (forall id :: id in pending && id !in ids ==> closures[id] == pending[id])
    }

    method CloseRegistered() returns (ids: seq<RelayId>, ghost at: seq<R.Reading>)
      requires Valid()
      modifies registry, registry.clock
      ensures Valid() && Distinct(ids)
      ensures |at| == |ids| && Elements(ids) == old(registry.relays).Keys
      ensures registry.State() == R.CloseEach(old(registry.State()), ids, R.Shutdown, at, config.limits)
      ensures registry.relays == map[]
      ensures forall id :: id in old(registry.relays) ==> registry.SocketsGone(old(registry.relays)[id])
    {
      hide R.CloseEach, R.Sound, R.CallbackIds, Elements;
      ids, at := registry.CloseAll(R.Shutdown);
      SameElements(ids, old(registry.relays).Keys);
    }

    method TrackShutdown(ids: seq<RelayId>)
      requires Distinct(ids)
      modifies this`closures, this`started
      ensures closures == WithShutdown(old(closures), Elements(ids))
      ensures started == old(started) + multiset(Elements(ids))
      ensures ShutDown(old(closures), Elements(ids))
    {
      for i := 0 to |ids|
        invariant closures == WithShutdown(old(closures), Elements(ids[..i]))
        invariant started == old(started) + multiset(Elements(ids[..i]))
      {
        TrackClosureMore(old(closures), ids, i);
        OnRelayClosed(ids[i], R.Shutdown);
      }
      assert ids[..|ids|] == ids;
    }
  }

  predicate Distinct(ids: seq<RelayId>) {
    forall j, k :: 0 <= j < k < |ids| ==> ids[j] != ids[k]
  }

  lemma SameElements(ids: seq<RelayId>, s: set<RelayId>)
    requires forall id :: id in ids <==> id in s
    ensures Elements(ids) == s
  {
  }

  /** Tracking one more of several distinct closures. */
  lemma TrackClosureMore(closures: map<RelayId, Reason>, ids: seq<RelayId>, i: nat)
    requires i < |ids| && Distinct(ids)
    ensures WithShutdown(closures, Elements(ids[..i]))[ids[i] := SHUTDOWN_REASON]
         == WithShutdown(closures, Elements(ids[..i + 1]))
    ensures multiset(Elements(ids[..i])) + multiset{ids[i]} == multiset(Elements(ids[..i + 1]))
  {
    assert Elements(ids[..i + 1]) == Elements(ids[..i]) + {ids[i]};
    assert ids[i] !in Elements(ids[..i]);
  }
}
