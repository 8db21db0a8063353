/** The registry class of one gateway, updated in place as the source does. */
module GatewayRegistry {
  import opened Wrappers
  import opened Tombstones
  import opened R = RelayRegistry

  /** Date.now(): every reading is at or after the previous one. */
  class Clock {
    var now: int

    constructor ()
    {
      now := 0;
    }

    method Read() returns (t: int)
      modifies this
      ensures t == now >= old(now)
    {
      t :| t >= now;
      now := t;
    }
  }

  class SshRelayRegistry {
    const limits: ValidLimits
    const clock: Clock
    var relays: map<RelayId, LocalRelay>
    var tombstones: seq<Tombstone>
    var destroyed: set<Socket>
    var callbacks: seq<Callback>
    /** Every tombstoning and every accepted registration since construction. */
    ghost var history: seq<Tombstone>
    ghost var accepted: multiset<RelayId>

    ghost function State(): Registry
      reads this
    {
      Registry(relays, tombstones, destroyed, callbacks)
    }

    /** The tombstone table alone, which the private helpers rely on. */
    ghost predicate TableValid()
      reads this, clock
    {
      Faithful(tombstones, history, clock.now, limits.ttl, limits.maxTombstones)
    }

    ghost predicate Valid()
      reads this, clock
    {
      Sound(State(), history, accepted, clock.now, limits)
    }

    constructor (limits: ValidLimits, clock: Clock)
      ensures Valid() && State() == EMPTY
      ensures this.limits == limits && this.clock == clock && accepted == multiset{} && history == []
    {
      this.limits := limits;
      this.clock := clock;
      relays, tombstones, destroyed, callbacks := map[], [], {}, [];
      history, accepted := [], multiset{};
    }

    /** The source refuses limits that are not positive safe integers. */
    static method Create(limits: Limits, clock: Clock) returns (registry: SshRelayRegistry?)
      ensures registry == null <==> !limits.Valid()
      ensures registry != null ==> fresh(registry) && registry.Valid() && registry.State() == EMPTY
      ensures registry != null ==> registry.limits == limits && registry.clock == clock
    {
      if !limits.Valid() {
        return null;
      }
      registry := new SshRelayRegistry(limits, clock);
    }

    /** What holds of the table at any time, in the terms of the promises made for it. */
    lemma TableBounds()
      requires Valid()
      ensures |relays| <= limits.maxRelays && |tombstones| <= limits.maxTombstones
      ensures Sorted(tombstones) && DistinctIds(tombstones)
    {
      FaithfulTable(tombstones, history, clock.now, limits.ttl, limits.maxTombstones);
    }

    method PruneTombstones() returns (now: int)
      requires TableValid()
      modifies this`tombstones, clock
      ensures TableValid() && old(clock.now) <= now == clock.now
      ensures State() == Pruned(old(State()), now)
      ensures forall id :: id in Ids(tombstones) <==> Live(old(tombstones), id, now)
    {
      ghost var was, past := tombstones, history;
      ghost var before := clock.now;
      now := clock.Read();
      PruneExpired(now);
      PruneFaithful(was, past, before, now, limits.ttl, limits.maxTombstones);
    }

    method PruneExpired(now: int)
      modifies this`tombstones
      ensures tombstones == Prune(old(tombstones), now)
      ensures forall e :: e in tombstones <==> e in old(tombstones) && e.expiresAt > now
    {
      ghost var was := tombstones;
      ghost var seen := 0;
      var i := 0;
      while i < |tombstones|
        invariant 0 <= seen <= |was|
        invariant i == |Prune(was[..seen], now)|
        invariant tombstones == Prune(was[..seen], now) + was[seen..]
      {
        hide Prune;
        PruneRow(was, seen, tombstones, i, now);
        if tombstones[i].expiresAt <= now {
          tombstones := tombstones[..i] + tombstones[i + 1..];
        } else {
          i := i + 1;
        }
        seen := seen + 1;
      }
      assert was[..seen] == was;
      PruneMembers(was, now);
    }

    method IsTombstoned(id: RelayId) returns (blocked: bool, ghost now: int)
      requires TableValid()
      modifies this`tombstones, clock
      ensures TableValid() && old(clock.now) <= now == clock.now
      ensures State() == Pruned(old(State()), now)
      ensures blocked == Blocked(old(State()), id, now)
      ensures blocked <==> Live(old(tombstones), id, now)
      ensures forall later :: now <= later ==> (Live(tombstones, id, later) <==> Live(old(tombstones), id, later))
    {
      now := PruneTombstones();
      blocked := id in Ids(tombstones);
    }

    method AddTombstone(id: RelayId) returns (ghost at: Reading)
      requires TableValid()
      modifies this`tombstones, this`history, clock
      ensures TableValid() && old(clock.now) <= at.prunedAt <= at.stampedAt == clock.now
      ensures State() == Entomb(old(State()), id, at, limits)
      ensures history == old(history) + [Tombstone(id, at.stampedAt + limits.ttl)]
      ensures tombstones != [] && tombstones[|tombstones| - 1] == Tombstone(id, at.stampedAt + limits.ttl)
    {
      hide Faithful, Conserved, Without, Prune, Newest;
      ghost var was, past := tombstones, history;
      ghost var before := clock.now;
      var prunedAt := PruneTombstones();
      tombstones := Without(tombstones, id);
      var stampedAt := clock.Read();
      tombstones := tombstones + [Tombstone(id, stampedAt + limits.ttl)];
      EvictOldest();
      at := Reading(prunedAt, stampedAt);
      StampFaithful(was, past, before, id, prunedAt, stampedAt, limits.ttl, limits.maxTombstones);
      history := past + [Tombstone(id, stampedAt + limits.ttl)];
    }

    method EvictOldest()
      modifies this`tombstones
      ensures tombstones == Newest(old(tombstones), limits.maxTombstones)
      ensures old(tombstones) != [] ==>
        tombstones != [] && tombstones[|tombstones| - 1] == old(tombstones)[|old(tombstones)| - 1]
    {
      ghost var all := tombstones;
      while |tombstones| > limits.maxTombstones
        invariant |tombstones| <= |all| && tombstones == all[|all| - |tombstones|..]
        invariant |tombstones| == |all| || |tombstones| >= limits.maxTombstones
      {
        tombstones := tombstones[1..];
      }
    }

    method ActiveRelayCount() returns (count: nat)
      ensures count == |relays|
    {
      count := |relays|;
    }

    method TombstoneCount() returns (count: nat)
      requires Valid()
      modifies this`tombstones, clock
      ensures Valid() && count == |tombstones| && State() == Pruned(old(State()), clock.now)
      ensures old(clock.now) <= clock.now
    {
      var _ := PruneTombstones();
      count := |tombstones|;
    }

    method Register(id: RelayId, channel: Socket) returns (result: Registration, ghost now: int, ghost at: Reading)
      requires Valid()
      modifies this, clock
      ensures Valid() && old(clock.now) <= now <= clock.now
      ensures (State(), result) == R.Register(old(State()), id, channel, now, at, limits)
      ensures accepted == if result == Accepted then old(accepted) + multiset{id} else old(accepted)
      ensures result == Accepted <==>
        !Live(old(tombstones), id, now) && id !in old(relays) && |old(relays)| < limits.maxRelays
      ensures result == Capacity <==>
        !Live(old(tombstones), id, now) && id !in old(relays) && |old(relays)| >= limits.maxRelays
      ensures relays == if result == Accepted then old(relays)[id := LocalRelay(Registered, channel, None)] else old(relays)
      ensures destroyed == if result == Accepted then old(destroyed) else old(destroyed) + {channel}
      ensures id in old(relays) && result == Tombstoned && !Live(old(tombstones), id, now) ==>
        Live(tombstones, id, clock.now)
      ensures callbacks == old(callbacks)
    {
      hide Faithful, Conserved;
      ghost var was, past, counted := State(), history, accepted;
      ghost var before := clock.now;
      now := PruneTombstones();
      at := Reading(now, now);
      if id in Ids(tombstones) {
        destroyed := destroyed + {channel};
        result := Tombstoned;
      } else if id in relays {
        destroyed := destroyed + {channel};
        at := AddTombstone(id);
        assert tombstones[|tombstones| - 1] in tombstones;
        result := Tombstoned;
      } else if |relays| >= limits.maxRelays {
        destroyed := destroyed + {channel};
        result := Capacity;
      } else {
        relays := relays[id := LocalRelay(Registered, channel, None)];
        accepted := accepted + multiset{id};
        result := Accepted;
      }
      RegisterSound(was, past, counted, before, id, channel, now, at, limits);
    }

    method BeginDial(id: RelayId) returns (ok: bool, ghost now: int)
      requires Valid()
      modifies this`relays, this`tombstones, clock
      ensures Valid() && old(clock.now) <= now == clock.now
      ensures (State(), ok) == R.BeginDial(old(State()), id, now)
      ensures ok <==>
        id in old(relays) && old(relays)[id].state == Registered && !Live(old(tombstones), id, now)
      ensures relays == if ok then old(relays)[id := old(relays)[id].(state := Dialing)] else old(relays)
      ensures forall later :: now <= later ==> (Live(tombstones, id, later) <==> Live(old(tombstones), id, later))
    {
      ghost var was, before := State(), clock.now;
      now := clock.now;
      ok := false;
      if id in relays && relays[id].state == Registered {
        var blocked;
        blocked, now := IsTombstoned(id);
        if !blocked {
          relays := relays[id := relays[id].(state := Dialing)];
          ok := true;
        }
      }
      BeginDialSound(was, history, accepted, before, id, now, limits);
    }

    method AttachUpstream(id: RelayId, upstream: Socket) returns (ok: bool, ghost now: int)
      requires Valid()
      modifies this`relays, this`tombstones, this`destroyed, clock
      ensures Valid() && old(clock.now) <= now == clock.now
      ensures (State(), ok) == R.AttachUpstream(old(State()), id, upstream, now)
      ensures ok <==> id in old(relays) && old(relays)[id].state == Dialing && !Live(old(tombstones), id, now)
      ensures relays == if ok then old(relays)[id := old(relays)[id].(upstream := Some(upstream))] else old(relays)
      ensures destroyed == if ok then old(destroyed) else old(destroyed) + {upstream}
    {
      hide Faithful, Conserved;
      ghost var was, before := State(), clock.now;
      now := clock.now;
      var blocked := id !in relays || relays[id].state != Dialing;
      if !blocked {
        blocked, now := IsTombstoned(id);
      }
      if blocked {
        destroyed := destroyed + {upstream};
      } else {
        relays := relays[id := relays[id].(upstream := Some(upstream))];
      }
      ok := !blocked;
      AttachUpstreamSound(was, history, accepted, before, id, upstream, now, limits);
    }

    method Activate(id: RelayId) returns (ok: bool, ghost now: int)
      requires Valid()
      modifies this`relays, this`tombstones, this`destroyed, clock
      ensures Valid() && old(clock.now) <= now == clock.now
      ensures (State(), ok) == R.Activate(old(State()), id, now)
      ensures ok <==>
        && id in old(relays) && old(relays)[id].state == Dialing && !Live(old(tombstones), id, now)
        && old(relays)[id].upstream.Some? && old(relays)[id].upstream.value !in old(destroyed)
      ensures relays == if ok then old(relays)[id := old(relays)[id].(state := Active)] else old(relays)
      ensures destroyed ==
        if !ok && id in old(relays) && old(relays)[id].upstream.Some? then
          old(destroyed) + {old(relays)[id].upstream.value}
        else old(destroyed)
    {
      hide Faithful, Conserved;
      ghost var was, before := State(), clock.now;
      now := clock.now;
      if id !in relays {
        return false, now;
      }
      var relay := relays[id];
      var blocked := relay.state != Dialing || relay.upstream.None? || relay.upstream.value in destroyed;
      if !blocked {
        blocked, now := IsTombstoned(id);
      }
      if blocked {
        destroyed := destroyed + UpstreamOf(relay);
      } else {
        relays := relays[id := relay.(state := Active)];
      }
      ok := !blocked;
      ActivateSound(was, history, accepted, before, id, now, limits);
    }

    method Close(id: RelayId, origin: Origin) returns (known: bool, ghost at: Reading)
      requires Valid()
      modifies this, clock
      ensures Valid() && old(clock.now) <= at.prunedAt <= at.stampedAt == clock.now
      ensures known == (id in old(relays))
      ensures State() == R.Close(old(State()), id, origin, at, limits)
      ensures relays == old(relays) - {id} && old(destroyed) <= destroyed
      ensures id in old(relays) ==> SocketsGone(old(relays)[id])
      ensures callbacks == if id in old(relays) then old(callbacks) + [Callback(id, origin)] else old(callbacks)
      ensures tombstones != [] && tombstones[|tombstones| - 1] == Tombstone(id, at.stampedAt + limits.ttl)
      ensures accepted == old(accepted)
    {
      hide Faithful, Conserved, Stamp, CallbackIds;
      ghost var was, past, before := State(), history, clock.now;
      known := id in relays;
      at := Drop(id, origin);
      CloseSound(was, past, accepted, before, id, origin, at, limits);
    }

    /** What closing does to the relay and to the table, whatever the rest of the registry holds. */
    method Drop(id: RelayId, origin: Origin) returns (ghost at: Reading)
      requires TableValid()
      modifies this`relays, this`tombstones, this`destroyed, this`callbacks, this`history, clock
      ensures old(clock.now) <= at.prunedAt <= at.stampedAt == clock.now
      ensures State() == R.Close(old(State()), id, origin, at, limits)
      ensures relays == old(relays) - {id} && old(destroyed) <= destroyed
      ensures id in old(relays) ==> SocketsGone(old(relays)[id])
      ensures callbacks == if id in old(relays) then old(callbacks) + [Callback(id, origin)] else old(callbacks)
      ensures history == old(history) + [Tombstone(id, at.stampedAt + limits.ttl)]
      ensures tombstones != [] && tombstones[|tombstones| - 1] == Tombstone(id, at.stampedAt + limits.ttl)
    {
      hide Faithful, Stamp;
      if id !in relays {
        at := AddTombstone(id);
      } else {
        var relay := relays[id];
        relays := relays - {id};
        at := AddTombstone(id);
        DestroySockets(relay);
        callbacks := callbacks + [Callback(id, origin)];
      }
    }

    method DestroySockets(relay: LocalRelay)
      modifies this`destroyed
      ensures destroyed == old(destroyed) + SocketsOf(relay) && relay.channel in destroyed
      ensures relay.upstream.Some? ==> relay.upstream.value in destroyed
    {
      destroyed := destroyed + {relay.channel};
      if relay.upstream.Some? {
        destroyed := destroyed + {relay.upstream.value};
      }
    }

    /** A socket that was never registered is destroyed all the same. */
    method Destroy(socket: Socket)
      requires Valid()
      modifies this`destroyed
      ensures Valid() && destroyed == old(destroyed) + {socket}
    {
      hide Faithful;
      destroyed := destroyed + {socket};
    }

    /** The host's relay closer: every distinct ID is closed, and every one is confirmed. */
    method CloseRelayIds(ids: seq<RelayId>) returns (confirmed: seq<RelayId>, ghost at: seq<Reading>)
      requires Valid()
      modifies this, clock
      ensures Valid() && accepted == old(accepted) && old(clock.now) <= clock.now
      ensures forall i, j :: 0 <= i < j < |confirmed| ==> confirmed[i] != confirmed[j]
      ensures forall id :: id in confirmed <==> id in ids
      ensures |at| == |confirmed| && State() == CloseEach(old(State()), confirmed, Host, at, limits)
      ensures relays == old(relays) - (set id | id in ids) && old(destroyed) <= destroyed
      ensures forall id :: id in ids && id in old(relays) ==> SocketsGone(old(relays)[id])
    {
      ghost var was := State();
      confirmed := Distinct(ids);
      at := CloseList(confirmed, Host);
      CloseEachEffect(was, confirmed, Host, at, limits);
      assert (set id | id in confirmed) == (set id | id in ids);
    }

    method CloseAll(origin: Origin) returns (ids: seq<RelayId>, ghost at: seq<Reading>)
      requires Valid()
      modifies this, clock
      ensures Valid() && accepted == old(accepted) && old(clock.now) <= clock.now
      ensures relays == map[]
      ensures forall i, j :: 0 <= i < j < |ids| ==> ids[i] != ids[j]
      ensures forall id :: id in ids <==> id in old(relays)
      ensures |at| == |ids| && State() == CloseEach(old(State()), ids, origin, at, limits)
      ensures multiset(CallbackIds(callbacks)) == accepted
      ensures forall id :: id in old(relays) ==> SocketsGone(old(relays)[id])
    {
      hide Faithful, Conserved, CallbackIds;
      ids := [];
      var rest := relays.Keys;
      while rest != {}
        invariant rest <= relays.Keys && State() == old(State())
        invariant forall i, j :: 0 <= i < j < |ids| ==> ids[i] != ids[j]
        invariant forall id :: id in ids <==> id in relays && id !in rest
        decreases |rest|
      {
        var id :| id in rest;
        rest := rest - {id};
        ids := ids + [id];
      }
      ghost var was := State();
      at := CloseList(ids, origin);
      CloseEachEffect(was, ids, origin, at, limits);
      AllCalledBack(was, accepted, ids, origin, at, limits);
    }

    /** Both sockets of the relay are destroyed. */
    predicate SocketsGone(relay: LocalRelay)
      reads this
    {
      relay.channel in destroyed && (relay.upstream.Some? ==> relay.upstream.value in destroyed)
    }

    method CloseList(ids: seq<RelayId>, origin: Origin) returns (ghost at: seq<Reading>)
      requires Valid()
      modifies this, clock
      ensures Valid() && accepted == old(accepted) && old(clock.now) <= clock.now
      ensures |at| == |ids| && State() == CloseEach(old(State()), ids, origin, at, limits)
    {
      hide Sound, R.Close;
      at := [];
      for i := 0 to |ids|
        invariant Valid() && accepted == old(accepted) && old(clock.now) <= clock.now
        invariant |at| == i && State() == CloseEach(old(State()), ids[..i], origin, at, limits)
      {
        var known, read := Close(ids[i], origin);
        assert ids[..i + 1][..i] == ids[..i] && (at + [read])[..i] == at;
        at := at + [read];
      }
      assert ids[..|ids|] == ids;
    }
  }

  method Distinct(ids: seq<RelayId>) returns (r: seq<RelayId>)
    ensures forall i, j :: 0 <= i < j < |r| ==> r[i] != r[j]
    ensures forall id :: id in r <==> id in ids
  {
    r := [];
    for i := 0 to |ids|
      invariant forall i, j :: 0 <= i < j < |r| ==> r[i] != r[j]
      invariant forall id :: id in r <==> id in ids[..i]
    {
      if ids[i] !in r {
        r := r + [ids[i]];
      }
      assert ids[..i + 1] == ids[..i] + [ids[i]];
    }
    assert ids[..|ids|] == ids;
  }
}
