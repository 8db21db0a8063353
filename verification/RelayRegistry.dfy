/**
 The process-local relay registry of one gateway.

 The functions on `Registry` say what each operation does to the registry as a
 value. The gateway model steps with them, and the imperative `SshRelayRegistry`
 of module `GatewayRegistry` is proved against them.
 */
module RelayRegistry {
  import opened Wrappers
  import opened Tombstones

  type Socket = nat

  datatype LocalState = Registered | Dialing | Active

  datatype Origin = Host | Natural | SetupFailure | Shutdown

  datatype Registration = Accepted | Tombstoned | Capacity

  datatype LocalRelay = LocalRelay(state: LocalState, channel: Socket, upstream: Option<Socket>)

  /** One call of a relay's close callback. */
  datatype Callback = Callback(id: RelayId, origin: Origin)

  /** The two clock readings of one tombstoning: before pruning and before stamping. */
  datatype Reading = Reading(prunedAt: int, stampedAt: int)

  const MAX_SAFE_INTEGER := 9007199254740991

  datatype Limits = Limits(maxRelays: int, maxTombstones: int, ttl: int) {
    predicate Valid() {
      0 < maxRelays <= MAX_SAFE_INTEGER && 0 < maxTombstones <= MAX_SAFE_INTEGER && 0 < ttl <= MAX_SAFE_INTEGER
    }
  }

  type ValidLimits = l: Limits | l.Valid() witness Limits(1, 1, 1)

  datatype Registry = Registry(
    relays: map<RelayId, LocalRelay>,
    tombstones: seq<Tombstone>,
    destroyed: set<Socket>,
    callbacks: seq<Callback>)

  const EMPTY := Registry(map[], [], {}, [])

  function SocketsOf(relay: LocalRelay): set<Socket> {
    {relay.channel} + UpstreamOf(relay)
  }

  function UpstreamOf(relay: LocalRelay): set<Socket> {
    if relay.upstream.Some? then {relay.upstream.value} else {}
  }

  function Blocked(r: Registry, id: RelayId, now: int): bool {
    id in Ids(Prune(r.tombstones, now))
  }

  function Pruned(r: Registry, now: int): Registry {
    r.(tombstones := Prune(r.tombstones, now))
  }

  function Entomb(r: Registry, id: RelayId, at: Reading, limits: ValidLimits): Registry {
    r.(tombstones := Stamp(r.tombstones, id, at.prunedAt, at.stampedAt, limits.ttl, limits.maxTombstones))
  }

  function Register(r: Registry, id: RelayId, channel: Socket, now: int, at: Reading, limits: ValidLimits)
    : (Registry, Registration)
  {
    var r' := Pruned(r, now);
    if Blocked(r, id, now) then
      (r'.(destroyed := r.destroyed + {channel}), Tombstoned)
    else if id in r.relays then
      (Entomb(r', id, at, limits).(destroyed := r.destroyed + {channel}), Tombstoned)
    else if |r.relays| >= limits.maxRelays then
      (r'.(destroyed := r.destroyed + {channel}), Capacity)
    else
      (r'.(relays := r.relays[id := LocalRelay(Registered, channel, None)]), Accepted)
  }

  function BeginDial(r: Registry, id: RelayId, now: int): (Registry, bool) {
    if id !in r.relays || r.relays[id].state != Registered then
      (r, false)
    else if Blocked(r, id, now) then
      (Pruned(r, now), false)
    else
      (Pruned(r, now).(relays := r.relays[id := r.relays[id].(state := Dialing)]), true)
  }

  function AttachUpstream(r: Registry, id: RelayId, upstream: Socket, now: int): (Registry, bool) {
    if id !in r.relays || r.relays[id].state != Dialing then
      (r.(destroyed := r.destroyed + {upstream}), false)
    else if Blocked(r, id, now) then
      (Pruned(r, now).(destroyed := r.destroyed + {upstream}), false)
    else
      (Pruned(r, now).(relays := r.relays[id := r.relays[id].(upstream := Some(upstream))]), true)
  }

  function Activate(r: Registry, id: RelayId, now: int): (Registry, bool) {
    if id !in r.relays then
      (r, false)
    else
      var relay := r.relays[id];
      if relay.state != Dialing || relay.upstream.None? || relay.upstream.value in r.destroyed then
        (r.(destroyed := r.destroyed + UpstreamOf(relay)), false)
      else if Blocked(r, id, now) then
        (Pruned(r, now).(destroyed := r.destroyed + UpstreamOf(relay)), false)
      else
        (Pruned(r, now).(relays := r.relays[id := relay.(state := Active)]), true)
  }

  /** Closing a relay. An unknown one is tombstoned, so a later registration is rejected. */
  function Close(r: Registry, id: RelayId, origin: Origin, at: Reading, limits: ValidLimits): Registry {
    var r' := Entomb(r, id, at, limits);
    if id !in r.relays then r'
    else
      r'.(relays := r.relays - {id},
          destroyed := r.destroyed + SocketsOf(r.relays[id]),
          callbacks := r.callbacks + [Callback(id, origin)])
  }

  /** Closing relays one after the other. */
  function CloseEach(r: Registry, ids: seq<RelayId>, origin: Origin, at: seq<Reading>, limits: ValidLimits): Registry
    requires |at| == |ids|
  {
    if ids == [] then r
    else
      var n := |ids| - 1;
      Close(CloseEach(r, ids[..n], origin, at[..n], limits), ids[n], origin, at[n], limits)
  }

  // ----- what the operations mean -----

  function CallbackIds(cs: seq<Callback>): (ids: seq<RelayId>)
    ensures |ids| == |cs|
  {
    seq(|cs|, i requires 0 <= i < |cs| => cs[i].id)
  }

  /** Every accepted relay is still registered, or its callback ran; and no callback ran for anything else. */
  ghost predicate Conserved(r: Registry, accepted: multiset<RelayId>) {
    accepted == multiset(CallbackIds(r.callbacks)) + multiset(r.relays.Keys)
  }

  /** What every operation keeps: the two bounds, the faithful tombstone table, and the callback accounting. */
  ghost predicate Sound(r: Registry, history: seq<Tombstone>, accepted: multiset<RelayId>, now: int, limits: ValidLimits) {
    && |r.relays| <= limits.maxRelays
    && Faithful(r.tombstones, history, now, limits.ttl, limits.maxTombstones)
    && Conserved(r, accepted)
  }

  lemma CallbackIdsAppend(cs: seq<Callback>, c: Callback)
    ensures CallbackIds(cs + [c]) == CallbackIds(cs) + [c.id]
  {
  }

  lemma CloseConserves(r: Registry, accepted: multiset<RelayId>, id: RelayId, origin: Origin, at: Reading,
                       limits: ValidLimits)
    requires Conserved(r, accepted)
    ensures Conserved(Close(r, id, origin, at, limits), accepted)
  {
    if id in r.relays {
      var r' := Close(r, id, origin, at, limits);
      CallbackIdsAppend(r.callbacks, Callback(id, origin));
      assert r.relays.Keys == r'.relays.Keys + {id};
      assert multiset(r.relays.Keys) == multiset(r'.relays.Keys) + multiset{id};
    }
  }

  lemma {:induction false} CloseSound(r: Registry, history: seq<Tombstone>, accepted: multiset<RelayId>, now: int,
                                      id: RelayId, origin: Origin, at: Reading, limits: ValidLimits)
    requires Sound(r, history, accepted, now, limits) && now <= at.prunedAt <= at.stampedAt
    ensures Sound(Close(r, id, origin, at, limits), history + [Tombstone(id, at.stampedAt + limits.ttl)], accepted,
                  at.stampedAt, limits)
  {
    hide Faithful, Conserved;
    CloseConserves(r, accepted, id, origin, at, limits);
    StampFaithful(r.tombstones, history, now, id, at.prunedAt, at.stampedAt, limits.ttl, limits.maxTombstones);
    if id in r.relays {
      assert r.relays.Keys == (r.relays - {id}).Keys + {id};
    }
  }

  lemma RegisterSound(r: Registry, history: seq<Tombstone>, accepted: multiset<RelayId>, before: int, id: RelayId,
                      channel: Socket, now: int, at: Reading, limits: ValidLimits)
    requires Sound(r, history, accepted, before, limits) && before <= now <= at.prunedAt <= at.stampedAt
    ensures var (r', result) := Register(r, id, channel, now, at, limits);
            var again := !Blocked(r, id, now) && id in r.relays;
            Sound(r', if again then history + [Tombstone(id, at.stampedAt + limits.ttl)] else history,
                  if result == Accepted then accepted + multiset{id} else accepted, if again then at.stampedAt else now,
                  limits)
  {
    hide Faithful, Conserved;
    RegisterConserves(r, accepted, id, channel, now, at, limits);
    PruneFaithful(r.tombstones, history, before, now, limits.ttl, limits.maxTombstones);
    StampFaithful(Prune(r.tombstones, now), history, now, id, at.prunedAt, at.stampedAt, limits.ttl,
                  limits.maxTombstones);
  }

  lemma BeginDialSound(r: Registry, history: seq<Tombstone>, accepted: multiset<RelayId>, before: int, id: RelayId,
                       now: int, limits: ValidLimits)
    requires Sound(r, history, accepted, before, limits) && before <= now
    ensures Sound(BeginDial(r, id, now).0, history, accepted, now, limits)
  {
    hide Faithful;
    PruneFaithful(r.tombstones, history, before, now, limits.ttl, limits.maxTombstones);
    LaterFaithful(r.tombstones, history, before, now, limits.ttl, limits.maxTombstones);
    assert BeginDial(r, id, now).0.relays.Keys == r.relays.Keys;
  }

  lemma AttachUpstreamSound(r: Registry, history: seq<Tombstone>, accepted: multiset<RelayId>, before: int, id: RelayId,
                            upstream: Socket, now: int, limits: ValidLimits)
    requires Sound(r, history, accepted, before, limits) && before <= now
    ensures Sound(AttachUpstream(r, id, upstream, now).0, history, accepted, now, limits)
  {
    hide Faithful;
    PruneFaithful(r.tombstones, history, before, now, limits.ttl, limits.maxTombstones);
    LaterFaithful(r.tombstones, history, before, now, limits.ttl, limits.maxTombstones);
    assert AttachUpstream(r, id, upstream, now).0.relays.Keys == r.relays.Keys;
  }

  lemma ActivateSound(r: Registry, history: seq<Tombstone>, accepted: multiset<RelayId>, before: int, id: RelayId,
                      now: int, limits: ValidLimits)
    requires Sound(r, history, accepted, before, limits) && before <= now
    ensures Sound(Activate(r, id, now).0, history, accepted, now, limits)
  {
    hide Faithful;
    PruneFaithful(r.tombstones, history, before, now, limits.ttl, limits.maxTombstones);
    LaterFaithful(r.tombstones, history, before, now, limits.ttl, limits.maxTombstones);
    assert Activate(r, id, now).0.relays.Keys == r.relays.Keys;
  }

  lemma RegisterConserves(r: Registry, accepted: multiset<RelayId>, id: RelayId, channel: Socket, now: int, at: Reading,
                          limits: ValidLimits)
    requires Conserved(r, accepted)
    ensures var (r', result) := Register(r, id, channel, now, at, limits);
            Conserved(r', if result == Accepted then accepted + multiset{id} else accepted)
  {
    var (r', result) := Register(r, id, channel, now, at, limits);
    if result == Accepted {
      assert r'.relays.Keys == r.relays.Keys + {id};
      assert multiset(r'.relays.Keys) == multiset(r.relays.Keys) + multiset{id};
    }
  }

  /**
   Closing a list of relays unregisters exactly those, calls back each one that
   was registered exactly once, and tombstones nothing outside the list.
   */
  lemma {:induction false} CloseEachEffect(r: Registry, ids: seq<RelayId>, origin: Origin, at: seq<Reading>,
                                           limits: ValidLimits)
    requires |at| == |ids|
    ensures var r' := CloseEach(r, ids, origin, at, limits);
            && r'.relays == r.relays - (set id | id in ids)
            && r.callbacks <= r'.callbacks
            && (forall c :: c in r'.callbacks[|r.callbacks|..] <==> c.origin == origin && c.id in ids && c.id in r.relays)
            && r.destroyed <= r'.destroyed
            && (forall id :: id in ids && id in r.relays ==> SocketsOf(r.relays[id]) <= r'.destroyed)
  {
    if ids == [] {
      assert r.relays == r.relays - {};
    } else {
      var n := |ids| - 1;
      var mid := CloseEach(r, ids[..n], origin, at[..n], limits);
      CloseEachEffect(r, ids[..n], origin, at[..n], limits);
      var r' := Close(mid, ids[n], origin, at[n], limits);
      assert ids == ids[..n] + [ids[n]];
      assert forall id :: id in ids <==> id in ids[..n] || id == ids[n];
      assert r'.relays == mid.relays - {ids[n]};
      assert r'.relays == r.relays - (set id | id in ids);
      var was := mid.callbacks[|r.callbacks|..];
      if ids[n] in mid.relays {
        assert r'.callbacks[|r.callbacks|..] == was + [Callback(ids[n], origin)];
      }
    }
  }

  lemma {:induction false} CloseEachConserves(r: Registry, accepted: multiset<RelayId>, ids: seq<RelayId>, origin: Origin,
                                              at: seq<Reading>, limits: ValidLimits)
    requires |at| == |ids| && Conserved(r, accepted)
    ensures Conserved(CloseEach(r, ids, origin, at, limits), accepted)
  {
    if ids != [] {
      var n := |ids| - 1;
      CloseEachConserves(r, accepted, ids[..n], origin, at[..n], limits);
      CloseConserves(CloseEach(r, ids[..n], origin, at[..n], limits), accepted, ids[n], origin, at[n], limits);
    }
  }

  /** Closing every registered relay calls back each one that was ever accepted exactly once in all. */
  lemma AllCalledBack(r: Registry, accepted: multiset<RelayId>, ids: seq<RelayId>, origin: Origin, at: seq<Reading>,
                      limits: ValidLimits)
    requires |at| == |ids| && Conserved(r, accepted) && forall id :: id in r.relays ==> id in ids
    ensures multiset(CallbackIds(CloseEach(r, ids, origin, at, limits).callbacks)) == accepted
  {
    hide CloseEach;
    CloseEachConserves(r, accepted, ids, origin, at, limits);
    CloseEachEffect(r, ids, origin, at, limits);
    assert r.relays - (set id | id in ids) == map[];
  }

  /**
   The race the tombstones close: a relay closed before it was registered is
   rejected by a registration that follows before the tombstone expires.
   */
  lemma TombstoneRejectsRegistration(r: Registry, id: RelayId, origin: Origin, at: Reading, channel: Socket, now: int,
                                     again: Reading, limits: ValidLimits)
    requires at.prunedAt <= at.stampedAt <= now < at.stampedAt + limits.ttl
    ensures var closed := Close(r, id, origin, at, limits);
            var (r', result) := Register(closed, id, channel, now, again, limits);
            result == Tombstoned && id !in r'.relays && channel in r'.destroyed
  {
    var ts := Entomb(r, id, at, limits).tombstones;
    var mine := Tombstone(id, at.stampedAt + limits.ttl);
    assert ts[|ts| - 1] == mine;
    PruneMembers(ts, now);
    assert mine in Prune(ts, now);
  }
}
