/** What every interleaving of the authority process keeps. */
module GatewaySafety {
  import opened Wrappers
  import opened SshTables
  import opened SshPolicy
  import opened Gateway
  import S = SshPolicySafety
  import Runs = SshPolicyRuns
  import R = RelayRegistry
  import Tomb = Tombstones

  // ----- the invariant -----

  predicate IsClosing(db: Tables, id: RelayId) {
    id in db.relays && (db.relays[id].status == Closing || db.relays[id].status == Closed)
  }

  /** The relay can never dial or carry a stream again, whatever its tombstone. */
  ghost predicate Quiet(s: System, id: RelayId) {
    var p := s.process;
    && IsClosing(s.db, id)
    && (id in p.registry.relays ==> p.registry.relays[id].state == R.Registered)
    && (id in p.registry.relays ==> forall k :: k in p.setups && p.setups[k].HasActivation? ==> p.setups[k].id != id)
  }

  /** The relay dials, carries a stream, or is about to dial. */
  ghost predicate Carried(p: Process, id: RelayId) {
    && id in p.registry.relays
    && (p.registry.relays[id].state != R.Registered
        || exists k :: k in p.setups && p.setups[k].HasActivation? && p.setups[k].id == id)
  }

  /** A committed revocation of the relay that has not closed it here yet, or that gave up. */
  ghost predicate BeingRevoked(p: Process, id: RelayId) {
    id in p.unconfirmed || exists k :: k in p.calls && p.calls[k].Marked? && id in p.calls[k].ids
  }

  /** What became of a redeemed relay that is not registered. */
  ghost predicate Accounted(s: System, id: RelayId) {
    var p := s.process;
    || (id in s.db.relays && s.db.relays[id].status == Closed)
    || id in p.closures || id in p.unclosed || id in p.unconfirmed
    || exists k :: k in p.calls && p.calls[k].ClosedHere? && id in p.calls[k].ids
  }

  ghost predicate Waiting(p: Process, id: RelayId) {
    exists k :: k in p.setups && p.setups[k].HasOpening? && p.setups[k].id == id
  }

  ghost predicate RedeemedSound(gateway: GatewayId, s: System) {
    var p := s.process;
    && (forall id :: id in p.redeemed ==> id in s.db.relays && s.db.relays[id].gateway == gateway)
    && p.delivered <= p.redeemed
    && p.registry.relays.Keys <= p.delivered
  }

  ghost predicate SetupsSound(p: Process) {
    && (forall k :: k in p.setups && !p.setups[k].AwaitsRedemption? ==>
          p.setups[k].id in p.redeemed && (p.setups[k].HasOpening? <==> p.setups[k].id !in p.delivered))
    && (forall j, k | j in p.setups && k in p.setups && p.setups[j].HasOpening? && p.setups[k].HasOpening? ::
          p.setups[j].id == p.setups[k].id ==> j == k)
  }

  ghost predicate ClosuresSound(p: Process) {
    && p.closures.Keys <= p.delivered
    && p.closures.Keys !! p.registry.relays.Keys
    && (forall id :: p.started[id] <= 1)
    && (forall id :: id in p.started ==> id in p.delivered && id !in p.registry.relays)
  }

  ghost predicate CallsSound(s: System) {
    var p := s.process;
    && (forall k :: k in p.calls && p.calls[k].Admitted? ==> HostCommand(p.calls[k].command))
    && (forall k, id :: k in p.calls && p.calls[k].Marked? && id in p.calls[k].ids ==> IsClosing(s.db, id))
    && (forall k, id :: k in p.calls && p.calls[k].ClosedHere? && id in p.calls[k].ids ==> Quiet(s, id))
    && (forall id :: id in s.confirmed ==> Quiet(s, id) && s.db.relays[id].status == Closed)
  }

  ghost predicate CarriedSound(s: System) {
    forall id :: Carried(s.process, id) && id in s.db.relays ==>
      || s.db.relays[id].status == SshTables.Active
      || (s.db.relays[id].status == Closing && BeingRevoked(s.process, id))
  }

  ghost predicate AccountedSound(s: System) {
    var p := s.process;
    forall id :: id in p.redeemed && id !in p.registry.relays && id !in p.lost && !Waiting(p, id) ==> Accounted(s, id)
  }

  ghost predicate PhaseSound(p: Process) {
    && (p.phase != Serving ==> p.registry.relays == map[] && !p.accepting)
    && (p.phase != Serving && p.phase != Stopping ==> p.setups == map[])
    && (p.phase.Settling? ==> p.closures.Keys <= p.phase.tasks)
    && (p.phase == Resolved || p.phase == Rejected || p.phase == Released ==> p.closures == map[])
    && (p.phase == Released ==> p.calls == map[])
  }

  ghost predicate Inv(gateway: GatewayId, s: System) {
    && S.Sound(s.db, s.now)
    && RedeemedSound(gateway, s) && SetupsSound(s.process) && ClosuresSound(s.process) && CallsSound(s)
    && CarriedSound(s) && AccountedSound(s) && PhaseSound(s.process)
  }

  // ----- what transactions do to relays -----

  /** Rows persist with their gateway, and a closing relay stays closing or closed. */
  ghost predicate Onward(db: Tables, db': Tables) {
    && (forall id :: id in db.relays ==> id in db'.relays && db'.relays[id].gateway == db.relays[id].gateway)
    && (forall id :: IsClosing(db, id) ==> IsClosing(db', id))
    && (forall id :: id in db.relays && db.relays[id].status == Closed ==> db'.relays[id].status == Closed)
  }

  lemma StepOnward(s: System, at: int, c: Command)
    requires S.Sound(s.db, s.now) && s.now <= at
    ensures S.Sound(Step(s.db, at, c), at)
    ensures Onward(s.db, Step(s.db, at, c))
  {
    hide S.Sound, Allowed, Commit;
    if Allowed(s.db, at, c) {
      S.CommitSound(s.db, s.now, at, c);
      S.LaterSound(s.db, s.now, at);
      Runs.CommitForward(s.db, at, c);
    } else {
      S.LaterSound(s.db, s.now, at);
    }
  }

  /** Only a selected relay starts closing, and no caller of the policy closes one at once. */
  lemma HostStepSelects(db: Tables, now: int, c: Command)
    requires HostCommand(c) || c.Administer?
    ensures var db' := Step(db, now, c);
            && db'.relays.Keys == db.relays.Keys
            && (forall id :: id in db.relays ==>
                  || db'.relays[id].status == db.relays[id].status
                  || (Allowed(db, now, c) && db'.relays[id].status == Closing && id in Selected(db, c)))
            && (Allowed(db, now, c) ==> forall id :: id in Selected(db, c) ==> IsClosing(db', id))
  {
    hide Eligible, EditableBranch, BranchesOf, RevokedGrants, RevokedTickets, BlockedFences;
  }

  // ----- closing here -----

  /** Relays leave the registry, and the durable closure of each that was registered is tracked. */
  ghost predicate Unregisters(p: Process, p': Process, ids: set<RelayId>) {
    && p'.registry.relays == p.registry.relays - ids
    && (forall id :: id in p'.closures <==> id in p.closures || (id in ids && id in p.registry.relays))
    && (forall id :: p'.started[id] == p.started[id] + if id in ids && id in p.registry.relays then 1 else 0)
    && p' == p.(registry := p'.registry, closures := p'.closures, started := p'.started, phase := p'.phase,
                accepting := p'.accepting)
  }

  lemma UnregisterCalls(s: System, s': System, ids: set<RelayId>)
    requires CallsSound(s) && Unregisters(s.process, s'.process, ids) && s' == s.(process := s'.process)
    ensures CallsSound(s')
  {
    forall id | Quiet(s, id) ensures Quiet(s', id) {
    }
  }

  lemma UnregisterAccounted(s: System, s': System, ids: set<RelayId>)
    requires AccountedSound(s) && Unregisters(s.process, s'.process, ids) && s' == s.(process := s'.process)
    ensures AccountedSound(s')
  {
    var p, p' := s.process, s'.process;
    forall id | id in p'.redeemed && id !in p'.registry.relays && id !in p'.lost && !Waiting(p', id)
      ensures Accounted(s', id)
    {
      if id !in p.registry.relays {
        assert !Waiting(p, id);
        assert Accounted(s, id);
      }
    }
  }

  lemma UnregisterCarried(s: System, s': System, ids: set<RelayId>)
    requires CarriedSound(s) && Unregisters(s.process, s'.process, ids) && s' == s.(process := s'.process)
    ensures CarriedSound(s')
  {
    var p, p' := s.process, s'.process;
    forall id | Carried(p', id) ensures Carried(p, id) && (BeingRevoked(p, id) ==> BeingRevoked(p', id)) {
    }
  }

  lemma UnregisterTables(gateway: GatewayId, s: System, s': System, ids: set<RelayId>)
    requires RedeemedSound(gateway, s) && SetupsSound(s.process) && ClosuresSound(s.process)
    requires Unregisters(s.process, s'.process, ids) && s' == s.(process := s'.process)
    ensures RedeemedSound(gateway, s') && SetupsSound(s'.process)
    ensures ClosuresSound(s'.process)
  {
    var p, p' := s.process, s'.process;
    forall id ensures p'.started[id] <= 1 && (id in p'.started ==> id in p'.delivered && id !in p'.registry.relays) {
      if id in ids && id in p.registry.relays {
        assert id !in p.started;
      }
    }
  }

  lemma UnregisterInv(gateway: GatewayId, s: System, s': System, ids: set<RelayId>)
    requires Inv(gateway, s) && Unregisters(s.process, s'.process, ids) && PhaseSound(s'.process)
    requires s' == s.(process := s'.process)
    ensures Inv(gateway, s')
  {
    hide S.Sound, PhaseSound, CallsSound, AccountedSound, CarriedSound, RedeemedSound, SetupsSound, ClosuresSound,
         Unregisters;
    UnregisterTables(gateway, s, s', ids);
    UnregisterCalls(s, s', ids);
    UnregisterAccounted(s, s', ids);
    UnregisterCarried(s, s', ids);
  }

  lemma CloseRelays(r: R.Registry, id: RelayId, origin: R.Origin, at: R.Reading, limits: R.ValidLimits)
    ensures R.Close(r, id, origin, at, limits).relays == r.relays - {id}
  {
    hide Tomb.Stamp;
  }

  lemma CloseRegistered(cfg: Config, p: Process, id: RelayId, origin: R.Origin, at: R.Reading)
    requires id in p.registry.relays
    ensures Unregisters(p, CloseHere(cfg, p, id, origin, at), {id})
  {
    hide R.Close, ReasonOf;
    CloseRelays(p.registry, id, origin, at, cfg.limits);
  }

  lemma CloseUnregistered(cfg: Config, p: Process, id: RelayId, origin: R.Origin, at: R.Reading)
    requires id !in p.registry.relays
    ensures Unregisters(p, CloseHere(cfg, p, id, origin, at), {id})
  {
    hide R.Close;
    CloseRelays(p.registry, id, origin, at, cfg.limits);
  }

  lemma CloseHereUnregisters(cfg: Config, p: Process, id: RelayId, origin: R.Origin, at: R.Reading)
    ensures Unregisters(p, CloseHere(cfg, p, id, origin, at), {id})
    ensures CloseHere(cfg, p, id, origin, at).phase == p.phase && CloseHere(cfg, p, id, origin, at).accepting == p.accepting
  {
    hide Unregisters, R.Close;
    if id in p.registry.relays {
      CloseRegistered(cfg, p, id, origin, at);
    } else {
      CloseUnregistered(cfg, p, id, origin, at);
    }
  }

  lemma CloseHereInv(cfg: Config, s: System, id: RelayId, origin: R.Origin, at: R.Reading)
    requires Inv(cfg.gateway, s) && id in s.process.delivered
    ensures var p' := CloseHere(cfg, s.process, id, origin, at);
            && Inv(cfg.gateway, s.(process := p'))
            && p'.registry.relays == s.process.registry.relays - {id}
            && p'.setups == s.process.setups && p'.delivered == s.process.delivered
  {
    hide CloseHere, S.Sound, RedeemedSound, SetupsSound, CallsSound, AccountedSound, CarriedSound;
    var p := s.process;
    var p' := CloseHere(cfg, p, id, origin, at);
    CloseHereUnregisters(cfg, p, id, origin, at);
    PhaseUnregisters(p, p', id);
    UnregisterInv(cfg.gateway, s, s.(process := p'), {id});
  }

  lemma PhaseUnregisters(p: Process, p': Process, id: RelayId)
    requires PhaseSound(p) && Unregisters(p, p', {id}) && p'.phase == p.phase && p'.accepting == p.accepting
    ensures PhaseSound(p')
  {
    assert p.registry.relays == map[] ==> p'.closures.Keys == p.closures.Keys;
  }

  // ----- setups -----

  /** One setup starts, advances without an activation, or ends; it is not one whose redemption is undelivered. */
  ghost predicate SetupMoves(p: Process, p': Process, setup: SetupId) {
    && p' == p.(setups := p'.setups)
    && p'.setups - {setup} == p.setups - {setup}
    && (setup in p.setups ==> !p.setups[setup].HasOpening?)
    && (setup in p'.setups ==>
          || p'.setups[setup].AwaitsRedemption?
          || (!p'.setups[setup].HasOpening? && !p'.setups[setup].HasActivation?
              && setup in p.setups && !p.setups[setup].AwaitsRedemption? && p'.setups[setup].id == p.setups[setup].id))
  }

  lemma OtherSetups(p: Process, p': Process, setup: SetupId)
    requires p'.setups - {setup} == p.setups - {setup}
    ensures forall k :: k != setup ==> (k in p'.setups <==> k in p.setups)
    ensures forall k :: k != setup && k in p.setups ==> p'.setups[k] == p.setups[k]
  {
    forall k | k != setup ensures k in p'.setups <==> k in p.setups {
      assert k in p'.setups - {setup} <==> k in p.setups - {setup};
    }
    forall k | k != setup && k in p.setups ensures p'.setups[k] == p.setups[k] {
      assert (p'.setups - {setup})[k] == (p.setups - {setup})[k];
    }
  }

  lemma SetupMovesCalls(s: System, s': System, setup: SetupId)
    requires CallsSound(s) && SetupMoves(s.process, s'.process, setup) && s' == s.(process := s'.process)
    ensures CallsSound(s')
  {
    OtherSetups(s.process, s'.process, setup);
    forall id | Quiet(s, id) ensures Quiet(s', id) {
    }
  }

  lemma SetupMovesAccounted(s: System, s': System, setup: SetupId)
    requires AccountedSound(s) && SetupMoves(s.process, s'.process, setup) && s' == s.(process := s'.process)
    ensures AccountedSound(s')
  {
    OtherSetups(s.process, s'.process, setup);
    forall id | Waiting(s.process, id) ensures Waiting(s'.process, id) {
    }
    forall id | Accounted(s, id) ensures Accounted(s', id) {
    }
  }

  lemma SetupMovesCarried(s: System, s': System, setup: SetupId)
    requires CarriedSound(s) && SetupMoves(s.process, s'.process, setup) && s' == s.(process := s'.process)
    ensures CarriedSound(s')
  {
    OtherSetups(s.process, s'.process, setup);
    forall id | Carried(s'.process, id)
      ensures Carried(s.process, id) && (BeingRevoked(s.process, id) ==> BeingRevoked(s'.process, id))
    {
    }
  }

  lemma SetupMovesInv(gateway: GatewayId, s: System, s': System, setup: SetupId)
    requires Inv(gateway, s) && SetupMoves(s.process, s'.process, setup) && PhaseSound(s'.process)
    requires s' == s.(process := s'.process)
    ensures Inv(gateway, s')
  {
    hide S.Sound, PhaseSound, CallsSound, AccountedSound, CarriedSound;
    SetupMovesCalls(s, s', setup);
    SetupMovesAccounted(s, s', setup);
    SetupMovesCarried(s, s', setup);
    OtherSetups(s.process, s'.process, setup);
  }

  // ----- registry states -----

  /** Only relays that are carried already change their local state. */
  ghost predicate RegistryMoves(p: Process, p': Process) {
    && p' == p.(registry := p'.registry)
    && p'.registry.relays.Keys == p.registry.relays.Keys
    && (forall id :: id in p.registry.relays ==>
          p'.registry.relays[id].state == p.registry.relays[id].state || Carried(p, id))
  }

  lemma RegistryMovesInv(gateway: GatewayId, s: System, s': System)
    requires Inv(gateway, s) && RegistryMoves(s.process, s'.process) && s' == s.(process := s'.process)
    ensures Inv(gateway, s')
  {
    hide S.Sound, CallsSound, AccountedSound, CarriedSound;
    var p, p' := s.process, s'.process;
    assert p.registry.relays == map[] ==> p'.registry.relays == map[];
    RegistryMovesCalls(s, s');
    RegistryMovesAccounted(s, s');
    RegistryMovesCarried(s, s');
  }

  lemma RegistryMovesCalls(s: System, s': System)
    requires CallsSound(s) && RegistryMoves(s.process, s'.process) && s' == s.(process := s'.process)
    ensures CallsSound(s')
  {
    forall id | Quiet(s, id) ensures Quiet(s', id) {
      assert !Carried(s.process, id);
    }
  }

  lemma RegistryMovesAccounted(s: System, s': System)
    requires AccountedSound(s) && RegistryMoves(s.process, s'.process) && s' == s.(process := s'.process)
    ensures AccountedSound(s')
  {
    forall id | Waiting(s.process, id) ensures Waiting(s'.process, id) {
    }
    forall id | Accounted(s, id) ensures Accounted(s', id) {
    }
  }

  lemma RegistryMovesCarried(s: System, s': System)
    requires CarriedSound(s) && RegistryMoves(s.process, s'.process) && s' == s.(process := s'.process)
    ensures CarriedSound(s')
  {
    forall id | Carried(s'.process, id)
      ensures Carried(s.process, id) && (BeingRevoked(s.process, id) ==> BeingRevoked(s'.process, id))
    {
    }
  }

  // ----- delivery of a redemption -----

  /** A setup learns its relay, and either tracks its durable closure at once or registers it. */
  ghost predicate Delivers(p: Process, p': Process, setup: SetupId) {
    && setup in p.setups && p.setups[setup].HasOpening?
    && var id := p.setups[setup].id;
       && p' == p.(registry := p'.registry, delivered := p.delivered + {id}, setups := p'.setups, closures := p'.closures,
                   started := p'.started)
       && p'.setups - {setup} == p.setups - {setup}
       && (setup in p'.setups ==>
             && (p'.setups[setup].AwaitsActivation? || p'.setups[setup].ActivationRefused?)
             && p'.setups[setup].id == id)
       && if id in p'.registry.relays && id !in p.registry.relays then
            && p'.registry.relays - {id} == p.registry.relays && p'.registry.relays[id].state == R.Registered
            && p'.closures == p.closures && p'.started == p.started
          else
            && p'.registry.relays == p.registry.relays
            && p'.closures.Keys == p.closures.Keys + {id} && p'.started == p.started + multiset{id}
  }

  lemma OtherRelays(p: Process, p': Process, added: RelayId)
    requires p'.registry.relays - {added} == p.registry.relays
    ensures forall id :: id != added ==> (id in p'.registry.relays <==> id in p.registry.relays)
    ensures forall id :: id != added && id in p.registry.relays ==> p'.registry.relays[id] == p.registry.relays[id]
  {
    forall id | id != added ensures id in p'.registry.relays <==> id in p.registry.relays {
      assert id in p'.registry.relays - {added} <==> id in p.registry.relays;
    }
    forall id | id != added && id in p.registry.relays ensures p'.registry.relays[id] == p.registry.relays[id] {
      assert (p'.registry.relays - {added})[id] == p.registry.relays[id];
    }
  }

  lemma DeliversRelays(gateway: GatewayId, s: System, p': Process, setup: SetupId)
    requires RedeemedSound(gateway, s) && SetupsSound(s.process) && Delivers(s.process, p', setup)
    ensures var p, added := s.process, s.process.setups[setup].id;
            && added in p.redeemed && added !in p.delivered && added !in p.registry.relays
            && (forall id :: id != added ==> (id in p'.registry.relays <==> id in p.registry.relays))
            && (forall id :: id != added && id in p.registry.relays ==> p'.registry.relays[id] == p.registry.relays[id])
            && (forall k :: k in p.setups && !p.setups[k].AwaitsRedemption? && p.setups[k].id == added ==> k == setup)
  {
    var p, added := s.process, s.process.setups[setup].id;
    OtherSetups(p, p', setup);
    if added in p'.registry.relays {
      OtherRelays(p, p', added);
    }
  }

  lemma DeliversCalls(gateway: GatewayId, s: System, s': System, setup: SetupId)
    requires RedeemedSound(gateway, s) && SetupsSound(s.process) && CallsSound(s)
    requires Delivers(s.process, s'.process, setup) && s' == s.(process := s'.process)
    ensures CallsSound(s')
  {
    DeliversRelays(gateway, s, s'.process, setup);
    OtherSetups(s.process, s'.process, setup);
    forall id | Quiet(s, id) ensures Quiet(s', id) {
    }
  }

  lemma DeliversAccounted(gateway: GatewayId, s: System, s': System, setup: SetupId)
    requires RedeemedSound(gateway, s) && SetupsSound(s.process) && AccountedSound(s)
    requires Delivers(s.process, s'.process, setup) && s' == s.(process := s'.process)
    ensures AccountedSound(s')
  {
    DeliversRelays(gateway, s, s'.process, setup);
    OtherSetups(s.process, s'.process, setup);
    forall id | Waiting(s.process, id) && id != s.process.setups[setup].id ensures Waiting(s'.process, id) {
    }
    forall id | Accounted(s, id) ensures Accounted(s', id) {
    }
  }

  lemma DeliversCarried(gateway: GatewayId, s: System, s': System, setup: SetupId)
    requires RedeemedSound(gateway, s) && SetupsSound(s.process) && CarriedSound(s)
    requires Delivers(s.process, s'.process, setup) && s' == s.(process := s'.process)
    ensures CarriedSound(s')
  {
    DeliversRelays(gateway, s, s'.process, setup);
    OtherSetups(s.process, s'.process, setup);
    forall id | Carried(s'.process, id)
      ensures Carried(s.process, id) && (BeingRevoked(s.process, id) ==> BeingRevoked(s'.process, id))
    {
    }
  }

  lemma DeliversIds(gateway: GatewayId, s: System, s': System, setup: SetupId)
    requires RedeemedSound(gateway, s) && SetupsSound(s.process)
    requires Delivers(s.process, s'.process, setup) && s' == s.(process := s'.process)
    ensures RedeemedSound(gateway, s') && SetupsSound(s'.process)
  {
    DeliversRelays(gateway, s, s'.process, setup);
    OtherSetups(s.process, s'.process, setup);
  }

  lemma DeliversClosures(gateway: GatewayId, s: System, s': System, setup: SetupId)
    requires RedeemedSound(gateway, s) && SetupsSound(s.process) && ClosuresSound(s.process)
    requires Delivers(s.process, s'.process, setup) && s' == s.(process := s'.process)
    ensures ClosuresSound(s'.process)
  {
    DeliversRelays(gateway, s, s'.process, setup);
    assert s.process.started[s.process.setups[setup].id] == 0;
  }

  lemma DeliversInv(gateway: GatewayId, s: System, s': System, setup: SetupId)
    requires Inv(gateway, s) && Delivers(s.process, s'.process, setup) && PhaseSound(s'.process)
    requires s' == s.(process := s'.process)
    ensures Inv(gateway, s')
  {
    hide S.Sound, PhaseSound, CallsSound, AccountedSound, CarriedSound, RedeemedSound, SetupsSound, ClosuresSound, Delivers;
    DeliversIds(gateway, s, s', setup);
    DeliversClosures(gateway, s, s', setup);
    DeliversCalls(gateway, s, s', setup);
    DeliversAccounted(gateway, s, s', setup);
    DeliversCarried(gateway, s, s', setup);
  }

  // ----- transactions -----

  /** Rows move on, and the process changes only in ways that the other parts of the invariant do not see. */
  ghost predicate SameLocally(p: Process, p': Process) {
    p' == p.(calls := p'.calls, closures := p'.closures, failed := p'.failed, unclosed := p'.unclosed,
              unconfirmed := p'.unconfirmed)
  }

  lemma QuietOnward(s: System, s': System, id: RelayId)
    requires Quiet(s, id) && Onward(s.db, s'.db) && SameLocally(s.process, s'.process)
    ensures Quiet(s', id)
  {
  }

  lemma AccountedOnward(s: System, s': System)
    requires AccountedSound(s) && Onward(s.db, s'.db) && SameLocally(s.process, s'.process)
    requires forall id :: id in s.process.redeemed && Accounted(s, id) ==> Accounted(s', id)
    ensures AccountedSound(s')
  {
    forall id | Waiting(s.process, id) ensures Waiting(s'.process, id) {
    }
  }

  lemma LocallyInv(gateway: GatewayId, s: System, s': System)
    requires Inv(gateway, s) && Onward(s.db, s'.db) && S.Sound(s'.db, s'.now) && SameLocally(s.process, s'.process)
    requires s'.process.closures.Keys <= s.process.closures.Keys
    requires s'.process.calls.Keys <= s.process.calls.Keys || s.process.accepting
    requires CallsSound(s') && CarriedSound(s') && AccountedSound(s')
    ensures Inv(gateway, s')
  {
    hide S.Sound, CallsSound, CarriedSound, AccountedSound;
  }
}
