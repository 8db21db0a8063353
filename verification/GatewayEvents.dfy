/** Every event of the authority process keeps the invariant. */
module GatewayEvents {
  import opened Wrappers
  import opened SshTables
  import opened SshPolicy
  import opened Gateway
  import opened GatewaySafety
  import S = SshPolicySafety
  import R = RelayRegistry
  import Tomb = Tombstones

  // ----- setups -----

  lemma FailSetupInv(cfg: Config, s: System, setup: SetupId, id: RelayId, at: R.Reading)
    requires Inv(cfg.gateway, s) && setup in s.process.setups && !s.process.setups[setup].HasOpening?
    requires id in s.process.delivered
    ensures Inv(cfg.gateway, s.(process := FailSetup(cfg, s.process, setup, id, at)))
  {
    hide Inv, CloseHere;
    CloseHereInv(cfg, s, id, R.SetupFailure, at);
    var closed := s.(process := CloseHere(cfg, s.process, id, R.SetupFailure, at));
    EndSetupInv(cfg.gateway, closed, setup);
  }

  lemma EndSetupInv(gateway: GatewayId, s: System, setup: SetupId)
    requires Inv(gateway, s) && setup in s.process.setups && !s.process.setups[setup].HasOpening?
    ensures Inv(gateway, s.(process := WithoutSetup(s.process, setup)))
  {
    var s' := s.(process := WithoutSetup(s.process, setup));
    assert PhaseSound(s'.process);
    hide Inv;
    assert SetupMoves(s.process, s'.process, setup);
    SetupMovesInv(gateway, s, s', setup);
  }

  lemma AdvanceSetupInv(gateway: GatewayId, s: System, setup: SetupId, state: Setup)
    requires Inv(gateway, s) && setup in s.process.setups && !s.process.setups[setup].HasOpening?
    requires !s.process.setups[setup].AwaitsRedemption?
    requires state.ActivationRefused? || state.AwaitsDial?
    requires state.id == s.process.setups[setup].id
    ensures Inv(gateway, s.(process := WithSetup(s.process, setup, state)))
  {
    var s' := s.(process := WithSetup(s.process, setup, state));
    assert PhaseSound(s'.process);
    hide Inv;
    assert SetupMoves(s.process, s'.process, setup) by {
      assert s'.process.setups - {setup} == s.process.setups - {setup};
    }
    SetupMovesInv(gateway, s, s', setup);
  }

  lemma OpenShellInv(gateway: GatewayId, s: System, setup: SetupId, ticket: TicketId, key: KeyId)
    requires Inv(gateway, s) && setup !in s.process.setups && s.process.accepting
    ensures Inv(gateway, s.(process := WithSetup(s.process, setup, AwaitsRedemption(ticket, key))))
  {
    var s' := s.(process := WithSetup(s.process, setup, AwaitsRedemption(ticket, key)));
    assert PhaseSound(s'.process);
    hide Inv;
    assert SetupMoves(s.process, s'.process, setup) by {
      assert s'.process.setups - {setup} == s.process.setups - {setup};
    }
    SetupMovesInv(gateway, s, s', setup);
  }

  lemma OpenedIsUnregistered(gateway: GatewayId, s: System, setup: SetupId)
    requires Inv(gateway, s) && setup in s.process.setups && s.process.setups[setup].HasOpening?
    ensures s.process.setups[setup].id !in s.process.registry.relays
  {
    hide S.Sound, CallsSound, AccountedSound, CarriedSound;
  }

  lemma DeliveredPhase(p: Process, p': Process, setup: SetupId)
    requires PhaseSound(p) && Delivers(p, p', setup) && (p.phase != Serving ==> p'.registry.relays == p.registry.relays)
    ensures PhaseSound(p')
  {
  }

  lemma ContinuedInv(cfg: Config, s: System, setup: SetupId, id: RelayId, gone: bool, channel: R.Socket, read: int,
                     again: R.Reading)
    requires Inv(cfg.gateway, s) && setup in s.process.setups && s.process.setups[setup] == HasOpening(id)
    ensures Inv(cfg.gateway, s.(process := Continued(cfg, s.process, setup, id, gone, channel, read, again)))
  {
    hide Inv, Continued, Delivers, PhaseSound, S.Sound;
    var p := s.process;
    var p' := Continued(cfg, p, setup, id, gone, channel, read, again);
    InvSound(cfg.gateway, s);
    OpenedIsUnregistered(cfg.gateway, s, setup);
    ContinuedDelivers(cfg, p, setup, id, gone, channel, read, again);
    DeliveredPhase(p, p', setup);
    DeliversInv(cfg.gateway, s, s.(process := p'), setup);
  }

  lemma RegisterEffect(r: R.Registry, id: RelayId, channel: R.Socket, now: int, at: R.Reading, limits: R.ValidLimits)
    ensures var (r', result) := R.Register(r, id, channel, now, at, limits);
            && (result == R.Accepted <==> r'.relays != r.relays)
            && (result == R.Accepted ==>
                  id !in r.relays && r'.relays == r.relays[id := R.LocalRelay(R.Registered, channel, None)])
  {
    hide Tomb.Stamp, Tomb.Prune, Tomb.Ids;
    var (r', result) := R.Register(r, id, channel, now, at, limits);
    if result == R.Accepted {
      assert id in r'.relays && id !in r.relays;
    }
  }

  lemma RejectedDelivers(p: Process, setup: SetupId, id: RelayId, registry: R.Registry)
    requires setup in p.setups && p.setups[setup] == HasOpening(id) && id !in p.registry.relays
    requires registry.relays == p.registry.relays
    ensures var known := p.(delivered := p.delivered + {id}, registry := registry);
            Delivers(p, WithoutSetup(TrackClosure(known, id, REGISTRATION_REJECTED_REASON), setup), setup)
  {
  }

  lemma AcceptedDelivers(p: Process, setup: SetupId, id: RelayId, registry: R.Registry, channel: R.Socket, state: Setup)
    requires setup in p.setups && p.setups[setup] == HasOpening(id) && id !in p.registry.relays
    requires registry.relays == p.registry.relays[id := R.LocalRelay(R.Registered, channel, None)]
    requires state == AwaitsActivation(id) || state == ActivationRefused(id)
    ensures var known := p.(delivered := p.delivered + {id}, registry := registry);
            Delivers(p, WithSetup(known, setup, state), setup)
  {
    assert registry.relays - {id} == p.registry.relays;
    assert p.setups[setup := state] - {setup} == p.setups - {setup};
  }

  lemma ContinuedDelivers(cfg: Config, p: Process, setup: SetupId, id: RelayId, gone: bool, channel: R.Socket, read: int,
                          again: R.Reading)
    requires setup in p.setups && p.setups[setup] == HasOpening(id) && id !in p.registry.relays
    ensures Delivers(p, Continued(cfg, p, setup, id, gone, channel, read, again), setup)
    ensures p.phase != Serving ==>
      Continued(cfg, p, setup, id, gone, channel, read, again).registry.relays == p.registry.relays
  {
    hide R.Register, Delivers;
    RegisterEffect(p.registry, id, channel, read, again, cfg.limits);
    var (registry, registration) := R.Register(p.registry, id, channel, read, again, cfg.limits);
    if p.phase != Serving || gone {
      RejectedDelivers(p, setup, id, p.registry.(destroyed := p.registry.destroyed + {channel}));
    } else if registration != R.Accepted {
      RejectedDelivers(p, setup, id, registry);
    } else {
      AcceptedDelivers(p, setup, id, registry, channel,
                       if p.accepting then AwaitsActivation(id) else ActivationRefused(id));
    }
  }

  lemma DialedInv(cfg: Config, s: System, setup: SetupId, validDestination: bool, upstream: R.Socket, begun: int,
                  attached: int, closed: R.Reading)
    requires Inv(cfg.gateway, s) && setup in s.process.setups && s.process.setups[setup].HasActivation?
    ensures Inv(cfg.gateway, s.(process :=
                Dialed(cfg, s.process, setup, s.process.setups[setup].id, validDestination, upstream, begun, attached,
                       closed)))
  {
    var p := s.process;
    var id := p.setups[setup].id;
    assert id in p.delivered;
    hide Inv, FailSetup, R.BeginDial, R.AttachUpstream;
    var (dialing, ok) := R.BeginDial(p.registry, id, begun);
    BeginDialMoves(p, setup, begun);
    var s1 := s.(process := p.(registry := dialing));
    RegistryMovesInv(cfg.gateway, s, s1);
    if !ok || !validDestination {
      FailSetupInv(cfg, s1, setup, id, closed);
    } else {
      var (connecting, kept) := R.AttachUpstream(dialing, id, upstream, attached);
      AttachMoves(s1.process, id, upstream, attached);
      var s2 := s1.(process := s1.process.(registry := connecting));
      RegistryMovesInv(cfg.gateway, s1, s2);
      if !kept {
        FailSetupInv(cfg, s2, setup, id, closed);
      } else {
        AdvanceSetupInv(cfg.gateway, s2, setup, AwaitsDial(id));
      }
    }
  }

  lemma BeginDialMoves(p: Process, setup: SetupId, now: int)
    requires setup in p.setups && p.setups[setup].HasActivation?
    ensures RegistryMoves(p, p.(registry := R.BeginDial(p.registry, p.setups[setup].id, now).0))
  {
    hide Tomb.Prune, Tomb.Ids;
  }

  lemma AttachMoves(p: Process, id: RelayId, upstream: R.Socket, now: int)
    ensures RegistryMoves(p, p.(registry := R.AttachUpstream(p.registry, id, upstream, now).0))
  {
    hide Tomb.Prune, Tomb.Ids;
  }

  lemma ActivateMoves(p: Process, id: RelayId, now: int)
    ensures RegistryMoves(p, p.(registry := R.Activate(p.registry, id, now).0))
  {
    hide Tomb.Prune, Tomb.Ids;
  }

  lemma PipedInv(cfg: Config, s: System, setup: SetupId, connected: bool, read: int, closed: R.Reading)
    requires Inv(cfg.gateway, s) && setup in s.process.setups && s.process.setups[setup].AwaitsDial?
    ensures Inv(cfg.gateway, s.(process :=
                Piped(cfg, s.process, setup, s.process.setups[setup].id, connected, read, closed)))
  {
    var p := s.process;
    var id := p.setups[setup].id;
    assert id in p.delivered;
    hide Inv, FailSetup, R.Activate;
    if !connected {
      FailSetupInv(cfg, s, setup, id, closed);
    } else {
      var (registry, ok) := R.Activate(p.registry, id, read);
      ActivateMoves(p, id, read);
      var s1 := s.(process := p.(registry := registry));
      RegistryMovesInv(cfg.gateway, s, s1);
      if ok {
        EndSetupInv(cfg.gateway, s1, setup);
      } else {
        FailSetupInv(cfg, s1, setup, id, closed);
      }
    }
  }

  // ----- redemption and activation transactions -----

  lemma LaterInv(gateway: GatewayId, s: System, now: int)
    requires Inv(gateway, s) && s.now <= now
    ensures Inv(gateway, s.(now := now))
  {
    hide S.Sound, SetupsSound, ClosuresSound, PhaseSound;
    S.LaterSound(s.db, s.now, now);
    var s' := s.(now := now);
    forall id | Quiet(s, id) ensures Quiet(s', id) {
    }
    forall id | Accounted(s, id) ensures Accounted(s', id) {
    }
    AccountedOnward(s, s');
    assert CallsSound(s') && CarriedSound(s');
  }

  /** The state after a redemption that commits. */
  ghost predicate Redeems(gateway: GatewayId, s: System, s': System, setup: SetupId, id: RelayId) {
    var p, p' := s.process, s'.process;
    && setup in p.setups && p.setups[setup].AwaitsRedemption?
    && id !in s.db.relays && s'.db.relays.Keys == s.db.relays.Keys + {id}
    && s'.db.relays[id].gateway == gateway
    && (forall r :: r in s.db.relays ==> s'.db.relays[r] == s.db.relays[r])
    && p'.redeemed == p.redeemed + {id}
    && p' == p.(redeemed := p'.redeemed, setups := p'.setups, lost := p'.lost)
    && p'.setups - {setup} == p.setups - {setup}
    && s' == s.(db := s'.db, now := s'.now, process := p')
    && if setup in p'.setups then p'.setups[setup] == HasOpening(id) && p'.lost == p.lost
       else p'.lost == p.lost + {id}
  }

  lemma RedeemsCalls(gateway: GatewayId, s: System, s': System, setup: SetupId, id: RelayId)
    requires Redeems(gateway, s, s', setup, id) && CallsSound(s)
    ensures CallsSound(s')
  {
    OtherSetups(s.process, s'.process, setup);
    forall r | IsClosing(s.db, r) ensures IsClosing(s'.db, r) {
    }
    forall r | Quiet(s, r) ensures Quiet(s', r) {
    }
  }

  lemma RedeemsCarried(gateway: GatewayId, s: System, s': System, setup: SetupId, id: RelayId)
    requires Redeems(gateway, s, s', setup, id) && CarriedSound(s) && RedeemedSound(gateway, s)
    ensures CarriedSound(s')
  {
    OtherSetups(s.process, s'.process, setup);
    forall r | Carried(s'.process, r)
      ensures Carried(s.process, r) && r in s.db.relays && (BeingRevoked(s.process, r) ==> BeingRevoked(s'.process, r))
    {
    }
  }

  lemma RedeemsAccounted(gateway: GatewayId, s: System, s': System, setup: SetupId, id: RelayId)
    requires Redeems(gateway, s, s', setup, id) && AccountedSound(s) && RedeemedSound(gateway, s)
    ensures AccountedSound(s')
  {
    OtherSetups(s.process, s'.process, setup);
    forall r | Waiting(s.process, r) ensures Waiting(s'.process, r) {
    }
    forall r | Accounted(s, r) ensures Accounted(s', r) {
    }
    if setup in s'.process.setups {
      assert Waiting(s'.process, id);
    }
  }

  lemma RedeemsIds(gateway: GatewayId, s: System, s': System, setup: SetupId, id: RelayId)
    requires Redeems(gateway, s, s', setup, id) && RedeemedSound(gateway, s) && SetupsSound(s.process)
    ensures RedeemedSound(gateway, s') && SetupsSound(s'.process)
  {
    OtherSetups(s.process, s'.process, setup);
  }

  lemma RedeemCommit(t: Tables, now: int, c: Command)
    requires c.Redeem? && Allowed(t, now, c)
    ensures var t' := Step(t, now, c);
            && c.newRelay !in t.relays && t'.relays.Keys == t.relays.Keys + {c.newRelay}
            && t'.relays[c.newRelay].gateway == c.gateway && t'.relays[c.newRelay].ticket == c.ticket
            && t'.relays[c.newRelay].key == c.key
            && (forall r :: r in t.relays ==> t'.relays[r] == t.relays[r])
  {
    hide Eligible, TicketBound;
  }

  lemma ActivateStep(t: Tables, now: int, c: Command)
    requires c.Activate?
    ensures var t' := Step(t, now, c);
            && t'.relays.Keys == t.relays.Keys
            && (forall r :: r in t.relays && (r != c.relay || !Allowed(t, now, c)) ==> t'.relays[r] == t.relays[r])
            && (Allowed(t, now, c) ==>
                  && c.relay in t.relays && t.relays[c.relay].status == Opening
                  && t'.relays[c.relay].gateway == t.relays[c.relay].gateway
                  && t'.relays[c.relay].status == SshTables.Active)
  {
    hide Eligible, TicketBound;
  }

  lemma RedemptionInv(cfg: Config, s: System, setup: SetupId, newRelay: RelayId, at: int, replied: bool)
    requires Inv(cfg.gateway, s) && setup in s.process.setups && s.process.setups[setup].AwaitsRedemption? && s.now <= at
    ensures Inv(cfg.gateway, RedemptionCommitted(cfg, s, setup, newRelay, at, replied))
  {
    hide Inv, Allowed, Step, Onward, S.Sound;
    var p := s.process;
    var c := Redeem(p.setups[setup].ticket, p.setups[setup].key, cfg.gateway, newRelay);
    if !Allowed(s.db, at, c) {
      EndSetupInv(cfg.gateway, s, setup);
      LaterInv(cfg.gateway, s.(process := WithoutSetup(p, setup)), at);
    } else {
      var s' := RedemptionCommitted(cfg, s, setup, newRelay, at, replied);
      assert s'.process.setups - {setup} == p.setups - {setup};
      RedeemCommit(s.db, at, c);
      InvSound(cfg.gateway, s);
      StepOnward(s, at, c);
      RedeemsInv(cfg.gateway, s, s', setup, newRelay);
    }
  }

  lemma InvSound(gateway: GatewayId, s: System)
    requires Inv(gateway, s)
    ensures S.Sound(s.db, s.now) && PhaseSound(s.process)
  {
    hide S.Sound, PhaseSound;
  }

  lemma RedeemsInv(gateway: GatewayId, s: System, s': System, setup: SetupId, id: RelayId)
    requires Inv(gateway, s) && Redeems(gateway, s, s', setup, id) && S.Sound(s'.db, s'.now)
    ensures Inv(gateway, s')
  {
    hide S.Sound, CallsSound, CarriedSound, AccountedSound, RedeemedSound, SetupsSound;
    RedeemsCalls(gateway, s, s', setup, id);
    RedeemsCarried(gateway, s, s', setup, id);
    RedeemsAccounted(gateway, s, s', setup, id);
    RedeemsIds(gateway, s, s', setup, id);
    assert s.process.setups != map[];
  }

  /** The state after an activation attempt: the setup learns of it exactly if it committed and replied. */
  ghost predicate Activates(s: System, s': System, setup: SetupId) {
    var p, p' := s.process, s'.process;
    && setup in p.setups && p.setups[setup].AwaitsActivation? && setup in p'.setups
    && var id := p.setups[setup].id;
       && s'.db.relays.Keys == s.db.relays.Keys
       && (forall r :: r in s.db.relays ==>
             || s'.db.relays[r] == s.db.relays[r]
             || (r == id && s.db.relays[id].status == Opening && s'.db.relays[id].gateway == s.db.relays[id].gateway
                 && s'.db.relays[id].status == SshTables.Active))
       && (p'.setups[setup] == HasActivation(id) ==>
             id in s.db.relays && s.db.relays[id].status == Opening && s'.db.relays[id].status == SshTables.Active)
       && (p'.setups[setup] == HasActivation(id) || p'.setups[setup] == ActivationRefused(id))
       && p'.setups - {setup} == p.setups - {setup}
       && p' == p.(setups := p'.setups)
       && s' == s.(db := s'.db, now := s'.now, process := p')
  }

  lemma ActivatesCalls(s: System, s': System, setup: SetupId)
    requires Activates(s, s', setup) && CallsSound(s)
    ensures CallsSound(s')
  {
    OtherSetups(s.process, s'.process, setup);
    forall r | IsClosing(s.db, r) ensures IsClosing(s'.db, r) {
    }
    forall r | Quiet(s, r) ensures Quiet(s', r) {
    }
  }

  lemma ActivatesCarried(s: System, s': System, setup: SetupId)
    requires Activates(s, s', setup) && CarriedSound(s)
    ensures CarriedSound(s')
  {
    OtherSetups(s.process, s'.process, setup);
    var id := s.process.setups[setup].id;
    forall r | Carried(s'.process, r) && r in s'.db.relays && s'.db.relays[r].status != SshTables.Active
      ensures s'.db.relays[r].status == Closing && BeingRevoked(s'.process, r)
    {
      assert Carried(s.process, r);
      assert BeingRevoked(s.process, r);
    }
  }

  lemma ActivatesAccounted(s: System, s': System, setup: SetupId)
    requires Activates(s, s', setup) && AccountedSound(s)
    ensures AccountedSound(s')
  {
    OtherSetups(s.process, s'.process, setup);
    forall r | Waiting(s.process, r) ensures Waiting(s'.process, r) {
    }
    forall r | Accounted(s, r) ensures Accounted(s', r) {
    }
  }

  lemma ActivatesIds(gateway: GatewayId, s: System, s': System, setup: SetupId)
    requires Activates(s, s', setup) && RedeemedSound(gateway, s) && SetupsSound(s.process) && PhaseSound(s.process)
    ensures RedeemedSound(gateway, s') && SetupsSound(s'.process) && PhaseSound(s'.process)
  {
    OtherSetups(s.process, s'.process, setup);
  }

  lemma ActivatesInv(gateway: GatewayId, s: System, s': System, setup: SetupId)
    requires Inv(gateway, s) && Activates(s, s', setup) && S.Sound(s'.db, s'.now)
    ensures Inv(gateway, s')
  {
    hide S.Sound, CallsSound, CarriedSound, AccountedSound, RedeemedSound, SetupsSound, PhaseSound;
    ActivatesCalls(s, s', setup);
    ActivatesCarried(s, s', setup);
    ActivatesAccounted(s, s', setup);
    ActivatesIds(gateway, s, s', setup);
  }

  lemma ActivationInv(cfg: Config, s: System, setup: SetupId, at: int, replied: bool)
    requires Inv(cfg.gateway, s) && setup in s.process.setups && s.process.setups[setup].AwaitsActivation? && s.now <= at
    ensures Inv(cfg.gateway, ActivationCommitted(cfg, s, setup, at, replied))
  {
    hide Inv, Allowed, Step, Onward, S.Sound;
    var s' := ActivationCommitted(cfg, s, setup, at, replied);
    var c := SshPolicy.Activate(s.process.setups[setup].id, cfg.gateway);
    assert s'.process.setups - {setup} == s.process.setups - {setup};
    ActivateStep(s.db, at, c);
    InvSound(cfg.gateway, s);
    StepOnward(s, at, c);
    ActivatesInv(cfg.gateway, s, s', setup);
  }
}
