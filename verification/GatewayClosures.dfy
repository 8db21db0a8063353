/** Which redeemed relays are durably closed, exactly, at every point of every run. */
module GatewayClosures {
  import opened Wrappers
  import opened SshTables
  import opened SshPolicy
  import opened Gateway
  import opened GatewaySafety
  import opened GatewayEvents
  import opened GatewayCalls
  import S = SshPolicySafety
  import R = RelayRegistry

  /** The durable closure of the relay was started and has ended, and it committed. */
  predicate Concluded(p: Process, id: RelayId) {
    id in p.started && id !in p.closures && id !in p.unclosed
  }

  predicate IsClosed(db: Tables, id: RelayId) {
    id in db.relays && db.relays[id].status == Closed
  }

  /** A redeemed relay is closed exactly if a revocation confirmed it or its durable closure committed. */
  ghost predicate ClosedExactly(s: System) {
    var p := s.process;
    && (forall id :: id in p.unclosed || id in p.closures ==> id in p.started)
    && p.unclosed !! p.closures.Keys
    && forall id :: id in p.redeemed ==> (IsClosed(s.db, id) <==> id in s.confirmed || Concluded(p, id))
  }

  // ----- steps that conclude nothing -----

  /** Durable closures may start, but none ends. */
  ghost predicate NoneEnds(p: Process, p': Process) {
    && p'.redeemed == p.redeemed && p'.unclosed == p.unclosed
    && (forall id :: id in p.started || id in p'.closures.Keys - p.closures.Keys ==> id in p'.started)
    && (forall id :: id in p'.started && id !in p'.closures <==> id in p.started && id !in p.closures)
  }

  lemma NoneEndsClosed(s: System, s': System)
    requires ClosedExactly(s) && NoneEnds(s.process, s'.process) && s'.confirmed == s.confirmed
    requires forall id :: id in s.process.redeemed ==> (IsClosed(s'.db, id) <==> IsClosed(s.db, id))
    ensures ClosedExactly(s')
  {
    var p, p' := s.process, s'.process;
    forall id | id in p.unclosed ensures id !in p'.closures {
      assert id in p.started && id !in p.closures;
    }
    forall id | id in p.redeemed ensures Concluded(p', id) <==> Concluded(p, id) {
      assert id in p'.started && id !in p'.closures <==> id in p.started && id !in p.closures;
    }
  }

  /** What a setup or the registry does next cannot close a relay again: its closure starts at most once. */
  lemma UnregistersNone(p: Process, p': Process, ids: set<RelayId>)
    requires Unregisters(p, p', ids) && forall id :: id in ids && id in p.registry.relays ==> id !in p.started
    ensures NoneEnds(p, p')
  {
    forall id ensures id in p'.started <==> id in p.started || (id in ids && id in p.registry.relays) {
      assert p'.started[id] == p.started[id] + if id in ids && id in p.registry.relays then 1 else 0;
    }
  }

  lemma RegisteredNotStarted(gateway: GatewayId, s: System)
    requires Inv(gateway, s)
    ensures var p := s.process;
            && (forall id :: id in p.registry.relays ==> id !in p.started)
            && (forall k :: k in p.setups && p.setups[k].HasOpening? ==> p.setups[k].id !in p.started)
  {
    hide S.Sound, CallsSound, AccountedSound, CarriedSound, PhaseSound;
  }

  lemma FailSetupNone(cfg: Config, p: Process, setup: SetupId, id: RelayId, at: R.Reading)
    requires id in p.registry.relays ==> id !in p.started
    ensures NoneEnds(p, FailSetup(cfg, p, setup, id, at))
  {
    hide CloseHere, Unregisters;
    CloseHereUnregisters(cfg, p, id, R.SetupFailure, at);
    UnregistersNone(p, CloseHere(cfg, p, id, R.SetupFailure, at), {id});
  }

  lemma DialedNone(cfg: Config, p: Process, setup: SetupId, id: RelayId, validDestination: bool, upstream: R.Socket,
                   begun: int, attached: int, closed: R.Reading)
    requires setup in p.setups && p.setups[setup] == HasActivation(id)
    requires forall r :: r in p.registry.relays ==> r !in p.started
    ensures NoneEnds(p, Dialed(cfg, p, setup, id, validDestination, upstream, begun, attached, closed))
  {
    hide FailSetup, R.BeginDial, R.AttachUpstream;
    var dialing := R.BeginDial(p.registry, id, begun).0;
    BeginDialMoves(p, setup, begun);
    AttachMoves(p.(registry := dialing), id, upstream, attached);
    var connecting := R.AttachUpstream(dialing, id, upstream, attached).0;
    assert id in dialing.relays.Keys <==> id in p.registry.relays.Keys;
    assert id in connecting.relays.Keys <==> id in p.registry.relays.Keys;
    if !R.BeginDial(p.registry, id, begun).1 || !validDestination {
      FailSetupNone(cfg, p.(registry := dialing), setup, id, closed);
    } else if !R.AttachUpstream(dialing, id, upstream, attached).1 {
      FailSetupNone(cfg, p.(registry := connecting), setup, id, closed);
    }
  }

  lemma PipedNone(cfg: Config, p: Process, setup: SetupId, id: RelayId, connected: bool, read: int, closed: R.Reading)
    requires forall r :: r in p.registry.relays ==> r !in p.started
    ensures NoneEnds(p, Piped(cfg, p, setup, id, connected, read, closed))
  {
    hide FailSetup, R.Activate;
    var registry := R.Activate(p.registry, id, read).0;
    ActivateMoves(p, id, read);
    assert id in registry.relays.Keys <==> id in p.registry.relays.Keys;
    if !connected {
      FailSetupNone(cfg, p, setup, id, closed);
    } else if !R.Activate(p.registry, id, read).1 {
      FailSetupNone(cfg, p.(registry := registry), setup, id, closed);
    }
  }

  lemma DeliversNone(p: Process, p': Process, setup: SetupId)
    requires Delivers(p, p', setup) && p.setups[setup].id !in p.started
    ensures NoneEnds(p, p')
  {
    var id := p.setups[setup].id;
    if !(id in p'.registry.relays && id !in p.registry.relays) {
      forall r ensures r in p'.closures <==> r in p.closures || r == id {
        assert r in p'.closures.Keys <==> r in p.closures.Keys + {id};
      }
    }
  }

  lemma ContinuationNone(cfg: Config, s: System, e: Event)
    requires Inv(cfg.gateway, s) && Possible(cfg, s, e)
    requires e.ContinueOpened? || e.ContinueActivated? || e.ContinueRefused? || e.DialEnds?
    ensures NoneEnds(s.process, Apply(cfg, s, e).process)
    ensures Apply(cfg, s, e) == s.(process := Apply(cfg, s, e).process)
  {
    hide Inv, NoneEnds, FailSetup, Continued, Dialed, Piped, Delivers;
    var p := s.process;
    RegisteredNotStarted(cfg.gateway, s);
    match e {
      case ContinueOpened(setup, gone, channel, read, again) =>
        OpenedIsUnregistered(cfg.gateway, s, setup);
        ContinuedDelivers(cfg, p, setup, p.setups[setup].id, gone, channel, read, again);
        DeliversNone(p, Apply(cfg, s, e).process, setup);
      case ContinueActivated(setup, validDestination, upstream, begun, attached, closed) =>
        DialedNone(cfg, p, setup, p.setups[setup].id, validDestination, upstream, begun, attached, closed);
      case ContinueRefused(setup, closed) => FailSetupNone(cfg, p, setup, p.setups[setup].id, closed);
      case DialEnds(setup, connected, read, closed) =>
        PipedNone(cfg, p, setup, p.setups[setup].id, connected, read, closed);
    }
  }

  lemma ProcessNone(cfg: Config, s: System, e: Event)
    requires Inv(cfg.gateway, s) && Possible(cfg, s, e)
    requires
      || e.Disconnect? || e.SocketLost? || e.LoseAuthority? || e.Stop? || e.SetupsSettle? || e.ClosuresSettle?
      || e.Release? || e.OpenShell? || e.RedemptionFails? || e.ActivationFails? || e.Admit? || e.CallClosesLocally?
      || e.CallFails?
    ensures NoneEnds(s.process, Apply(cfg, s, e).process)
    ensures Apply(cfg, s, e) == s.(process := Apply(cfg, s, e).process)
  {
    hide Inv, CloseHere, Stopped, Unregisters, R.CloseEach;
    var p := s.process;
    RegisteredNotStarted(cfg.gateway, s);
    if e.Disconnect? {
      CloseHereUnregisters(cfg, p, e.relay, R.Natural, e.closed);
      UnregistersNone(p, Apply(cfg, s, e).process, {e.relay});
    } else if e.Stop? {
      StoppedUnregisters(cfg, p, e.order, e.readings);
      UnregistersNone(p, Apply(cfg, s, e).process, p.registry.relays.Keys);
    }
  }

  // ----- steps that transact -----

  /** A host transaction or an activation closes nothing and reopens nothing. */
  lemma TransactionNone(cfg: Config, s: System, e: Event)
    requires Inv(cfg.gateway, s) && Possible(cfg, s, e)
    requires e.CallCommits? || e.OthersCommit? || e.ActivationCommits?
    ensures var s' := Apply(cfg, s, e);
            && NoneEnds(s.process, s'.process) && s'.confirmed == s.confirmed
            && forall id :: id in s.db.relays ==> (IsClosed(s'.db, id) <==> IsClosed(s.db, id))
  {
    hide Inv, Allowed, Step, S.Sound, HostCommand, Selected;
    InvSound(cfg.gateway, s);
    match e {
      case CallCommits(call, at) =>
        var c := s.process.calls[call].command;
        AdmittedIsHost(cfg.gateway, s, call);
        HostStepSelects(s.db, at, c);
        StepOnward(s, at, c);
      case OthersCommit(directory, at) =>
        HostStepSelects(s.db, at, SshPolicy.Administer(directory));
        StepOnward(s, at, SshPolicy.Administer(directory));
      case ActivationCommits(setup, at, replied) =>
        ActivateStep(s.db, at, SshPolicy.Activate(s.process.setups[setup].id, cfg.gateway));
    }
  }

  /** A relay that is only now redeemed is open, and nothing was confirmed or started for it. */
  lemma RedemptionClosed(cfg: Config, s: System, setup: SetupId, newRelay: RelayId, at: int, replied: bool)
    requires Inv(cfg.gateway, s) && ClosedExactly(s)
    requires setup in s.process.setups && s.process.setups[setup].AwaitsRedemption? && s.now <= at
    ensures ClosedExactly(RedemptionCommitted(cfg, s, setup, newRelay, at, replied))
  {
    hide Inv, Allowed, Step;
    var p := s.process;
    var c := Redeem(p.setups[setup].ticket, p.setups[setup].key, cfg.gateway, newRelay);
    var s' := RedemptionCommitted(cfg, s, setup, newRelay, at, replied);
    KnownRows(cfg.gateway, s);
    if Allowed(s.db, at, c) {
      RedeemCommit(s.db, at, c);
      RedeemOpens(s.db, at, c);
      forall id | id in s'.process.redeemed
        ensures IsClosed(s'.db, id) <==> id in s'.confirmed || Concluded(s'.process, id)
      {
        assert id == newRelay || id in p.redeemed;
      }
    }
  }

  lemma RedeemOpens(t: Tables, now: int, c: Command)
    requires c.Redeem? && Allowed(t, now, c)
    ensures c.newRelay in Step(t, now, c).relays && Step(t, now, c).relays[c.newRelay].status == Opening
  {
    hide Eligible, TicketBound;
  }

  /** Everything the process or a revocation knows of has a row. */
  lemma KnownRows(gateway: GatewayId, s: System)
    requires Inv(gateway, s)
    ensures forall id :: id in s.confirmed || id in s.process.started || id in s.process.redeemed ==> id in s.db.relays
  {
    hide S.Sound, AccountedSound, CarriedSound, SetupsSound, PhaseSound;
  }

  lemma ConfirmationClosed(cfg: Config, s: System, call: CallId, at: int)
    requires Inv(cfg.gateway, s) && ClosedExactly(s)
    requires call in s.process.calls && s.process.calls[call].ClosedHere? && s.now <= at
    ensures ClosedExactly(CallConfirmed(s, call, at))
  {
    hide Inv, Allowed, Step;
    var ids := s.process.calls[call].ids;
    ClosedHereIsQuiet(cfg.gateway, s, call);
    KnownRows(cfg.gateway, s);
    ConfirmStep(s, at, ids);
    var s' := CallConfirmed(s, call, at);
    forall id | id in s.process.redeemed
      ensures IsClosed(s'.db, id) <==> id in s'.confirmed || Concluded(s'.process, id)
    {
    }
  }

  lemma CommittedClosureClosed(cfg: Config, s: System, relay: RelayId, at: int, replied: bool)
    requires Inv(cfg.gateway, s) && ClosedExactly(s) && relay in s.process.closures && s.now <= at
    ensures ClosedExactly(ClosureCommitted(cfg, s, relay, at, replied))
  {
    hide Inv, Step;
    var c := SshPolicy.Close(relay, cfg.gateway, s.process.closures[relay]);
    TrackedIsOwn(cfg.gateway, s, relay);
    KnownRows(cfg.gateway, s);
    CloseStep(s.db, at, c);
  }

  lemma FailedClosureClosed(cfg: Config, s: System, relay: RelayId)
    requires Inv(cfg.gateway, s) && ClosedExactly(s) && relay in s.process.closures
    ensures ClosedExactly(s.(process := ClosureFailed(s.process, relay)))
  {
    hide Inv;
  }

  lemma RelayTransactionClosed(cfg: Config, s: System, e: Event)
    requires Inv(cfg.gateway, s) && ClosedExactly(s) && Possible(cfg, s, e)
    requires e.RedemptionCommits? || e.CallConfirms? || e.ClosureCommits? || e.ClosureFails?
    ensures ClosedExactly(Apply(cfg, s, e))
  {
    hide Inv, ClosedExactly, RedemptionCommitted, CallConfirmed, ClosureCommitted, ClosureFailed;
    match e {
      case RedemptionCommits(setup, newRelay, at, replied) => RedemptionClosed(cfg, s, setup, newRelay, at, replied);
      case CallConfirms(call, at) => ConfirmationClosed(cfg, s, call, at);
      case ClosureCommits(relay, at, replied) => CommittedClosureClosed(cfg, s, relay, at, replied);
      case ClosureFails(relay) => FailedClosureClosed(cfg, s, relay);
    }
  }

  lemma RestartClosed(cfg: Config, s: System)
    ensures ClosedExactly(Apply(cfg, s, Restart))
  {
  }

  /** Every event keeps the account exact. */
  lemma ApplyClosed(cfg: Config, s: System, e: Event)
    requires Inv(cfg.gateway, s) && ClosedExactly(s) && Possible(cfg, s, e)
    ensures ClosedExactly(Apply(cfg, s, e))
  {
    hide Inv, Apply, Possible, NoneEnds, ClosedExactly;
    if e.RedemptionCommits? || e.CallConfirms? || e.ClosureCommits? || e.ClosureFails? {
      RelayTransactionClosed(cfg, s, e);
    } else if e.Restart? {
      RestartClosed(cfg, s);
    } else {
      KnownRows(cfg.gateway, s);
      if e.CallCommits? || e.OthersCommit? || e.ActivationCommits? {
        TransactionNone(cfg, s, e);
      } else if e.ContinueOpened? || e.ContinueActivated? || e.ContinueRefused? || e.DialEnds? {
        ContinuationNone(cfg, s, e);
      } else {
        ProcessNone(cfg, s, e);
      }
      NoneEndsClosed(s, Apply(cfg, s, e));
    }
  }
}
