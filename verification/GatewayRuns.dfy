/** Whole runs of the authority process: what no interleaving can break. */
module GatewayRuns {
  import opened Wrappers
  import opened SshTables
  import opened SshPolicy
  import opened Gateway
  import opened GatewaySafety
  import opened GatewayEvents
  import opened GatewayCalls
  import opened GatewayClosures
  import S = SshPolicySafety
  import Policy = SshPolicyRuns
  import R = RelayRegistry

  // ----- every event keeps the invariant -----

  lemma TicketEventInv(cfg: Config, s: System, e: Event)
    requires Inv(cfg.gateway, s) && Possible(cfg, s, e)
    requires e.OpenShell? || e.RedemptionCommits? || e.RedemptionFails? || e.ActivationCommits? || e.ActivationFails?
    ensures Inv(cfg.gateway, Apply(cfg, s, e))
  {
    hide Inv, RedemptionCommitted, ActivationCommitted;
    match e {
      case OpenShell(setup, ticket, key) => OpenShellInv(cfg.gateway, s, setup, ticket, key);
      case RedemptionCommits(setup, newRelay, at, replied) => RedemptionInv(cfg, s, setup, newRelay, at, replied);
      case RedemptionFails(setup) => EndSetupInv(cfg.gateway, s, setup);
      case ActivationCommits(setup, at, replied) => ActivationInv(cfg, s, setup, at, replied);
      case ActivationFails(setup) =>
        AdvanceSetupInv(cfg.gateway, s, setup, ActivationRefused(s.process.setups[setup].id));
    }
  }

  lemma ContinuationInv(cfg: Config, s: System, e: Event)
    requires Inv(cfg.gateway, s) && Possible(cfg, s, e)
    requires e.ContinueOpened? || e.ContinueActivated? || e.ContinueRefused? || e.DialEnds?
    ensures Inv(cfg.gateway, Apply(cfg, s, e))
  {
    hide Inv, FailSetup, Continued, Dialed, Piped;
    match e {
      case ContinueOpened(setup, gone, channel, read, again) =>
        ContinuedInv(cfg, s, setup, s.process.setups[setup].id, gone, channel, read, again);
      case ContinueActivated(setup, validDestination, upstream, begun, attached, closed) =>
        DialedInv(cfg, s, setup, validDestination, upstream, begun, attached, closed);
      case ContinueRefused(setup, closed) =>
        SetupIsDelivered(cfg.gateway, s);
        FailSetupInv(cfg, s, setup, s.process.setups[setup].id, closed);
      case DialEnds(setup, connected, read, closed) => PipedInv(cfg, s, setup, connected, read, closed);
    }
  }

  lemma SetupIsDelivered(gateway: GatewayId, s: System)
    requires Inv(gateway, s)
    ensures var p := s.process;
            forall k :: k in p.setups && !p.setups[k].AwaitsRedemption? && !p.setups[k].HasOpening? ==>
              p.setups[k].id in p.delivered
  {
    hide S.Sound, CallsSound, AccountedSound, CarriedSound;
  }

  lemma CallEventInv(cfg: Config, s: System, e: Event)
    requires Inv(cfg.gateway, s) && Possible(cfg, s, e)
    requires
      || e.Admit? || e.CallCommits? || e.CallClosesLocally? || e.CallConfirms? || e.CallFails? || e.OthersCommit?
      || e.ClosureCommits? || e.ClosureFails?
    ensures Inv(cfg.gateway, Apply(cfg, s, e))
  {
    hide Inv, CallCommitted, CallClosed, CallConfirmed, CallFailed, ClosureCommitted, Transact;
    match e {
      case Admit(call, command) => AdmitInv(cfg.gateway, s, call, command);
      case CallCommits(call, at) => CallCommittedInv(cfg.gateway, s, call, at);
      case CallClosesLocally(call, order, readings) => CallClosedInv(cfg, s, call, order, readings);
      case CallConfirms(call, at) => CallConfirmedInv(cfg.gateway, s, call, at);
      case CallFails(call) => CallFailedInv(cfg.gateway, s, call);
      case OthersCommit(directory, at) => OthersCommitInv(cfg.gateway, s, directory, at);
      case ClosureCommits(relay, at, replied) => ClosureCommittedInv(cfg, s, relay, at, replied);
      case ClosureFails(relay) => ClosureFailsInv(cfg.gateway, s, relay);
    }
  }

  lemma ProcessEventInv(cfg: Config, s: System, e: Event)
    requires Inv(cfg.gateway, s) && Possible(cfg, s, e)
    requires
      || e.Disconnect? || e.SocketLost? || e.LoseAuthority? || e.Stop? || e.SetupsSettle? || e.ClosuresSettle?
      || e.Release? || e.Restart?
    ensures Inv(cfg.gateway, Apply(cfg, s, e))
  {
    hide Inv, CloseHere, Stopped;
    var p := s.process;
    InvSound(cfg.gateway, s);
    match e {
      case Disconnect(relay, closed) => CloseHereInv(cfg, s, relay, R.Natural, closed);
      case SocketLost(socket) => RegistryMovesInv(cfg.gateway, s, Apply(cfg, s, e));
      case LoseAuthority => PhaseInv(cfg.gateway, s, p.phase, false);
      case Stop(order, readings) => StoppedInv(cfg, s, order, readings);
      case SetupsSettle => PhaseInv(cfg.gateway, s, Settling(p.closures.Keys), p.accepting);
      case ClosuresSettle =>
        SettledClosures(p);
        PhaseInv(cfg.gateway, s, if p.phase.tasks !! p.failed then Resolved else Rejected, p.accepting);
      case Release => PhaseInv(cfg.gateway, s, Released, p.accepting);
      case Restart => RestartInv(cfg.gateway, s);
    }
  }

  lemma SettledClosures(p: Process)
    requires PhaseSound(p) && p.phase.Settling? && p.phase.tasks !! p.closures.Keys
    ensures p.closures == map[]
  {
    assert p.closures.Keys == {};
  }

  lemma ApplyInv(cfg: Config, s: System, e: Event)
    requires Inv(cfg.gateway, s) && Possible(cfg, s, e)
    ensures Inv(cfg.gateway, Apply(cfg, s, e))
  {
    hide Inv, Possible, Apply;
    match e {
      case Admit(_, _) => CallEventInv(cfg, s, e);
      case CallCommits(_, _) => CallEventInv(cfg, s, e);
      case CallClosesLocally(_, _, _) => CallEventInv(cfg, s, e);
      case CallConfirms(_, _) => CallEventInv(cfg, s, e);
      case CallFails(_) => CallEventInv(cfg, s, e);
      case OthersCommit(_, _) => CallEventInv(cfg, s, e);
      case ClosureCommits(_, _, _) => CallEventInv(cfg, s, e);
      case ClosureFails(_) => CallEventInv(cfg, s, e);
      case Disconnect(_, _) => ProcessEventInv(cfg, s, e);
      case SocketLost(_) => ProcessEventInv(cfg, s, e);
      case LoseAuthority => ProcessEventInv(cfg, s, e);
      case Stop(_, _) => ProcessEventInv(cfg, s, e);
      case SetupsSettle => ProcessEventInv(cfg, s, e);
      case ClosuresSettle => ProcessEventInv(cfg, s, e);
      case Release => ProcessEventInv(cfg, s, e);
      case Restart => ProcessEventInv(cfg, s, e);
      case ContinueOpened(_, _, _, _, _) => ContinuationInv(cfg, s, e);
      case ContinueActivated(_, _, _, _, _, _) => ContinuationInv(cfg, s, e);
      case ContinueRefused(_, _) => ContinuationInv(cfg, s, e);
      case DialEnds(_, _, _, _) => ContinuationInv(cfg, s, e);
      case _ => TicketEventInv(cfg, s, e);
    }
  }

  lemma {:induction false} RunInv(cfg: Config, db: Tables, now: int, es: seq<Event>)
    requires S.Sound(db, now)
    ensures Inv(cfg.gateway, Run(cfg, Initial(db, now), es))
  {
    if es == [] {
      hide S.Sound;
      assert Inv(cfg.gateway, Initial(db, now));
    } else {
      hide Inv, Apply, Possible;
      var before := Run(cfg, Initial(db, now), es[..|es| - 1]);
      RunInv(cfg, db, now, es[..|es| - 1]);
      if Possible(cfg, before, es[|es| - 1]) {
        ApplyInv(cfg, before, es[|es| - 1]);
      }
    }
  }

  lemma {:induction false} RunClosed(cfg: Config, db: Tables, now: int, es: seq<Event>)
    requires S.Sound(db, now)
    ensures ClosedExactly(Run(cfg, Initial(db, now), es))
  {
    if es != [] {
      hide S.Sound, Inv, Apply, Possible, ClosedExactly;
      var before := Run(cfg, Initial(db, now), es[..|es| - 1]);
      RunClosed(cfg, db, now, es[..|es| - 1]);
      RunInv(cfg, db, now, es[..|es| - 1]);
      if Possible(cfg, before, es[|es| - 1]) {
        ApplyClosed(cfg, before, es[|es| - 1]);
      }
    }
  }

  // ----- revocation is final -----

  /** The relay dials or carries a stream in the registry. */
  predicate Connects(p: Process, id: RelayId) {
    id in p.registry.relays && p.registry.relays[id].state != R.Registered
  }

  lemma ConfirmedGrows(cfg: Config, s: System, e: Event)
    requires Possible(cfg, s, e)
    ensures s.confirmed <= Apply(cfg, s, e).confirmed
  {
    hide Possible, Allowed, Step, FailSetup, Continued, Dialed, Piped, CloseHere, Stopped;
  }

  lemma {:induction false} ConfirmedStays(cfg: Config, s: System, es: seq<Event>, i: nat)
    requires i <= |es|
    ensures Run(cfg, s, es[..i]).confirmed <= Run(cfg, s, es).confirmed
  {
    if i == |es| {
      assert es[..i] == es;
    } else {
      hide Possible, Apply;
      var front := es[..|es| - 1];
      assert front[..i] == es[..i];
      ConfirmedStays(cfg, s, front, i);
      if Possible(cfg, Run(cfg, s, front), es[|es| - 1]) {
        ConfirmedGrows(cfg, Run(cfg, s, front), es[|es| - 1]);
      }
    }
  }

  /**
   Once a revocation has confirmed a relay, no later event of any run makes it
   dial or carry a stream again, although its tombstone may have expired or been
   evicted, and although its redemption may only now reach the gateway.
   */
  lemma {:induction false} ConfirmedNeverConnects(cfg: Config, db: Tables, now: int, es: seq<Event>, i: nat, id: RelayId)
    requires S.Sound(db, now) && i <= |es|
    requires id in Run(cfg, Initial(db, now), es[..i]).confirmed
    ensures var s := Run(cfg, Initial(db, now), es);
            && !Connects(s.process, id)
            && id in s.db.relays && s.db.relays[id].status == Closed
  {
    var s := Run(cfg, Initial(db, now), es);
    ConfirmedStays(cfg, Initial(db, now), es, i);
    RunInv(cfg, db, now, es);
    ConfirmedQuiet(cfg.gateway, s, id);
  }

  lemma ConfirmedQuiet(gateway: GatewayId, s: System, id: RelayId)
    requires Inv(gateway, s) && id in s.confirmed
    ensures Quiet(s, id) && s.db.relays[id].status == Closed
  {
    hide S.Sound;
  }

  /**
   A relay that dials or carries a stream is durably active under a complete
   authorization, or is durably closing under a revocation that has committed and
   either has not closed it here yet or gave up.
   */
  lemma {:induction false} ConnectedIsAuthorized(cfg: Config, db: Tables, now: int, es: seq<Event>, id: RelayId)
    requires S.Sound(db, now) && Connects(Run(cfg, Initial(db, now), es).process, id)
    ensures var s := Run(cfg, Initial(db, now), es);
            && id in s.db.relays
            && (|| (s.db.relays[id].status == SshTables.Active && Policy.AuthorizedRelay(s.db, s.db.relays[id]))
                || (s.db.relays[id].status == Closing && BeingRevoked(s.process, id)))
  {
    var s := Run(cfg, Initial(db, now), es);
    RunInv(cfg, db, now, es);
    InvSound(cfg.gateway, s);
    ConnectedRow(cfg.gateway, s, id);
    hide Inv, S.Sound, Run;
    if s.db.relays[id].status == SshTables.Active {
      Policy.RelayAuthorized(s.db, s.now, id);
    }
  }

  lemma ConnectedRow(gateway: GatewayId, s: System, id: RelayId)
    requires Inv(gateway, s) && Connects(s.process, id)
    ensures id in s.db.relays && s.db.relays[id].gateway == gateway
    ensures
      || s.db.relays[id].status == SshTables.Active
      || (s.db.relays[id].status == Closing && BeingRevoked(s.process, id))
  {
    hide S.Sound, CallsSound, AccountedSound;
    assert Carried(s.process, id);
  }

  /** No run starts the durable closure of one relay twice, or of one that is still registered. */
  lemma {:induction false} ClosureStartsOnce(cfg: Config, db: Tables, now: int, es: seq<Event>, id: RelayId)
    requires S.Sound(db, now)
    ensures var p := Run(cfg, Initial(db, now), es).process;
            && p.started[id] <= 1
            && (id in p.started ==> id in p.redeemed && id !in p.registry.relays)
  {
    RunInv(cfg, db, now, es);
    hide S.Sound, CallsSound, AccountedSound, CarriedSound, Run;
  }

  // ----- shutdown -----

  /** The relay was closed here by a revocation that still confirms it. */
  ghost predicate BeingConfirmed(p: Process, id: RelayId) {
    exists k :: k in p.calls && p.calls[k].ClosedHere? && id in p.calls[k].ids
  }

  /**
   When the shutdown of the gateway has resolved, nothing is registered and no
   setup or durable closure is pending. A relay that the process redeemed is left
   open durably exactly if no revocation confirmed it and its durable closure
   failed without committing, or was never started. One whose closure was never
   started lost the reply to its redemption, or was closed here by a revocation
   that gave up or still confirms it.
   */
  lemma {:induction false} ShutdownAccountsForEveryRelay(cfg: Config, db: Tables, now: int, es: seq<Event>)
    requires S.Sound(db, now)
    requires Run(cfg, Initial(db, now), es).process.phase in {Resolved, Released}
    ensures var s := Run(cfg, Initial(db, now), es);
            var p := s.process;
            && p.registry.relays == map[] && p.setups == map[] && p.closures == map[]
            && (forall id :: id in p.redeemed ==> id in s.db.relays)
            && (forall id :: id in p.redeemed ==>
                  (s.db.relays[id].status != Closed <==>
                   id !in s.confirmed && (id in p.unclosed || id !in p.started)))
            && (forall id :: id in p.redeemed && s.db.relays[id].status != Closed && id !in p.started ==>
                  id in p.lost || id in p.unconfirmed || (p.phase == Resolved && BeingConfirmed(p, id)))
            && (forall id :: id in p.redeemed - p.unclosed - p.unconfirmed - p.lost ==>
                  s.db.relays[id].status == Closed || (p.phase == Resolved && BeingConfirmed(p, id)))
  {
    var s := Run(cfg, Initial(db, now), es);
    RunInv(cfg, db, now, es);
    RunClosed(cfg, db, now, es);
    ShutdownPhase(cfg.gateway, s);
    ShutdownAccounted(cfg.gateway, s);
    hide Inv, S.Sound, Run, BeingConfirmed;
    forall id | id in s.process.redeemed
      ensures s.db.relays[id].status != Closed <==>
              id !in s.confirmed && (id in s.process.unclosed || id !in s.process.started)
    {
      assert IsClosed(s.db, id) <==> id in s.confirmed || Concluded(s.process, id);
    }
  }

  lemma ShutdownPhase(gateway: GatewayId, s: System)
    requires Inv(gateway, s) && s.process.phase in {Resolved, Released}
    ensures s.process.registry.relays == map[] && s.process.setups == map[] && s.process.closures == map[]
    ensures s.process.phase == Released ==> s.process.calls == map[]
    ensures forall id :: id in s.process.redeemed ==> id in s.db.relays
  {
    hide S.Sound, CallsSound, CarriedSound, SetupsSound, ClosuresSound, AccountedSound;
  }

  lemma ShutdownAccounted(gateway: GatewayId, s: System)
    requires Inv(gateway, s) && s.process.phase in {Resolved, Released}
    ensures var p := s.process;
            forall id :: id in p.redeemed && id !in p.lost ==>
              || (id in s.db.relays && s.db.relays[id].status == Closed) || id in p.unclosed || id in p.unconfirmed
              || (p.phase == Resolved && BeingConfirmed(p, id))
  {
    ShutdownPhase(gateway, s);
    hide S.Sound, CallsSound, CarriedSound, SetupsSound, ClosuresSound, RedeemedSound, PhaseSound;
    forall id | id in s.process.redeemed && id !in s.process.lost ensures Accounted(s, id) {
    }
  }

  /** After the release no durable relay of the process is left open, if no durable call about one failed. */
  lemma {:induction false} ReleaseLeavesNothingOpen(cfg: Config, db: Tables, now: int, es: seq<Event>)
    requires S.Sound(db, now)
    requires Run(cfg, Initial(db, now), es).process.phase == Released
    ensures var s := Run(cfg, Initial(db, now), es);
            var p := s.process;
            && p.calls == map[]
            && (p.unclosed + p.unconfirmed + p.lost == {} ==>
                  forall id :: id in p.redeemed ==> id in s.db.relays && s.db.relays[id].status == Closed)
  {
    var s := Run(cfg, Initial(db, now), es);
    ShutdownAccountsForEveryRelay(cfg, db, now, es);
    RunInv(cfg, db, now, es);
    hide S.Sound, CallsSound, CarriedSound, SetupsSound, ClosuresSound, AccountedSound, Run;
    assert PhaseSound(s.process);
  }
}
