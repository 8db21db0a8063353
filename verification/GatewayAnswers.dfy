/** What the events between the stretches of gateway code leave, in terms of rows, relays and tasks. */
module GatewayAnswers {
  import opened Wrappers
  import opened SshTables
  import opened SshPolicy
  import opened Gateway
  import S = SshPolicySafety
  import Answers = SshAnswers
  import R = RelayRegistry

  /** A stream that ends closes a registered relay here and starts its durable closure; another one is only tombstoned. */
  lemma DisconnectExactly(cfg: Config, s: System, relay: RelayId, closed: R.Reading)
    requires Possible(cfg, s, Disconnect(relay, closed))
    ensures var p, p' := s.process, Apply(cfg, s, Disconnect(relay, closed)).process;
            && p'.registry.relays == p.registry.relays - {relay}
            && p'.closures == (if relay in p.registry.relays then p.closures[relay := "gateway_stream_closed"] else p.closures)
            && (relay in p.registry.relays ==>
                  && p.registry.relays[relay].channel in p'.registry.destroyed
                  && (p.registry.relays[relay].upstream.Some? ==>
                        p.registry.relays[relay].upstream.value in p'.registry.destroyed))
            && p'.setups == p.setups && p'.calls == p.calls && p'.phase == p.phase && p'.failed == p.failed
    ensures Apply(cfg, s, Disconnect(relay, closed)).db == s.db
  {
    hide Possible, R.Entomb, Step;
    assert R.Entomb(s.process.registry, relay, closed, cfg.limits).relays == s.process.registry.relays by {
      EntombedRelays(s.process.registry, relay, closed, cfg.limits);
    }
  }

  lemma EntombedRelays(r: R.Registry, relay: RelayId, at: R.Reading, limits: R.ValidLimits)
    ensures R.Entomb(r, relay, at, limits).relays == r.relays
  {
  }

  /** A redemption shows up in the row, and in the setup unless its reply is lost; a refused one ends the setup. */
  lemma RedemptionExactly(cfg: Config, s: System, setup: SetupId, newRelay: RelayId, at: int, replied: bool)
    requires S.Sound(s.db, at) && Possible(cfg, s, RedemptionCommits(setup, newRelay, at, replied))
    ensures var p, s' := s.process, Apply(cfg, s, RedemptionCommits(setup, newRelay, at, replied));
            var ticket, key := p.setups[setup].ticket, p.setups[setup].key;
            if newRelay !in s.db.relays && newRelay in s'.db.relays then
              && ticket in s.db.tickets && s.db.tickets[ticket].key == key && s.db.tickets[ticket].status == Issued
              && at < s.db.tickets[ticket].expiresAt && s'.db.tickets[ticket].status == Redeemed
              && s'.db.relays[newRelay].status == Opening && s'.db.relays[newRelay].key == key
              && s'.db.relays[newRelay].ticket == ticket && s'.db.relays[newRelay].gateway == cfg.gateway
              && s'.process.redeemed == p.redeemed + {newRelay}
              && (if replied then s'.process.setups == p.setups[setup := HasOpening(newRelay)]
                  else s'.process.setups == p.setups - {setup} && newRelay in s'.process.lost)
            else
              s'.db == s.db && s'.process == p.(setups := p.setups - {setup})
  {
    var k := s.process.setups[setup];
    Answers.RedeemExactly(s.db, at, k.ticket, k.key, cfg.gateway, newRelay);
    hide S.Sound, Allowed, Step, Answers.Reachable;
    assert !Allowed(s.db, at, Redeem(k.ticket, k.key, cfg.gateway, newRelay)) ==>
      Apply(cfg, s, RedemptionCommits(setup, newRelay, at, replied)).db == s.db;
  }

  /** A setup goes on to its dial exactly if the relay became active and the reply came back. */
  lemma ActivationExactly(cfg: Config, s: System, setup: SetupId, at: int, replied: bool)
    requires S.Sound(s.db, at) && Possible(cfg, s, ActivationCommits(setup, at, replied))
    requires var id := s.process.setups[setup].id;
             id in s.db.relays && s.db.relays[id].gateway == cfg.gateway && s.db.relays[id].status == Opening
    ensures var p, s' := s.process, Apply(cfg, s, ActivationCommits(setup, at, replied));
            var id := p.setups[setup].id;
            && id in s'.db.relays
            && s'.process.setups
               == p.setups[setup := if s'.db.relays[id].status == SshTables.Active && replied then HasActivation(id)
                                    else ActivationRefused(id)]
            && s'.process == p.(setups := s'.process.setups)
            && (s'.db.relays[id].status != SshTables.Active ==> s'.db == s.db)
  {
    var id := s.process.setups[setup].id;
    Answers.ActivateExactly(s.db, at, id, cfg.gateway);
    NotAllowed(s.db, at, SshPolicy.Activate(id, cfg.gateway));
    hide S.Sound, Allowed, Step, Answers.Reachable;
  }

  lemma NotAllowed(t: Tables, at: int, c: Command)
    ensures !Allowed(t, at, c) ==> Step(t, at, c) == t
  {
    hide Allowed;
  }

  /** A durable closure closes the row, and counts as failed exactly if its reply was lost. */
  lemma ClosureExactly(cfg: Config, s: System, relay: RelayId, at: int, replied: bool)
    requires S.Sound(s.db, at) && Possible(cfg, s, ClosureCommits(relay, at, replied))
    requires relay in s.db.relays && s.db.relays[relay].gateway == cfg.gateway
    ensures var p, s' := s.process, Apply(cfg, s, ClosureCommits(relay, at, replied));
            && relay in s'.db.relays && s'.db.relays[relay].status == Closed
            && (s.db.relays[relay].reason.None? ==> s'.db.relays[relay].reason == Some(p.closures[relay]))
            && (s.db.relays[relay].reason.Some? ==> s'.db.relays[relay].reason == s.db.relays[relay].reason)
            && s'.process == p.(closures := p.closures - {relay}, failed := s'.process.failed)
            && s'.process.failed == (if replied then p.failed else p.failed + {relay})
  {
    Answers.CloseExactly(s.db, at, relay, cfg.gateway, s.process.closures[relay]);
    assert S.RelaySound(s.db, s.db.relays[relay], at);
    hide S.Sound, Allowed, Step;
  }

  /** A revocation closes every selected relay here before it confirms any, and starts no durable closure for them. */
  lemma CallClosesExactly(cfg: Config, s: System, call: CallId, order: seq<RelayId>, readings: seq<R.Reading>)
    requires Possible(cfg, s, CallClosesLocally(call, order, readings))
    ensures var p, p' := s.process, Apply(cfg, s, CallClosesLocally(call, order, readings)).process;
            var ids := p.calls[call].ids;
            && p'.registry.relays == p.registry.relays - ids
            && p'.calls == p.calls[call := ClosedHere(ids)] && p'.closures == p.closures && p'.setups == p.setups
            && (forall id :: id in ids && id in p.registry.relays ==>
                  && p.registry.relays[id].channel in p'.registry.destroyed
                  && (p.registry.relays[id].upstream.Some? ==>
                        p.registry.relays[id].upstream.value in p'.registry.destroyed))
  {
    R.CloseEachEffect(s.process.registry, order, R.Host, readings, cfg.limits);
    hide R.CloseEach;
  }

  /** A revocation confirms its relays all together, and only if each of them is durably closing or closed. */
  lemma CallConfirmsExactly(cfg: Config, s: System, call: CallId, at: int)
    requires Possible(cfg, s, CallConfirms(call, at))
    ensures var p, s' := s.process, Apply(cfg, s, CallConfirms(call, at));
            var ids := p.calls[call].ids;
            && s'.process.calls == p.calls - {call} && s'.process.registry == p.registry
            && if forall id :: id in ids ==>
                 id in s.db.relays && s.db.relays[id].status != Opening && s.db.relays[id].status != SshTables.Active
               then
                 && s'.confirmed == s.confirmed + ids
                 && forall id :: id in ids ==> id in s'.db.relays && s'.db.relays[id].status == Closed
               else
                 s'.db == s.db && s'.confirmed == s.confirmed && s'.process.unconfirmed == p.unconfirmed + ids
  {
    Answers.ConfirmExactly(s.db, at, s.process.calls[call].ids);
    hide Allowed, Step;
  }
}
