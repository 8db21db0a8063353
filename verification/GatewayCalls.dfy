/** Policy calls, durable closures and the phases of the process keep the invariant. */
module GatewayCalls {
  import opened Wrappers
  import opened SshTables
  import opened SshPolicy
  import opened Gateway
  import opened GatewaySafety
  import opened GatewayEvents
  import S = SshPolicySafety
  import R = RelayRegistry
  import Tomb = Tombstones

  // ----- calls of the policy -----

  /** Another call is unchanged; this one changed from one state to another or ended. */
  lemma OtherCalls(p: Process, p': Process, call: CallId)
    requires p'.calls - {call} == p.calls - {call}
    ensures forall k :: k != call ==> (k in p'.calls <==> k in p.calls)
    ensures forall k :: k != call && k in p.calls ==> p'.calls[k] == p.calls[k]
  {
    forall k | k != call ensures k in p'.calls <==> k in p.calls {
      assert k in p'.calls - {call} <==> k in p.calls - {call};
    }
    forall k | k != call && k in p.calls ensures p'.calls[k] == p.calls[k] {
      assert (p'.calls - {call})[k] == (p.calls - {call})[k];
    }
  }

  lemma AdmitInv(gateway: GatewayId, s: System, call: CallId, command: Command)
    requires Inv(gateway, s) && s.process.accepting && call !in s.process.calls && HostCommand(command)
    ensures Inv(gateway, s.(process := s.process.(calls := s.process.calls[call := Admitted(command)])))
  {
    var p := s.process;
    var s' := s.(process := p.(calls := p.calls[call := Admitted(command)]));
    hide S.Sound, RedeemedSound, SetupsSound, ClosuresSound;
    assert s'.process.calls - {call} == p.calls - {call};
    OtherCalls(p, s'.process, call);
    forall id | Quiet(s, id) ensures Quiet(s', id) {
      QuietOnward(s, s', id);
    }
    forall id | Carried(s'.process, id)
      ensures Carried(p, id) && (BeingRevoked(p, id) ==> BeingRevoked(s'.process, id))
    {
    }
    forall id | Accounted(s, id) ensures Accounted(s', id) {
    }
    AccountedOnward(s, s');
    LocallyInv(gateway, s, s');
  }

  /** A host transaction: nothing closes at once, and whatever starts closing is marked in the call. */
  ghost predicate HostTransacts(s: System, s': System, call: CallId) {
    var p, p' := s.process, s'.process;
    && s' == s.(db := s'.db, now := s'.now, process := p')
    && p' == p.(calls := p'.calls)
    && p'.calls - {call} == p.calls - {call}
    && (p'.calls != p.calls ==>
          && (call in p.calls ==> p.calls[call].Admitted?)
          && (call in p'.calls ==>
                p'.calls[call].Marked? && forall id :: id in p'.calls[call].ids ==> IsClosing(s'.db, id)))
    && (forall id :: id in s.db.relays ==>
          && id in s'.db.relays
          && (s'.db.relays[id].status != s.db.relays[id].status ==>
                s'.db.relays[id].status == Closing && call in p'.calls && p'.calls[call].Marked? && id in p'.calls[call].ids))
  }

  lemma HostTransactsCalls(s: System, s': System, call: CallId)
    requires Onward(s.db, s'.db) && HostTransacts(s, s', call) && CallsSound(s)
    ensures CallsSound(s')
  {
    OtherCalls(s.process, s'.process, call);
    forall id | Quiet(s, id) ensures Quiet(s', id) {
      QuietOnward(s, s', id);
    }
  }

  lemma HostTransactsCarried(gateway: GatewayId, s: System, s': System, call: CallId)
    requires Onward(s.db, s'.db) && HostTransacts(s, s', call) && CarriedSound(s) && RedeemedSound(gateway, s)
    ensures CarriedSound(s')
  {
    OtherCalls(s.process, s'.process, call);
    forall id | Carried(s'.process, id)
      ensures Carried(s.process, id) && id in s.db.relays && (BeingRevoked(s.process, id) ==> BeingRevoked(s'.process, id))
    {
    }
  }

  lemma HostTransactsAccounted(s: System, s': System, call: CallId)
    requires Onward(s.db, s'.db) && HostTransacts(s, s', call) && AccountedSound(s)
    ensures AccountedSound(s')
  {
    OtherCalls(s.process, s'.process, call);
    forall id | Accounted(s, id) ensures Accounted(s', id) {
    }
    AccountedOnward(s, s');
  }

  lemma HostTransactsInv(gateway: GatewayId, s: System, s': System, call: CallId)
    requires Inv(gateway, s) && Onward(s.db, s'.db) && S.Sound(s'.db, s'.now) && HostTransacts(s, s', call)
    requires call in s'.process.calls ==> call in s.process.calls
    ensures Inv(gateway, s')
  {
    hide S.Sound, CallsSound, CarriedSound, AccountedSound, SetupsSound, ClosuresSound;
    HostTransactsCalls(s, s', call);
    HostTransactsCarried(gateway, s, s', call);
    HostTransactsAccounted(s, s', call);
    OtherCalls(s.process, s'.process, call);
    LocallyInv(gateway, s, s');
  }

  lemma CallCommittedInv(gateway: GatewayId, s: System, call: CallId, at: int)
    requires Inv(gateway, s) && call in s.process.calls && s.process.calls[call].Admitted? && s.now <= at
    ensures Inv(gateway, CallCommitted(s, call, at))
  {
    hide Inv, Allowed, Step, Selected, S.Sound, HostCommand, Onward;
    var c := s.process.calls[call].command;
    InvSound(gateway, s);
    AdmittedIsHost(gateway, s, call);
    StepOnward(s, at, c);
    HostStepSelects(s.db, at, c);
    var s' := CallCommitted(s, call, at);
    assert s'.process.calls - {call} == s.process.calls - {call};
    HostTransactsInv(gateway, s, s', call);
  }

  lemma AdmittedIsHost(gateway: GatewayId, s: System, call: CallId)
    requires Inv(gateway, s) && call in s.process.calls && s.process.calls[call].Admitted?
    ensures HostCommand(s.process.calls[call].command)
  {
    hide Quiet, IsClosing, HostCommand, S.Sound;
  }

  lemma OthersCommitInv(gateway: GatewayId, s: System, directory: Directory, at: int)
    requires Inv(gateway, s) && s.now <= at
    ensures Inv(gateway, Transact(s, at, SshPolicy.Administer(directory), s.process))
  {
    hide Inv, S.Sound, Onward;
    var c := SshPolicy.Administer(directory);
    InvSound(gateway, s);
    StepOnward(s, at, c);
    HostTransactsInv(gateway, s, Transact(s, at, c, s.process), 0);
  }

  // ----- closing locally, confirming, giving up -----

  ghost predicate ClosesLocally(s: System, s': System, call: CallId) {
    var p, p' := s.process, s'.process;
    && call in p.calls && p.calls[call].Marked?
    && p' == p.(registry := p'.registry, calls := p.calls[call := ClosedHere(p.calls[call].ids)])
    && p'.registry.relays == p.registry.relays - p.calls[call].ids
    && s' == s.(process := p')
  }

  lemma ClosesLocallyCalls(s: System, s': System, call: CallId)
    requires ClosesLocally(s, s', call) && CallsSound(s)
    ensures CallsSound(s')
  {
    forall id | Quiet(s, id) ensures Quiet(s', id) {
    }
    forall id | id in s.process.calls[call].ids ensures Quiet(s', id) {
    }
  }

  lemma ClosesLocallyCarried(s: System, s': System, call: CallId)
    requires ClosesLocally(s, s', call) && CarriedSound(s)
    ensures CarriedSound(s')
  {
    var p, p' := s.process, s'.process;
    forall id | Carried(p', id) ensures Carried(p, id) && (BeingRevoked(p, id) ==> BeingRevoked(p', id)) {
      assert id !in p.calls[call].ids;
      if k :| k in p.calls && p.calls[k].Marked? && id in p.calls[k].ids {
        assert p'.calls[k] == p.calls[k];
      }
    }
  }

  lemma ClosesLocallyAccounted(s: System, s': System, call: CallId)
    requires ClosesLocally(s, s', call) && AccountedSound(s)
    ensures AccountedSound(s')
  {
    var p, p' := s.process, s'.process;
    forall id | Waiting(p, id) ensures Waiting(p', id) {
    }
    forall id | Accounted(s, id) ensures Accounted(s', id) {
      if k :| k in p.calls && p.calls[k].ClosedHere? && id in p.calls[k].ids {
        assert p'.calls[k] == p.calls[k];
      }
    }
    forall id | id in p.calls[call].ids ensures Accounted(s', id) {
      assert p'.calls[call].ClosedHere?;
    }
  }

  lemma CallClosedInv(cfg: Config, s: System, call: CallId, order: seq<RelayId>, readings: seq<R.Reading>)
    requires Inv(cfg.gateway, s) && call in s.process.calls && s.process.calls[call].Marked?
    requires Elements(order) == s.process.calls[call].ids && |readings| == |order|
    ensures Inv(cfg.gateway, CallClosed(cfg, s, call, order, readings))
  {
    hide Inv, R.CloseEach;
    var s' := CallClosed(cfg, s, call, order, readings);
    R.CloseEachEffect(s.process.registry, order, R.Host, readings, cfg.limits);
    ClosesLocallyInv(cfg.gateway, s, s', call);
  }

  lemma ClosesLocallyInv(gateway: GatewayId, s: System, s': System, call: CallId)
    requires Inv(gateway, s) && ClosesLocally(s, s', call)
    ensures Inv(gateway, s')
  {
    hide S.Sound, CallsSound, CarriedSound, AccountedSound;
    ClosesLocallyCalls(s, s', call);
    ClosesLocallyCarried(s, s', call);
    ClosesLocallyAccounted(s, s', call);
  }

  /** Confirmation of relays that are quiet here always succeeds. */
  lemma ConfirmStep(s: System, at: int, ids: set<RelayId>)
    requires forall id :: id in ids ==> IsClosing(s.db, id)
    ensures Allowed(s.db, at, Confirm(ids))
    ensures var db' := Step(s.db, at, Confirm(ids));
            && db'.relays.Keys == s.db.relays.Keys
            && (forall id :: id in ids ==> db'.relays[id].status == Closed)
            && (forall id :: id in s.db.relays && id !in ids ==> db'.relays[id] == s.db.relays[id])
  {
  }

  /** A call ends: it closes or gives up what it had closed here, and gives up what it had only marked. */
  ghost predicate CallEnds(s: System, s': System, call: CallId) {
    var p, p' := s.process, s'.process;
    && call in p.calls
    && p' == p.(calls := p.calls - {call}, unconfirmed := p'.unconfirmed)
    && p.unconfirmed <= p'.unconfirmed
    && (!p.calls[call].Admitted? ==> forall id :: id in p.calls[call].ids ==>
          || id in p'.unconfirmed
          || (p.calls[call].ClosedHere? && id in s'.db.relays && s'.db.relays[id].status == Closed && Quiet(s, id)))
    && (forall id :: id in s.db.relays ==>
          id in s'.db.relays && (s'.db.relays[id].status == s.db.relays[id].status || Quiet(s, id)))
    && s' == s.(db := s'.db, now := s'.now, process := p', confirmed := s'.confirmed)
    && (forall id :: id in s'.confirmed - s.confirmed ==>
          Quiet(s, id) && id in s'.db.relays && s'.db.relays[id].status == Closed)
  }

  lemma CallEndsCalls(s: System, s': System, call: CallId)
    requires Onward(s.db, s'.db) && CallEnds(s, s', call) && CallsSound(s)
    ensures CallsSound(s')
  {
    forall id | Quiet(s, id) ensures Quiet(s', id) {
      QuietOnward(s, s', id);
    }
    forall id | id in s'.confirmed ensures Quiet(s', id) && s'.db.relays[id].status == Closed {
      assert id in s.confirmed || id in s'.confirmed - s.confirmed;
    }
  }

  lemma CallEndsCarried(gateway: GatewayId, s: System, s': System, call: CallId)
    requires Onward(s.db, s'.db) && CallEnds(s, s', call) && CarriedSound(s) && RedeemedSound(gateway, s)
    ensures CarriedSound(s')
  {
    var p, p' := s.process, s'.process;
    forall id | Carried(p', id)
      ensures Carried(p, id) && id in s.db.relays && s'.db.relays[id].status == s.db.relays[id].status
              && (BeingRevoked(p, id) ==> BeingRevoked(p', id))
    {
      assert !Quiet(s, id);
      if k :| k in p.calls && p.calls[k].Marked? && id in p.calls[k].ids {
        assert k == call || p'.calls[k] == p.calls[k];
      }
    }
  }

  lemma CallEndsAccounted(s: System, s': System, call: CallId)
    requires Onward(s.db, s'.db) && CallEnds(s, s', call) && AccountedSound(s)
    ensures AccountedSound(s')
  {
    var p, p' := s.process, s'.process;
    forall id | Accounted(s, id) ensures Accounted(s', id) {
      if k :| k in p.calls && p.calls[k].ClosedHere? && id in p.calls[k].ids {
        assert k == call || p'.calls[k] == p.calls[k];
      }
    }
    AccountedOnward(s, s');
  }

  lemma CallEndsInv(gateway: GatewayId, s: System, s': System, call: CallId)
    requires Inv(gateway, s) && Onward(s.db, s'.db) && S.Sound(s'.db, s'.now) && CallEnds(s, s', call)
    ensures Inv(gateway, s')
  {
    hide S.Sound, CallsSound, CarriedSound, AccountedSound, SetupsSound, ClosuresSound;
    CallEndsCalls(s, s', call);
    CallEndsCarried(gateway, s, s', call);
    CallEndsAccounted(s, s', call);
    LocallyInv(gateway, s, s');
  }

  lemma CallConfirmedInv(gateway: GatewayId, s: System, call: CallId, at: int)
    requires Inv(gateway, s) && call in s.process.calls && s.process.calls[call].ClosedHere? && s.now <= at
    ensures Inv(gateway, CallConfirmed(s, call, at))
  {
    hide Inv, Allowed, Step, S.Sound, Onward;
    var ids := s.process.calls[call].ids;
    ClosedHereIsQuiet(gateway, s, call);
    InvSound(gateway, s);
    ConfirmStep(s, at, ids);
    StepOnward(s, at, Confirm(ids));
    CallEndsInv(gateway, s, CallConfirmed(s, call, at), call);
  }

  lemma ClosedHereIsQuiet(gateway: GatewayId, s: System, call: CallId)
    requires Inv(gateway, s) && call in s.process.calls && s.process.calls[call].ClosedHere?
    ensures forall id :: id in s.process.calls[call].ids ==> Quiet(s, id)
  {
    hide Quiet, S.Sound;
  }

  lemma CallFailedInv(gateway: GatewayId, s: System, call: CallId)
    requires Inv(gateway, s) && call in s.process.calls
    ensures Inv(gateway, CallFailed(s, call))
  {
    hide Inv, S.Sound;
    InvSound(gateway, s);
    CallEndsInv(gateway, s, CallFailed(s, call), call);
  }

  // ----- durable closures -----

  ghost predicate ClosureEnds(s: System, s': System, relay: RelayId) {
    var p, p' := s.process, s'.process;
    && relay in p.closures
    && p' == p.(closures := p.closures - {relay}, failed := p'.failed, unclosed := p'.unclosed)
    && p.unclosed <= p'.unclosed
    && (relay in p'.unclosed || (relay in s'.db.relays && s'.db.relays[relay].status == Closed))
    && s'.db.relays.Keys == s.db.relays.Keys
    && (forall id :: id in s.db.relays && id != relay ==> s'.db.relays[id] == s.db.relays[id])
    && s' == s.(db := s'.db, now := s'.now, process := p')
  }

  lemma ClosureEndsInv(gateway: GatewayId, s: System, s': System, relay: RelayId)
    requires Inv(gateway, s) && Onward(s.db, s'.db) && S.Sound(s'.db, s'.now) && ClosureEnds(s, s', relay)
    ensures Inv(gateway, s')
  {
    var p, p' := s.process, s'.process;
    hide S.Sound, SetupsSound;
    assert relay !in p.registry.relays;
    assert CallsSound(s') by {
      forall id | Quiet(s, id) ensures Quiet(s', id) {
        QuietOnward(s, s', id);
      }
    }
    assert CarriedSound(s') by {
      hide Quiet, Accounted, Onward;
      forall id | Carried(p', id) ensures id != relay && Carried(p, id) && (BeingRevoked(p, id) ==> BeingRevoked(p', id)) {
      }
    }
    assert AccountedSound(s') by {
      hide Carried, Quiet, BeingRevoked;
      forall id | Accounted(s, id) ensures Accounted(s', id) {
      }
      AccountedOnward(s, s');
    }
    LocallyInv(gateway, s, s');
  }

  lemma CloseStep(t: Tables, now: int, c: Command)
    requires c.Close? && c.relay in t.relays && t.relays[c.relay].gateway == c.gateway
    ensures var t' := Step(t, now, c);
            && t'.relays.Keys == t.relays.Keys && t'.relays[c.relay].status == Closed
            && (forall id :: id in t.relays && id != c.relay ==> t'.relays[id] == t.relays[id])
  {
  }

  lemma TrackedIsOwn(gateway: GatewayId, s: System, relay: RelayId)
    requires Inv(gateway, s) && relay in s.process.closures
    ensures relay in s.db.relays && s.db.relays[relay].gateway == gateway
  {
    hide S.Sound, CallsSound, AccountedSound, CarriedSound;
  }

  lemma ClosureCommittedInv(cfg: Config, s: System, relay: RelayId, at: int, replied: bool)
    requires Inv(cfg.gateway, s) && relay in s.process.closures && s.now <= at
    ensures Inv(cfg.gateway, ClosureCommitted(cfg, s, relay, at, replied))
  {
    hide Inv, Step, S.Sound, Onward;
    var c := SshPolicy.Close(relay, cfg.gateway, s.process.closures[relay]);
    TrackedIsOwn(cfg.gateway, s, relay);
    InvSound(cfg.gateway, s);
    CloseStep(s.db, at, c);
    StepOnward(s, at, c);
    ClosureEndsInv(cfg.gateway, s, ClosureCommitted(cfg, s, relay, at, replied), relay);
  }

  lemma ClosureFailsInv(gateway: GatewayId, s: System, relay: RelayId)
    requires Inv(gateway, s) && relay in s.process.closures
    ensures Inv(gateway, s.(process := ClosureFailed(s.process, relay)))
  {
    hide Inv, S.Sound;
    InvSound(gateway, s);
    ClosureEndsInv(gateway, s, s.(process := ClosureFailed(s.process, relay)), relay);
  }

  // ----- phases -----

  lemma PhaseInv(gateway: GatewayId, s: System, phase: Phase, accepting: bool)
    requires Inv(gateway, s) && PhaseSound(s.process.(phase := phase, accepting := accepting))
    ensures Inv(gateway, s.(process := s.process.(phase := phase, accepting := accepting)))
  {
    hide S.Sound, PhaseSound;
    var p := s.process;
    var p' := p.(phase := phase, accepting := accepting);
    var s' := s.(process := p');
    assert p'.registry.relays == p.registry.relays - {};
    assert Unregisters(p, p', {});
    hide Inv;
    UnregisterInv(gateway, s, s', {});
  }

  lemma AllClosed(r: R.Registry, order: seq<RelayId>, readings: seq<R.Reading>, limits: R.ValidLimits)
    requires Elements(order) == r.relays.Keys && |readings| == |order|
    ensures R.CloseEach(r, order, R.Shutdown, readings, limits).relays == map[]
  {
    hide R.CloseEach;
    R.CloseEachEffect(r, order, R.Shutdown, readings, limits);
    assert r.relays - (set id | id in order) == map[] by {
      assert forall id :: id in r.relays ==> id in Elements(order);
    }
  }

  lemma StoppedUnregisters(cfg: Config, p: Process, order: seq<RelayId>, readings: seq<R.Reading>)
    requires Elements(order) == p.registry.relays.Keys && |readings| == |order|
    ensures Unregisters(p, Stopped(cfg, p, order, readings), p.registry.relays.Keys)
    ensures Stopped(cfg, p, order, readings).registry.relays == map[]
  {
    hide R.CloseEach, Elements, WithShutdown;
    var ids := p.registry.relays.Keys;
    AllClosed(p.registry, order, readings, cfg.limits);
    ShutdownKeys(p.closures, ids);
    assert p.registry.relays - ids == map[];
    StartedOnce(p.started, ids);
  }

  lemma ShutdownKeys(closures: map<RelayId, Reason>, ids: set<RelayId>)
    ensures forall id :: id in WithShutdown(closures, ids) <==> id in closures || id in ids
  {
  }

  lemma StartedOnce(started: multiset<RelayId>, ids: set<RelayId>)
    ensures forall id :: (started + multiset(ids))[id] == started[id] + if id in ids then 1 else 0
  {
  }

  lemma StoppedInv(cfg: Config, s: System, order: seq<RelayId>, readings: seq<R.Reading>)
    requires Inv(cfg.gateway, s) && s.process.phase == Serving
    requires Elements(order) == s.process.registry.relays.Keys && |readings| == |order|
    ensures Inv(cfg.gateway, s.(process := Stopped(cfg, s.process, order, readings)))
  {
    hide Inv, R.CloseEach, Unregisters;
    var p := s.process;
    StoppedUnregisters(cfg, p, order, readings);
    UnregisterInv(cfg.gateway, s, s.(process := Stopped(cfg, p, order, readings)), p.registry.relays.Keys);
  }

  lemma RestartInv(gateway: GatewayId, s: System)
    requires Inv(gateway, s)
    ensures Inv(gateway, s.(process := IDLE))
  {
    hide S.Sound;
    var s' := s.(process := IDLE);
    assert CallsSound(s') by {
      forall id | Quiet(s, id) ensures Quiet(s', id) {
      }
    }
  }
}
