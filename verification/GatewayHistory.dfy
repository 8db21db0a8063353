/** What must have happened in a run before a relay is redeemed, dials, or carries a stream. */
module GatewayHistory {
  import opened Wrappers
  import opened SshTables
  import opened SshPolicy
  import opened Gateway
  import opened GatewaySafety
  import opened GatewayEvents
  import opened GatewayRuns
  import S = SshPolicySafety
  import Policy = SshPolicyRuns
  import R = RelayRegistry
  import Tomb = Tombstones

  /** The system before event i of the run. */
  function Before(cfg: Config, s: System, es: seq<Event>, i: nat): System
    requires i <= |es|
  {
    Run(cfg, s, es[..i])
  }

  /** Event i of the run took place. */
  ghost predicate Took(cfg: Config, s: System, es: seq<Event>, i: nat) {
    i < |es| && Possible(cfg, Before(cfg, s, es, i), es[i])
  }

  lemma TookEarlier(cfg: Config, s: System, es: seq<Event>, i: nat)
    requires i < |es| - 1
    ensures Before(cfg, s, es[..|es| - 1], i) == Before(cfg, s, es, i)
    ensures Took(cfg, s, es[..|es| - 1], i) <==> Took(cfg, s, es, i)
  {
    assert es[..|es| - 1][..i] == es[..i];
  }

  // ----- what the events do to relays that are registered -----

  /** No relay of the registry advances. */
  ghost predicate Steady(r: R.Registry, r': R.Registry) {
    forall id :: id in r'.relays ==>
      r'.relays[id].state == R.Registered || (id in r.relays && r.relays[id].state == r'.relays[id].state)
  }

  lemma FailSetupSteady(cfg: Config, p: Process, setup: SetupId, id: RelayId, at: R.Reading)
    ensures Steady(p.registry, FailSetup(cfg, p, setup, id, at).registry)
  {
    CloseRelays(p.registry, id, R.SetupFailure, at, cfg.limits);
    hide R.Close;
  }

  lemma ContinuedSteady(cfg: Config, p: Process, setup: SetupId, id: RelayId, gone: bool, channel: R.Socket, read: int,
                        again: R.Reading)
    ensures Steady(p.registry, Continued(cfg, p, setup, id, gone, channel, read, again).registry)
  {
    RegisterEffect(p.registry, id, channel, read, again, cfg.limits);
    hide R.Register;
  }

  /** A dial begins for the relay of the setup alone. */
  lemma DialedAlone(cfg: Config, p: Process, setup: SetupId, id: RelayId, validDestination: bool, upstream: R.Socket,
                    begun: int, attached: int, closed: R.Reading)
    ensures var r, r' := p.registry, Dialed(cfg, p, setup, id, validDestination, upstream, begun, attached, closed).registry;
            forall other :: other in r'.relays ==>
              || r'.relays[other].state == R.Registered
              || (other in r.relays && r.relays[other].state == r'.relays[other].state)
              || (other == id && r'.relays[other].state == R.Dialing)
  {
    var (dialing, ok) := R.BeginDial(p.registry, id, begun);
    var (connecting, kept) := R.AttachUpstream(dialing, id, upstream, attached);
    FailSetupSteady(cfg, p.(registry := dialing), setup, id, closed);
    FailSetupSteady(cfg, p.(registry := connecting), setup, id, closed);
    hide FailSetup, Tomb.Prune, Tomb.Ids;
  }

  /** A relay becomes active for the setup whose dial connected. */
  lemma PipedAlone(cfg: Config, p: Process, setup: SetupId, id: RelayId, connected: bool, read: int, closed: R.Reading)
    ensures var r, r' := p.registry, Piped(cfg, p, setup, id, connected, read, closed).registry;
            forall other :: other in r'.relays ==>
              || r'.relays[other].state == R.Registered
              || (other in r.relays && r.relays[other].state == r'.relays[other].state)
              || (other == id && connected && other in r.relays && r.relays[other].state == R.Dialing)
  {
    var (registry, ok) := R.Activate(p.registry, id, read);
    FailSetupSteady(cfg, p, setup, id, closed);
    FailSetupSteady(cfg, p.(registry := registry), setup, id, closed);
    hide FailSetup, Tomb.Prune, Tomb.Ids;
  }

  /** Closing relays, or doing nothing to the registry, is steady. */
  lemma OthersSteady(cfg: Config, s: System, e: Event)
    requires Possible(cfg, s, e) && !e.ContinueActivated? && !e.DialEnds?
    ensures Steady(s.process.registry, Apply(cfg, s, e).process.registry)
  {
    hide Steady, R.Close, R.CloseEach, Continued, FailSetup, Allowed, Step;
    var p := s.process;
    if e.ContinueOpened? {
      ContinuedSteady(cfg, p, e.setup, p.setups[e.setup].id, e.gone, e.channel, e.read, e.again);
    } else if e.ContinueRefused? {
      FailSetupSteady(cfg, p, e.setup, p.setups[e.setup].id, e.closed);
    } else {
      ClosingSteady(cfg, s, e);
    }
  }

  lemma ClosingSteady(cfg: Config, s: System, e: Event)
    requires Possible(cfg, s, e) && !e.ContinueActivated? && !e.DialEnds? && !e.ContinueOpened? && !e.ContinueRefused?
    ensures Steady(s.process.registry, Apply(cfg, s, e).process.registry)
  {
    hide R.Close, R.CloseEach, Continued, FailSetup, Allowed, Step;
    var p := s.process;
    if e.Disconnect? {
      CloseRelays(p.registry, e.relay, R.Natural, e.closed, cfg.limits);
    } else if e.CallClosesLocally? {
      R.CloseEachEffect(p.registry, e.order, R.Host, e.readings, cfg.limits);
    } else if e.Stop? {
      R.CloseEachEffect(p.registry, e.order, R.Shutdown, e.readings, cfg.limits);
    }
  }

  // ----- what the continuations do to their setup -----

  /** Only this setup changes, and it waits neither for a redemption nor with an activation. */
  ghost predicate MovesOn(p: Process, p': Process, setup: SetupId) {
    && (forall k :: k in p'.setups && k != setup ==> k in p.setups && p'.setups[k] == p.setups[k])
    && (setup in p'.setups ==> !p'.setups[setup].AwaitsRedemption? && !p'.setups[setup].HasActivation?)
    && p'.redeemed == p.redeemed && p'.phase == p.phase && p'.failed == p.failed
  }

  lemma FailSetupMovesOn(cfg: Config, p: Process, setup: SetupId, id: RelayId, at: R.Reading)
    ensures MovesOn(p, FailSetup(cfg, p, setup, id, at), setup)
  {
    hide R.Close;
  }

  lemma ContinuedMovesOn(cfg: Config, p: Process, setup: SetupId, id: RelayId, gone: bool, channel: R.Socket, read: int,
                         again: R.Reading)
    ensures MovesOn(p, Continued(cfg, p, setup, id, gone, channel, read, again), setup)
  {
    hide R.Register;
  }

  lemma DialedMovesOn(cfg: Config, p: Process, setup: SetupId, id: RelayId, validDestination: bool, upstream: R.Socket,
                      begun: int, attached: int, closed: R.Reading)
    ensures MovesOn(p, Dialed(cfg, p, setup, id, validDestination, upstream, begun, attached, closed), setup)
  {
    hide R.BeginDial, R.AttachUpstream, FailSetup;
    var (dialing, ok) := R.BeginDial(p.registry, id, begun);
    var (connecting, kept) := R.AttachUpstream(dialing, id, upstream, attached);
    FailSetupMovesOn(cfg, p.(registry := dialing), setup, id, closed);
    FailSetupMovesOn(cfg, p.(registry := connecting), setup, id, closed);
  }

  lemma PipedMovesOn(cfg: Config, p: Process, setup: SetupId, id: RelayId, connected: bool, read: int, closed: R.Reading)
    ensures MovesOn(p, Piped(cfg, p, setup, id, connected, read, closed), setup)
  {
    hide R.Activate, FailSetup;
    var (registry, ok) := R.Activate(p.registry, id, read);
    FailSetupMovesOn(cfg, p, setup, id, closed);
    FailSetupMovesOn(cfg, p.(registry := registry), setup, id, closed);
  }

  lemma ContinuationMovesOn(cfg: Config, s: System, e: Event)
    requires Possible(cfg, s, e) && Continues(e)
    ensures MovesOn(s.process, Apply(cfg, s, e).process, e.setup)
  {
    hide Continued, Dialed, Piped, FailSetup, MovesOn;
    var p := s.process;
    match e {
      case ContinueOpened(setup, gone, channel, read, again) =>
        ContinuedMovesOn(cfg, p, setup, p.setups[setup].id, gone, channel, read, again);
      case ContinueActivated(setup, validDestination, upstream, begun, attached, closed) =>
        DialedMovesOn(cfg, p, setup, p.setups[setup].id, validDestination, upstream, begun, attached, closed);
      case ContinueRefused(setup, closed) => FailSetupMovesOn(cfg, p, setup, p.setups[setup].id, closed);
      case DialEnds(setup, connected, read, closed) =>
        PipedMovesOn(cfg, p, setup, p.setups[setup].id, connected, read, closed);
    }
  }

  predicate Continues(e: Event) {
    e.ContinueOpened? || e.ContinueActivated? || e.ContinueRefused? || e.DialEnds?
  }

  // ----- an active relay was dialed -----

  predicate IsActive(p: Process, id: RelayId) {
    id in p.registry.relays && p.registry.relays[id].state == R.Active
  }

  /** Event i is the end of a dial that connected, in the setup of the relay. */
  ghost predicate Connects(cfg: Config, s: System, es: seq<Event>, i: nat, id: RelayId) {
    && Took(cfg, s, es, i) && es[i].DialEnds? && es[i].connected
    && Before(cfg, s, es, i).process.setups[es[i].setup] == AwaitsDial(id)
  }

  /** No event but the end of a connected dial makes a relay active. */
  lemma OnlyDialsActivate(cfg: Config, s: System, e: Event, id: RelayId)
    requires Possible(cfg, s, e) && IsActive(Apply(cfg, s, e).process, id) && !IsActive(s.process, id)
    ensures e.DialEnds? && e.connected && s.process.setups[e.setup] == AwaitsDial(id)
  {
    hide Dialed, Piped;
    var p := s.process;
    if e.ContinueActivated? {
      DialedAlone(cfg, p, e.setup, p.setups[e.setup].id, e.validDestination, e.upstream, e.begun, e.attached, e.closed);
    } else if e.DialEnds? {
      PipedAlone(cfg, p, e.setup, p.setups[e.setup].id, e.connected, e.read, e.closed);
    } else {
      OthersSteady(cfg, s, e);
      hide Apply;
    }
  }

  /** A relay carries a stream only after its activation was dialed and the dial connected. */
  lemma {:induction false} ActiveWasDialed(cfg: Config, s: System, es: seq<Event>, id: RelayId)
    requires s.process == IDLE && IsActive(Run(cfg, s, es).process, id)
    ensures exists i :: 0 <= i < |es| && Connects(cfg, s, es, i, id)
  {
    if es != [] {
      var front, n := es[..|es| - 1], |es| - 1;
      var before := Run(cfg, s, front);
      assert Before(cfg, s, es, n) == before;
      if IsActive(before.process, id) {
        ActiveWasDialed(cfg, s, front, id);
        var i :| 0 <= i < |front| && Connects(cfg, s, front, i, id);
        TookEarlier(cfg, s, es, i);
        assert Connects(cfg, s, es, i, id);
      } else {
        OnlyDialsActivate(cfg, before, es[n], id);
        assert Connects(cfg, s, es, n, id);
      }
    }
  }

  // ----- a dial follows an activation that replied -----

  /** The relay dials, carries a stream, or its setup has been told of its activation. */
  ghost predicate Begun(p: Process, id: RelayId) {
    || (id in p.registry.relays && p.registry.relays[id].state != R.Registered)
    || exists k :: k in p.setups && p.setups[k] == HasActivation(id)
  }

  ghost predicate Activates(cfg: Config, s: System, es: seq<Event>, i: nat, id: RelayId) {
    && Took(cfg, s, es, i) && es[i].ActivationCommits? && es[i].replied
    && Before(cfg, s, es, i).process.setups[es[i].setup] == AwaitsActivation(id)
    && id in Before(cfg, s, es, i + 1).db.relays && Before(cfg, s, es, i + 1).db.relays[id].status == SshTables.Active
  }

  /** A setup learns of an activation only from one that committed and replied. */
  lemma OnlyActivationsAnswer(cfg: Config, s: System, e: Event, k: SetupId, id: RelayId)
    requires Possible(cfg, s, e)
    requires k in Apply(cfg, s, e).process.setups && Apply(cfg, s, e).process.setups[k] == HasActivation(id)
    requires !(k in s.process.setups && s.process.setups[k] == HasActivation(id))
    ensures e.ActivationCommits? && e.replied && e.setup == k && s.process.setups[k] == AwaitsActivation(id)
    ensures Allowed(s.db, e.at, SshPolicy.Activate(id, cfg.gateway))
  {
    hide Allowed, Step, R.Close, R.CloseEach, Continued, Dialed, Piped, FailSetup, WithShutdown;
    if Continues(e) {
      ContinuationMovesOn(cfg, s, e);
      hide Apply;
    }
  }

  lemma OnlyActivationsBegin(cfg: Config, s: System, e: Event, id: RelayId)
    requires Possible(cfg, s, e) && Begun(Apply(cfg, s, e).process, id) && !Begun(s.process, id)
    ensures e.ActivationCommits? && e.replied && s.process.setups[e.setup] == AwaitsActivation(id)
    ensures Allowed(s.db, e.at, SshPolicy.Activate(id, cfg.gateway))
  {
    var p, p' := s.process, Apply(cfg, s, e).process;
    if k :| k in p'.setups && p'.setups[k] == HasActivation(id) {
      OnlyActivationsAnswer(cfg, s, e, k, id);
    } else {
      hide Dialed, Piped;
      if e.ContinueActivated? {
        DialedAlone(cfg, p, e.setup, p.setups[e.setup].id, e.validDestination, e.upstream, e.begun, e.attached, e.closed);
      } else if e.DialEnds? {
        PipedAlone(cfg, p, e.setup, p.setups[e.setup].id, e.connected, e.read, e.closed);
      } else {
        OthersSteady(cfg, s, e);
        hide Apply;
      }
    }
  }

  /** A relay dials only after its durable activation committed and its setup was told so. */
  lemma {:induction false} DialWasActivated(cfg: Config, s: System, es: seq<Event>, id: RelayId)
    requires s.process == IDLE && Begun(Run(cfg, s, es).process, id)
    ensures exists i :: 0 <= i < |es| && Activates(cfg, s, es, i, id)
  {
    if es != [] {
      var front, n := es[..|es| - 1], |es| - 1;
      var before := Run(cfg, s, front);
      assert Before(cfg, s, es, n) == before && es[..n + 1] == es;
      if Begun(before.process, id) {
        DialWasActivated(cfg, s, front, id);
        var i :| 0 <= i < |front| && Activates(cfg, s, front, i, id);
        TookEarlier(cfg, s, es, i);
        assert front[..i + 1] == es[..i + 1];
        assert Activates(cfg, s, es, i, id);
      } else {
        OnlyActivationsBegin(cfg, before, es[n], id);
        ActivateStep(before.db, es[n].at, SshPolicy.Activate(id, cfg.gateway));
        hide Begun, Possible;
        assert Activates(cfg, s, es, n, id);
      }
    }
  }

  // ----- a relay belongs to the key that was offered for it -----

  /** Event j opened a shell in which this ticket and this key were offered. */
  ghost predicate Offers(cfg: Config, s: System, es: seq<Event>, j: nat, setup: SetupId, ticket: TicketId, key: KeyId) {
    Took(cfg, s, es, j) && es[j] == OpenShell(setup, ticket, key)
  }

  lemma OnlyShellsOffer(cfg: Config, s: System, e: Event, k: SetupId, ticket: TicketId, key: KeyId)
    requires Possible(cfg, s, e)
    requires k in Apply(cfg, s, e).process.setups && Apply(cfg, s, e).process.setups[k] == AwaitsRedemption(ticket, key)
    requires !(k in s.process.setups && s.process.setups[k] == AwaitsRedemption(ticket, key))
    ensures e == OpenShell(k, ticket, key)
  {
    hide Allowed, Step, R.Close, R.CloseEach, Continued, Dialed, Piped, FailSetup, WithShutdown;
    if Continues(e) {
      ContinuationMovesOn(cfg, s, e);
      hide Apply;
    }
  }

  lemma {:induction false} AwaitedWasOffered(cfg: Config, s: System, es: seq<Event>, k: SetupId, ticket: TicketId,
                                             key: KeyId)
    requires s.process == IDLE
    requires k in Run(cfg, s, es).process.setups && Run(cfg, s, es).process.setups[k] == AwaitsRedemption(ticket, key)
    ensures exists j :: 0 <= j < |es| && Offers(cfg, s, es, j, k, ticket, key)
  {
    if es != [] {
      var front, n := es[..|es| - 1], |es| - 1;
      var before := Run(cfg, s, front);
      assert Before(cfg, s, es, n) == before;
      if k in before.process.setups && before.process.setups[k] == AwaitsRedemption(ticket, key) {
        AwaitedWasOffered(cfg, s, front, k, ticket, key);
        var j :| 0 <= j < |front| && Offers(cfg, s, front, j, k, ticket, key);
        TookEarlier(cfg, s, es, j);
        assert Offers(cfg, s, es, j, k, ticket, key);
      } else {
        OnlyShellsOffer(cfg, before, es[n], k, ticket, key);
        assert Offers(cfg, s, es, n, k, ticket, key);
      }
    }
  }

  /** Relay rows keep their key and their ticket. */
  ghost predicate RowsKept(db: Tables, db': Tables) {
    forall r :: r in db.relays ==>
      r in db'.relays && db'.relays[r].key == db.relays[r].key && db'.relays[r].ticket == db.relays[r].ticket
  }

  lemma StepKeepsRows(t: Tables, now: int, at: int, c: Command)
    requires S.Sound(t, now) && now <= at
    ensures RowsKept(t, Step(t, at, c))
  {
    hide S.Sound, Allowed, Commit;
    if Allowed(t, at, c) {
      S.LaterSound(t, now, at);
      Policy.CommitForward(t, at, c);
    }
  }

  /** The transaction of an event, if it has one. */
  lemma EventKeepsRows(cfg: Config, s: System, e: Event)
    requires Possible(cfg, s, e) && S.Sound(s.db, s.now)
    ensures RowsKept(s.db, Apply(cfg, s, e).db)
  {
    hide S.Sound, RowsKept, Step, Continued, Dialed, Piped, FailSetup, CloseHere, Stopped, R.CloseEach, Allowed;
    var p := s.process;
    match e {
      case CallCommits(call, at) => StepKeepsRows(s.db, s.now, at, p.calls[call].command);
      case CallConfirms(call, at) => StepKeepsRows(s.db, s.now, at, Confirm(p.calls[call].ids));
      case OthersCommit(directory, at) => StepKeepsRows(s.db, s.now, at, SshPolicy.Administer(directory));
      case RedemptionCommits(setup, newRelay, at, _) =>
        StepKeepsRows(s.db, s.now, at, Redeem(p.setups[setup].ticket, p.setups[setup].key, cfg.gateway, newRelay));
      case ActivationCommits(setup, at, _) =>
        StepKeepsRows(s.db, s.now, at, SshPolicy.Activate(p.setups[setup].id, cfg.gateway));
      case ClosureCommits(relay, at, _) =>
        StepKeepsRows(s.db, s.now, at, SshPolicy.Close(relay, cfg.gateway, p.closures[relay]));
      case _ =>
    }
    SameRowsKept(s.db);
  }

  lemma SameRowsKept(db: Tables)
    ensures RowsKept(db, db)
  {
  }

  /** Event i redeemed the relay for what was offered by event j in the same setup, and the row shows it. */
  ghost predicate RedeemedFor(cfg: Config, s: System, es: seq<Event>, j: nat, i: nat, id: RelayId) {
    && j < i && Took(cfg, s, es, i) && es[i].RedemptionCommits? && es[i].newRelay == id
    && Took(cfg, s, es, j) && es[j].OpenShell? && es[j].setup == es[i].setup
    && var db := Run(cfg, s, es).db;
       id in db.relays && db.relays[id].key == es[j].key && db.relays[id].ticket == es[j].ticket
  }

  lemma OnlyRedemptionsRedeem(cfg: Config, s: System, e: Event, id: RelayId)
    requires Possible(cfg, s, e) && id in Apply(cfg, s, e).process.redeemed && id !in s.process.redeemed
    ensures e.RedemptionCommits? && e.newRelay == id
    ensures var k := s.process.setups[e.setup]; Allowed(s.db, e.at, Redeem(k.ticket, k.key, cfg.gateway, id))
  {
    hide Allowed, Step, R.Close, R.CloseEach, Continued, Dialed, Piped, FailSetup, WithShutdown;
    if Continues(e) {
      ContinuationMovesOn(cfg, s, e);
      hide Apply;
    }
  }

  /** Every relay that a process redeemed belongs to the key and the ticket that were offered in its shell. */
  lemma {:induction false} RedeemedForOfferedKey(cfg: Config, db: Tables, now: int, es: seq<Event>, id: RelayId)
    requires S.Sound(db, now) && id in Run(cfg, Initial(db, now), es).process.redeemed
    ensures exists j, i :: 0 <= j < i < |es| && RedeemedFor(cfg, Initial(db, now), es, j, i, id)
  {
    var s := Initial(db, now);
    if es != [] {
      var front, n := es[..|es| - 1], |es| - 1;
      var before := Run(cfg, s, front);
      assert Before(cfg, s, es, n) == before;
      assert Possible(cfg, before, es[n]) ==> Run(cfg, s, es) == Apply(cfg, before, es[n]);
      assert !Possible(cfg, before, es[n]) ==> Run(cfg, s, es) == before;
      hide S.Sound, Apply, Possible, Inv, RedeemedFor, RowsKept, Run;
      RunInv(cfg, db, now, front);
      InvSound(cfg.gateway, before);
      if id in before.process.redeemed {
        RedeemedForOfferedKey(cfg, db, now, front, id);
        var j, i :| 0 <= j < i < |front| && RedeemedFor(cfg, s, front, j, i, id);
        SameRowsKept(before.db);
        if Possible(cfg, before, es[n]) {
          EventKeepsRows(cfg, before, es[n]);
        }
        RedeemedStays(cfg, s, es, j, i, id);
      } else {
        RedeemedNow(cfg, s, es, id);
      }
    }
  }

  lemma RedeemedStays(cfg: Config, s: System, es: seq<Event>, j: nat, i: nat, id: RelayId)
    requires es != [] && i < |es| - 1 && RedeemedFor(cfg, s, es[..|es| - 1], j, i, id)
    requires RowsKept(Run(cfg, s, es[..|es| - 1]).db, Run(cfg, s, es).db)
    ensures RedeemedFor(cfg, s, es, j, i, id)
  {
    hide Run, Possible;
    TookEarlier(cfg, s, es, i);
    TookEarlier(cfg, s, es, j);
  }

  lemma RedeemedNow(cfg: Config, s: System, es: seq<Event>, id: RelayId)
    requires s.process == IDLE && es != []
    requires id in Run(cfg, s, es).process.redeemed && id !in Run(cfg, s, es[..|es| - 1]).process.redeemed
    ensures var n := |es| - 1; exists j :: 0 <= j < n && RedeemedFor(cfg, s, es, j, n, id)
  {
    var front, n := es[..|es| - 1], |es| - 1;
    var before := Run(cfg, s, front);
    assert Before(cfg, s, es, n) == before;
    assert Took(cfg, s, es, n) && Run(cfg, s, es) == Apply(cfg, before, es[n]) by {
      hide Apply, Possible;
    }
    hide Run;
    OnlyRedemptionsRedeem(cfg, before, es[n], id);
    RedeemedRow(cfg, before, es[n], id);
    hide Apply, Allowed, Step;
    var k := before.process.setups[es[n].setup];
    AwaitedWasOffered(cfg, s, front, es[n].setup, k.ticket, k.key);
    var j :| 0 <= j < |front| && Offers(cfg, s, front, j, es[n].setup, k.ticket, k.key);
    TookEarlier(cfg, s, es, j);
    hide Possible;
    assert RedeemedFor(cfg, s, es, j, n, id);
  }

  lemma RedeemedRow(cfg: Config, s: System, e: Event, id: RelayId)
    requires Possible(cfg, s, e) && e.RedemptionCommits? && e.newRelay == id
    requires var k := s.process.setups[e.setup]; Allowed(s.db, e.at, Redeem(k.ticket, k.key, cfg.gateway, id))
    ensures var k, db := s.process.setups[e.setup], Apply(cfg, s, e).db;
            && k.AwaitsRedemption? && id in db.relays
            && db.relays[id].key == k.key && db.relays[id].ticket == k.ticket
  {
    var k := s.process.setups[e.setup];
    RedeemCommit(s.db, e.at, Redeem(k.ticket, k.key, cfg.gateway, id));
    hide Allowed, Step;
  }

  // ----- a shutdown resolves exactly if no closure it waited for failed -----

  predicate Ended(phase: Phase) {
    phase == Resolved || phase == Rejected || phase == Released
  }

  /** At event i the setups had settled, and these durable closures were pending. */
  ghost predicate WaitedFor(cfg: Config, s: System, es: seq<Event>, i: nat, tasks: set<RelayId>) {
    Took(cfg, s, es, i) && es[i] == SetupsSettle && Before(cfg, s, es, i).process.closures.Keys == tasks
  }

  /** What a phase tells of the closures that failed. */
  predicate Settles(p: Process, tasks: set<RelayId>) {
    match p.phase
    case Settling(waiting) => waiting == tasks
    case Resolved => tasks !! p.failed
    case Released => tasks !! p.failed
    case Rejected => !(tasks !! p.failed)
    case _ => false
  }

  predicate Closes(e: Event) {
    e.ClosureCommits? || e.ClosureFails? || e.Stop? || e.SetupsSettle? || e.ClosuresSettle? || e.Release? || e.Restart?
  }

  lemma OthersKeepPhase(cfg: Config, s: System, e: Event)
    requires Possible(cfg, s, e) && !Closes(e)
    ensures Apply(cfg, s, e).process.phase == s.process.phase && Apply(cfg, s, e).process.failed == s.process.failed
  {
    hide Possible, Allowed, Step, R.Close, R.CloseEach, Continued, Dialed, Piped, FailSetup;
    if Continues(e) {
      ContinuationMovesOn(cfg, s, e);
      hide Apply;
    }
  }

  /** Which events start to settle, and what they leave of it. */
  lemma EventSettles(cfg: Config, s: System, e: Event, tasks: set<RelayId>)
    requires PhaseSound(s.process) && Possible(cfg, s, e)
    ensures var p, p' := s.process, Apply(cfg, s, e).process;
            && (Settles(p, tasks) ==> Settles(p', tasks) || e.Restart?)
            && (IsSettling(p') && !IsSettling(p) ==> e == SetupsSettle && p'.phase == Settling(p.closures.Keys))
  {
    hide Allowed, Step, R.CloseEach, WithShutdown;
    if !Closes(e) {
      OthersKeepPhase(cfg, s, e);
      hide Apply, Possible, PhaseSound;
    } else if e.ClosureCommits? || e.ClosureFails? {
      ClosureIsWaitedFor(cfg, s, e);
      hide Apply, Possible, PhaseSound;
    } else if e.Stop? {
      StopOnlyStops(cfg, s, e);
      hide Apply, Possible, PhaseSound;
    }
  }

  lemma StopOnlyStops(cfg: Config, s: System, e: Event)
    requires Possible(cfg, s, e) && e.Stop?
    ensures Apply(cfg, s, e).process.phase == Stopping && !IsSettling(s.process)
    ensures !s.process.phase.Settling? && !Ended(s.process.phase)
  {
    hide R.CloseEach, WithShutdown;
  }

  /** A durable closure ends only before the shutdown does. */
  lemma ClosureIsWaitedFor(cfg: Config, s: System, e: Event)
    requires PhaseSound(s.process) && Possible(cfg, s, e) && (e.ClosureCommits? || e.ClosureFails?)
    ensures Apply(cfg, s, e).process.phase == s.process.phase && !Ended(s.process.phase)
  {
    hide Allowed, Step;
  }

  /**
   A shutdown that came to its end waited for the durable closures that were pending
   when its setups had settled. It is rejected exactly if one of them failed.
   */
  lemma {:induction false} ShutdownEndsExactly(cfg: Config, db: Tables, now: int, es: seq<Event>)
    requires S.Sound(db, now) && Ended(Run(cfg, Initial(db, now), es).process.phase)
    ensures var p := Run(cfg, Initial(db, now), es).process;
            exists i, tasks :: 0 <= i < |es| && WaitedFor(cfg, Initial(db, now), es, i, tasks)
                               && (p.phase == Rejected <==> exists id :: id in tasks && id in p.failed)
  {
    var s := Initial(db, now);
    var p := Run(cfg, s, es).process;
    SettledBefore(cfg, db, now, es, p);
    var i, tasks :| 0 <= i < |es| && WaitedFor(cfg, s, es, i, tasks) && Settles(p, tasks);
    assert p.phase == Rejected <==> exists id :: id in tasks && id in p.failed;
  }

  predicate IsSettling(p: Process) {
    p.phase.Settling? || Ended(p.phase)
  }

  lemma {:induction false} SettledBefore(cfg: Config, db: Tables, now: int, es: seq<Event>, p: Process)
    requires S.Sound(db, now) && p == Run(cfg, Initial(db, now), es).process && IsSettling(p)
    ensures exists i, tasks :: 0 <= i < |es| && WaitedFor(cfg, Initial(db, now), es, i, tasks) && Settles(p, tasks)
  {
    var s := Initial(db, now);
    if es != [] {
      var front, n := es[..|es| - 1], |es| - 1;
      var before := Run(cfg, s, front);
      assert Before(cfg, s, es, n) == before;
      RunInv(cfg, db, now, front);
      InvSound(cfg.gateway, before);
      hide Inv, S.Sound, Run;
      if IsSettling(before.process) {
        SettledBefore(cfg, db, now, front, before.process);
        var i, tasks :| 0 <= i < |front| && WaitedFor(cfg, s, front, i, tasks) && Settles(before.process, tasks);
        TookEarlier(cfg, s, es, i);
        SettlesStill(cfg, s, es, before, tasks);
        assert WaitedFor(cfg, s, es, i, tasks);
      } else {
        var tasks := before.process.closures.Keys;
        SettlesNow(cfg, s, es, before);
        assert WaitedFor(cfg, s, es, n, tasks);
      }
    }
  }

  lemma SettlesStill(cfg: Config, s: System, es: seq<Event>, before: System, tasks: set<RelayId>)
    requires es != [] && before == Run(cfg, s, es[..|es| - 1]) && PhaseSound(before.process) && Settles(before.process, tasks)
    requires IsSettling(Run(cfg, s, es).process)
    ensures Settles(Run(cfg, s, es).process, tasks)
  {
    hide PhaseSound, Settles;
    if Possible(cfg, before, es[|es| - 1]) {
      EventSettles(cfg, before, es[|es| - 1], tasks);
      RestartIdle(cfg, before);
    }
  }

  lemma RestartIdle(cfg: Config, s: System)
    ensures !IsSettling(Apply(cfg, s, Restart).process)
  {
  }

  lemma SettlesNow(cfg: Config, s: System, es: seq<Event>, before: System)
    requires es != [] && before == Run(cfg, s, es[..|es| - 1]) && PhaseSound(before.process) && !IsSettling(before.process)
    requires IsSettling(Run(cfg, s, es).process)
    ensures Took(cfg, s, es, |es| - 1) && es[|es| - 1] == SetupsSettle
    ensures Settles(Run(cfg, s, es).process, before.process.closures.Keys)
  {
    assert Before(cfg, s, es, |es| - 1) == before;
    EventSettles(cfg, before, es[|es| - 1], {});
    hide Apply, Possible;
  }
}
