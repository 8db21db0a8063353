/**
 Why the shutdown theorem has each of its exceptions: for a failed closure, for a
 lost reply and for a revocation that gave up, a run that releases the authority
 over an open relay.
 */
module GatewayWitness {
  import opened Wrappers
  import opened SshTables
  import opened SshPolicy
  import opened Gateway
  import S = SshPolicySafety
  import R = RelayRegistry

  const CONFIG := Config("gateway", R.Limits(1, 4, 1000))
  const NO_READING := R.Reading(0, 0)

  /** One user's key, granted on an online and enabled branch, with a ticket just issued. */
  const ONE_TICKET := Tables(
    map[1 := Key(1, KeyActive, 0, None)],
    map[1 := Grant(1, 1, 2, 1, 1, 3, None, GrantActive, 0, None)],
    map[1 := Fence(FenceState.Enabled, None, Some(0), None, 0, 0)],
    map[1 := Ticket(1, 1, 1, 1, 1, Issued, 10, 0, None, None)],
    map[],
    Directory({3}, map[1 := Branch(1, 2, true, Some("10.0.0.1"))], map[1 := Capsule(2, InService, false, false)],
              map[]))

  lemma OneTicketSound()
    ensures S.Sound(ONE_TICKET, 0)
  {
  }

  lemma RunSnoc(cfg: Config, s: System, es: seq<Event>, e: Event)
    requires Possible(cfg, Run(cfg, s, es), e)
    ensures Run(cfg, s, es + [e]) == Apply(cfg, Run(cfg, s, es), e)
  {
    assert (es + [e])[..|es|] == es;
  }

  lemma Extended(s: System, es: seq<Event>, e: Event) returns (longer: seq<Event>)
    requires Possible(CONFIG, Run(CONFIG, s, es), e)
    ensures longer == es + [e] && Run(CONFIG, s, longer) == Apply(CONFIG, Run(CONFIG, s, es), e)
  {
    longer := es + [e];
    RunSnoc(CONFIG, s, es, e);
  }

  lemma TicketIsRedeemed()
    ensures Allowed(ONE_TICKET, 0, Redeem(1, 1, "gateway", 1))
    ensures var t := Step(ONE_TICKET, 0, Redeem(1, 1, "gateway", 1));
            && t.relays == map[1 := Relay(1, 1, 1, 1, 1, "gateway", Opening, 0, None, None, None, None)]
            && t.keys == ONE_TICKET.keys && t.grants == ONE_TICKET.grants
  {
  }

  /** A shell opens, and its redemption commits. */
  lemma Redeemed(s: System, replied: bool) returns (es: seq<Event>)
    requires s == Initial(ONE_TICKET, 0)
    ensures var t := Run(CONFIG, s, es);
            && t.process == (if replied then IDLE.(redeemed := {1}, setups := map[1 := HasOpening(1)])
                             else IDLE.(redeemed := {1}, lost := {1}))
            && t.db.relays == map[1 := Relay(1, 1, 1, 1, 1, "gateway", Opening, 0, None, None, None, None)]
            && t.db.keys == ONE_TICKET.keys && t.db.grants == ONE_TICKET.grants && t.now == 0 && t.confirmed == {}
  {
    es := [];
    assert Run(CONFIG, s, es) == s;
    TicketIsRedeemed();
    hide Run, Allowed, Step, ONE_TICKET;
    es := Extended(s, es, OpenShell(1, 1, 1));
    var s1 := Run(CONFIG, s, es);
    assert s1.process.setups == map[1 := AwaitsRedemption(1, 1)];
    es := Extended(s, es, RedemptionCommits(1, 1, 0, replied));
    assert map[1 := AwaitsRedemption(1, 1)] - {1} == map[];
  }

  predicate Idle(p: Process) {
    p.registry.relays == map[] && p.setups == map[] && p.closures == map[] && p.calls == map[]
  }

  lemma Stopping(s: System, es: seq<Event>) returns (longer: seq<Event>)
    requires Run(CONFIG, s, es).process.phase == Serving && Idle(Run(CONFIG, s, es).process)
    ensures var t, t' := Run(CONFIG, s, es), Run(CONFIG, s, longer);
            && t' == t.(process := t'.process)
            && t'.process == t.process.(phase := Gateway.Stopping, accepting := false, registry := t'.process.registry)
  {
    hide Run, CallCommitted, CallClosed, CallConfirmed, CallFailed, RedemptionCommitted, ActivationCommitted,
         ClosureCommitted, ClosureFailed, Continued, Dialed, Piped, FailSetup, CloseHere, HostCommand, R.CloseEach;
    longer := Extended(s, es, Stop([], []));
    var p, p' := Run(CONFIG, s, es).process, Run(CONFIG, s, longer).process;
    assert p'.closures == map[];
    assert p'.started == p.started + multiset{};
  }

  /** Nothing is registered or pending, so the shutdown proceeds to the release without another transaction. */
  lemma ShutDown(s: System, es: seq<Event>) returns (longer: seq<Event>)
    requires Run(CONFIG, s, es).process.phase == Serving && Idle(Run(CONFIG, s, es).process)
    ensures var t, t' := Run(CONFIG, s, es), Run(CONFIG, s, longer);
            && t' == t.(process := t'.process)
            && t'.process == t.process.(phase := Released, accepting := false, registry := t'.process.registry)
  {
    hide Run, CallCommitted, CallClosed, CallConfirmed, CallFailed, RedemptionCommitted, ActivationCommitted,
         ClosureCommitted, ClosureFailed, Continued, Dialed, Piped, FailSetup, CloseHere, HostCommand, Stopped;
    longer := Stopping(s, es);
    longer := Extended(s, longer, SetupsSettle);
    assert Run(CONFIG, s, longer).process.phase == Settling({});
    longer := Extended(s, longer, ClosuresSettle);
    longer := Extended(s, longer, Release);
  }

  /**
   A shutdown only waits for closures pending when it settles. So one that failed
   earlier does not reject it, and the authority is released over an open relay.
   */
  lemma {:induction false} EarlierFailureIsForgotten() returns (es: seq<Event>)
    ensures var s := Run(CONFIG, Initial(ONE_TICKET, 0), es);
            && S.Sound(ONE_TICKET, 0)
            && s.process.phase == Released && 1 in s.process.redeemed && 1 in s.process.unclosed
            && 1 in s.db.relays && s.db.relays[1].status == Opening
  {
    hide Run, S.Sound;
    OneTicketSound();
    var s := Initial(ONE_TICKET, 0);
    es := Redeemed(s, true);
    es := Extended(s, es, ContinueOpened(1, true, 0, 0, NO_READING));
    var p := Run(CONFIG, s, es).process;
    assert p.closures == map[1 := REGISTRATION_REJECTED_REASON] && p.setups == map[];
    es := Extended(s, es, ClosureFails(1));
    assert Run(CONFIG, s, es).process.closures == map[];
    es := ShutDown(s, es);
  }

  /** A redemption whose reply is lost leaves a relay that the gateway never learns of. */
  lemma {:induction false} LostReplyLeavesOpen() returns (es: seq<Event>)
    ensures var s := Run(CONFIG, Initial(ONE_TICKET, 0), es);
            && S.Sound(ONE_TICKET, 0)
            && s.process.phase == Released && 1 in s.process.redeemed && 1 in s.process.lost
            && 1 in s.db.relays && s.db.relays[1].status == Opening
  {
    hide Run, S.Sound, Possible, Apply;
    OneTicketSound();
    var s := Initial(ONE_TICKET, 0);
    es := Redeemed(s, false);
    es := ShutDown(s, es);
  }

  /** A redeemed relay is registered here. */
  lemma Registered(s: System) returns (es: seq<Event>)
    requires s == Initial(ONE_TICKET, 0)
    ensures var t := Run(CONFIG, s, es);
            && t.process.phase == Serving && t.process.accepting
            && t.process.redeemed == {1} && t.process.closures == map[] && t.process.calls == map[]
            && t.process.registry.relays.Keys == {1} && t.process.setups == map[1 := AwaitsActivation(1)]
            && t.db.relays == map[1 := Relay(1, 1, 1, 1, 1, "gateway", Opening, 0, None, None, None, None)]
            && t.db.keys == ONE_TICKET.keys && t.db.grants == ONE_TICKET.grants && t.now == 0
  {
    hide Run, CallCommitted, CallClosed, CallConfirmed, CallFailed, RedemptionCommitted, ActivationCommitted,
         ClosureCommitted, ClosureFailed, Dialed, Piped, FailSetup, CloseHere, HostCommand, Stopped;
    es := Redeemed(s, true);
    es := Extended(s, es, ContinueOpened(1, false, 0, 0, NO_READING));
    assert Run(CONFIG, s, es).process.setups == map[1 := AwaitsActivation(1)];
  }

  /** The revocation of its key then marks it as closing. */
  lemma Revoked(s: System) returns (es: seq<Event>)
    requires s == Initial(ONE_TICKET, 0)
    ensures var t := Run(CONFIG, s, es);
            && t.process.phase == Serving && t.process.redeemed == {1} && t.process.closures == map[]
            && t.process.registry.relays.Keys == {1} && t.process.setups == map[1 := AwaitsActivation(1)]
            && t.process.calls == map[1 := Marked({1})]
            && 1 in t.db.relays && t.db.relays[1].status == Closing
  {
    hide Run, CallClosed, CallConfirmed, CallFailed, RedemptionCommitted, ActivationCommitted,
         ClosureCommitted, ClosureFailed, Continued, Dialed, Piped, FailSetup, CloseHere, Stopped;
    es := Registered(s);
    var c := RevokeKey(1, 1);
    es := Extended(s, es, Admit(1, c));
    var s2 := Run(CONFIG, s, es);
    assert s2.process.calls == map[1 := Admitted(c)];
    assert Allowed(s2.db, 0, c) && Selected(s2.db, c) == {1};
    es := Extended(s, es, CallCommits(1, 0));
  }

  /**
   A revocation closes the relay here, which tracks no durable closure, and then
   gives up before it confirms the relay.
   */
  lemma {:induction false} AbandonedRevocationLeavesOpen() returns (es: seq<Event>)
    ensures var s := Run(CONFIG, Initial(ONE_TICKET, 0), es);
            && S.Sound(ONE_TICKET, 0)
            && s.process.phase == Released && 1 in s.process.redeemed && 1 in s.process.unconfirmed
            && 1 in s.db.relays && s.db.relays[1].status == Closing
  {
    hide Run, S.Sound, CallCommitted, CallConfirmed, RedemptionCommitted, ActivationCommitted, ClosureCommitted,
         ClosureFailed, Continued, Dialed, Piped, HostCommand, Stopped, R.CloseEach;
    OneTicketSound();
    var s := Initial(ONE_TICKET, 0);
    es := Revoked(s);
    var s1 := Run(CONFIG, s, es);
    assert Elements([1]) == {1};
    R.CloseEachEffect(s1.process.registry, [1], R.Host, [NO_READING], CONFIG.limits);
    es := Extended(s, es, CallClosesLocally(1, [1], [NO_READING]));
    var s2 := Run(CONFIG, s, es);
    assert s2.process.registry.relays == map[] && s2.process.calls == map[1 := ClosedHere({1})];
    es := Extended(s, es, CallFails(1));
    assert Run(CONFIG, s, es).process.calls == map[];
    es := Extended(s, es, ActivationFails(1));
    assert Run(CONFIG, s, es).process.setups == map[1 := ActivationRefused(1)];
    es := Extended(s, es, ContinueRefused(1, NO_READING));
    var p := Run(CONFIG, s, es).process;
    assert p.setups == map[] && p.registry.relays == map[];
    es := ShutDown(s, es);
  }
}
