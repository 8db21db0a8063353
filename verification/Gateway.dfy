/**
 One SSH authority process: its policy calls, its gateway's relay setups, its
 registry, and the durable rows they share. Every point where the source awaits
 is a point where any other event may happen first.
 */
module Gateway {
  import opened Wrappers
  import opened SshTables
  import opened SshPolicy
  import R = RelayRegistry

  type SetupId = nat
  type CallId = nat

  /** Where one relay setup stands. */
  datatype Setup =
    | AwaitsRedemption(ticket: TicketId, key: KeyId)
    | HasOpening(id: RelayId)
    | AwaitsActivation(id: RelayId)
    | HasActivation(id: RelayId)
    | ActivationRefused(id: RelayId)
    | AwaitsDial(id: RelayId)

  /** Where one policy call stands: before its transaction, before closing locally, before confirming durably. */
  datatype Call =
    | Admitted(command: Command)
    | Marked(ids: set<RelayId>)
    | ClosedHere(ids: set<RelayId>)

  datatype Phase =
    | Serving
    | Stopping
    | Settling(tasks: set<RelayId>)
    | Resolved
    | Rejected
    | Released

  /**
   The process and what it did so far: the relays it `redeemed`, those whose
   redemption was `delivered` to their setup or `lost` with its reply, how often
   it `started` each durable closure, which of these `failed`, which of them left
   the relay `unclosed` as nothing was committed, and which relays a revocation
   left `unconfirmed`.
   */
  datatype Process = Process(
    phase: Phase, accepting: bool, registry: R.Registry, setups: map<SetupId, Setup>, calls: map<CallId, Call>,
    closures: map<RelayId, Reason>, redeemed: set<RelayId>, delivered: set<RelayId>, lost: set<RelayId>,
    started: multiset<RelayId>, failed: set<RelayId>, unclosed: set<RelayId>,
    unconfirmed: set<RelayId>)

  /** The rows, the time of the latest transaction, the process, and every relay a revocation ever confirmed closed. */
  datatype System = System(db: Tables, now: int, process: Process, confirmed: set<RelayId>)

  datatype Config = Config(gateway: GatewayId, limits: R.ValidLimits)

  datatype Event =
    | Admit(call: CallId, command: Command)
    | CallCommits(call: CallId, at: int)
    | CallClosesLocally(call: CallId, order: seq<RelayId>, readings: seq<R.Reading>)
    | CallConfirms(call: CallId, at: int)
    | CallFails(call: CallId)
    | OthersCommit(directory: Directory, at: int)
    | OpenShell(setup: SetupId, ticket: TicketId, key: KeyId)
    | RedemptionCommits(setup: SetupId, newRelay: RelayId, at: int, replied: bool)
    | RedemptionFails(setup: SetupId)
    | ContinueOpened(setup: SetupId, gone: bool, channel: R.Socket, read: int, again: R.Reading)
    | ActivationCommits(setup: SetupId, at: int, replied: bool)
    | ActivationFails(setup: SetupId)
    | ContinueActivated(setup: SetupId, validDestination: bool, upstream: R.Socket, begun: int, attached: int,
                        closed: R.Reading)
    | ContinueRefused(setup: SetupId, closed: R.Reading)
    | DialEnds(setup: SetupId, connected: bool, read: int, closed: R.Reading)
    | Disconnect(relay: RelayId, closed: R.Reading)
    | SocketLost(socket: R.Socket)
    | ClosureCommits(relay: RelayId, at: int, replied: bool)
    | ClosureFails(relay: RelayId)
    | LoseAuthority
    | Stop(order: seq<RelayId>, readings: seq<R.Reading>)
    | SetupsSettle
    | ClosuresSettle
    | Release
    | Restart

  const REGISTRATION_REJECTED_REASON := "gateway_registration_rejected"
  const SETUP_FAILED_REASON := "gateway_setup_failed"
  const STREAM_CLOSED_REASON := "gateway_stream_closed"
  const SHUTDOWN_REASON := "gateway_shutdown"

  const IDLE := Process(Serving, true, R.EMPTY, map[], map[], map[], {}, {}, {}, multiset{}, {}, {}, {})

  /** The commands a caller of the policy sends; the gateway itself redeems, activates, closes and confirms. */
  predicate HostCommand(c: Command) {
    !c.Redeem? && !c.Activate? && !c.Close? && !c.Confirm? && !c.Administer?
  }

  function Elements(ids: seq<RelayId>): set<RelayId> {
    set id | id in ids
  }

  predicate At(p: Process, setup: SetupId) {
    setup in p.setups
  }

  predicate Possible(cfg: Config, s: System, e: Event) {
    var p := s.process;
    match e
    case Admit(call, command) => p.accepting && call !in p.calls && HostCommand(command)
    case CallCommits(call, at) => call in p.calls && p.calls[call].Admitted? && s.now <= at
    case CallClosesLocally(call, order, readings) =>
      call in p.calls && p.calls[call].Marked? && Elements(order) == p.calls[call].ids && |readings| == |order|
    case CallConfirms(call, at) => call in p.calls && p.calls[call].ClosedHere? && s.now <= at
    case CallFails(call) => call in p.calls
    case OthersCommit(_, at) => s.now <= at
    case OpenShell(setup, _, _) => p.accepting && setup !in p.setups
    case RedemptionCommits(setup, _, at, _) => At(p, setup) && p.setups[setup].AwaitsRedemption? && s.now <= at
    case RedemptionFails(setup) => At(p, setup) && p.setups[setup].AwaitsRedemption?
    case ContinueOpened(setup, _, _, _, _) => At(p, setup) && p.setups[setup].HasOpening?
    case ActivationCommits(setup, at, _) => At(p, setup) && p.setups[setup].AwaitsActivation? && s.now <= at
    case ActivationFails(setup) => At(p, setup) && p.setups[setup].AwaitsActivation?
    case ContinueActivated(setup, _, _, _, _, _) => At(p, setup) && p.setups[setup].HasActivation?
    case ContinueRefused(setup, _) => At(p, setup) && p.setups[setup].ActivationRefused?
    case DialEnds(setup, _, _, _) => At(p, setup) && p.setups[setup].AwaitsDial?
    case Disconnect(relay, _) => relay in p.delivered
    case SocketLost(_) => true
    case ClosureCommits(relay, at, _) => relay in p.closures && s.now <= at
    case ClosureFails(relay) => relay in p.closures
    case LoseAuthority => true
    case Stop(order, readings) => p.phase == Serving && Elements(order) == p.registry.relays.Keys && |readings| == |order|
    case SetupsSettle => p.phase == Stopping && p.setups == map[]
    case ClosuresSettle => p.phase.Settling? && p.phase.tasks !! p.closures.Keys
    case Release => p.phase == Resolved && p.calls == map[] && p.closures == map[] && p.setups == map[]
    case Restart => true
  }

  function ReasonOf(origin: R.Origin): Reason {
    match origin
    case Shutdown => SHUTDOWN_REASON
    case SetupFailure => SETUP_FAILED_REASON
    case _ => STREAM_CLOSED_REASON
  }

  /** Starting and tracking the durable closure of a relay. */
  function TrackClosure(p: Process, id: RelayId, reason: Reason): Process {
    p.(closures := p.closures[id := reason], started := p.started + multiset{id})
  }

  /** Closing one relay here. The close callback of a registered one tracks its durable closure. */
  function CloseHere(cfg: Config, p: Process, id: RelayId, origin: R.Origin, at: R.Reading): Process {
    var closed := p.(registry := R.Close(p.registry, id, origin, at, cfg.limits));
    if id in p.registry.relays then TrackClosure(closed, id, ReasonOf(origin)) else closed
  }

  function WithSetup(p: Process, setup: SetupId, state: Setup): Process {
    p.(setups := p.setups[setup := state])
  }

  function WithoutSetup(p: Process, setup: SetupId): Process {
    p.(setups := p.setups - {setup})
  }

  /** The catch clause of a setup whose relay is known. */
  function FailSetup(cfg: Config, p: Process, setup: SetupId, id: RelayId, at: R.Reading): Process {
    WithoutSetup(CloseHere(cfg, p, id, R.SetupFailure, at), setup)
  }

  /** After the redemption: give up, or register and request activation. */
  function Continued(cfg: Config, p: Process, setup: SetupId, id: RelayId, gone: bool, channel: R.Socket, read: int,
                     again: R.Reading): Process
  {
    var known := p.(delivered := p.delivered + {id});
    if p.phase != Serving || gone then
      var destroyed := known.(registry := p.registry.(destroyed := p.registry.destroyed + {channel}));
      WithoutSetup(TrackClosure(destroyed, id, REGISTRATION_REJECTED_REASON), setup)
    else
      var (registry, registration) := R.Register(p.registry, id, channel, read, again, cfg.limits);
      var registered := known.(registry := registry);
      if registration != R.Accepted then
        WithoutSetup(TrackClosure(registered, id, REGISTRATION_REJECTED_REASON), setup)
      else
        WithSetup(registered, setup, if p.accepting then AwaitsActivation(id) else ActivationRefused(id))
  }

  /** After the activation: begin the dial and attach its socket, or give up. */
  function Dialed(cfg: Config, p: Process, setup: SetupId, id: RelayId, validDestination: bool, upstream: R.Socket,
                  begun: int, attached: int, closed: R.Reading): Process
  {
    var (dialing, ok) := R.BeginDial(p.registry, id, begun);
    if !ok || !validDestination then FailSetup(cfg, p.(registry := dialing), setup, id, closed)
    else
      var (connecting, kept) := R.AttachUpstream(dialing, id, upstream, attached);
      if !kept then FailSetup(cfg, p.(registry := connecting), setup, id, closed)
      else WithSetup(p.(registry := connecting), setup, AwaitsDial(id))
  }

  /** After the dial: start piping, or give up. */
  function Piped(cfg: Config, p: Process, setup: SetupId, id: RelayId, connected: bool, read: int, closed: R.Reading)
    : Process
  {
    if !connected then FailSetup(cfg, p, setup, id, closed)
    else
      var (registry, ok) := R.Activate(p.registry, id, read);
      if ok then WithoutSetup(p.(registry := registry), setup)
      else FailSetup(cfg, p.(registry := registry), setup, id, closed)
  }

  function Unsettled(call: Call): set<RelayId> {
    if call.Admitted? then {} else call.ids
  }

  function WithShutdown(closures: map<RelayId, Reason>, ids: set<RelayId>): map<RelayId, Reason> {
    map id | id in closures.Keys + ids :: if id in ids then SHUTDOWN_REASON else closures[id]
  }

  /** Stopping: every registered relay is closed here and its durable closure tracked. */
  function Stopped(cfg: Config, p: Process, order: seq<RelayId>, readings: seq<R.Reading>): Process
    requires |readings| == |order|
  {
    var ids := p.registry.relays.Keys;
    p.(phase := Stopping, accepting := false,
       registry := R.CloseEach(p.registry, order, R.Shutdown, readings, cfg.limits),
       closures := WithShutdown(p.closures, ids),
       started := p.started + multiset(ids))
  }

  function Transact(s: System, at: int, c: Command, p: Process): System {
    s.(db := Step(s.db, at, c), now := at, process := p)
  }

  /** The transaction of an admitted call: it is done unless it leaves relays to close and confirm. */
  function CallCommitted(s: System, call: CallId, at: int): System
    requires call in s.process.calls && s.process.calls[call].Admitted?
  {
    var p := s.process;
    var c := p.calls[call].command;
    var ids := if Allowed(s.db, at, c) then Selected(s.db, c) else {};
    Transact(s, at, c, p.(calls := if ids == {} then p.calls - {call} else p.calls[call := Marked(ids)]))
  }

  /** The local half of a revocation: every selected relay is closed here, registered or not. */
  function CallClosed(cfg: Config, s: System, call: CallId, order: seq<RelayId>, readings: seq<R.Reading>): System
    requires call in s.process.calls && s.process.calls[call].Marked? && |readings| == |order|
  {
    var p := s.process;
    s.(process := p.(registry := R.CloseEach(p.registry, order, R.Host, readings, cfg.limits),
                     calls := p.calls[call := ClosedHere(p.calls[call].ids)]))
  }

  /** The durable half of a revocation. */
  function CallConfirmed(s: System, call: CallId, at: int): System
    requires call in s.process.calls && s.process.calls[call].ClosedHere?
  {
    var p := s.process;
    var ids := p.calls[call].ids;
    var done := p.(calls := p.calls - {call});
    if Allowed(s.db, at, Confirm(ids)) then Transact(s, at, Confirm(ids), done).(confirmed := s.confirmed + ids)
    else s.(now := at, process := done.(unconfirmed := p.unconfirmed + ids))
  }

  function CallFailed(s: System, call: CallId): System
    requires call in s.process.calls
  {
    var p := s.process;
    s.(process := p.(calls := p.calls - {call}, unconfirmed := p.unconfirmed + Unsettled(p.calls[call])))
  }

  /** A redemption; its reply reaches the setup or is lost. */
  function RedemptionCommitted(cfg: Config, s: System, setup: SetupId, newRelay: RelayId, at: int, replied: bool): System
    requires setup in s.process.setups && s.process.setups[setup].AwaitsRedemption?
  {
    var p := s.process;
    var c := Redeem(p.setups[setup].ticket, p.setups[setup].key, cfg.gateway, newRelay);
    if !Allowed(s.db, at, c) then s.(now := at, process := WithoutSetup(p, setup))
    else
      var known := p.(redeemed := p.redeemed + {newRelay});
      Transact(s, at, c,
               if replied then WithSetup(known, setup, HasOpening(newRelay))
               else WithoutSetup(known, setup).(lost := p.lost + {newRelay}))
  }

  /** An activation; without a reply the setup takes it for refused. */
  function ActivationCommitted(cfg: Config, s: System, setup: SetupId, at: int, replied: bool): System
    requires setup in s.process.setups && s.process.setups[setup].AwaitsActivation?
  {
    var p := s.process;
    var id := p.setups[setup].id;
    var c := SshPolicy.Activate(id, cfg.gateway);
    Transact(s, at, c,
             WithSetup(p, setup, if Allowed(s.db, at, c) && replied then HasActivation(id) else ActivationRefused(id)))
  }

  /** A durable closure; without a reply it counts as failed. */
  function ClosureCommitted(cfg: Config, s: System, relay: RelayId, at: int, replied: bool): System
    requires relay in s.process.closures
  {
    var p := s.process;
    Transact(s, at, SshPolicy.Close(relay, cfg.gateway, p.closures[relay]),
             p.(closures := p.closures - {relay}, failed := if replied then p.failed else p.failed + {relay}))
  }

  /** A durable closure that fails without having committed anything. */
  function ClosureFailed(p: Process, relay: RelayId): Process {
    p.(closures := p.closures - {relay}, failed := p.failed + {relay}, unclosed := p.unclosed + {relay})
  }

  function Apply(cfg: Config, s: System, e: Event): System
    requires Possible(cfg, s, e)
  {
    var p := s.process;
    match e
    case Admit(call, command) => s.(process := p.(calls := p.calls[call := Admitted(command)]))
    case CallCommits(call, at) => CallCommitted(s, call, at)
    case CallClosesLocally(call, order, readings) => CallClosed(cfg, s, call, order, readings)
    case CallConfirms(call, at) => CallConfirmed(s, call, at)
    case CallFails(call) => CallFailed(s, call)
    case OthersCommit(directory, at) => Transact(s, at, SshPolicy.Administer(directory), p)
    case OpenShell(setup, ticket, key) => s.(process := WithSetup(p, setup, AwaitsRedemption(ticket, key)))
    case RedemptionCommits(setup, newRelay, at, replied) => RedemptionCommitted(cfg, s, setup, newRelay, at, replied)
    case RedemptionFails(setup) => s.(process := WithoutSetup(p, setup))
    case ContinueOpened(setup, gone, channel, read, again) =>
      s.(process := Continued(cfg, p, setup, p.setups[setup].id, gone, channel, read, again))
    case ActivationCommits(setup, at, replied) => ActivationCommitted(cfg, s, setup, at, replied)
    case ActivationFails(setup) => s.(process := WithSetup(p, setup, ActivationRefused(p.setups[setup].id)))
    case ContinueActivated(setup, validDestination, upstream, begun, attached, closed) =>
      s.(process := Dialed(cfg, p, setup, p.setups[setup].id, validDestination, upstream, begun, attached, closed))
    case ContinueRefused(setup, closed) => s.(process := FailSetup(cfg, p, setup, p.setups[setup].id, closed))
    case DialEnds(setup, connected, read, closed) =>
      s.(process := Piped(cfg, p, setup, p.setups[setup].id, connected, read, closed))
    case Disconnect(relay, closed) => s.(process := CloseHere(cfg, p, relay, R.Natural, closed))
    case SocketLost(socket) => s.(process := p.(registry := p.registry.(destroyed := p.registry.destroyed + {socket})))
    case ClosureCommits(relay, at, replied) => ClosureCommitted(cfg, s, relay, at, replied)
    case ClosureFails(relay) => s.(process := ClosureFailed(p, relay))
    case LoseAuthority => s.(process := p.(accepting := false))
    case Stop(order, readings) => s.(process := Stopped(cfg, p, order, readings))
    case SetupsSettle => s.(process := p.(phase := Settling(p.closures.Keys)))
    case ClosuresSettle => s.(process := p.(phase := if p.phase.tasks !! p.failed then Resolved else Rejected))
    case Release => s.(process := p.(phase := Released))
    case Restart => s.(process := IDLE)
  }

  /** Any durable rows may be left by earlier processes; the process itself starts idle. */
  function Initial(db: Tables, now: int): System {
    System(db, now, IDLE, {})
  }

  function Run(cfg: Config, s: System, es: seq<Event>): System {
    if es == [] then s
    else
      var before := Run(cfg, s, es[..|es| - 1]);
      var e := es[|es| - 1];
      if Possible(cfg, before, e) then Apply(cfg, before, e) else before
  }
}
