/**
 The coordinator of one configuration run. Every effect outside the process may
 fail, or end the process before or after it took place; the run then stops where
 it is, and a later run starts from what was persisted.
 */
module Configuration {
  import opened Wrappers
  import opened Installation
  import opened Planner
  import opened Journal
  import opened Evidence
  import C = Convergence
  import ConvergenceLate
  import ConvergenceRuns
  import Answers = PlannerAnswers

  /** A run ends early: the process died, or an error is reported. */
  datatype Stop = Stop

  /** Why a request failed. */
  datatype RequestError =
    | CancelledRequest(dispatched: bool)
    | FailedOperation
    | LocalRefusal
    | ApiStatus(status: int)
    | LostConnection

  /** How a request ended, as the client reports it: done at once, accepted for a wait, or failed. */
  datatype Reply = Done | Accepted(operation: Id) | Failed(error: RequestError)

  /** How the wait for an accepted operation ended. */
  datatype Wait = Finished | WaitFailed(error: RequestError)

  /** How a remote script ended: with an exit code, or with the connection, before or after it was started. */
  datatype Ended = Exit(code: int) | Broken(started: bool)

  // ----- everything outside the process -----

  /**
   The retained record, the local files and the target. In a quiet world nobody
   else changes the target and it does what it reports, so that `site` is what it
   holds; in any other world an observation may find anything.
   */
  class World {
    const quiet: bool
    const setting: C.Setting
    var evidence: Option<Record>
    var host: Host
    var hosts: set<Host>
    var site: C.Site
    ghost var log: seq<Dispatch>

    /** The persisted record, blank if there is none. */
    function Persisted(): Record
      reads this
    {
      if evidence.Some? then evidence.value else BLANK
    }

    ghost predicate Sound()
      reads this
    {
      && host in hosts
      && IsRecord(Persisted(), hosts)
      && Accounted(log, Persisted())
      && Truthful(log, Persisted())
    }

    /** Nobody else changes the target, and a run for the request is the one that the setting describes. */
    predicate Steady(request: Request) {
      quiet && request == setting.request && setting.additions.Valid()
    }

    /** The site, if it is all that a run for the request can find. */
    function Seen(request: Request): Option<C.Site>
      reads this`site
    {
      if Steady(request) then Some(site) else None
    }

    constructor (host: Host, quiet: bool, setting: C.Setting, site: C.Site)
      ensures Sound() && log == [] && evidence == None
      ensures this.quiet == quiet && this.setting == setting && this.site == site
    {
      this.evidence, this.host, this.hosts, this.log := None, host, {host}, [];
      this.quiet, this.setting, this.site := quiet, setting, site;
    }

    /** Replaces the record by a permitted transition; the process may end before or after the file is replaced. */
    method Save(next: Record) returns (saved: bool)
      requires Sound() && Truthful(log, next)
      modifies this`evidence
      ensures Sound()
      ensures saved ==> evidence == Some(next)
      ensures Persisted() == old(Persisted()) || Persisted() == next
      ensures evidence != old(evidence) || saved ==> IsTransition(old(Persisted()), next, host) && IsRecord(next, hosts)
      ensures saved && Undispatched(log, old(Persisted())) ==> Undispatched(log, next)
      ensures saved && |StepsOf(next)| == |StepsOf(old(Persisted()))| + 1 ==> Undispatched(log, next)
    {
      hide Accounted, Truthful, Undispatched, IsTransition, IsRecord, IsValid;
      var locked: bool := *;
      if !locked || !Permits(next) {
        return false;
      }
      RecordIsValid(Persisted(), hosts);
      TransitionAccounted(log, Persisted(), next, hosts, host);
      var reached: bool := *;
      if reached {
        evidence := Some(next);
      }
      var survived: bool := *;
      return reached && survived;
    }

    /** The installation moves to another host; earlier hosts stay known. */
    method Reassign(next: Host)
      requires Sound()
      modifies this`host, this`hosts
      ensures Sound() && host == next && hosts == old(hosts) + {next}
    {
      MoreHosts(Persisted(), hosts, hosts + {next});
      host, hosts := next, hosts + {next};
    }

    predicate Permits(next: Record)
      reads this
    {
      IsRecord(next, hosts) && IsTransition(Persisted(), next, host)
    }

    /** A fresh read of the target and of the local files. */
    method Observe() returns (observed: Result<Observation, Stop>)
      ensures quiet && observed.Success? ==> C.Observe(setting, site) == Success(observed.value)
    {
      var readable: bool := *;
      if !readable {
        return Failure(Stop.Stop);
      }
      if quiet {
        var selected := C.Observe(setting, site);
        return if selected.Success? then Success(selected.value) else Failure(Stop.Stop);
      }
      var o: Observation := *;
      return Success(o);
    }

    method Clock() returns (now: Instant)
    {
      now := *;
    }

    method NewId() returns (id: Id)
    {
      id := *;
    }

    /** An approval, a cancellation check, or a local file write: it may stop the run. */
    method Proceed() returns (proceed: bool)
    {
      proceed := *;
    }

    method SavePin(fingerprint: string) returns (saved: bool)
      modifies this`site
      ensures saved ==> site == old(site).(pin := Some(fingerprint))
    {
      var reached: bool := *;
      if reached {
        site := site.(pin := Some(fingerprint));
      }
      saved := *;
      saved := saved && reached;
    }

    method SaveRestorePoint(commit: Commit) returns (saved: bool)
      modifies this`site
      ensures saved ==> site == old(site).(restorePoint := Some(commit))
    {
      var reached: bool := *;
      if reached {
        site := site.(restorePoint := Some(commit));
      }
      saved := *;
      saved := saved && reached;
    }

    /** Writes new credential files, or only another roster into those there are. */
    method SaveCredentials(generate: bool, roster: string) returns (saved: bool)
      modifies this`site
      ensures saved && generate && quiet ==>
        site == old(site).(credentials := Some(setting.generated.(authorizedKeys := roster)))
      ensures saved && !generate ==>
        && old(site).credentials.Some?
        && site == old(site).(credentials := Some(old(site).credentials.value.(authorizedKeys := roster)))
    {
      var reached: bool := *;
      if !reached || (!generate && site.credentials.None?) {
        return false;
      }
      var drawn: Credentials := *;
      var credentials := if !generate then site.credentials.value else if quiet then setting.generated else drawn;
      site := site.(credentials := Some(credentials.(authorizedKeys := roster)));
      saved := *;
    }

    /**
     Leaves the process towards the target: only under an undispatched open fence of
     this very action. What is sent may still fail to be applied, and then the target
     is as it was.
     */
    method Send(action: Action, plan: Plan, o: Observation, ghost request: Request, ghost confirmed: Observation)
      returns (sent: bool, applied: bool)
      requires Sound() && Undispatched(log, Persisted())
      requires Fenced(Dispatch(action, Persisted(), plan, request, confirmed, Seen(request), false, Seen(request)))
      modifies this`log, this`site
      ensures Sound() && NewestApplied(log, Persisted(), applied)
      ensures log == if sent then
                       old(log) + [Dispatch(action, Persisted(), plan, request, confirmed, old(Seen(request)), applied,
                                            Seen(request))]
                     else old(log)
      ensures applied ==> sent
      ensures quiet && applied ==> C.Apply(setting, action, plan, o, old(site)) == Success(site)
      ensures !quiet || !applied ==> site == old(site)
      ensures SameFiles(old(site), site)
    {
      hide C.Apply, Accounted, IsRecord, IsValid, Confirmed, SafeToDelete;
      sent, applied := *, false;
      if sent {
        ghost var before := Seen(request);
        applied := *;
        if quiet && applied {
          var effect := C.Apply(setting, action, plan, o, site);
          if effect.Success? {
            AppliedElsewhere(setting, action, plan, o, site);
            site := effect.value;
          } else {
            applied := false;
          }
        }
        ghost var dispatch := Dispatch(action, Persisted(), plan, request, confirmed, before, applied, Seen(request));
        DispatchAccounted(log, dispatch);
        DispatchTruthful(log, dispatch);
        log := log + [dispatch];
      }
    }

    /**
     What came back, if the process lived to see it. A request that was never sent
     has failed, and one is not reported done unless it was applied. One that is
     reported cancelled before it was sent was not sent, and the target turns down
     with a client error only what it does not apply.
     */
    method Reply(sent: bool, applied: bool) returns (reply: Option<Reply>)
      requires applied ==> sent
      ensures reply.Some? && !sent ==> reply.value.Failed?
      ensures reply == Some(Done) ==> applied
      ensures reply == Some(Failed(CancelledRequest(false))) || reply == Some(Failed(LocalRefusal)) ==> !sent
      ensures forall status :: 400 <= status <= 499 && reply == Some(Failed(ApiStatus(status))) ==> !applied
    {
      reply := *;
      if reply.Some? {
        match reply.value
        case Done =>
          reply := if applied then reply else None;
        case Accepted(_) =>
          reply := if sent then reply else None;
        case Failed(CancelledRequest(dispatched)) =>
          reply := if dispatched || !sent then reply else None;
        case Failed(LocalRefusal) =>
          reply := if sent then None else reply;
        case Failed(ApiStatus(status)) =>
          reply := if 400 <= status < 500 && applied then None else reply;
        case Failed(_) =>
      }
    }

    method Wait(applied: bool) returns (wait: Wait)
      ensures wait.Finished? ==> applied
    {
      wait := *;
      if wait.Finished? && !applied {
        wait := WaitFailed(LostConnection);
      }
    }

    /** A script exits with zero only if it ran, and with one of its refusal codes only before it changes anything. */
    method ScriptEnd(sent: bool, applied: bool) returns (ended: Option<Ended>)
      requires applied ==> sent
      ensures ended == Some(Exit(0)) ==> applied
      ensures forall code :: 20 <= code <= 99 && ended == Some(Exit(code)) ==> !applied
      ensures ended == Some(Broken(false)) ==> !sent
    {
      ended := *;
      if ended.Some? {
        match ended.value
        case Exit(code) =>
          ended := if (code == 0 && !applied) || (20 <= code <= 99 && applied) then None else ended;
        case Broken(started) =>
          ended := if !started && sent then None else ended;
      }
    }
  }

  // ----- one run -----

  class Configurer {
    const world: World
    const request: Request
    /** The fingerprint of the staged split content; none if a stored image was selected. */
    const staged: Option<string>
    const managed: bool
    var evidence: Record

    ghost predicate Valid()
      reads this, world
    {
      world.Sound() && evidence == world.Persisted()
    }

    predicate Steady() {
      world.Steady(request)
    }

    /** The identity is that of an authorization of this plan. */
    ghost predicate Authorized(authorization: Id, plan: Plan)
      reads this
    {
      var found := Find(evidence.history.authorizations, authorization);
      found.Some? && found.value.plan.plan == plan
    }

    /** A run starts only without stuck steps. */
    constructor (world: World, request: Request, staged: Option<string>, managed: bool)
      requires world.Sound() && Stuck(StepsOf(world.Persisted())) == []
      ensures Valid() && this.world == world && this.request == request
    {
      this.world, this.request, this.staged, this.managed := world, request, staged, managed;
      this.evidence := world.Persisted();
    }

    // ----- the journal -----

    method Persist(next: Record) returns (saved: bool)
      requires Valid() && Truthful(world.log, next)
      modifies this`evidence, world`evidence
      ensures world.Sound()
      ensures world.Persisted() == old(evidence) || (world.Persisted() == next && IsRecord(next, world.hosts))
      ensures saved ==> Valid() && evidence == next && IsTransition(old(evidence), next, world.host)
      ensures saved ==> IsRecord(next, world.hosts)
      ensures saved && Undispatched(world.log, old(evidence)) ==> Undispatched(world.log, next)
      ensures saved && |StepsOf(next)| == |StepsOf(old(evidence))| + 1 ==> Undispatched(world.log, next)
    {
      saved := world.Save(next);
      if saved {
        evidence := next;
      }
    }

    /** Amends the last step: whatever is given replaces what was recorded. */
    method Amend(completion: Option<Completion>, refusedAt: Option<Instant>, verifiedAt: Option<Instant>)
      returns (saved: bool)
      requires Valid()
      requires refusedAt.Some? ==> NewestApplied(world.log, evidence, false)
      requires completion.Some? && completion.value.exitCode == 0 ==> NewestApplied(world.log, evidence, true)
      modifies this`evidence, world`evidence
      ensures world.Sound()
      ensures saved ==> Valid() && StepsOf(old(evidence)) != [] && IsRecord(evidence, world.hosts)
      ensures saved ==> evidence == Amended(old(evidence), completion, refusedAt, verifiedAt)
      ensures
        || world.Persisted() == old(evidence)
        || (StepsOf(old(evidence)) != [] && IsRecord(world.Persisted(), world.hosts)
            && world.Persisted() == Amended(old(evidence), completion, refusedAt, verifiedAt))
    {
      hide Accounted, Truthful, NewestApplied, Undispatched, IsTransition, IsRecord;
      var steps := StepsOf(evidence);
      if steps == [] {
        return false;
      }
      AmendedTruthful(world.log, evidence, completion, refusedAt, verifiedAt);
      saved := Persist(Amended(evidence, completion, refusedAt, verifiedAt));
    }

    method Authorize(plan: Plan) returns (authorization: Result<Id, Stop>)
      requires Valid()
      modifies this`evidence, world`evidence
      ensures world.Sound()
      ensures authorization.Success? ==> Valid() && Authorized(authorization.value, plan)
      ensures authorization.Success? ==> StepsOf(evidence) == StepsOf(old(evidence)) && AllSettled(StepsOf(evidence))
      ensures authorization.Success? ==>
        var authorizations := evidence.history.authorizations;
        && authorizations != []
        && var approvedAt := authorizations[|authorizations| - 1].approvedAt;
           evidence == Record(
             History(old(evidence).history.authorizations
                     + [Authorization(authorization.value, approvedAt, Approval(plan, world.host))],
                     old(evidence).history.steps),
             old(evidence).operations)
    {
      hide Accounted, Truthful, Undispatched, OperationRecorded, PlanValid, Allows;
      var id := world.NewId();
      var now := world.Clock();
      var authorizations := evidence.history.authorizations + [Authorization(id, now, Approval(plan, world.host))];
      SameOutcomesTruthful(world.log, evidence, evidence.(history := evidence.history.(authorizations := authorizations)));
      var saved := Persist(evidence.(history := evidence.history.(authorizations := authorizations)));
      if !saved {
        return Failure(Stop.Stop);
      }
      assert IsConsistent(evidence.history, ApprovedActions);
      FindDistinct(authorizations, |authorizations| - 1);
      return Success(id);
    }

    /** From here on the step is open, and stays so as evidence if nothing else is recorded. */
    method Fence(authorization: Id, ghost plan: Plan, action: Action) returns (fenced: bool)
      requires Valid() && Authorized(authorization, plan)
      modifies this`evidence, world`evidence
      ensures world.Sound()
      ensures fenced ==> Valid() && Authorized(authorization, plan)
      ensures fenced ==> OpenFence(evidence, action, plan) && Undispatched(world.log, evidence)
      ensures fenced ==> AddsStep(StepsOf(old(evidence)), StepsOf(evidence), action) && NewestIs(evidence, Open)
      ensures fenced ==> IsValid(evidence.history, ApprovedActions)
      ensures fenced ==>
        var step := StepsOf(evidence)[|StepsOf(evidence)| - 1];
        evidence == Record(
          History(old(evidence).history.authorizations,
                  old(evidence).history.steps + [Step(step.id, authorization, action, step.fencedAt, None, None, None)]),
          old(evidence).operations)
    {
      var id := world.NewId();
      var now := world.Clock();
      var step := Step(id, authorization, action, now, None, None, None);
      SameOutcomesTruthful(world.log, evidence,
                           evidence.(history := evidence.history.(steps := StepsOf(evidence) + [step])));
      fenced := Persist(evidence.(history := evidence.history.(steps := StepsOf(evidence) + [step])));
    }

    // ----- one action -----

    method Fresh() returns (observed: Result<Observation, Stop>)
      ensures world.quiet && observed.Success? ==> C.Observe(world.setting, world.site) == Success(observed.value)
    {
      observed := world.Observe();
    }

    /** Verifies the effect of one step by a fresh observation, and only then records it. */
    method Verified(plan: Plan, action: Action) returns (observed: Result<Observation, Stop>)
      requires Valid()
      modifies this`evidence, world`evidence
      ensures world.Sound()
      ensures observed.Success? ==> Valid() && evidence.history.authorizations == old(evidence).history.authorizations
      ensures observed.Success? ==> Verify(action, plan, observed.value, request.inputs)
      ensures observed.Success? ==> NewestIs(evidence, Journal.Verified) && SameButOutcome(old(evidence), evidence)
      ensures world.Persisted() == old(evidence) || Concluded(old(evidence), world.Persisted(), Journal.Verified)
      ensures world.Persisted() == old(evidence) || FoundSo(old(evidence), world.Persisted())
      ensures world.Persisted() == old(evidence) || exists o: Observation ::
        && Verify(action, plan, o, request.inputs)
        && (world.quiet ==> C.Observe(world.setting, world.site) == Success(o))
      ensures world.quiet && observed.Success? ==> C.Observe(world.setting, world.site) == Success(observed.value)
    {
      hide Accounted, Truthful, NewestApplied, Undispatched, IsTransition, Verify, IsRecord, C.Observe;
      observed := Fresh();
      if observed.Failure? {
        return;
      }
      if !Verify(action, plan, observed.value, request.inputs) {
        return Failure(Stop.Stop);
      }
      var now := world.Clock();
      var saved := Amend(None, None, Some(now));
      if world.Persisted() != old(evidence) {
        NewestIsValid(world.Persisted(), world.hosts);
      }
      if !saved {
        return Failure(Stop.Stop);
      }
      NewestIsValid(evidence, world.hosts);
    }

    /** What is refused before any request is sent. */
    predicate RefusedLocally(action: Action, plan: Plan, o: Observation) {
      match action
      case DeleteImage => plan.image.replace.None?
      case ImportImage => staged != Some(plan.fingerprint)
      case CreateInstance => !ValidSourceRoot(request.inputs.sourceRoot)
      case UpdateInstance =>
        || o.instance.None? || o.credentials.None?
        || JudgeInstance(o.instance.value, plan.fingerprint, request.inputs).Failure?
      case _ => false
    }

    /** Only what the plan does not have, or what could not fit, is refused. */
    lemma RefusedLocallyExactly(action: Action, plan: Plan, o: Observation)
      ensures RefusedLocally(action, plan, o) <==>
        || (action == DeleteImage && !plan.image.replace.Some?)
        || (action == ImportImage && !(staged.Some? && staged.value == plan.fingerprint))
        || (action == CreateInstance && !Answers.IsUsableRoot(request.inputs.sourceRoot))
        || (action == UpdateInstance
            && !(o.instance.Some? && o.credentials.Some?
                 && Answers.UsableInstance(o.instance.value, plan.fingerprint, request.inputs)))
    {
      Answers.RootExactly(request.inputs.sourceRoot);
      if o.instance.Some? {
        Answers.JudgementExactly(o.instance.value, plan.fingerprint, request.inputs);
      }
      hide ValidSourceRoot, JudgeInstance, Answers.IsUsableRoot, Answers.UsableInstance;
    }

    /**
     Records how a request failed, if that is definite: only a definite absence of
     any effect is a refusal, and whatever is neither that nor a failed operation
     leaves the step open.
     */
    method ConcludeRequest(error: RequestError, accepted: bool) returns (concluded: bool)
      requires Valid() && NewestIs(evidence, Open)
      requires !accepted && (error == CancelledRequest(false) || error == LocalRefusal) ==>
        NewestApplied(world.log, evidence, false)
      requires !accepted && error.ApiStatus? && 400 <= error.status <= 499 ==>
        NewestApplied(world.log, evidence, false)
      modifies this`evidence, world`evidence
      ensures world.Sound()
      ensures error == CancelledRequest(true) || error == LostConnection ==> world.Persisted() == old(evidence)
      ensures error.ApiStatus? && (error.status < 400 || error.status > 499) ==> world.Persisted() == old(evidence)
      ensures accepted && error != FailedOperation ==> world.Persisted() == old(evidence)
      ensures error == FailedOperation ==>
        world.Persisted() == old(evidence) || CameBack(old(evidence), world.Persisted(), 1)
      ensures error != FailedOperation ==>
        world.Persisted() == old(evidence) || TurnedDown(old(evidence), world.Persisted())
      ensures concluded && error == FailedOperation ==> CameBack(old(evidence), world.Persisted(), 1)
      ensures concluded && !accepted && (error == CancelledRequest(false) || error == LocalRefusal) ==>
        TurnedDown(old(evidence), world.Persisted())
      ensures concluded && !accepted && error.ApiStatus? && 400 <= error.status <= 499 ==>
        TurnedDown(old(evidence), world.Persisted())
    {
      hide Accounted, Truthful, NewestApplied, Undispatched, IsTransition, IsRecord;
      var now := world.Clock();
      concluded := true;
      match error
      case CancelledRequest(dispatched) =>
        if !accepted && !dispatched {
          concluded := Amend(None, Some(now), None);
        }
      case FailedOperation =>
        concluded := Amend(Some(Completion(1, now)), None, None);
      case LocalRefusal =>
        if !accepted {
          concluded := Amend(None, Some(now), None);
        }
      case ApiStatus(status) =>
        if !accepted && 400 <= status < 500 {
          concluded := Amend(None, Some(now), None);
        }
      case LostConnection =>
    }

    /** Records how the remote script ended; only a recorded exit with zero lets the run continue. */
    method ConcludeRemote(ended: Ended) returns (returned: bool, concluded: bool)
      requires Valid() && NewestIs(evidence, Open)
      requires ended == Exit(0) ==> NewestApplied(world.log, evidence, true)
      requires ended == Broken(false) || (ended.Exit? && 20 <= ended.code <= 99) ==>
        NewestApplied(world.log, evidence, false)
      modifies this`evidence, world`evidence
      ensures world.Sound()
      ensures returned <==> ended == Exit(0) && concluded
      ensures returned ==> Valid() && SameButOutcome(old(evidence), evidence)
      ensures returned ==> evidence.history.authorizations == old(evidence).history.authorizations
      ensures ended == Broken(true) ==> world.Persisted() == old(evidence)
      ensures ended == Broken(false) || (ended.Exit? && 20 <= ended.code <= 99) ==>
        TurnedDown(old(evidence), world.Persisted()) || (!concluded && world.Persisted() == old(evidence))
      ensures ended.Exit? && !(20 <= ended.code <= 99) ==>
        || CameBack(old(evidence), world.Persisted(), ended.code)
        || (!concluded && world.Persisted() == old(evidence))
    {
      hide Accounted, Truthful, NewestApplied, Undispatched, IsTransition, IsRecord;
      var now := world.Clock();
      returned, concluded := false, true;
      match ended
      case Exit(code) =>
        if code == 0 {
          concluded := Amend(Some(Completion(0, now)), None, None);
          returned := concluded;
        } else if 20 <= code <= 99 {
          concluded := Amend(None, Some(now), None);
        } else {
          concluded := Amend(Some(Completion(code, now)), None, None);
        }
      case Broken(started) =>
        if !started {
          concluded := Amend(None, Some(now), None);
        }
    }

    /** Exactly one request, under its own fence. */
    method RunStep(authorization: Id, plan: Plan, action: Action, o: Observation, ghost confirmed: Observation)
      returns (observed: Result<Observation, Stop>)
      requires Valid() && Authorized(authorization, plan) && Confirmed(plan, request, confirmed)
      requires Steady() && action == DeleteImage ==> SafeToDelete(world.site, plan, request)
      modifies this`evidence, world`evidence, world`log, world`site
      ensures world.Sound() && old(world.log) <= world.log
      ensures observed.Success? ==> Valid() && Authorized(authorization, plan)
      ensures observed.Success? ==> Verify(action, plan, observed.value, request.inputs)
      ensures RefusedLocally(action, plan, o) ==> world.log == old(world.log) && world.site == old(world.site)
      ensures observed.Success? ==>
        Performed(StepsOf(old(evidence)), old(world.log), StepsOf(evidence), world.log, [action])
      ensures world.quiet && observed.Success? ==>
        && C.Apply(world.setting, action, plan, o, old(world.site)) == Success(world.site)
        && C.Observe(world.setting, world.site) == Success(observed.value)
    {
      hide Confirmed, Accounted, Truthful, NewestApplied, Undispatched, IsRecord, IsTransition, Verify, JudgeInstance,
           OpenFence, NewestIs, SameButOutcome, AddsStep, Amended, Performed, IsValid, Concluded, FoundSo, TurnedDown,
           CameBack, ActionsOf, C.Apply, C.Observe, SafeToDelete;
      var fenced := Fence(authorization, plan, action);
      if !fenced {
        return Failure(Stop.Stop);
      }
      if RefusedLocally(action, plan, o) {
        UndispatchedNewest(world.log, evidence);
        var concluded := ConcludeRequest(LocalRefusal, false);
        return Failure(Stop.Stop);
      }
      ghost var before := world.Seen(request);
      var sent, applied := world.Send(action, plan, o, request, confirmed);
      ghost var dispatch := Dispatch(action, evidence, plan, request, confirmed, before, applied, world.Seen(request));
      var reply := world.Reply(sent, applied);
      if reply.None? {
        return Failure(Stop.Stop);
      }
      if reply.value.Failed? {
        var concluded := ConcludeRequest(reply.value.error, false);
        return Failure(Stop.Stop);
      }
      if reply.value.Accepted? {
        ghost var fence := evidence;
        var returned := Await(reply.value.operation, applied);
        if !returned {
          return Failure(Stop.Stop);
        }
        NewestSame(world.log, fence, evidence, applied);
      }
      var now := world.Clock();
      ghost var returning := evidence;
      var saved := Amend(Some(Completion(0, now)), None, None);
      if !saved {
        return Failure(Stop.Stop);
      }
      ghost var returned := evidence;
      AmendedKeeps(returning, Some(Completion(0, now)), None, None);
      OutcomeKeepsAddition(StepsOf(old(evidence)), returning, returned, action);
      observed := Verified(plan, action);
      if observed.Success? {
        OutcomeKeepsAddition(StepsOf(old(evidence)), returned, evidence, action);
        OneStepPerformed(StepsOf(old(evidence)), old(world.log), evidence, dispatch);
      }
    }

    /** Records the operation reference before waiting for it. */
    method Await(operation: Id, applied: bool) returns (returned: bool)
      requires Valid() && NewestIs(evidence, Open)
      modifies this`evidence, world`evidence
      ensures world.Sound()
      ensures returned ==> Valid() && evidence.history == old(evidence).history
      ensures returned ==>
        var newest := StepsOf(evidence)[|StepsOf(evidence)| - 1];
        applied && evidence.operations == old(evidence).operations + [Operation(newest.id, operation)]
    {
      hide Accounted, Undispatched, IsTransition, IsRecord;
      var steps := StepsOf(evidence);
      if steps == [] {
        return false;
      }
      var operations := evidence.operations + [Operation(steps[|steps| - 1].id, operation)];
      SameOutcomesTruthful(world.log, evidence, evidence.(operations := operations));
      var saved := Persist(evidence.(operations := operations));
      if !saved {
        return false;
      }
      var wait := world.Wait(applied);
      if wait.WaitFailed? {
        var concluded := ConcludeRequest(wait.error, true);
        return false;
      }
      return true;
    }

    method PinCheckout(commit: Commit) returns (pinned: bool)
      modifies world`site
      ensures pinned ==> world.site == old(world.site).(restorePoint := Some(commit))
    {
      if world.site.restorePoint == Some(commit) {
        return true;
      }
      pinned := world.SaveRestorePoint(commit);
    }

    /** The restore point is pinned first, then the clone runs under its own fence. */
    method Materialize(authorization: Id, plan: Plan, o: Observation, ghost confirmed: Observation)
      returns (observed: Result<Observation, Stop>)
      requires Valid() && Authorized(authorization, plan) && Confirmed(plan, request, confirmed) && plan.checkout.Some?
      modifies this`evidence, world`evidence, world`log, world`site
      ensures world.Sound() && old(world.log) <= world.log
      ensures observed.Success? ==> Valid() && Authorized(authorization, plan)
      ensures observed.Success? ==> Verify(MaterializeCheckout, plan, observed.value, request.inputs)
      ensures observed.Success? ==> world.site.restorePoint == Some(plan.checkout.value.commit)
      ensures observed.Success? ==>
        Performed(StepsOf(old(evidence)), old(world.log), StepsOf(evidence), world.log, [MaterializeCheckout])
      ensures Steady() && observed.Success? ==>
        C.Perform(world.setting, MaterializeCheckout, plan, o, old(world.site)) == Success((world.site, observed.value))
    {
      hide Confirmed, Accounted, Truthful, NewestApplied, Undispatched, IsRecord, IsTransition, Verify, OpenFence, NewestIs,
           SameButOutcome, AddsStep, Performed, IsValid, FoundSo, TurnedDown, CameBack, ActionsOf, C.Apply, C.Observe;
      var proceed := world.Proceed();
      if !managed || !proceed {
        return Failure(Stop.Stop);
      }
      var pinned := PinCheckout(plan.checkout.value.commit);
      if !pinned {
        return Failure(Stop.Stop);
      }
      var fenced := Fence(authorization, plan, MaterializeCheckout);
      if !fenced {
        return Failure(Stop.Stop);
      }
      ghost var before := world.Seen(request);
      var sent, applied := world.Send(MaterializeCheckout, plan, o, request, confirmed);
      ghost var dispatch :=
        Dispatch(MaterializeCheckout, evidence, plan, request, confirmed, before, applied, world.Seen(request));
      var ended := world.ScriptEnd(sent, applied);
      if ended.None? {
        return Failure(Stop.Stop);
      }
      var returned, _ := ConcludeRemote(ended.value);
      if !returned {
        return Failure(Stop.Stop);
      }
      ghost var exited := evidence;
      OutcomeKeepsAddition(StepsOf(old(evidence)), dispatch.record, exited, MaterializeCheckout);
      observed := Verified(plan, MaterializeCheckout);
      if observed.Success? {
        OutcomeKeepsAddition(StepsOf(old(evidence)), exited, evidence, MaterializeCheckout);
        OneStepPerformed(StepsOf(old(evidence)), old(world.log), evidence, dispatch);
        if Steady() {
          CloneApplied(world.setting, plan, o, old(world.site), world.site, observed.value);
        }
      }
    }

    /** Credentials are written just before the guarded update, and observed again. */
    method Perform(authorization: Id, plan: Plan, action: Action, o: Observation, ghost confirmed: Observation)
      returns (observed: Result<Observation, Stop>)
      requires Valid() && Authorized(authorization, plan) && Confirmed(plan, request, confirmed)
      requires Steady() && action == DeleteImage ==> SafeToDelete(world.site, plan, request)
      modifies this`evidence, world`evidence, world`log, world`site
      ensures world.Sound() && old(world.log) <= world.log
      ensures observed.Success? ==> Valid() && Authorized(authorization, plan)
      ensures observed.Success? ==> Verify(action, plan, observed.value, request.inputs)
      ensures observed.Success? ==>
        Performed(StepsOf(old(evidence)), old(world.log), StepsOf(evidence), world.log, [action])
      ensures Steady() && observed.Success? && action != MaterializeCheckout
              && (action == ImportImage ==> RequireContainer(observed.value, request.inputs).Success?) ==>
        C.Perform(world.setting, action, plan, o, old(world.site)) == Success((world.site, observed.value))
    {
      hide Confirmed, Verify, Performed, RequireContainer, C.Apply, C.Observe, SafeToDelete;
      var proceed := world.Proceed();
      if !proceed {
        return Failure(Stop.Stop);
      }
      var current := o;
      if action == UpdateInstance {
        var written := WriteCredentials(plan);
        var again := Fresh();
        if !written || again.Failure? {
          return Failure(Stop.Stop);
        }
        current := again.value;
      }
      observed := RunStep(authorization, plan, action, current, confirmed);
    }

    method WriteCredentials(plan: Plan) returns (written: bool)
      modifies world`site
      ensures Steady() && written ==>
        C.Prepare(world.setting, UpdateInstance, plan, old(world.site)) == Success(world.site)
    {
      if plan.credentials == Reuse {
        return true;
      }
      if request.roster.None? {
        return false;
      }
      written := world.SaveCredentials(plan.credentials == Generate, request.roster.value);
    }

    // ----- one gate -----

    /**
     Approves what was shown, then plans again from a fresh observation. The part
     that the approval covers must be unchanged.
     */
    method Confirm(plan: Plan, first: bool) returns (confirmed: Result<Observation, Stop>)
      ensures confirmed.Success? ==> PlanOf(confirmed.value, request).Success?
      ensures confirmed.Success? && first ==> FirstGate(PlanOf(confirmed.value, request).value) == Some(plan)
      ensures confirmed.Success? && !first ==> PlanOf(confirmed.value, request).value == plan
      ensures world.quiet && confirmed.Success? ==> C.Observe(world.setting, world.site) == Success(confirmed.value)
    {
      var approved := world.Proceed();
      if !approved {
        return Failure(Stop.Stop);
      }
      confirmed := Fresh();
      if confirmed.Failure? {
        return;
      }
      var current := PlanOf(confirmed.value, request);
      if current.Failure? || (if first then FirstGate(current.value) != Some(plan) else current.value != plan) {
        return Failure(Stop.Stop);
      }
    }

    /** The checkout first, then the image actions, then the pin, then the rest. */
    method ApplyActions(plan: Plan, o: Observation, ghost confirmed: Observation)
      returns (observed: Result<Observation, Stop>)
      requires Valid() && Confirmed(plan, request, confirmed)
      requires Steady() ==> C.Observe(world.setting, world.site) == Success(confirmed)
      modifies this`evidence, world`evidence, world`log, world`site
      ensures world.Sound() && old(world.log) <= world.log
      ensures observed.Success? ==> Valid()
      ensures observed.Success? && OnlyImports(plan) ==> observed.value.image.Some?
      ensures observed.Success? ==>
        Performed(StepsOf(old(evidence)), old(world.log), StepsOf(evidence), world.log, ActionsOf(plan))
      ensures Steady() && observed.Success? ==>
        C.ApplyActions(world.setting, plan, o, old(world.site)) == Success((world.site, observed.value))
    {
      hide Confirmed, Verify, RequireContainer, ActionsOf, Accounted, IsRecord, OnlyImports, Performed, AllSettled,
           Select, C.Perform, C.PerformAll, C.Early, C.Late, C.Observe, SafeToDelete;
      var authorized := Authorize(plan);
      if authorized.Failure? {
        return Failure(Stop.Stop);
      }
      ghost var steps, log := StepsOf(evidence), world.log;
      var cloned := CloneFirst(authorized.value, plan, o, confirmed);
      if cloned.Failure? {
        return cloned;
      }
      ghost var cloning := if plan.checkout.Some? then [MaterializeCheckout] else [];
      ghost var clonedSteps, clonedLog, clonedSite := StepsOf(evidence), world.log, world.site;
      var imaged := ApplyImages(authorized.value, plan, cloned.value, confirmed);
      if imaged.Failure? {
        return imaged;
      }
      ghost var images, rest := Select(ActionsOf(plan), IsImageAction), Select(ActionsOf(plan), IsLate);
      PerformedThen(steps, log, clonedSteps, clonedLog, StepsOf(evidence), world.log, cloning, images);
      ghost var imagedSteps, imagedLog, imagedSite := StepsOf(evidence), world.log, world.site;
      if plan.pin && world.site.pin != Some(plan.fingerprint) {
        var pinned := world.SavePin(plan.fingerprint);
        if !pinned {
          return Failure(Stop.Stop);
        }
      }
      observed := ApplyRest(authorized.value, plan, imaged.value, confirmed);
      OnlyImportsActions(plan);
      if observed.Success? {
        PerformedThen(steps, log, imagedSteps, imagedLog, StepsOf(evidence), world.log, cloning + images, rest);
        GateOrder(plan);
        if Steady() {
          GateApplied(world.setting, plan, o, old(world.site), cloned.value, clonedSite, imaged.value, imagedSite,
                      observed.value, world.site);
        }
      }
    }

    /** The checkout, if the plan has one; it does not touch what makes a deletion safe. */
    method CloneFirst(authorization: Id, plan: Plan, o: Observation, ghost confirmed: Observation)
      returns (observed: Result<Observation, Stop>)
      requires Valid() && Authorized(authorization, plan) && Confirmed(plan, request, confirmed)
      requires Steady() ==> C.Observe(world.setting, world.site) == Success(confirmed)
      modifies this`evidence, world`evidence, world`log, world`site
      ensures world.Sound() && old(world.log) <= world.log
      ensures observed.Success? ==> Valid() && Authorized(authorization, plan)
      ensures observed.Success? ==>
        Performed(StepsOf(old(evidence)), old(world.log), StepsOf(evidence), world.log,
                  if plan.checkout.Some? then [MaterializeCheckout] else [])
      ensures Steady() && observed.Success? ==>
        if plan.checkout.Some? then
          C.Perform(world.setting, MaterializeCheckout, plan, o, old(world.site)) == Success((world.site, observed.value))
        else world.site == old(world.site) && observed.value == o
      ensures Steady() && observed.Success? && plan.image.replace.Some? ==> SafeToDelete(world.site, plan, request)
    {
      hide Confirmed, Verify, Accounted, IsRecord, Performed, C.Perform, C.Observe, SafeToDelete;
      if Steady() && plan.image.replace.Some? {
        ConfirmedIsSafe(world.setting, world.site, plan, request, confirmed);
      }
      if plan.checkout.None? {
        NothingPerformed(StepsOf(evidence), world.log);
        return Success(o);
      }
      observed := Materialize(authorization, plan, o, confirmed);
      if Steady() && observed.Success? {
        CloneKeepsImages(world.setting, plan, o, old(world.site), world.site, observed.value, request);
      }
    }

    method ApplyImages(authorization: Id, plan: Plan, o: Observation, ghost confirmed: Observation)
      returns (observed: Result<Observation, Stop>)
      requires Valid() && Authorized(authorization, plan) && Confirmed(plan, request, confirmed)
      requires Steady() && plan.image.replace.Some? ==> SafeToDelete(world.site, plan, request)
      modifies this`evidence, world`evidence, world`log, world`site
      ensures world.Sound() && old(world.log) <= world.log
      ensures observed.Success? ==> Valid() && Authorized(authorization, plan)
      ensures var actions := ActionsOf(plan);
              observed.Success? && actions != [] && actions[|actions| - 1] == ImportImage ==>
                observed.value.image.Some?
      ensures observed.Success? ==>
        Performed(StepsOf(old(evidence)), old(world.log), StepsOf(evidence), world.log,
                  Select(ActionsOf(plan), IsImageAction))
      ensures Steady() && observed.Success? ==>
        C.PerformAll(world.setting, Select(ActionsOf(plan), IsImageAction), plan, o, old(world.site))
        == Success((world.site, observed.value))
    {
      hide Confirmed, RequireContainer, ActionsOf, Accounted, IsRecord, Performed, C.Perform, SafeToDelete;
      var actions := ActionsOf(plan);
      var latest := o;
      NothingPerformed(StepsOf(evidence), world.log);
      for i := 0 to |actions|
        invariant Valid() && Authorized(authorization, plan) && old(world.log) <= world.log
        invariant i > 0 && actions[i - 1] == ImportImage ==> latest.image.Some?
        invariant Performed(StepsOf(old(evidence)), old(world.log), StepsOf(evidence), world.log,
                            Select(actions[..i], IsImageAction))
        invariant Steady() ==>
          C.PerformAll(world.setting, Select(actions[..i], IsImageAction), plan, o, old(world.site))
          == Success((world.site, latest))
        invariant Select(actions[..i], IsImageAction) == [] ==> world.site == old(world.site)
      {
        if actions[i] == DeleteImage {
          DeletionComesFirst(plan, request, confirmed, i);
        }
        SelectNext(actions, i, IsImageAction);
        ghost var steps, log := StepsOf(evidence), world.log;
        if IsImageAction(actions[i]) {
          var next := Perform(authorization, plan, actions[i], latest, confirmed);
          if next.Failure? {
            return next;
          }
          latest := next.value;
          PerformedThen(StepsOf(old(evidence)), old(world.log), steps, log, StepsOf(evidence), world.log,
                        Select(actions[..i], IsImageAction), [actions[i]]);
          if actions[i] == ImportImage && RequireContainer(latest, request.inputs).Failure? {
            return Failure(Stop.Stop);
          }
          PerformSnoc(world.setting, Select(actions[..i], IsImageAction), actions[i], plan, o, old(world.site));
        }
      }
      assert actions[..|actions|] == actions;
      return Success(latest);
    }

    method ApplyRest(authorization: Id, plan: Plan, o: Observation, ghost confirmed: Observation)
      returns (observed: Result<Observation, Stop>)
      requires Valid() && Authorized(authorization, plan) && Confirmed(plan, request, confirmed)
      modifies this`evidence, world`evidence, world`log, world`site
      ensures world.Sound() && old(world.log) <= world.log
      ensures observed.Success? ==> Valid()
      ensures observed.Success? && (forall a :: a in ActionsOf(plan) ==> IsEarly(a)) ==> observed.value == o
      ensures observed.Success? ==>
        Performed(StepsOf(old(evidence)), old(world.log), StepsOf(evidence), world.log, Select(ActionsOf(plan), IsLate))
      ensures Steady() && observed.Success? ==>
        C.PerformAll(world.setting, Select(ActionsOf(plan), IsLate), plan, o, old(world.site))
        == Success((world.site, observed.value))
    {
      hide Confirmed, Verify, ActionsOf, Performed, C.Perform, RequireContainer;
      var actions := ActionsOf(plan);
      var latest := o;
      NothingPerformed(StepsOf(evidence), world.log);
      for i := 0 to |actions|
        invariant Valid() && Authorized(authorization, plan) && old(world.log) <= world.log
        invariant (forall a :: a in actions ==> IsEarly(a)) ==> latest == o
        invariant Performed(StepsOf(old(evidence)), old(world.log), StepsOf(evidence), world.log,
                            Select(actions[..i], IsLate))
        invariant Steady() ==>
          C.PerformAll(world.setting, Select(actions[..i], IsLate), plan, o, old(world.site))
          == Success((world.site, latest))
      {
        SelectNext(actions, i, IsLate);
        ghost var steps, log := StepsOf(evidence), world.log;
        if IsLate(actions[i]) {
          var next := Perform(authorization, plan, actions[i], latest, confirmed);
          if next.Failure? {
            return next;
          }
          latest := next.value;
          PerformedThen(StepsOf(old(evidence)), old(world.log), steps, log, StepsOf(evidence), world.log,
                        Select(actions[..i], IsLate), [actions[i]]);
          PerformSnoc(world.setting, Select(actions[..i], IsLate), actions[i], plan, o, old(world.site));
        }
      }
      assert actions[..|actions|] == actions;
      return Success(latest);
    }

    /** One gate: shown, approved, confirmed, applied. */
    method ApplyGate(plan: Plan, first: bool)
      returns (observed: Result<Observation, Stop>, ghost confirmed: Observation)
      requires Valid()
      requires plan.image.replace.Some? ==> !plan.image.imports
      modifies this`evidence, world`evidence, world`log, world`site
      ensures world.Sound() && old(world.log) <= world.log
      ensures observed.Success? ==> Valid()
      ensures observed.Success? && OnlyImports(plan) ==> observed.value.image.Some?
      ensures observed.Success? ==>
        Performed(StepsOf(old(evidence)), old(world.log), StepsOf(evidence), world.log, ActionsOf(plan))
      ensures observed.Success? ==>
        && PlanOf(confirmed, request).Success?
        && (if first then FirstGate(PlanOf(confirmed, request).value) == Some(plan)
            else PlanOf(confirmed, request).value == plan)
      ensures Steady() && observed.Success? ==>
        && C.Observe(world.setting, old(world.site)) == Success(confirmed)
        && C.ApplyActions(world.setting, plan, confirmed, old(world.site)) == Success((world.site, observed.value))
    {
      hide PlanOf, FirstGate, Performed, C.Observe, C.ApplyActions;
      var current := Confirm(plan, first);
      if current.Failure? {
        var none: Observation := *;
        return current, none;
      }
      confirmed := current.value;
      observed := ApplyActions(plan, current.value, current.value);
    }

    // ----- the whole run -----

    /** A step that returned but was never verified only needs a fresh observation. */
    method SettleReturned() returns (observed: Result<Option<Observation>, Stop>)
      requires Valid()
      modifies this`evidence, world`evidence
      ensures world.Sound()
      ensures observed.Success? ==> Valid()
      ensures world.Persisted() == old(evidence) || Concluded(old(evidence), world.Persisted(), Journal.Verified)
      ensures observed.Success? && observed.value.None? ==> evidence == old(evidence)
      ensures observed.Success? && observed.value.Some? ==> Concluded(old(evidence), evidence, Journal.Verified)
      ensures world.quiet && observed.Success? && observed.value.Some? ==>
        C.Observe(world.setting, world.site) == Success(observed.value.value)
    {
      hide Verify, C.Observe;
      var pending := ReturnedSteps(StepsOf(evidence));
      if pending == [] {
        return Success(None);
      }
      var step := pending[|pending| - 1];
      var found := Find(evidence.history.authorizations, step.authorization);
      if found.None? {
        return Failure(Stop.Stop);
      }
      var verified := Verified(found.value.plan.plan, step.action);
      return if verified.Success? then Success(Some(verified.value)) else Failure(Stop.Stop);
    }

    /**
     The applied plan, once a last observation leads to an empty one. `shown` led to
     it, `confirmed` to the rest that was planned after the first gate. In a quiet
     world this is a whole run as `Convergence` defines it.
     */
    method Run() returns (applied: Result<Plan, Stop>, ghost shown: Observation, ghost confirmed: Observation)
      requires Valid()
      modifies this`evidence, world`evidence, world`log, world`site
      ensures world.Sound() && old(world.log) <= world.log
      ensures applied.Success? ==> Valid() && PlanOf(shown, request) == Success(applied.value)
      ensures applied.Success? && IsEmpty(applied.value) ==> world.log == old(world.log)
      ensures applied.Success? && !IsEmpty(applied.value) ==>
        && PlanOf(confirmed, request).Success?
        && (FirstGate(applied.value).None? ==> PlanOf(confirmed, request).value == applied.value)
        && Sent(old(world.log), world.log, GateActions(applied.value, PlanOf(confirmed, request).value))
      ensures Steady() && applied.Success? ==>
        C.Configure(world.setting, old(world.site)) == Success((world.site, applied.value))
    {
      hide PlanOf, IsEmpty, FirstGate, Performed, Sent, C.Observe, C.ApplyActions, C.Configure, ConvergenceLate.Matches,
           Concluded, OnlyImports, ActionsOf, Accounted, IsRecord;
      var anything: Observation := *;
      shown, confirmed := anything, anything;
      var settled := SettleReturned();
      if settled.Failure? {
        return Failure(Stop.Stop), shown, confirmed;
      }
      var observed := Failure(Stop.Stop);
      if settled.value.Some? {
        observed := Success(settled.value.value);
      } else {
        observed := Fresh();
      }
      if observed.Failure? {
        return Failure(Stop.Stop), shown, confirmed;
      }
      shown := observed.value;
      var full := PlanOf(observed.value, request);
      if full.Failure? {
        return Failure(Stop.Stop), shown, confirmed;
      }
      if IsEmpty(full.value) {
        if Steady() {
          EmptyRun(world.setting, world.site, full.value);
        }
        return Success(full.value), shown, confirmed;
      }
      ghost var gate := [];
      NothingPerformed(StepsOf(evidence), world.log);
      PerformedSends(StepsOf(evidence), world.log, StepsOf(evidence), world.log, gate);
      var remaining := full.value;
      ghost var after := observed.value;
      var first := FirstGate(full.value);
      GatesKeepOrder(full.value);
      if first.Some? {
        ghost var steps := StepsOf(evidence);
        var gated, _ := ApplyGate(first.value, true);
        if gated.Failure? {
          return Failure(Stop.Stop), shown, confirmed;
        }
        gate := ActionsOf(first.value);
        PerformedSends(steps, old(world.log), StepsOf(evidence), world.log, gate);
        var next := PlanOf(gated.value, request);
        if next.Failure? {
          return Failure(Stop.Stop), shown, confirmed;
        }
        ImportedPlan(gated.value, request);
        remaining, after := next.value, gated.value;
        if Steady() {
          GateObserved(world.setting, full.value, shown, old(world.site), after, world.site);
        }
      }
      ghost var steps, log, site := StepsOf(evidence), world.log, world.site;
      var done;
      done, confirmed := ApplyGate(remaining, false);
      if done.Failure? {
        return Failure(Stop.Stop), shown, confirmed;
      }
      PerformedSends(steps, log, StepsOf(evidence), world.log, ActionsOf(remaining));
      SentThen(old(world.log), log, world.log, gate, ActionsOf(remaining));
      assert gate + ActionsOf(remaining) == GateActions(full.value, remaining);
      var complete := VerifyComplete();
      if !complete {
        return Failure(Stop.Stop), shown, confirmed;
      }
      if Steady() {
        WholeRun(world.setting, old(world.site), shown, full.value, site, after, remaining, world.site, done.value);
      }
      return Success(full.value), shown, confirmed;
    }

    method VerifyComplete() returns (complete: bool)
      ensures Steady() && complete ==> ConvergenceLate.Matches(world.setting, world.site)
    {
      var final := Fresh();
      if final.Failure? {
        return false;
      }
      var left := PlanOf(final.value, request);
      if left.Failure? || !IsEmpty(left.value) {
        return false;
      }
      complete := world.Proceed();
    }
  }

  /**
   One attempt to configure: it starts only if no step is stuck, and may end at any
   point. If it succeeds in a quiet world, the plan was feasible, and the site needs
   nothing further.
   */
  method Configure(world: World, request: Request, staged: Option<string>, managed: bool)
    returns (applied: Option<Plan>)
    requires world.Sound()
    modifies world`evidence, world`log, world`site
    ensures world.Sound() && old(world.log) <= world.log
    ensures Stuck(StepsOf(old(world.Persisted()))) != [] ==>
      applied.None? && world.log == old(world.log) && world.Persisted() == old(world.Persisted())
    ensures applied.Some? && world.quiet && request == world.setting.request && world.setting.additions.Valid() ==>
      && C.Configure(world.setting, old(world.site)) == Success((world.site, applied.value))
      && ConvergenceRuns.Feasible(world.setting, applied.value, old(world.site))
      && ConvergenceLate.Matches(world.setting, world.site)
  {
    hide C.Configure, ConvergenceRuns.Feasible, ConvergenceLate.Matches, PlanOf;
    if Stuck(StepsOf(world.Persisted())) != [] {
      return None;
    }
    var configurer := new Configurer(world, request, staged, managed);
    var plan, _, _ := configurer.Run();
    if plan.Failure? {
      return None;
    }
    if configurer.Steady() {
      RunIsPlanned(world.setting, old(world.site), plan.value);
      ConvergenceRuns.ConfigurationConverges(world.setting, old(world.site), plan.value);
    }
    return Some(plan.value);
  }

  /** What an operator does: an attempt to configure, or a reassignment between attempts. */
  datatype Session = Attempt(request: Request, staged: Option<string>, managed: bool) | Move(host: Host)

  /** Any number of attempts, each ending anywhere, keep every dispatch that was ever made accounted for. */
  method Sessions(world: World, sessions: seq<Session>)
    requires world.Sound()
    modifies world
    ensures world.Sound() && old(world.log) <= world.log
  {
    for i := 0 to |sessions|
      invariant world.Sound() && old(world.log) <= world.log
    {
      match sessions[i]
      case Attempt(request, staged, managed) => var applied := Configure(world, request, staged, managed);
      case Move(host) => world.Reassign(host);
    }
  }

  /** The newest step became this one, and nothing else changed. */
  predicate NewestBecame(before: Record, after: Record, newest: Step<Action>) {
    before.history.steps != []
    && after == Record(
         History(before.history.authorizations, before.history.steps[..|before.history.steps| - 1] + [newest]),
         before.operations)
  }

  /** The newest step is recorded as refused. */
  ghost predicate TurnedDown(before: Record, after: Record) {
    before.history.steps != []
    && var step := before.history.steps[|before.history.steps| - 1];
       exists at :: NewestBecame(before, after, step.(refusedAt := Some(at)))
  }

  /** The newest step is recorded as verified. */
  ghost predicate FoundSo(before: Record, after: Record) {
    before.history.steps != []
    && var step := before.history.steps[|before.history.steps| - 1];
       exists at :: NewestBecame(before, after, step.(verifiedAt := Some(at)))
  }

  /** The newest step is recorded as completed with the exit code. */
  ghost predicate CameBack(before: Record, after: Record, exitCode: int) {
    before.history.steps != []
    && var step := before.history.steps[|before.history.steps| - 1];
       exists at :: NewestBecame(before, after, step.(completion := Some(Completion(exitCode, at))))
  }

  predicate IsEarly(a: Action) {
    a == MaterializeCheckout || IsImageAction(a)
  }

  /** What the approved gates list: the first gate, if there is one, and then the rest, planned anew after it. */
  function GateActions(full: Plan, rest: Plan): seq<Action> {
    if FirstGate(full).Some? then ActionsOf(FirstGate(full).value) + ActionsOf(rest) else ActionsOf(full)
  }

  lemma GatesKeepOrder(full: Plan)
    ensures var gate := if FirstGate(full).Some? then FirstGate(full).value else full;
            gate.image.replace.Some? ==> !gate.image.imports
    ensures FirstGate(full).Some? ==> OnlyImports(FirstGate(full).value)
  {
  }

  predicate IsLate(a: Action) {
    !IsEarly(a)
  }

  /** The actions that pass, in their order. */
  function Select(actions: seq<Action>, pass: Action -> bool): seq<Action> {
    if actions == [] then []
    else
      var n := |actions| - 1;
      Select(actions[..n], pass) + (if pass(actions[n]) then [actions[n]] else [])
  }

  lemma SelectNext(actions: seq<Action>, i: nat, pass: Action -> bool)
    requires i < |actions|
    ensures Select(actions[..i + 1], pass)
      == if pass(actions[i]) then Select(actions[..i], pass) + [actions[i]] else Select(actions[..i], pass)
  {
    assert actions[..i + 1][..i] == actions[..i];
  }

  lemma {:induction false} SelectConcat(a: seq<Action>, b: seq<Action>, pass: Action -> bool)
    ensures Select(a + b, pass) == Select(a, pass) + Select(b, pass)
  {
    if b == [] {
      assert a + b == a;
    } else {
      var n := |b| - 1;
      assert (a + b)[..|a + b| - 1] == a + b[..n];
      SelectConcat(a, b[..n], pass);
    }
  }

  lemma {:induction false} SelectUniform(actions: seq<Action>, pass: Action -> bool)
    ensures (forall a :: a in actions ==> pass(a)) ==> Select(actions, pass) == actions
    ensures (forall a :: a in actions ==> !pass(a)) ==> Select(actions, pass) == []
  {
    if actions != [] {
      var n := |actions| - 1;
      assert actions == actions[..n] + [actions[n]];
      SelectUniform(actions[..n], pass);
    }
  }

  lemma SelectedParts(cloning: seq<Action>, images: seq<Action>, rest: seq<Action>)
    requires forall a :: a in cloning ==> a == MaterializeCheckout
    requires forall a :: a in images ==> IsImageAction(a)
    requires forall a :: a in rest ==> IsLate(a)
    ensures Select(cloning + images + rest, IsImageAction) == images
    ensures Select(cloning + images + rest, IsLate) == rest
  {
    hide Select;
    SelectConcat(cloning + images, rest, IsImageAction);
    SelectConcat(cloning, images, IsImageAction);
    SelectUniform(cloning, IsImageAction);
    SelectUniform(images, IsImageAction);
    SelectUniform(rest, IsImageAction);
    SelectConcat(cloning + images, rest, IsLate);
    SelectUniform(cloning + images, IsLate);
    SelectUniform(rest, IsLate);
  }

  /** The checkout, then the image actions, then the rest: the order in which a plan lists its actions. */
  lemma GateOrder(plan: Plan)
    ensures ActionsOf(plan)
      == (if plan.checkout.Some? then [MaterializeCheckout] else [])
         + Select(ActionsOf(plan), IsImageAction) + Select(ActionsOf(plan), IsLate)
  {
    hide Select;
    var cloning := if plan.checkout.Some? then [MaterializeCheckout] else [];
    var images := ConvergenceRuns.ImageActions(plan);
    ListedImages(plan);
    C.EarlyThenLate(plan);
    SelectedParts(cloning, images, C.Late(plan));
  }

  lemma ListedImages(plan: Plan)
    ensures C.Early(plan)
         == (if plan.checkout.Some? then [MaterializeCheckout] else []) + ConvergenceRuns.ImageActions(plan)
    ensures forall a :: a in ConvergenceRuns.ImageActions(plan) ==> IsImageAction(a)
  {
    assert C.Early(plan) == If(plan.checkout.Some?, MaterializeCheckout) + ConvergenceRuns.ImageActions(plan) by {
      hide If;
    }
  }

  // ----- a run in a quiet world -----

  /** The local record and the credential files are the same. */
  predicate SameFiles(before: C.Site, after: C.Site) {
    after.pin == before.pin && after.restorePoint == before.restorePoint && after.credentials == before.credentials
  }

  /** A request does not reach the local files. */
  lemma AppliedElsewhere(setting: C.Setting, action: Action, plan: Plan, o: Observation, s: C.Site)
    requires C.Apply(setting, action, plan, o, s).Success?
    ensures SameFiles(s, C.Apply(setting, action, plan, o, s).value)
  {
    hide JudgeInstance;
  }

  /** A clone that was prepared, applied and verified is one that `Convergence` performs. */
  lemma CloneApplied(setting: C.Setting, plan: Plan, o: Observation, s: C.Site, s': C.Site, o': Observation)
    requires plan.checkout.Some?
    requires C.Apply(setting, MaterializeCheckout, plan, o, s.(restorePoint := Some(plan.checkout.value.commit)))
          == Success(s')
    requires C.Observe(setting, s') == Success(o') && Verify(MaterializeCheckout, plan, o', setting.request.inputs)
    ensures C.Perform(setting, MaterializeCheckout, plan, o, s) == Success((s', o'))
  {
    hide C.Apply, C.Observe, Verify;
  }

  /** What was confirmed of the site is so of the site. */
  lemma ConfirmedIsSafe(setting: C.Setting, s: C.Site, plan: Plan, request: Request, confirmed: Observation)
    requires C.Observe(setting, s) == Success(confirmed) && Confirmed(plan, request, confirmed)
    requires plan.image.replace.Some?
    ensures SafeToDelete(s, plan, request)
  {
    hide PlanOf, C.CheckoutOf, IsFingerprint;
    ReplacementIsSafe(confirmed, request);
  }

  /** A clone leaves the images and the instance alone. */
  lemma CloneKeepsImages(setting: C.Setting, plan: Plan, o: Observation, s: C.Site, s': C.Site, o': Observation,
                         request: Request)
    requires C.Perform(setting, MaterializeCheckout, plan, o, s) == Success((s', o'))
    ensures SafeToDelete(s, plan, request) ==> SafeToDelete(s', plan, request)
  {
    hide C.Observe, Verify;
  }

  /** A confirmed plan that deletes an image imports none, so no other image action comes first. */
  lemma DeletionComesFirst(plan: Plan, request: Request, confirmed: Observation, i: nat)
    requires Confirmed(plan, request, confirmed) && i < |ActionsOf(plan)| && ActionsOf(plan)[i] == DeleteImage
    ensures plan.image.replace.Some? && Select(ActionsOf(plan)[..i], IsImageAction) == []
  {
    hide PlanOf, FirstGate, Select, ActionsOf, C.Early, C.Late;
    C.EarlyThenLate(plan);
    FoundInFront(C.Early(plan), C.Late(plan), DeleteImage, i);
    OnlyTheCloneBefore(plan, i);
    SelectUniform(C.Early(plan)[..i], IsImageAction);
  }

  lemma FoundInFront<T>(front: seq<T>, back: seq<T>, x: T, i: nat)
    requires i < |front + back| && (front + back)[i] == x && x !in back
    ensures i < |front| && front[i] == x && (front + back)[..i] == front[..i]
  {
    assert forall k :: |front| <= k < |front + back| ==> (front + back)[k] in back;
  }

  lemma OnlyTheCloneBefore(plan: Plan, i: nat)
    requires plan.image.replace.Some? ==> !plan.image.imports
    requires i < |C.Early(plan)| && C.Early(plan)[i] == DeleteImage
    ensures plan.image.replace.Some? && forall a :: a in C.Early(plan)[..i] ==> a == MaterializeCheckout
  {
  }

  lemma PerformSnoc(setting: C.Setting, actions: seq<Action>, action: Action, plan: Plan, o: Observation, s: C.Site)
    ensures C.PerformAll(setting, actions + [action], plan, o, s) ==
            var front := C.PerformAll(setting, actions, plan, o, s);
            if front.Failure? then front else C.Perform(setting, action, plan, front.value.1, front.value.0)
  {
    PerformConcat(setting, actions, [action], plan, o, s);
    hide C.Perform;
    var front := C.PerformAll(setting, actions, plan, o, s);
    if front.Success? {
      var (s', o') := front.value;
      assert [action][1..] == [];
      assert C.PerformAll(setting, [action], plan, o', s') == C.Perform(setting, action, plan, o', s');
    }
  }

  lemma {:induction false} PerformConcat(setting: C.Setting, a: seq<Action>, b: seq<Action>, plan: Plan, o: Observation,
                                         s: C.Site)
    ensures C.PerformAll(setting, a + b, plan, o, s) ==
            var front := C.PerformAll(setting, a, plan, o, s);
            if front.Failure? then front else C.PerformAll(setting, b, plan, front.value.1, front.value.0)
  {
    hide C.Perform;
    if a == [] {
      assert a + b == b;
    } else {
      assert (a + b)[1..] == a[1..] + b;
      var first := C.Perform(setting, a[0], plan, o, s);
      if first.Success? {
        PerformConcat(setting, a[1..], b, plan, first.value.1, first.value.0);
      }
    }
  }

  /** The checkout, the image actions, the pin and the rest make up a gate. */
  lemma GateApplied(setting: C.Setting, plan: Plan, o: Observation, s: C.Site, o1: Observation, s1: C.Site,
                    o2: Observation, s2: C.Site, o3: Observation, s3: C.Site)
    requires if plan.checkout.Some? then C.Perform(setting, MaterializeCheckout, plan, o, s) == Success((s1, o1))
             else (s1, o1) == (s, o)
    requires C.PerformAll(setting, Select(ActionsOf(plan), IsImageAction), plan, o1, s1) == Success((s2, o2))
    requires C.PerformAll(setting, Select(ActionsOf(plan), IsLate), plan, o2, C.Pinned(plan, s2)) == Success((s3, o3))
    ensures C.ApplyActions(setting, plan, o, s) == Success((s3, o3))
  {
    hide C.Perform, Select, ActionsOf, C.Early, C.Late, C.Pinned;
    var cloning := if plan.checkout.Some? then [MaterializeCheckout] else [];
    SelectedImages(plan);
    PerformConcat(setting, cloning, ConvergenceRuns.ImageActions(plan), plan, o, s);
    if plan.checkout.Some? {
      assert cloning == [] + [MaterializeCheckout];
      PerformSnoc(setting, [], MaterializeCheckout, plan, o, s);
    }
  }

  lemma SelectedImages(plan: Plan)
    ensures C.Early(plan)
         == (if plan.checkout.Some? then [MaterializeCheckout] else []) + ConvergenceRuns.ImageActions(plan)
    ensures Select(ActionsOf(plan), IsImageAction) == ConvergenceRuns.ImageActions(plan)
    ensures Select(ActionsOf(plan), IsLate) == C.Late(plan)
  {
    hide Select;
    ListedImages(plan);
    C.EarlyThenLate(plan);
    SelectedParts(if plan.checkout.Some? then [MaterializeCheckout] else [], ConvergenceRuns.ImageActions(plan),
                  C.Late(plan));
  }

  /** What the first gate ends with is what its site shows. */
  lemma GateObserved(setting: C.Setting, full: Plan, o: Observation, s: C.Site, o1: Observation, s1: C.Site)
    requires setting.additions.Valid() && FirstGate(full).Some?
    requires C.Observe(setting, s) == Success(o) && PlanOf(o, setting.request) == Success(full)
    requires C.ApplyActions(setting, FirstGate(full).value, o, s) == Success((s1, o1))
    ensures C.Observe(setting, s1) == Success(o1)
  {
    hide C.Observe, C.ApplyActions, PlanOf, FirstGate;
    ConvergenceRuns.GateConverges(setting, full, o, s);
    ImportObserved(setting, full, s);
  }

  lemma ImportObserved(setting: C.Setting, full: Plan, s: C.Site)
    requires setting.source.Content? && setting.source.fingerprint == full.fingerprint
    ensures C.Observe(setting, ConvergenceRuns.Imported(setting, full, s)).Success?
  {
  }

  lemma EmptyRun(setting: C.Setting, s: C.Site, full: Plan)
    requires C.Observe(setting, s).Success? && PlanOf(C.Observe(setting, s).value, setting.request) == Success(full)
    requires IsEmpty(full)
    ensures C.Configure(setting, s) == Success((s, full))
  {
    hide C.Observe, PlanOf, IsEmpty, C.ApplyActions;
  }

  lemma WholeRun(setting: C.Setting, s: C.Site, o: Observation, full: Plan, s1: C.Site, o1: Observation, rest: Plan,
                 s2: C.Site, o2: Observation)
    requires C.Observe(setting, s) == Success(o) && PlanOf(o, setting.request) == Success(full) && !IsEmpty(full)
    requires if FirstGate(full).Some? then C.ApplyActions(setting, FirstGate(full).value, o, s) == Success((s1, o1))
             else (s1, o1) == (s, o)
    requires PlanOf(o1, setting.request) == Success(rest)
    requires C.ApplyActions(setting, rest, o1, s1) == Success((s2, o2))
    requires ConvergenceLate.Matches(setting, s2)
    ensures C.Configure(setting, s) == Success((s2, full))
  {
    hide C.Observe, PlanOf, IsEmpty, C.ApplyActions, FirstGate;
  }

  /** A run that succeeds had a plan. */
  lemma RunIsPlanned(setting: C.Setting, s: C.Site, full: Plan)
    requires setting.additions.Valid() && C.Configure(setting, s).Success? && C.Configure(setting, s).value.1 == full
    ensures ConvergenceRuns.Planned(setting, full, s)
  {
    hide C.Observe, PlanOf, IsEmpty, C.ApplyActions, FirstGate;
  }

  /** A plan that imports and, but for the checkout, does nothing else. */
  predicate OnlyImports(plan: Plan) {
    && plan.image == ImagePlan(None, true, false) && !plan.network && !plan.volume && !plan.instance && !plan.deliver
  }

  lemma OnlyImportsActions(plan: Plan)
    ensures OnlyImports(plan) ==>
      var actions := ActionsOf(plan);
      actions != [] && actions[|actions| - 1] == ImportImage && forall a :: a in actions ==> IsEarly(a)
  {
  }

  /** Once the selected image is in the store, no plan imports it. */
  lemma ImportedPlan(o: Observation, request: Request)
    requires PlanOf(o, request).Success? && o.image.Some?
    ensures !PlanOf(o, request).value.image.imports
  {
    hide NetworkFits, VolumeFits, JudgeInstance, IsContainer, IsFingerprint, MatchesCredentials, PlanCredentials,
         PlanCheckout;
  }
}
