/** The configuration journal of one installation: its records, its write rule, and what was dispatched under it. */
module Evidence {
  import opened Wrappers
  import opened Installation
  import opened Planner
  import opened Journal
  import C = Convergence

  type Host = nat

  /** The plan an operator approved, for the host assigned at that time. */
  datatype Approval = Approval(plan: Plan, host: Host)

  datatype Operation = Operation(step: Id, id: Id)

  datatype Record = Record(history: History<Approval, Action>, operations: seq<Operation>)

  const BLANK := Record(History([], []), [])

  const MAX_AUTHORIZATIONS := 32
  const MAX_STEPS := 64
  const MAX_OPERATIONS := 64
  const MAX_ALIASES := 16

  function ApprovedActions(a: Approval): seq<Action> {
    ActionsOf(a.plan)
  }

  function StepsOf(r: Record): seq<Step<Action>> {
    r.history.steps
  }

  /** The newest step, with whatever is given replacing what was recorded of its outcome. */
  function Amended(r: Record, completion: Option<Completion>, refusedAt: Option<Instant>, verifiedAt: Option<Instant>)
    : Record
    requires StepsOf(r) != []
  {
    var steps := StepsOf(r);
    var last := steps[|steps| - 1];
    var amended := last.(completion := if completion.Some? then completion else last.completion,
                         refusedAt := if refusedAt.Some? then refusedAt else last.refusedAt,
                         verifiedAt := if verifiedAt.Some? then verifiedAt else last.verifiedAt);
    r.(history := r.history.(steps := steps[..|steps| - 1] + [amended]))
  }

  /** The newest step is in the state; no state if there is no step. */
  predicate NewestIs(r: Record, state: State) {
    StepsOf(r) != [] && StateOf(StepsOf(r)[|StepsOf(r)| - 1]) == state
  }

  /** Everything but the outcome of the newest step is the same. */
  predicate SameButOutcome(before: Record, after: Record) {
    var n := |StepsOf(before)|;
    && n > 0 && |StepsOf(after)| == n && StepsOf(after)[..n - 1] == StepsOf(before)[..n - 1]
    && SameFence(StepsOf(before)[n - 1], StepsOf(after)[n - 1])
    && after.history.authorizations == before.history.authorizations && after.operations == before.operations
  }

  /** The newest step came to an end in the state, and nothing else changed. */
  predicate Concluded(before: Record, after: Record, state: State) {
    SameButOutcome(before, after) && NewestIs(after, state)
  }

  /** One more step, for the action. */
  predicate AddsStep(before: seq<Step<Action>>, after: seq<Step<Action>>, action: Action) {
    |after| == |before| + 1 && before <= after && after[|before|].action == action
  }

  predicate PlanValid(plan: Plan) {
    && IsFingerprint(plan.fingerprint)
    && (plan.image.replace.Some? ==>
          IsFingerprint(plan.image.replace.value.fingerprint) && |plan.image.replace.value.aliases| <= MAX_ALIASES)
  }

  predicate HasStep(r: Record, id: Id) {
    exists k :: 0 <= k < |StepsOf(r)| && StepsOf(r)[k].id == id
  }

  /** What a read and a write demand of a record; `hosts` are the current and the earlier hosts. */
  predicate IsRecord(r: Record, hosts: set<Host>) {
    var authorizations := r.history.authorizations;
    && |authorizations| <= MAX_AUTHORIZATIONS && |StepsOf(r)| <= MAX_STEPS && |r.operations| <= MAX_OPERATIONS
    && (forall i :: 0 <= i < |authorizations| ==>
          PlanValid(authorizations[i].plan.plan) && authorizations[i].plan.host in hosts)
    && (forall i, j :: 0 <= i < j < |r.operations| ==> r.operations[i].step != r.operations[j].step)
    && (forall i :: 0 <= i < |r.operations| ==> HasStep(r, r.operations[i].step))
    && IsValid(r.history, ApprovedActions)
  }

  /** An operation is recorded once, for the newest step, while it is open. */
  predicate OperationRecorded(before: Record, after: Record) {
    var n := |before.operations|;
    if |after.operations| == n then after.operations == before.operations
    else
      && |after.operations| == n + 1 && before.operations <= after.operations
      && |StepsOf(after)| == |StepsOf(before)| > 0
      && var step := StepsOf(after)[|StepsOf(after)| - 1];
         after.operations[n].step == step.id && StateOf(step) == Open
  }

  predicate IsTransition(before: Record, after: Record, host: Host) {
    && IsAppendOnly(before.history, after.history)
    && OperationRecorded(before, after)
    && forall i :: |before.history.authorizations| <= i < |after.history.authorizations| ==>
         after.history.authorizations[i].plan.host == host
  }

  // ----- dispatches -----

  /**
   One request or remote script: the action, the record persisted when it was
   dispatched, the plan and request it was built from, the observation that
   confirmed the approval of that plan, whether it was applied, and the site before
   and after it if nobody else changes it.
   */
  datatype Dispatch = Dispatch(
    action: Action, record: Record, plan: Plan, request: Request, confirmed: Observation, site: Option<C.Site>,
    applied: bool, left: Option<C.Site>)

  /** The plan is what the confirming observation leads to, or its first gate, and replaces nothing before an import. */
  ghost predicate Confirmed(plan: Plan, request: Request, o: Observation) {
    && PlanOf(o, request).Success?
    && (plan == PlanOf(o, request).value || FirstGate(PlanOf(o, request).value) == Some(plan))
    && (plan.image.replace.Some? ==> !plan.image.imports)
  }

  /** The newest step is open, and is the fence of exactly this action under this plan. */
  ghost predicate OpenFence(r: Record, action: Action, plan: Plan) {
    var steps := StepsOf(r);
    && |steps| > 0
    && var step := steps[|steps| - 1];
       var authorization := Find(r.history.authorizations, step.authorization);
       && StateOf(step) == Open && step.action == action
       && authorization.Some? && authorization.value.plan.plan == plan
  }

  /** The site holds the selected image, which fits, and no instance that is based on another one. */
  ghost predicate SafeToDelete(site: C.Site, plan: Plan, request: Request) {
    && plan.image.replace.Some? && plan.image.replace.value.fingerprint != plan.fingerprint
    && IsFingerprint(plan.fingerprint) && plan.fingerprint in site.images
    && site.images[plan.fingerprint] == C.StoredImage(request.inputs.architecture, CONTAINER)
    && (site.instance.Some? ==> BaseImage(site.instance.value.config) == plan.fingerprint)
  }

  ghost predicate Fenced(d: Dispatch) {
    && (d.action == DeleteImage && d.site.Some? ==> SafeToDelete(d.site.value, d.plan, d.request))
    && IsValid(d.record.history, ApprovedActions)
    && OpenFence(d.record, d.action, d.plan)
    && Confirmed(d.plan, d.request, d.confirmed)
    && (!d.applied ==> d.left == d.site)
  }

  /** What the record says of each dispatch is so: one that was refused had no effect, one that returned had its own. */
  ghost predicate Truthful(log: seq<Dispatch>, r: Record) {
    forall i :: 0 <= i < |log| && 0 < |StepsOf(log[i].record)| <= |StepsOf(r)| ==>
      var step := StepsOf(r)[|StepsOf(log[i].record)| - 1];
      && (step.refusedAt.Some? ==> !log[i].applied)
      && (step.completion.Some? && step.completion.value.exitCode == 0 ==> log[i].applied)
  }

  /** Whatever was dispatched for the newest step was applied, or was not. */
  ghost predicate NewestApplied(log: seq<Dispatch>, r: Record, applied: bool) {
    forall i :: 0 <= i < |log| && |StepsOf(log[i].record)| == |StepsOf(r)| ==> log[i].applied == applied
  }

  /** Each dispatch was fenced, the record only grew since, and each had a newer step than the one before. */
  ghost predicate Accounted(log: seq<Dispatch>, r: Record) {
    && (forall i :: 0 <= i < |log| ==> Fenced(log[i]) && Extends(log[i].record.history, r.history))
    && (forall i, j :: 0 <= i < j < |log| ==> |StepsOf(log[i].record)| < |StepsOf(log[j].record)|)
  }

  /** The newest step has not been dispatched. */
  ghost predicate Undispatched(log: seq<Dispatch>, r: Record) {
    forall i :: 0 <= i < |log| ==> |StepsOf(log[i].record)| < |StepsOf(r)|
  }

  /** Exactly these actions were dispatched, in this order. */
  ghost predicate Sent(log: seq<Dispatch>, after: seq<Dispatch>, actions: seq<Action>) {
    && |after| == |log| + |actions| && log <= after
    && forall k :: 0 <= k < |actions| ==> after[|log| + k].action == actions[k]
  }

  /** Exactly these actions were dispatched, in this order, one step each, and every one ended up verified. */
  ghost predicate Performed(steps: seq<Step<Action>>, log: seq<Dispatch>, after: seq<Step<Action>>,
                            logAfter: seq<Dispatch>, actions: seq<Action>) {
    && Sent(log, logAfter, actions)
    && |after| == |steps| + |actions| && steps <= after
    && forall k :: 0 <= k < |actions| ==>
         after[|steps| + k].action == actions[k] && StateOf(after[|steps| + k]) == Verified
  }

  // ----- lemmas -----

  lemma SentThen(l0: seq<Dispatch>, l1: seq<Dispatch>, l2: seq<Dispatch>, first: seq<Action>, second: seq<Action>)
    requires Sent(l0, l1, first) && Sent(l1, l2, second)
    ensures Sent(l0, l2, first + second)
  {
    forall k | 0 <= k < |first + second| ensures l2[|l0| + k].action == (first + second)[k] {
      if k < |first| {
        assert l2[|l0| + k] == l1[|l0| + k];
      } else {
        var j := k - |first|;
        assert l2[|l1| + j].action == second[j];
      }
    }
  }

  lemma PerformedThen(s0: seq<Step<Action>>, l0: seq<Dispatch>, s1: seq<Step<Action>>, l1: seq<Dispatch>,
                      s2: seq<Step<Action>>, l2: seq<Dispatch>, first: seq<Action>, second: seq<Action>)
    requires Performed(s0, l0, s1, l1, first) && Performed(s1, l1, s2, l2, second)
    ensures Performed(s0, l0, s2, l2, first + second)
  {
    SentThen(l0, l1, l2, first, second);
    hide Sent, StateOf;
    var actions := first + second;
    assert s0 <= s1 <= s2;
    forall j | |s0| <= j < |s2| ensures s2[j].action == actions[j - |s0|] && StateOf(s2[j]) == Verified {
      if j < |s1| {
        var k := j - |s0|;
        assert s2[j] == s1[j] && s1[|s0| + k] == s1[j];
      } else {
        var k := j - |s1|;
        assert s2[|s1| + k] == s2[j];
      }
    }
  }

  lemma PerformedSends(steps: seq<Step<Action>>, log: seq<Dispatch>, after: seq<Step<Action>>,
                       logAfter: seq<Dispatch>, actions: seq<Action>)
    requires Performed(steps, log, after, logAfter, actions)
    ensures Sent(log, logAfter, actions)
  {
  }

  lemma NothingPerformed(steps: seq<Step<Action>>, log: seq<Dispatch>)
    ensures Performed(steps, log, steps, log, [])
  {
  }

  lemma OneStepPerformed(steps: seq<Step<Action>>, log: seq<Dispatch>, after: Record, d: Dispatch)
    requires AddsStep(steps, StepsOf(after), d.action) && NewestIs(after, Verified)
    ensures Performed(steps, log, StepsOf(after), log + [d], [d.action])
  {
  }

  lemma {:induction false} FindDistinct<P>(authorizations: seq<Authorization<P>>, k: nat)
    requires k < |authorizations|
    requires forall i, j :: 0 <= i < j < |authorizations| ==> authorizations[i].id != authorizations[j].id
    ensures Find(authorizations, authorizations[k].id) == Some(authorizations[k])
  {
    if k > 0 {
      assert authorizations[1..][k - 1] == authorizations[k];
      FindDistinct(authorizations[1..], k - 1);
    }
  }

  lemma {:induction false} FindPrefix<P>(before: seq<Authorization<P>>, after: seq<Authorization<P>>, id: Id)
    requires before <= after && Find(before, id).Some?
    ensures Find(after, id) == Find(before, id)
  {
    if before[0].id != id {
      assert before[1..] <= after[1..];
      FindPrefix(before[1..], after[1..], id);
    }
  }

  lemma NewestIsValid(r: Record, hosts: set<Host>)
    requires IsRecord(r, hosts) && StepsOf(r) != []
    ensures StepValid(StepsOf(r)[|StepsOf(r)| - 1])
  {
  }

  lemma AmendedKeeps(r: Record, completion: Option<Completion>, refusedAt: Option<Instant>,
                     verifiedAt: Option<Instant>)
    requires StepsOf(r) != []
    ensures SameButOutcome(r, Amended(r, completion, refusedAt, verifiedAt))
  {
  }

  lemma OutcomeKeepsAddition(steps: seq<Step<Action>>, before: Record, after: Record, action: Action)
    requires AddsStep(steps, StepsOf(before), action) && SameButOutcome(before, after)
    ensures AddsStep(steps, StepsOf(after), action)
  {
    assert steps == StepsOf(before)[..|steps|];
  }

  lemma RecordIsValid(r: Record, hosts: set<Host>)
    requires IsRecord(r, hosts)
    ensures IsValid(r.history, ApprovedActions)
  {
  }

  lemma MoreHosts(r: Record, hosts: set<Host>, more: set<Host>)
    requires IsRecord(r, hosts) && hosts <= more
    ensures IsRecord(r, more)
  {
    hide IsValid, PlanValid;
  }

  /** A permitted write keeps every dispatch accounted for. */
  lemma TransitionAccounted(log: seq<Dispatch>, before: Record, after: Record, hosts: set<Host>, host: Host)
    requires Accounted(log, before) && IsValid(before.history, ApprovedActions) && IsRecord(after, hosts)
    requires IsTransition(before, after, host)
    ensures Accounted(log, after)
    ensures Undispatched(log, before) ==> Undispatched(log, after)
    ensures |StepsOf(after)| == |StepsOf(before)| + 1 ==> Undispatched(log, after)
  {
    hide Fenced, IsAppendOnly, IsValid, Extends;
    WriteExtends(before.history, after.history, ApprovedActions);
    forall i | 0 <= i < |log| ensures Extends(log[i].record.history, after.history) {
      ExtendsTransitive(log[i].record.history, before.history, after.history);
    }
    ExtendsLength(before.history, after.history);
    forall i | 0 <= i < |log| ensures |StepsOf(log[i].record)| <= |StepsOf(before)| {
      ExtendsLength(log[i].record.history, before.history);
    }
  }

  lemma ExtendsLength<P, A>(before: History<P, A>, after: History<P, A>)
    requires Extends(before, after)
    ensures |before.steps| <= |after.steps|
  {
  }

  /** A dispatch under an undispatched open fence is accounted for. */
  lemma DispatchAccounted(log: seq<Dispatch>, d: Dispatch)
    requires Accounted(log, d.record) && Fenced(d) && Undispatched(log, d.record)
    ensures Accounted(log + [d], d.record)
  {
    hide Fenced, Extends;
    ExtendsItself(d.record.history);
  }

  /** A record in which no outcome changed is as truthful as before. */
  lemma SameOutcomesTruthful(log: seq<Dispatch>, before: Record, after: Record)
    requires Accounted(log, before) && Truthful(log, before)
    requires |StepsOf(before)| <= |StepsOf(after)|
    requires forall k :: 0 <= k < |StepsOf(before)| ==>
      && StepsOf(after)[k].refusedAt == StepsOf(before)[k].refusedAt
      && StepsOf(after)[k].completion == StepsOf(before)[k].completion
    ensures Truthful(log, after)
  {
    hide Fenced;
    forall i | 0 <= i < |log| ensures |StepsOf(log[i].record)| <= |StepsOf(before)| {
      ExtendsLength(log[i].record.history, before.history);
    }
  }

  /** An amendment that says of the newest step what is so keeps the record truthful. */
  lemma AmendedTruthful(log: seq<Dispatch>, r: Record, completion: Option<Completion>, refusedAt: Option<Instant>,
                        verifiedAt: Option<Instant>)
    requires Accounted(log, r) && Truthful(log, r) && StepsOf(r) != []
    requires refusedAt.Some? ==> NewestApplied(log, r, false)
    requires completion.Some? && completion.value.exitCode == 0 ==> NewestApplied(log, r, true)
    ensures Truthful(log, Amended(r, completion, refusedAt, verifiedAt))
  {
    hide Accounted;
    var after, n := Amended(r, completion, refusedAt, verifiedAt), |StepsOf(r)|;
    assert forall k :: 0 <= k < n - 1 ==> StepsOf(after)[k] == StepsOf(r)[k];
  }

  /** A dispatch under an open fence says nothing yet. */
  lemma DispatchTruthful(log: seq<Dispatch>, d: Dispatch)
    requires Truthful(log, d.record) && Undispatched(log, d.record) && NewestIs(d.record, Open)
    ensures Truthful(log + [d], d.record) && NewestApplied(log + [d], d.record, d.applied)
  {
  }

  lemma UndispatchedNewest(log: seq<Dispatch>, r: Record)
    requires Undispatched(log, r)
    ensures NewestApplied(log, r, false)
  {
  }

  lemma NewestSame(log: seq<Dispatch>, before: Record, after: Record, applied: bool)
    requires NewestApplied(log, before, applied) && StepsOf(after) == StepsOf(before)
    ensures NewestApplied(log, after, applied)
  {
  }

  // ----- what an accounted log means -----

  /** A step that is recorded as refused left the site as it was; one that returned was applied. */
  lemma OutcomesAreSo(log: seq<Dispatch>, r: Record, i: nat)
    requires Accounted(log, r) && Truthful(log, r) && i < |log|
    ensures var k := |StepsOf(log[i].record)| - 1;
            && 0 <= k < |StepsOf(r)|
            && (StepsOf(r)[k].refusedAt.Some? ==> !log[i].applied && log[i].left == log[i].site)
            && (StepsOf(r)[k].completion.Some? && StepsOf(r)[k].completion.value.exitCode == 0 ==> log[i].applied)
  {
    DispatchesAreFenced(log, r, i);
    hide Confirmed, IsValid;
    assert Fenced(log[i]);
    ExtendsLength(log[i].record.history, r.history);
  }

  /**
   Every dispatch ran under exactly one persisted open step, whose authorization
   lists the action, while every earlier step was settled.
   */
  lemma DispatchesAreFenced(log: seq<Dispatch>, r: Record, i: nat)
    requires Accounted(log, r) && i < |log|
    ensures var steps := StepsOf(log[i].record);
            && |steps| > 0 && StateOf(steps[|steps| - 1]) == Open && steps[|steps| - 1].action == log[i].action
            && (forall k :: 0 <= k < |steps| - 1 ==> Settled(steps[k]))
            && var authorization := Find(log[i].record.history.authorizations, steps[|steps| - 1].authorization);
               authorization.Some? && log[i].action in ActionsOf(authorization.value.plan.plan)
  {
    assert Fenced(log[i]);
    var steps := StepsOf(log[i].record);
    assert Allows(log[i].record.history.authorizations, steps[|steps| - 1], ApprovedActions);
  }

  /**
   The retained record still shows every dispatch: the step is in the same place,
   and its authorization is the one it was dispatched under and lists the action.
   */
  lemma DispatchesAreRetained(log: seq<Dispatch>, r: Record, i: nat)
    requires Accounted(log, r) && i < |log|
    ensures var k := |StepsOf(log[i].record)| - 1;
            && 0 <= k < |StepsOf(r)| && SameFence(StepsOf(log[i].record)[k], StepsOf(r)[k])
            && StepsOf(r)[k].action == log[i].action
            && var authorization := Find(r.history.authorizations, StepsOf(r)[k].authorization);
               && authorization.Some? && authorization.value.plan.plan == log[i].plan
               && log[i].action in ActionsOf(log[i].plan)
  {
    DispatchesAreFenced(log, r, i);
    hide Confirmed, Allows, StepValid, ActionsOf;
    assert Fenced(log[i]) && Extends(log[i].record.history, r.history);
    var steps := StepsOf(log[i].record);
    FindPrefix(log[i].record.history.authorizations, r.history.authorizations, steps[|steps| - 1].authorization);
  }

  /** No step is ever dispatched twice. */
  lemma DispatchedOnce(log: seq<Dispatch>, r: Record, i: nat, j: nat)
    requires Accounted(log, r) && IsValid(r.history, ApprovedActions) && i < j < |log|
    ensures var a, b := StepsOf(log[i].record), StepsOf(log[j].record);
            |a| > 0 && |b| > 0 && a[|a| - 1].id != b[|b| - 1].id
  {
    hide Confirmed, Allows, StepValid;
    var a, b := StepsOf(log[i].record), StepsOf(log[j].record);
    assert Fenced(log[i]) && Fenced(log[j]);
    assert SameFence(a[|a| - 1], StepsOf(r)[|a| - 1]);
    assert SameFence(b[|b| - 1], StepsOf(r)[|b| - 1]);
  }

  /**
   An image is deleted only under a plan whose confirming observation found the
   selected image in the store and fitting, found the deleted one to be another,
   and found no instance based on it. If nobody else changes the site, this is so of
   the site itself when the deletion is dispatched.
   */
  lemma DeletionsAreSafe(log: seq<Dispatch>, r: Record, i: nat)
    requires Accounted(log, r) && i < |log| && log[i].action == DeleteImage
    ensures var o, plan := log[i].confirmed, log[i].plan;
            && plan.image.replace.Some? && !plan.image.imports
            && var deleted := plan.image.replace.value.fingerprint;
               && deleted != o.fingerprint
               && o.image.Some? && IsContainer(o.image.value, o.fingerprint, log[i].request.inputs.architecture)
               && (o.instance.Some? ==> BaseImage(o.instance.value.config) == o.fingerprint)
               && (log[i].site.Some? ==> SafeToDelete(log[i].site.value, plan, log[i].request))
  {
    DispatchesAreFenced(log, r, i);
    assert Fenced(log[i]);
    var o, plan := log[i].confirmed, log[i].plan;
    DeletionIsApproved(plan);
    assert plan == PlanOf(o, log[i].request).value;
    ReplacementIsSafe(o, log[i].request);
  }

  lemma DeletionIsApproved(plan: Plan)
    requires DeleteImage in ActionsOf(plan)
    ensures plan.image.replace.Some?
  {
  }
}
