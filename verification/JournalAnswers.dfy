/** What the journal accepts, in terms of the fields of its records. */
module JournalAnswers {
  import opened Wrappers
  import opened Journal
  import opened Evidence
  import Planner
  import PlannerAnswers

  // ----- one step -----

  predicate IsOpen<A>(s: Step<A>) {
    s.completion.None? && s.refusedAt.None? && s.verifiedAt.None?
  }

  predicate WasRefused<A>(s: Step<A>) {
    s.refusedAt.Some? && s.refusedAt.value >= s.fencedAt && s.completion.None? && s.verifiedAt.None?
  }

  /** Completed with the exit code, not before its fence. */
  predicate WasCompleted<A>(s: Step<A>, exitCode: int) {
    && s.refusedAt.None? && s.completion.Some? && s.completion.value.exitCode == exitCode
    && s.completion.value.completedAt >= s.fencedAt
  }

  predicate HasFailed<A>(s: Step<A>) {
    exists code :: 1 <= code <= 255 && WasCompleted(s, code) && s.verifiedAt.None?
  }

  predicate HasReturned<A>(s: Step<A>) {
    WasCompleted(s, 0) && s.verifiedAt.None?
  }

  predicate WasVerified<A>(s: Step<A>) {
    WasCompleted(s, 0) && s.verifiedAt.Some? && s.verifiedAt.value >= s.completion.value.completedAt
  }

  /** A valid step is of exactly one of five shapes, and its state names the shape. */
  lemma StepExactly<A>(s: Step<A>)
    ensures StepValid(s) <==> IsOpen(s) || WasRefused(s) || HasFailed(s) || HasReturned(s) || WasVerified(s)
    ensures StepValid(s) ==>
      match StateOf(s)
      case Open => IsOpen(s)
      case Refused => WasRefused(s)
      case Uncertain => HasFailed(s)
      case Returned => HasReturned(s)
      case Verified => WasVerified(s)
    ensures IsOpen(s) ==> StateOf(s) == Open
    ensures WasRefused(s) ==> StateOf(s) == Refused
    ensures HasFailed(s) ==> StateOf(s) == Uncertain
    ensures HasReturned(s) ==> StateOf(s) == Returned
    ensures WasVerified(s) ==> StateOf(s) == Verified
  {
    if StepValid(s) && s.completion.Some? {
      assert WasCompleted(s, s.completion.value.exitCode);
    }
  }

  // ----- one record -----

  /** The step is allowed by an authorization that lists its action and came no later than its fence. */
  ghost predicate IsAuthorized<P, A>(h: History<P, A>, s: Step<A>, actionsOf: P -> seq<A>) {
    exists i :: 0 <= i < |h.authorizations|
                && h.authorizations[i].id == s.authorization && s.action in actionsOf(h.authorizations[i].plan)
                && h.authorizations[i].approvedAt <= s.fencedAt
  }

  lemma {:induction false} FoundExactly<P>(authorizations: seq<Authorization<P>>, id: Id)
    ensures var found := Find(authorizations, id);
            if found.Some? then found.value in authorizations && found.value.id == id
            else forall i :: 0 <= i < |authorizations| ==> authorizations[i].id != id
  {
    if authorizations != [] {
      FoundExactly(authorizations[1..], id);
      assert forall i :: 0 < i < |authorizations| ==> authorizations[i] == authorizations[1..][i - 1];
    }
  }

  lemma AllowsExactly<P, A>(h: History<P, A>, s: Step<A>, actionsOf: P -> seq<A>)
    requires forall i, j :: 0 <= i < j < |h.authorizations| ==> h.authorizations[i].id != h.authorizations[j].id
    ensures Allows(h.authorizations, s, actionsOf) <==> IsAuthorized(h, s, actionsOf)
  {
    FoundExactly(h.authorizations, s.authorization);
    if i :| 0 <= i < |h.authorizations| && h.authorizations[i].id == s.authorization {
      FindDistinct(h.authorizations, i);
    }
  }

  /** A history is valid exactly if its parts are distinct, in order, authorized, and settled but for the last. */
  lemma HistoryExactly<P, A>(h: History<P, A>, actionsOf: P -> seq<A>)
    ensures IsValid(h, actionsOf) <==>
      && (forall i, j :: 0 <= i < j < |h.authorizations| ==> h.authorizations[i].id != h.authorizations[j].id)
      && (forall i, j :: 0 <= i < j < |h.steps| ==> h.steps[i].id != h.steps[j].id)
      && (forall i, j :: 0 <= i < j < |h.steps| ==> h.steps[i].fencedAt <= h.steps[j].fencedAt)
      && (forall i :: 0 <= i < |h.steps| ==> StepValid(h.steps[i]) && IsAuthorized(h, h.steps[i], actionsOf))
      && (forall i :: 0 <= i < |h.steps| - 1 ==> WasRefused(h.steps[i]) || WasVerified(h.steps[i]))
  {
    if forall i, j :: 0 <= i < j < |h.authorizations| ==> h.authorizations[i].id != h.authorizations[j].id {
      forall i | 0 <= i < |h.steps|
        ensures Allows(h.authorizations, h.steps[i], actionsOf) <==> IsAuthorized(h, h.steps[i], actionsOf)
      {
        AllowsExactly(h, h.steps[i], actionsOf);
      }
    }
    forall i | 0 <= i < |h.steps| && StepValid(h.steps[i])
      ensures Settled(h.steps[i]) <==> WasRefused(h.steps[i]) || WasVerified(h.steps[i])
    {
      StepExactly(h.steps[i]);
    }
    hide StepValid, Settled, Allows, IsAuthorized, WasRefused, WasVerified;
    FencesAscend(h.steps);
  }

  lemma FencesAscend<A>(steps: seq<Step<A>>)
    ensures (forall i :: 0 < i < |steps| ==> steps[i - 1].fencedAt <= steps[i].fencedAt) <==>
            (forall i, j :: 0 <= i < j < |steps| ==> steps[i].fencedAt <= steps[j].fencedAt)
  {
    if forall i :: 0 < i < |steps| ==> steps[i - 1].fencedAt <= steps[i].fencedAt {
      forall i, j | 0 <= i < j < |steps| ensures steps[i].fencedAt <= steps[j].fencedAt {
        FencesUpTo(steps, i, j);
      }
    }
  }

  lemma {:induction false} FencesUpTo<A>(steps: seq<Step<A>>, i: nat, j: nat)
    requires forall i :: 0 < i < |steps| ==> steps[i - 1].fencedAt <= steps[i].fencedAt
    requires i <= j < |steps|
    ensures steps[i].fencedAt <= steps[j].fencedAt
  {
    if i < j {
      FencesUpTo(steps, i, j - 1);
    }
  }

  /** A valid history is stuck exactly if its newest step is open or failed, and returned exactly if that step is. */
  lemma StuckExactly<P, A>(h: History<P, A>, actionsOf: P -> seq<A>)
    requires IsValid(h, actionsOf)
    ensures var steps, n := h.steps, |h.steps| - 1;
            && (Stuck(steps) != [] <==> steps != [] && (IsOpen(steps[n]) || HasFailed(steps[n])))
            && (ReturnedSteps(steps) != [] <==> steps != [] && HasReturned(steps[n]))
            && (Stuck(steps) != [] ==> Stuck(steps) == [steps[n]])
            && (ReturnedSteps(steps) != [] ==> ReturnedSteps(steps) == [steps[n]])
  {
    if h.steps != [] {
      OnlyTheLastIsSelected(h, actionsOf);
      StepExactly(h.steps[|h.steps| - 1]);
      hide IsConsistent, StepValid, Stuck, ReturnedSteps, IsOpen, HasFailed, HasReturned;
    }
  }

  predicate UsablePlan(plan: Planner.Plan) {
    var replace := plan.image.replace;
    && PlannerAnswers.IsDigest(plan.fingerprint)
    && (replace.Some? ==> PlannerAnswers.IsDigest(replace.value.fingerprint) && |replace.value.aliases| <= 16)
  }

  ghost predicate IsFenced(r: Record, id: Id) {
    exists k :: 0 <= k < |r.history.steps| && r.history.steps[k].id == id
  }

  lemma PlanExactly(plan: Planner.Plan)
    ensures PlanValid(plan) <==> UsablePlan(plan)
  {
    PlannerAnswers.DigestExactly(plan.fingerprint);
    if plan.image.replace.Some? {
      PlannerAnswers.DigestExactly(plan.image.replace.value.fingerprint);
    }
    hide PlannerAnswers.IsDigest, Planner.IsFingerprint;
  }

  lemma FenceExactly(r: Record, id: Id)
    ensures HasStep(r, id) <==> IsFenced(r, id)
  {
    if IsFenced(r, id) {
      var k :| 0 <= k < |r.history.steps| && r.history.steps[k].id == id;
      assert StepsOf(r)[k].id == id;
    }
    if HasStep(r, id) {
      var k :| 0 <= k < |StepsOf(r)| && StepsOf(r)[k].id == id;
      assert r.history.steps[k].id == id;
    }
  }

  /** The limits of a record, its plans and its operations. */
  lemma RecordExactly(r: Record, hosts: set<Host>)
    ensures IsRecord(r, hosts) <==>
      && |r.history.authorizations| <= 32 && |r.history.steps| <= 64 && |r.operations| <= 64
      && (forall i :: 0 <= i < |r.history.authorizations| ==>
            var approval := r.history.authorizations[i].plan;
            UsablePlan(approval.plan) && approval.host in hosts)
      && (forall i, j :: 0 <= i < j < |r.operations| ==> r.operations[i].step != r.operations[j].step)
      && (forall i :: 0 <= i < |r.operations| ==> IsFenced(r, r.operations[i].step))
      && IsValid(r.history, ApprovedActions)
  {
    forall i | 0 <= i < |r.history.authorizations|
      ensures PlanValid(r.history.authorizations[i].plan.plan) <==> UsablePlan(r.history.authorizations[i].plan.plan)
    {
      PlanExactly(r.history.authorizations[i].plan.plan);
    }
    forall i | 0 <= i < |r.operations|
      ensures HasStep(r, r.operations[i].step) <==> IsFenced(r, r.operations[i].step)
    {
      FenceExactly(r, r.operations[i].step);
    }
    hide IsValid, PlanValid, UsablePlan, HasStep, IsFenced;
  }

  // ----- one write -----

  /** An open step may get any outcome, and one that returned may be verified; nothing else of a step changes. */
  predicate Advances<A(==)>(before: Step<A>, after: Step<A>) {
    || after == before
    || (IsOpen(before)
        && after == Step(before.id, before.authorization, before.action, before.fencedAt, after.completion, after.refusedAt,
                         after.verifiedAt))
    || (HasReturned(before) && WasVerified(after)
        && after == Step(before.id, before.authorization, before.action, before.fencedAt, before.completion, None,
                         after.verifiedAt))
  }

  /** The newest step has advanced, and no other has changed. */
  predicate LastAdvances<A(==)>(before: seq<Step<A>>, after: seq<Step<A>>) {
    if before == [] then after == []
    else
      var n := |before| - 1;
      |after| == n + 1 && before[..n] == after[..n] && Advances(before[n], after[n])
  }

  /**
   Between valid records a write is permitted exactly if it adds one open step, or
   advances the newest one, perhaps with an authorization on top if that settles it.
   */
  lemma WriteExactly<P, A>(before: History<P, A>, after: History<P, A>, actionsOf: P -> seq<A>)
    requires IsValid(before, actionsOf) && IsValid(after, actionsOf)
    ensures IsAppendOnly(before, after) <==>
      || (after.authorizations == before.authorizations && LastAdvances(before.steps, after.steps))
      || (exists step :: after == History(before.authorizations, before.steps + [step]) && IsOpen(step))
      || (exists authorization ::
            && after.authorizations == before.authorizations + [authorization] && LastAdvances(before.steps, after.steps)
            && forall i :: 0 <= i < |after.steps| ==> WasRefused(after.steps[i]) || WasVerified(after.steps[i]))
  {
    WriteRule(before, after, actionsOf);
    assert forall i :: 0 <= i < |before.steps| ==> StepValid(before.steps[i]);
    assert forall i :: 0 <= i < |after.steps| ==> StepValid(after.steps[i]);
    hide IsValid, IsAppendOnly, StepValid;
    ConclusionExactly(before.steps, after.steps);
    SettledExactly(after.steps);
    AdditionExactly(before, after);
    hide StepsConclude, LastAdvances, AllSettled, WasRefused, WasVerified, StateOf, IsOpen;
    var n := |before.authorizations|;
    if |after.authorizations| == n + 1 && before.authorizations <= after.authorizations {
      assert after.authorizations == before.authorizations + [after.authorizations[n]];
    }
  }

  lemma ConclusionExactly<A>(before: seq<Step<A>>, after: seq<Step<A>>)
    requires forall i :: 0 <= i < |before| ==> StepValid(before[i])
    requires forall i :: 0 <= i < |after| ==> StepValid(after[i])
    ensures StepsConclude(before, after) <==> LastAdvances(before, after)
  {
    var n := |before|;
    if n > 0 && |after| == n {
      StepExactly(before[n - 1]);
      StepExactly(after[n - 1]);
    }
  }

  lemma SettledExactly<A>(steps: seq<Step<A>>)
    requires forall i :: 0 <= i < |steps| ==> StepValid(steps[i])
    ensures AllSettled(steps) <==> forall i :: 0 <= i < |steps| ==> WasRefused(steps[i]) || WasVerified(steps[i])
  {
    forall i | 0 <= i < |steps| ensures Settled(steps[i]) <==> WasRefused(steps[i]) || WasVerified(steps[i]) {
      StepExactly(steps[i]);
    }
    hide StepValid, Settled, WasRefused, WasVerified;
  }

  lemma AdditionExactly<P, A>(before: History<P, A>, after: History<P, A>)
    requires forall i :: 0 <= i < |after.steps| ==> StepValid(after.steps[i])
    ensures (exists step :: after == History(before.authorizations, before.steps + [step]) && IsOpen(step)) <==>
      var n := |before.steps|;
      && after.authorizations == before.authorizations && |after.steps| == n + 1 && before.steps <= after.steps
      && StateOf(after.steps[n]) == Open
  {
    var n := |before.steps|;
    if after.authorizations == before.authorizations && |after.steps| == n + 1 && before.steps <= after.steps {
      StepExactly(after.steps[n]);
      assert after.steps == before.steps + [after.steps[n]];
    }
    if step :| after == History(before.authorizations, before.steps + [step]) && IsOpen(step) {
      assert after.steps[n] == step;
    }
  }

  /** An operation is recorded for the newest step while it is open, and a new authorization names the current host. */
  lemma TransitionExactly(before: Record, after: Record, host: Host)
    requires IsValid(after.history, ApprovedActions)
    ensures IsTransition(before, after, host) <==>
      && IsAppendOnly(before.history, after.history)
      && (after.operations == before.operations
          || (exists operation ::
                && after.operations == before.operations + [operation]
                && |after.history.steps| == |before.history.steps| > 0
                && var newest := after.history.steps[|after.history.steps| - 1];
                   operation.step == newest.id && IsOpen(newest)))
      && (|after.history.authorizations| > |before.history.authorizations| ==>
            after.history.authorizations[|before.history.authorizations|].plan.host == host)
  {
    OperationExactly(before, after);
    hide IsValid, OperationRecorded, IsOpen;
    assert IsAppendOnly(before.history, after.history) ==>
      |after.history.authorizations| <= |before.history.authorizations| + 1;
    hide IsAppendOnly;
  }

  lemma OperationExactly(before: Record, after: Record)
    requires IsValid(after.history, ApprovedActions)
    ensures OperationRecorded(before, after) <==>
      || after.operations == before.operations
      || (exists operation ::
            && after.operations == before.operations + [operation]
            && |after.history.steps| == |before.history.steps| > 0
            && var newest := after.history.steps[|after.history.steps| - 1];
               operation.step == newest.id && IsOpen(newest))
  {
    if |after.history.steps| > 0 {
      StepExactly(after.history.steps[|after.history.steps| - 1]);
    }
    hide IsValid, StepValid, IsOpen, StateOf;
    var n := |before.operations|;
    if |after.operations| == n + 1 && before.operations <= after.operations {
      assert after.operations == before.operations + [after.operations[n]];
    }
  }
}
