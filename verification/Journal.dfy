/**
 Append-only journals of fenced steps: the rules for one record, the rule for one
 write, and what any chain of accepted writes preserves. Canonical timestamps
 order like the instants they name, so instants stand for them.
 */
module Journal {
  import opened Wrappers

  type Id = string
  type Instant = int

  datatype Completion = Completion(exitCode: int, completedAt: Instant)

  datatype Step<A> = Step(
    id: Id, authorization: Id, action: A, fencedAt: Instant, completion: Option<Completion>, refusedAt: Option<Instant>,
    verifiedAt: Option<Instant>)

  datatype Authorization<P> = Authorization(id: Id, approvedAt: Instant, plan: P)

  datatype History<P, A> = History(authorizations: seq<Authorization<P>>, steps: seq<Step<A>>)

  datatype State = Open | Uncertain | Returned | Refused | Verified

  // ----- one step -----

  /** The schema rules that span several fields of a step. */
  predicate StepValid<A>(s: Step<A>) {
    && (s.completion.Some? ==> 0 <= s.completion.value.exitCode <= 255)
    && (s.refusedAt.None? || s.completion.None?)
    && (s.verifiedAt.Some? ==> s.completion.Some? && s.completion.value.exitCode == 0)
    && (s.completion.Some? ==> s.completion.value.completedAt >= s.fencedAt)
    && (s.refusedAt.Some? ==> s.refusedAt.value >= s.fencedAt)
    && (s.verifiedAt.Some? ==> s.verifiedAt.value >= s.completion.value.completedAt)
  }

  function StateOf<A>(s: Step<A>): State {
    if s.refusedAt.Some? then Refused
    else if s.completion.None? then Open
    else if s.completion.value.exitCode != 0 then Uncertain
    else if s.verifiedAt.None? then Returned
    else Verified
  }

  predicate Settled<A>(s: Step<A>) {
    StateOf(s) == Refused || StateOf(s) == Verified
  }

  predicate IsStuck<A>(s: Step<A>) {
    StateOf(s) == Open || StateOf(s) == Uncertain
  }

  /** The steps that only an operator can resolve. */
  function Stuck<A>(steps: seq<Step<A>>): seq<Step<A>> {
    if steps == [] then []
    else (if IsStuck(steps[0]) then [steps[0]] else []) + Stuck(steps[1..])
  }

  /** The steps that a fresh observation may still verify. */
  function ReturnedSteps<A>(steps: seq<Step<A>>): seq<Step<A>> {
    if steps == [] then []
    else (if StateOf(steps[0]) == Returned then [steps[0]] else []) + ReturnedSteps(steps[1..])
  }

  predicate Progressed<A(==)>(before: Step<A>, after: Step<A>) {
    && before.id == after.id && before.authorization == after.authorization && before.action == after.action
    && before.fencedAt == after.fencedAt
    && (before.completion.None? || before.completion == after.completion)
    && (before.refusedAt.None? || before.refusedAt == after.refusedAt)
    && (before.verifiedAt.None? || before.verifiedAt == after.verifiedAt)
  }

  // ----- one record -----

  /** The first authorization with the ID. */
  function Find<P>(authorizations: seq<Authorization<P>>, id: Id): Option<Authorization<P>> {
    if authorizations == [] then None
    else if authorizations[0].id == id then Some(authorizations[0])
    else Find(authorizations[1..], id)
  }

  predicate Allows<P, A(==)>(authorizations: seq<Authorization<P>>, s: Step<A>, actionsOf: P -> seq<A>) {
    var authorization := Find(authorizations, s.authorization);
    && authorization.Some?
    && s.action in actionsOf(authorization.value.plan)
    && s.fencedAt >= authorization.value.approvedAt
  }

  predicate IsConsistent<P, A(==)>(h: History<P, A>, actionsOf: P -> seq<A>) {
    && (forall i, j :: 0 <= i < j < |h.authorizations| ==> h.authorizations[i].id != h.authorizations[j].id)
    && (forall i, j :: 0 <= i < j < |h.steps| ==> h.steps[i].id != h.steps[j].id)
    && (forall i :: 0 <= i < |h.steps| - 1 ==> Settled(h.steps[i]))
    && (forall i :: 0 <= i < |h.steps| ==> Allows(h.authorizations, h.steps[i], actionsOf))
    && (forall i :: 0 < i < |h.steps| ==> h.steps[i - 1].fencedAt <= h.steps[i].fencedAt)
  }

  /** A record that a read accepts. */
  predicate IsValid<P, A(==)>(h: History<P, A>, actionsOf: P -> seq<A>) {
    (forall i :: 0 <= i < |h.steps| ==> StepValid(h.steps[i])) && IsConsistent(h, actionsOf)
  }

  lemma {:induction false} NoneSelected<A>(steps: seq<Step<A>>)
    requires forall i :: 0 <= i < |steps| ==> Settled(steps[i])
    ensures Stuck(steps) == [] && ReturnedSteps(steps) == []
  {
    if steps != [] {
      assert Settled(steps[0]);
      NoneSelected(steps[1..]);
    }
  }

  lemma {:induction false} SelectAppend<A>(front: seq<Step<A>>, last: Step<A>)
    ensures Stuck(front + [last]) == Stuck(front) + Stuck([last])
    ensures ReturnedSteps(front + [last]) == ReturnedSteps(front) + ReturnedSteps([last])
  {
    var all := front + [last];
    if front == [] {
      assert all == [last];
    } else {
      SelectAppend(front[1..], last);
      assert all[1..] == front[1..] + [last];
    }
  }

  /** In a consistent record only the last step can be stuck or returned, so nothing else is selected. */
  lemma OnlyTheLastIsSelected<P, A>(h: History<P, A>, actionsOf: P -> seq<A>)
    requires IsConsistent(h, actionsOf) && h.steps != []
    ensures var last := h.steps[|h.steps| - 1];
            && Stuck(h.steps) == (if IsStuck(last) then [last] else [])
            && ReturnedSteps(h.steps) == (if StateOf(last) == Returned then [last] else [])
            && (Stuck(h.steps) == [] && ReturnedSteps(h.steps) == [] <==> AllSettled(h.steps))
  {
    var n := |h.steps| - 1;
    var front, last := h.steps[..n], h.steps[n];
    assert h.steps == front + [last];
    assert forall i :: 0 <= i < n ==> front[i] == h.steps[i];
    NoneSelected(front);
    SelectAppend(front, last);
    assert Stuck([last][1..]) == [] && ReturnedSteps([last][1..]) == [];
  }

  // ----- one write -----

  predicate AllSettled<A>(steps: seq<Step<A>>) {
    forall i :: 0 <= i < |steps| ==> Settled(steps[i])
  }

  /** The write rule. */
  predicate IsAppendOnly<P(==), A(==)>(before: History<P, A>, after: History<P, A>) {
    var authorized := |after.authorizations| - |before.authorizations|;
    var fenced := |after.steps| - |before.steps|;
    if authorized < 0 || authorized > 1 || fenced < 0 || fenced > 1 || (authorized == 1 && fenced == 1)
       || !(before.authorizations <= after.authorizations) then false
    else if authorized == 1 && !AllSettled(after.steps) then false
    else if fenced == 1 then before.steps <= after.steps && StateOf(after.steps[|after.steps| - 1]) == Open
    else if before.steps == [] then true
    else
      && before.steps[..|before.steps| - 1] <= after.steps
      && Progressed(before.steps[|before.steps| - 1], after.steps[|after.steps| - 1])
  }

  // ----- what one write can be -----

  /** How the outcome of one step may change. */
  predicate Concludes<A(==)>(before: Step<A>, after: Step<A>) {
    || after == before
    || (StateOf(before) == Open
        && after == before.(completion := after.completion, refusedAt := after.refusedAt, verifiedAt := after.verifiedAt))
    || (StateOf(before) == Returned && StateOf(after) == Verified && after == before.(verifiedAt := after.verifiedAt))
  }

  /** At most the last step concluded. */
  predicate StepsConclude<A(==)>(before: seq<Step<A>>, after: seq<Step<A>>) {
    var n := |before|;
    && |after| == n
    && (n > 0 ==> before[..n - 1] == after[..n - 1] && Concludes(before[n - 1], after[n - 1]))
  }

  /**
   One new open step; or at most one conclusion of the last step, which may come
   with one new authorization if it leaves every step settled.
   */
  predicate Writes<P(==), A(==)>(before: History<P, A>, after: History<P, A>) {
    var n := |before.steps|;
    || (after.authorizations == before.authorizations
        && |after.steps| == n + 1 && before.steps <= after.steps && StateOf(after.steps[n]) == Open)
    || (after.authorizations == before.authorizations && StepsConclude(before.steps, after.steps))
    || (|after.authorizations| == |before.authorizations| + 1 && before.authorizations <= after.authorizations
        && StepsConclude(before.steps, after.steps) && AllSettled(after.steps))
  }

  /** A valid settled step never progresses to another one, and a valid returned one only to verified. */
  lemma ProgressIsConclusion<A>(before: Step<A>, after: Step<A>)
    requires StepValid(before) && StepValid(after)
    ensures Progressed(before, after) <==> Concludes(before, after)
  {
  }

  /** Between valid records, the write rule permits exactly those writes. */
  lemma WriteRule<P, A>(before: History<P, A>, after: History<P, A>, actionsOf: P -> seq<A>)
    requires IsValid(before, actionsOf) && IsValid(after, actionsOf)
    ensures IsAppendOnly(before, after) <==> Writes(before, after)
  {
    var n := |before.steps|;
    hide Allows, StepValid, StateOf, Progressed, Concludes, Settled;
    if n > 0 && |after.steps| == n {
      ProgressIsConclusion(before.steps[n - 1], after.steps[n - 1]);
      assert before.steps[..n - 1] <= after.steps <==> before.steps[..n - 1] == after.steps[..n - 1];
    }
    if before.authorizations <= after.authorizations && |after.authorizations| == |before.authorizations| {
      assert before.authorizations == after.authorizations;
    }
  }

  /** One write may verify the last step and add an authorization as well. */
  lemma WriteMayDoBoth() returns (before: History<int, int>, after: History<int, int>)
    ensures var actionsOf := (plan: int) => [plan];
            && IsValid(before, actionsOf) && IsValid(after, actionsOf) && IsAppendOnly(before, after)
            && |before.steps| == 1 && StateOf(before.steps[0]) == Returned
            && |after.steps| == 1 && StateOf(after.steps[0]) == Verified
            && |after.authorizations| == |before.authorizations| + 1
  {
    var first, second := Authorization("first", 0, 7), Authorization("second", 3, 7);
    var returned := Step("step", "first", 7, 1, Some(Completion(0, 2)), None, None);
    before := History([first], [returned]);
    after := History([first, second], [returned.(verifiedAt := Some(3))]);
    assert [first] <= [first, second];
  }

  // ----- chains of writes -----

  /** Every record is valid, and each write is accepted. */
  ghost predicate Chain<P, A>(hs: seq<History<P, A>>, actionsOf: P -> seq<A>) {
    && (forall i :: 0 <= i < |hs| ==> IsValid(hs[i], actionsOf))
    && (forall i :: 0 < i < |hs| ==> IsAppendOnly(hs[i - 1], hs[i]))
  }

  /** What a later record owes to an earlier one. */
  ghost predicate Extends<P, A>(before: History<P, A>, after: History<P, A>) {
    && before.authorizations <= after.authorizations
    && |before.steps| <= |after.steps|
    && (forall k :: 0 <= k < |before.steps| ==>
          && SameFence(before.steps[k], after.steps[k])
          && (Settled(before.steps[k]) ==> after.steps[k] == before.steps[k])
          && (StateOf(before.steps[k]) == Returned ==>
                after.steps[k] == before.steps[k]
                || (StateOf(after.steps[k]) == Verified
                    && after.steps[k] == before.steps[k].(verifiedAt := after.steps[k].verifiedAt))))
    && ((exists k :: 0 <= k < |before.steps| && StateOf(before.steps[k]) == Uncertain) ==> after == before)
  }

  /** The two describe the same fence: who it was authorized by, for what, and when. */
  predicate SameFence<A(==)>(s: Step<A>, t: Step<A>) {
    s.id == t.id && s.authorization == t.authorization && s.action == t.action && s.fencedAt == t.fencedAt
  }

  lemma ConclusionExtends<A>(before: Step<A>, after: Step<A>)
    requires StepValid(before) && StepValid(after) && Concludes(before, after)
    ensures SameFence(before, after)
    ensures Settled(before) ==> after == before
    ensures StateOf(before) == Uncertain ==> after == before
    ensures StateOf(before) == Returned ==>
      after == before || (StateOf(after) == Verified && after == before.(verifiedAt := after.verifiedAt))
  {
  }

  lemma WriteExtends<P, A>(before: History<P, A>, after: History<P, A>, actionsOf: P -> seq<A>)
    requires IsValid(before, actionsOf) && IsValid(after, actionsOf) && IsAppendOnly(before, after)
    ensures Extends(before, after)
  {
    WriteRule(before, after, actionsOf);
    hide IsAppendOnly, Allows, StepValid, Concludes;
    var n := |before.steps|;
    forall k | 0 <= k < n
      ensures SameFence(before.steps[k], after.steps[k])
      ensures Settled(before.steps[k]) ==> after.steps[k] == before.steps[k]
      ensures StateOf(before.steps[k]) == Returned ==>
        after.steps[k] == before.steps[k]
        || (StateOf(after.steps[k]) == Verified
            && after.steps[k] == before.steps[k].(verifiedAt := after.steps[k].verifiedAt))
    {
      if |after.steps| == n && k == n - 1 {
        ConclusionExtends(before.steps[k], after.steps[k]);
      } else if |after.steps| == n {
        assert before.steps[..n - 1][k] == after.steps[..n - 1][k];
      } else {
        assert before.steps[k] == after.steps[..n][k];
      }
    }
    if k :| 0 <= k < n && StateOf(before.steps[k]) == Uncertain {
      UncertainFreezes(before, after, actionsOf, k);
    }
  }

  /** An uncertain step is the last one, never settles, and so admits no other write. */
  lemma UncertainFreezes<P, A>(before: History<P, A>, after: History<P, A>, actionsOf: P -> seq<A>, k: nat)
    requires IsValid(before, actionsOf) && IsValid(after, actionsOf) && Writes(before, after)
    requires k < |before.steps| && StateOf(before.steps[k]) == Uncertain
    ensures after == before
  {
    hide Allows, Concludes;
    var n := |before.steps|;
    assert forall i :: 0 <= i < n - 1 ==> Settled(before.steps[i]);
    assert !Settled(before.steps[k]) && k == n - 1;
    assert forall i :: 0 <= i < |after.steps| - 1 ==> Settled(after.steps[i]);
    assert before.steps <= after.steps ==> after.steps[k] == before.steps[k];
    assert |after.steps| == n;
    ConclusionExtends(before.steps[k], after.steps[k]);
    assert before.steps == before.steps[..k] + [before.steps[k]] && after.steps == after.steps[..k] + [after.steps[k]];
  }

  lemma ExtendsTransitive<P, A>(a: History<P, A>, b: History<P, A>, c: History<P, A>)
    requires Extends(a, b) && Extends(b, c)
    ensures Extends(a, c)
  {
    assert forall k :: 0 <= k < |a.steps| ==> SameFence(a.steps[k], b.steps[k]) && SameFence(b.steps[k], c.steps[k]);
    if k :| 0 <= k < |a.steps| && StateOf(a.steps[k]) == Uncertain {
      assert b == a;
      assert c == b;
    }
  }

  /**
   Along any chain of accepted writes authorizations only append, steps keep their
   fences, settled steps never change, a returned step can only become verified,
   and once a step is uncertain nothing changes any more. Only the last step of a
   record may be unsettled.
   */
  lemma {:induction false} ChainExtends<P, A>(hs: seq<History<P, A>>, actionsOf: P -> seq<A>, i: nat, j: nat)
    requires Chain(hs, actionsOf) && i <= j < |hs|
    ensures Extends(hs[i], hs[j])
    ensures forall k :: 0 <= k < |hs[j].steps| && !Settled(hs[j].steps[k]) ==> k == |hs[j].steps| - 1
    decreases j
  {
    hide IsAppendOnly, Extends, Allows, StepValid, StateOf;
    if i < j {
      ChainExtends(hs, actionsOf, i, j - 1);
      WriteExtends(hs[j - 1], hs[j], actionsOf);
      ExtendsTransitive(hs[i], hs[j - 1], hs[j]);
    } else {
      ExtendsItself(hs[i]);
    }
  }

  lemma ExtendsItself<P, A>(h: History<P, A>)
    ensures Extends(h, h)
  {
  }
}
