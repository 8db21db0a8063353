/**
 The digest pins of capsule routing. A pin is created from a body whose unordered
 lists are normalized by sorting, and verified by creating it again. A digest is
 the value it is taken of, as digests are collision-free, or text of other origin.
 */
module RoutePins {
  import opened Wrappers
  import opened Sorting
  import opened Text

  datatype Refusal = BadRequest | Conflict | InternalError

  datatype ActorKind = Agent | User
  datatype Actor = Actor(kind: ActorKind, id: Text)

  /** `details` stands for the fields that no list ordering concerns. */
  datatype Application = Application(name: Text, proxied: bool, details: Text, statuses: seq<int>)

  datatype Matcher = Matcher(host: Text, path: Text, methods: seq<Text>)
  datatype ApplicationBody = ApplicationBody(blueprint: Text, application: Application)
  datatype TargetBody = TargetBody(snapshotId: Text, application: ApplicationPin)
  datatype Evidence = Evidence(authors: seq<Actor>, reviewers: seq<Actor>, approvers: seq<Actor>, details: Text)

  datatype MatcherPin = MatcherPin(body: Matcher, digest: Digest)
  datatype ApplicationPin = ApplicationPin(body: ApplicationBody, digest: Digest)
  datatype TargetPin = TargetPin(body: TargetBody, digest: Digest)
  datatype EvidencePin = EvidencePin(body: Evidence, digest: Digest)

  datatype Digest =
    | OfMatcher(matcher: Matcher)
    | OfApplication(application: ApplicationBody)
    | OfTarget(target: TargetBody)
    | OfEvidence(evidence: Evidence)
    | Foreign(text: Text)

  // ----- orders -----

  predicate LeqInt(a: int, b: int) {
    a <= b
  }

  predicate LeqActor(a: Actor, b: Actor) {
    if a.kind != b.kind then a.kind == Agent else LeqText(a.id, b.id)
  }

  lemma ActorOrder()
    ensures TotalOrder(LeqActor)
  {
    TextOrder();
    hide LeqText;
  }

  lemma IntOrder()
    ensures TotalOrder(LeqInt)
  {
  }

  // ----- schemas -----

  predicate IsMatcher(m: Matcher) {
    m.methods != [] && HasNoDuplicate(m.methods)
  }

  predicate IsApplication(a: Application) {
    && a.statuses != [] && HasNoDuplicate(a.statuses)
    && forall i :: 0 <= i < |a.statuses| ==> 100 <= a.statuses[i] <= 599
  }

  predicate IsApplicationBody(b: ApplicationBody) {
    IsApplication(b.application) && b.application.proxied
  }

  predicate IsEvidence(e: Evidence) {
    e.authors != [] && HasNoDuplicate(e.authors) && HasNoDuplicate(e.reviewers) && HasNoDuplicate(e.approvers)
  }

  // ----- creation and verification -----

  function NormalizeApplication(a: Application): Application {
    a.(statuses := Sort(a.statuses, LeqInt))
  }

  function NormalizeMatcher(m: Matcher): Matcher {
    m.(methods := Sort(m.methods, LeqText))
  }

  function NormalizeEvidence(e: Evidence): Evidence {
    e.(authors := Sort(e.authors, LeqActor), reviewers := Sort(e.reviewers, LeqActor),
       approvers := Sort(e.approvers, LeqActor))
  }

  function CreateMatcherPin(m: Matcher): Result<MatcherPin, Refusal> {
    if !IsMatcher(m) then Failure(BadRequest)
    else
      var normalized := NormalizeMatcher(m);
      if !IsMatcher(normalized) then Failure(InternalError)
      else Success(MatcherPin(normalized, OfMatcher(normalized)))
  }

  function CreateApplicationPin(b: ApplicationBody): Result<ApplicationPin, Refusal> {
    if !IsApplicationBody(b) then Failure(BadRequest)
    else
      var normalized := b.(application := NormalizeApplication(b.application));
      if !IsApplicationBody(normalized) then Failure(InternalError)
      else Success(ApplicationPin(normalized, OfApplication(normalized)))
  }

  function VerifyApplicationPin(pin: ApplicationPin): Result<ApplicationPin, Refusal> {
    if !IsApplicationBody(pin.body) then Failure(BadRequest)
    else
      var canonical :- CreateApplicationPin(pin.body);
      if canonical.digest != pin.digest then Failure(Conflict) else Success(canonical)
  }

  function CreateTargetPin(b: TargetBody): Result<TargetPin, Refusal> {
    if !IsApplicationBody(b.application.body) then Failure(BadRequest)
    else
      var application :- VerifyApplicationPin(b.application);
      var normalized := b.(application := application);
      Success(TargetPin(normalized, OfTarget(normalized)))
  }

  function VerifyTargetPin(pin: TargetPin): Result<TargetPin, Refusal> {
    if !IsApplicationBody(pin.body.application.body) then Failure(BadRequest)
    else
      var canonical :- CreateTargetPin(pin.body);
      if canonical.digest != pin.digest then Failure(Conflict) else Success(canonical)
  }

  function CreateEvidencePin(e: Evidence): Result<EvidencePin, Refusal> {
    if !IsEvidence(e) then Failure(BadRequest)
    else
      var normalized := NormalizeEvidence(e);
      if !IsEvidence(normalized) then Failure(InternalError)
      else Success(EvidencePin(normalized, OfEvidence(normalized)))
  }

  function VerifyEvidencePin(pin: EvidencePin): Result<EvidencePin, Refusal> {
    if !IsEvidence(pin.body) then Failure(BadRequest)
    else
      var canonical :- CreateEvidencePin(pin.body);
      if canonical.digest != pin.digest then Failure(Conflict) else Success(canonical)
  }

  // ----- the same up to the order of unordered lists -----

  ghost predicate SameApplication(a: Application, b: Application) {
    multiset(a.statuses) == multiset(b.statuses) && a == b.(statuses := a.statuses)
  }

  ghost predicate SameMatcher(a: Matcher, b: Matcher) {
    multiset(a.methods) == multiset(b.methods) && a == b.(methods := a.methods)
  }

  ghost predicate SameApplicationBody(a: ApplicationBody, b: ApplicationBody) {
    a.blueprint == b.blueprint && SameApplication(a.application, b.application)
  }

  /** The application pins inside may differ in the order of their statuses, too. */
  ghost predicate SameTargetBody(a: TargetBody, b: TargetBody) {
    && a.snapshotId == b.snapshotId && a.application.digest == b.application.digest
    && SameApplicationBody(a.application.body, b.application.body)
  }

  ghost predicate SameEvidence(a: Evidence, b: Evidence) {
    && multiset(a.authors) == multiset(b.authors) && multiset(a.reviewers) == multiset(b.reviewers)
    && multiset(a.approvers) == multiset(b.approvers) && a.details == b.details
  }

  // ----- sorting and the schemas -----

  /** Sorting keeps the members, their number and their distinctness, and sorting again changes nothing. */
  lemma SortNormalizes<T(!new)>(xs: seq<T>, leq: (T, T) -> bool)
    requires TotalOrder(leq)
    ensures var sorted := Sort(xs, leq);
            && multiset(sorted) == multiset(xs) && |sorted| == |xs|
            && (HasNoDuplicate(sorted) <==> HasNoDuplicate(xs))
            && Sort(sorted, leq) == sorted
            && (forall i :: 0 <= i < |sorted| ==> sorted[i] in xs)
  {
    SortIsSorted(xs, leq);
    var sorted := Sort(xs, leq);
    SortSorted(sorted, leq);
    DistinctByCount(xs);
    DistinctByCount(sorted);
    assert |multiset(sorted)| == |multiset(xs)|;
    forall i | 0 <= i < |sorted| ensures sorted[i] in xs {
      assert sorted[i] in multiset(sorted);
    }
  }

  lemma MatcherNormalizes(m: Matcher)
    ensures var n := NormalizeMatcher(m);
            IsMatcher(n) == IsMatcher(m) && SameMatcher(n, m) && NormalizeMatcher(n) == n
  {
    TextOrder();
    SortNormalizes(m.methods, LeqText);
  }

  lemma ApplicationNormalizes(a: Application)
    ensures var n := NormalizeApplication(a);
            IsApplication(n) == IsApplication(a) && SameApplication(n, a) && NormalizeApplication(n) == n
  {
    IntOrder();
    SortNormalizes(a.statuses, LeqInt);
    var n := NormalizeApplication(a);
    if IsApplication(n) {
      forall i | 0 <= i < |a.statuses| ensures 100 <= a.statuses[i] <= 599 {
        assert a.statuses[i] in multiset(n.statuses);
        assert a.statuses[i] in n.statuses;
      }
    }
  }

  lemma EvidenceNormalizes(e: Evidence)
    ensures var n := NormalizeEvidence(e);
            IsEvidence(n) == IsEvidence(e) && SameEvidence(n, e) && NormalizeEvidence(n) == n
  {
    ActorOrder();
    SortNormalizes(e.authors, LeqActor);
    SortNormalizes(e.reviewers, LeqActor);
    SortNormalizes(e.approvers, LeqActor);
  }

  // ----- matchers -----

  /** A matcher is pinned exactly if it is valid, and its digest forgets the order of its methods, and nothing else. */
  lemma MatcherDigestForgetsOrder(a: Matcher, b: Matcher)
    ensures (CreateMatcherPin(a).Success? <==> IsMatcher(a)) && (CreateMatcherPin(b).Success? <==> IsMatcher(b))
    ensures IsMatcher(a) && IsMatcher(b) ==>
      (CreateMatcherPin(a).value.digest == CreateMatcherPin(b).value.digest <==> SameMatcher(a, b))
  {
    MatcherNormalizes(a);
    MatcherNormalizes(b);
    TextOrder();
    SortForgetsOrder(a.methods, b.methods, LeqText);
  }

  // ----- applications -----

  /** A created application pin is verified and returned unchanged. */
  lemma CreatedApplicationVerifies(b: ApplicationBody)
    ensures CreateApplicationPin(b).Success? <==> IsApplicationBody(b)
    ensures CreateApplicationPin(b).Success? ==>
      var pin := CreateApplicationPin(b).value;
      VerifyApplicationPin(pin) == Success(pin) && SameApplicationBody(pin.body, b)
  {
    ApplicationNormalizes(b.application);
    hide IsApplication, NormalizeApplication;
  }

  lemma ApplicationDigestForgetsOrder(a: ApplicationBody, b: ApplicationBody)
    requires IsApplicationBody(a) && IsApplicationBody(b)
    ensures CreateApplicationPin(a).Success? && CreateApplicationPin(b).Success?
    ensures CreateApplicationPin(a).value.digest == CreateApplicationPin(b).value.digest <==> SameApplicationBody(a, b)
  {
    ApplicationNormalizes(a.application);
    ApplicationNormalizes(b.application);
    IntOrder();
    SortForgetsOrder(a.application.statuses, b.application.statuses, LeqInt);
  }

  /** A verified pin is, up to the order of its statuses, the pin that its body creates. */
  lemma VerifiedApplicationIsCreated(pin: ApplicationPin)
    ensures VerifyApplicationPin(pin).Success? <==>
      CreateApplicationPin(pin.body).Success? && CreateApplicationPin(pin.body).value.digest == pin.digest
    ensures VerifyApplicationPin(pin).Success? ==>
      var verified := VerifyApplicationPin(pin).value;
      && verified == CreateApplicationPin(pin.body).value
      && verified.digest == pin.digest && SameApplicationBody(verified.body, pin.body)
  {
    CreatedApplicationVerifies(pin.body);
  }

  // ----- targets -----

  /** A created target pin is verified and returned unchanged, with its application pin verified inside. */
  lemma CreatedTargetVerifies(b: TargetBody)
    ensures CreateTargetPin(b).Success? <==> VerifyApplicationPin(b.application).Success?
    ensures CreateTargetPin(b).Success? ==>
      var pin := CreateTargetPin(b).value;
      && VerifyTargetPin(pin) == Success(pin) && SameTargetBody(pin.body, b)
      && VerifyApplicationPin(pin.body.application) == Success(pin.body.application)
  {
    VerifiedApplicationIsCreated(b.application);
    CreatedApplicationVerifies(b.application.body);
    hide NormalizeApplication, IsApplication;
  }

  /** The digest of a target forgets the order of the statuses nested in it, and nothing else. */
  lemma TargetDigestForgetsOrder(a: TargetBody, b: TargetBody)
    requires CreateTargetPin(a).Success? && CreateTargetPin(b).Success?
    ensures CreateTargetPin(a).value.digest == CreateTargetPin(b).value.digest <==> SameTargetBody(a, b)
  {
    CreatedTargetVerifies(a);
    CreatedTargetVerifies(b);
    VerifiedApplicationIsCreated(a.application);
    VerifiedApplicationIsCreated(b.application);
    ApplicationDigestForgetsOrder(a.application.body, b.application.body);
    PinIsDetermined(a.application.body, b.application.body);
    hide CreateApplicationPin, VerifyApplicationPin, SameApplicationBody;
  }

  lemma PinIsDetermined(a: ApplicationBody, b: ApplicationBody)
    requires IsApplicationBody(a) && IsApplicationBody(b)
    ensures CreateApplicationPin(a).Success? && CreateApplicationPin(b).Success?
    ensures CreateApplicationPin(a).value.digest == CreateApplicationPin(b).value.digest ==>
      CreateApplicationPin(a) == CreateApplicationPin(b)
  {
    ApplicationNormalizes(a.application);
    ApplicationNormalizes(b.application);
  }

  // ----- evidence -----

  /** A created evidence pin is verified and returned unchanged. */
  lemma CreatedEvidenceVerifies(e: Evidence)
    ensures CreateEvidencePin(e).Success? <==> IsEvidence(e)
    ensures CreateEvidencePin(e).Success? ==>
      var pin := CreateEvidencePin(e).value;
      VerifyEvidencePin(pin) == Success(pin) && SameEvidence(pin.body, e)
  {
    EvidenceNormalizes(e);
    hide IsEvidence, NormalizeEvidence;
  }

  /** The digest of evidence forgets the order of its three lists of actors, and nothing else. */
  lemma EvidenceDigestForgetsOrder(a: Evidence, b: Evidence)
    requires IsEvidence(a) && IsEvidence(b)
    ensures CreateEvidencePin(a).Success? && CreateEvidencePin(b).Success?
    ensures CreateEvidencePin(a).value.digest == CreateEvidencePin(b).value.digest <==> SameEvidence(a, b)
  {
    EvidenceNormalizes(a);
    EvidenceNormalizes(b);
    ActorOrder();
    SortForgetsOrder(a.authors, b.authors, LeqActor);
    SortForgetsOrder(a.reviewers, b.reviewers, LeqActor);
    SortForgetsOrder(a.approvers, b.approvers, LeqActor);
  }

  // ----- any reordering -----

  lemma SameApplicationIsValid(a: Application, b: Application)
    requires IsApplication(a) && SameApplication(b, a)
    ensures IsApplication(b)
  {
    DistinctByCount(a.statuses);
    DistinctByCount(b.statuses);
    assert |multiset(a.statuses)| == |multiset(b.statuses)|;
    forall i | 0 <= i < |b.statuses| ensures 100 <= b.statuses[i] <= 599 {
      assert b.statuses[i] in multiset(a.statuses);
      assert b.statuses[i] in a.statuses;
    }
  }

  /** Reordering the lists of any accepted pin leaves it accepted, and verification returns the same pin. */
  lemma ReorderedPinsVerifyAlike(pin: TargetPin, other: TargetPin)
    requires VerifyTargetPin(pin).Success? && other.digest == pin.digest && SameTargetBody(other.body, pin.body)
    ensures VerifyTargetPin(other) == VerifyTargetPin(pin)
  {
    SameApplicationIsValid(pin.body.application.body.application, other.body.application.body.application);
    ReorderedApplicationVerifies(pin.body.application, other.body.application);
    hide VerifyApplicationPin;
  }

  lemma ReorderedApplicationVerifies(pin: ApplicationPin, other: ApplicationPin)
    requires VerifyApplicationPin(pin).Success? && other.digest == pin.digest
    requires SameApplicationBody(other.body, pin.body)
    ensures VerifyApplicationPin(other) == VerifyApplicationPin(pin)
  {
    SameApplicationIsValid(pin.body.application, other.body.application);
    VerifiedApplicationIsCreated(pin);
    VerifiedApplicationIsCreated(other);
    ApplicationDigestForgetsOrder(other.body, pin.body);
    PinIsDetermined(other.body, pin.body);
  }
}
