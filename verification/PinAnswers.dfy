/** Which pins are created and accepted, and what a pin holds, in terms of the lists and digests in it. */
module PinAnswers {
  import opened Wrappers
  import opened Sorting
  import opened Text
  import opened RoutePins

  // ----- lists in order -----

  /** The list has the same members, each as often. */
  ghost predicate Reorders<T>(xs: seq<T>, ys: seq<T>) {
    multiset(xs) == multiset(ys)
  }

  predicate Increasing(xs: seq<int>) {
    forall i, j :: 0 <= i < j < |xs| ==> xs[i] < xs[j]
  }

  predicate Differ<T(==)>(xs: seq<T>) {
    forall i, j :: 0 <= i < |xs| && 0 <= j < |xs| && i != j ==> xs[i] != xs[j]
  }

  /** Agents come before users, and those of one kind are in the order of their identities. */
  ghost predicate ActorPrecedes(a: Actor, b: Actor) {
    if a.kind == b.kind then Precedes(a.id, b.id) else a.kind == Agent && b.kind == User
  }

  ghost predicate ActorsAscend(actors: seq<Actor>) {
    forall i, j :: 0 <= i < j < |actors| ==> ActorPrecedes(actors[i], actors[j])
  }

  lemma SortedStatuses(xs: seq<int>)
    ensures HasNoDuplicate(xs) <==> Differ(xs)
    ensures HasNoDuplicate(xs) ==> Increasing(Sort(xs, LeqInt)) && Reorders(Sort(xs, LeqInt), xs)
  {
    IntOrder();
    SortNormalizes(xs, LeqInt);
    SortIsSorted(xs, LeqInt);
  }

  lemma SortedMethods(xs: seq<Text>)
    ensures HasNoDuplicate(xs) <==> Differ(xs)
    ensures HasNoDuplicate(xs) ==> Ascending(Sort(xs, LeqText)) && Reorders(Sort(xs, LeqText), xs)
  {
    if HasNoDuplicate(xs) {
      SortAscends(xs);
    }
  }

  lemma SortedActors(xs: seq<Actor>)
    ensures HasNoDuplicate(xs) <==> Differ(xs)
    ensures HasNoDuplicate(xs) ==> ActorsAscend(Sort(xs, LeqActor)) && Reorders(Sort(xs, LeqActor), xs)
  {
    ActorOrder();
    SortNormalizes(xs, LeqActor);
    SortIsSorted(xs, LeqActor);
    var sorted := Sort(xs, LeqActor);
    if HasNoDuplicate(xs) {
      forall i, j | 0 <= i < j < |sorted| ensures ActorPrecedes(sorted[i], sorted[j]) {
        assert LeqActor(sorted[i], sorted[j]);
        LeqTextMeans(sorted[i].id, sorted[j].id);
      }
    }
  }

  /** A list of statuses can be put in order in one way only. */
  lemma IncreasingUnique(xs: seq<int>, ys: seq<int>)
    requires Increasing(xs) && Increasing(ys) && Reorders(xs, ys)
    ensures xs == ys
  {
    IntOrder();
    SortedUnique(xs, ys, LeqInt);
  }

  lemma ActorsUnique(xs: seq<Actor>, ys: seq<Actor>)
    requires ActorsAscend(xs) && ActorsAscend(ys) && Reorders(xs, ys)
    ensures xs == ys
  {
    ActorOrder();
    ActorsSorted(xs);
    ActorsSorted(ys);
    SortedUnique(xs, ys, LeqActor);
  }

  lemma ActorsSorted(xs: seq<Actor>)
    requires ActorsAscend(xs)
    ensures Sorted(xs, LeqActor)
  {
    forall i, j | 0 <= i < j < |xs| ensures LeqActor(xs[i], xs[j]) {
      assert ActorPrecedes(xs[i], xs[j]);
      LeqTextMeans(xs[i].id, xs[j].id);
    }
  }

  // ----- matchers -----

  /** A matcher needs distinct methods, at least one, and is pinned with its methods in order. */
  lemma MatcherExactly(m: Matcher)
    ensures match CreateMatcherPin(m)
            case Failure(e) => e == BadRequest && (m.methods == [] || !Differ(m.methods))
            case Success(pin) =>
              && m.methods != [] && Differ(m.methods)
              && pin == MatcherPin(Matcher(m.host, m.path, pin.body.methods), OfMatcher(pin.body))
              && Ascending(pin.body.methods) && Reorders(pin.body.methods, m.methods)
  {
    SortedMethods(m.methods);
    MatcherNormalizes(m);
    hide Differ, Ascending, Reorders, HasNoDuplicate;
  }

  // ----- applications -----

  /** A proxied application with distinct statuses from 100 to 599, at least one. */
  ghost predicate IsUsable(b: ApplicationBody) {
    && b.application.proxied && b.application.statuses != [] && Differ(b.application.statuses)
    && forall status :: status in b.application.statuses ==> 100 <= status <= 599
  }

  /** The body is the other one with its statuses in order. */
  ghost predicate Orders(ordered: ApplicationBody, b: ApplicationBody) {
    var a := b.application;
    && ordered == ApplicationBody(b.blueprint, Application(a.name, a.proxied, a.details, ordered.application.statuses))
    && Increasing(ordered.application.statuses) && Reorders(ordered.application.statuses, a.statuses)
  }

  lemma UsableExactly(b: ApplicationBody)
    ensures IsApplicationBody(b) <==> IsUsable(b)
  {
    var statuses := b.application.statuses;
    assert HasNoDuplicate(statuses) <==> Differ(statuses);
    if forall status :: status in statuses ==> 100 <= status <= 599 {
      assert forall i :: 0 <= i < |statuses| ==> statuses[i] in statuses;
    }
  }

  lemma ApplicationExactly(b: ApplicationBody)
    ensures match CreateApplicationPin(b)
            case Failure(e) => e == BadRequest && !IsUsable(b)
            case Success(pin) => IsUsable(b) && Orders(pin.body, b) && pin.digest == OfApplication(pin.body)
  {
    UsableExactly(b);
    SortedStatuses(b.application.statuses);
    ApplicationNormalizes(b.application);
    if IsApplicationBody(b) {
      assert HasNoDuplicate(b.application.statuses);
    }
    hide IsUsable, Increasing, Reorders, HasNoDuplicate;
  }

  lemma OrdersUnique(x: ApplicationBody, y: ApplicationBody, b: ApplicationBody)
    requires Orders(x, b) && Orders(y, b)
    ensures x == y
  {
    IncreasingUnique(x.application.statuses, y.application.statuses);
  }

  /** The digest of the pin is that of its body with the statuses in order. */
  ghost predicate IsPinOf(pin: ApplicationPin) {
    pin.digest.OfApplication? && Orders(pin.digest.application, pin.body)
  }

  /** A pin is accepted exactly if its body is usable and its digest is the one of this body, in whatever order. */
  lemma AcceptedApplicationExactly(pin: ApplicationPin)
    ensures match VerifyApplicationPin(pin)
            case Failure(e) => if IsUsable(pin.body) then e == Conflict && !IsPinOf(pin) else e == BadRequest
            case Success(verified) =>
              IsUsable(pin.body) && IsPinOf(pin) && verified == ApplicationPin(pin.digest.application, pin.digest)
  {
    UsableExactly(pin.body);
    ApplicationExactly(pin.body);
    var created := CreateApplicationPin(pin.body);
    if created.Success? && IsPinOf(pin) {
      OrdersUnique(created.value.body, pin.digest.application, pin.body);
    }
    hide IsUsable, Orders, IsApplicationBody, CreateApplicationPin;
  }

  // ----- targets -----

  /** A target needs an accepted application pin, and is pinned with it. */
  lemma TargetExactly(b: TargetBody)
    ensures match CreateTargetPin(b)
            case Failure(e) =>
              if IsUsable(b.application.body) then e == Conflict && !IsPinOf(b.application) else e == BadRequest
            case Success(pin) =>
              && IsUsable(b.application.body) && IsPinOf(b.application)
              && pin.body == TargetBody(b.snapshotId, ApplicationPin(b.application.digest.application, b.application.digest))
              && pin.digest == OfTarget(pin.body)
  {
    UsableExactly(b.application.body);
    AcceptedApplicationExactly(b.application);
    hide IsUsable, Orders, IsApplicationBody, VerifyApplicationPin;
  }

  /** A target pin is accepted exactly if its application pin is and its digest is the one of its body. */
  lemma AcceptedTargetExactly(pin: TargetPin)
    ensures var application := pin.body.application;
            match VerifyTargetPin(pin)
            case Failure(e) =>
              if !IsUsable(application.body) then e == BadRequest
              else
                && e == Conflict
                && !(IsPinOf(application)
                     && pin.digest == OfTarget(TargetBody(pin.body.snapshotId,
                                                          ApplicationPin(application.digest.application,
                                                                         application.digest))))
            case Success(verified) =>
              && IsUsable(application.body) && IsPinOf(application) && verified.digest == pin.digest
              && verified.body
                 == TargetBody(pin.body.snapshotId, ApplicationPin(application.digest.application, application.digest))
              && pin.digest == OfTarget(verified.body)
  {
    UsableExactly(pin.body.application.body);
    TargetExactly(pin.body);
    hide IsUsable, Orders, IsApplicationBody, CreateTargetPin;
  }

  // ----- evidence -----

  ghost predicate IsSufficient(e: Evidence) {
    e.authors != [] && Differ(e.authors) && Differ(e.reviewers) && Differ(e.approvers)
  }

  ghost predicate OrdersActors(ordered: Evidence, e: Evidence) {
    && ordered == Evidence(ordered.authors, ordered.reviewers, ordered.approvers, e.details)
    && ActorsAscend(ordered.authors) && Reorders(ordered.authors, e.authors)
    && ActorsAscend(ordered.reviewers) && Reorders(ordered.reviewers, e.reviewers)
    && ActorsAscend(ordered.approvers) && Reorders(ordered.approvers, e.approvers)
  }

  /** Evidence needs an author, and no actor twice in a list; it is pinned with its lists in order. */
  lemma EvidenceExactly(e: Evidence)
    ensures match CreateEvidencePin(e)
            case Failure(r) => r == BadRequest && !IsSufficient(e)
            case Success(pin) => IsSufficient(e) && OrdersActors(pin.body, e) && pin.digest == OfEvidence(pin.body)
  {
    SortedActors(e.authors);
    SortedActors(e.reviewers);
    SortedActors(e.approvers);
    EvidenceNormalizes(e);
    hide Differ, ActorsAscend, Reorders, HasNoDuplicate;
  }

  lemma OrdersActorsUnique(x: Evidence, y: Evidence, e: Evidence)
    requires OrdersActors(x, e) && OrdersActors(y, e)
    ensures x == y
  {
    ActorsUnique(x.authors, y.authors);
    ActorsUnique(x.reviewers, y.reviewers);
    ActorsUnique(x.approvers, y.approvers);
  }

  lemma AcceptedEvidenceExactly(pin: EvidencePin)
    ensures match VerifyEvidencePin(pin)
            case Failure(e) =>
              if !IsSufficient(pin.body) then e == BadRequest
              else e == Conflict && !(pin.digest.OfEvidence? && OrdersActors(pin.digest.evidence, pin.body))
            case Success(verified) =>
              && IsSufficient(pin.body) && pin.digest.OfEvidence? && OrdersActors(pin.digest.evidence, pin.body)
              && verified == EvidencePin(pin.digest.evidence, pin.digest)
  {
    EvidenceExactly(pin.body);
    CreatedEvidenceVerifies(pin.body);
    var created := CreateEvidencePin(pin.body);
    if created.Success? && pin.digest.OfEvidence? && OrdersActors(pin.digest.evidence, pin.body) {
      OrdersActorsUnique(created.value.body, pin.digest.evidence, pin.body);
    }
    hide IsSufficient, OrdersActors, IsEvidence, CreateEvidencePin;
  }
}
