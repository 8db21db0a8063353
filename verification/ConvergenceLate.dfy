/** The actions after the pin: networks, volumes, and the instance with its credentials. */
module ConvergenceLate {
  import opened Wrappers
  import opened Installation
  import opened Planner
  import opened Convergence

  /** The layout does not set the base image of the instance to another one. */
  predicate AdmitsBaseImage(layout: Layout, fingerprint: string) {
    BASE_IMAGE in ExpectedConfig(layout) ==> ExpectedConfig(layout)[BASE_IMAGE] == fingerprint
  }

  lemma AddedKeys(additions: Additions)
    requires additions.Valid()
    ensures forall s :: s in SUFFIXES ==> TEXT + s !in additions.instance && BINARY + s !in additions.instance
    ensures forall s :: s in SUFFIXES ==> TEXT + s != BASE_IMAGE && BINARY + s != BASE_IMAGE
    ensures VOLATILE <= BASE_IMAGE
  {
    assert VOLATILE[0] == 'v' && IMAGE_KEYS[0] == 'i' && BASE_IMAGE[0] == 'v';
    forall s | s in SUFFIXES ensures (TEXT + s)[0] == 's' && (BINARY + s)[0] == 's' {
      TextKey(s);
      BinaryKey(s);
    }
    assert BASE_IMAGE[..9] == VOLATILE;
  }

  /** What a creation yields is compatible exactly for an admissible layout and a valid source root. */
  lemma CreatedInstanceFits(setting: Setting, fingerprint: string)
    requires setting.additions.Valid()
    ensures var inputs := setting.request.inputs;
            Compatible(CreatedInstance(setting, fingerprint), fingerprint, inputs)
              <==>
            && ValidSourceRoot(inputs.sourceRoot) && AdmitsBaseImage(inputs.layout, fingerprint)
            && !Collides(ExpectedConfig(inputs.layout))
  {
    var inputs := setting.request.inputs;
    var created := CreatedInstance(setting, fingerprint);
    CreatedSettings(setting.additions, ExpectedConfig(inputs.layout), fingerprint);
    assert MissingDevices(created.devices, ExpectedDevices(inputs)) == {};
    assert MismatchedDevices(created.devices, ExpectedDevices(inputs)) == {};
    assert UnexpectedDevices(created.devices, ExpectedDevices(inputs)) == {};
    hide ExpectedDevices, ExpectedConfig, MissingConfig, UnexpectedConfig, MissingDevices, MismatchedDevices,
         UnexpectedDevices, Collides, ValidSourceRoot;
  }

  lemma CreatedSettings(additions: Additions, expected: ConfigMap, fingerprint: string)
    requires additions.Valid()
    ensures var config := (additions.instance + expected)[BASE_IMAGE := fingerprint];
            && (MissingConfig(config, expected) == {} <==> (BASE_IMAGE in expected ==> expected[BASE_IMAGE] == fingerprint))
            && UnexpectedConfig(config, expected) == {}
            && BaseImage(config) == fingerprint
            && (Collides(config) <==> Collides(expected))
  {
    AddedKeys(additions);
    var config := (additions.instance + expected)[BASE_IMAGE := fingerprint];
    hide BASE_IMAGE, TEXT, BINARY, SUFFIXES, VOLATILE, IMAGE_KEYS, CREDENTIAL_KEYS;
    ConfigJudgement(config, expected);
    if BASE_IMAGE in expected && config[BASE_IMAGE] == expected[BASE_IMAGE] {
      assert expected[BASE_IMAGE] == fingerprint;
    }
    forall s | s in SUFFIXES
      ensures (TEXT + s in config <==> TEXT + s in expected) && (BINARY + s in config <==> BINARY + s in expected)
    {
    }
  }

  // ----- performing each late action -----

  ghost predicate Selected(setting: Setting, plan: Plan, s: Site) {
    var selected := Select(setting, s.images, s.aliases, s.pin);
    selected.Success? && selected.value.fingerprint == plan.fingerprint
  }

  lemma PerformIf(setting: Setting, condition: bool, a: Action, rest: seq<Action>, plan: Plan, o: Observation, s: Site)
    ensures var first := Perform(setting, a, plan, o, s);
            PerformAll(setting, If(condition, a) + rest, plan, o, s) ==
            if !condition then PerformAll(setting, rest, plan, o, s)
            else if first.Failure? then Failure(first.error)
            else PerformAll(setting, rest, plan, first.value.1, first.value.0)
  {
    hide Perform;
    if condition {
      assert ([a] + rest)[1..] == rest;
    } else {
      assert [] + rest == rest;
    }
  }

  lemma PerformNetwork(setting: Setting, plan: Plan, o: Observation, s: Site)
    requires Selected(setting, plan, s) && s.network.None?
    ensures var s' := s.(network := Some(CreatedNetwork(setting)));
            Perform(setting, CreateNetwork, plan, o, s) == Success((s', Observe(setting, s').value))
            && Selected(setting, plan, s')
  {
    hide Select, JudgeInstance, CreatedNetwork;
  }

  lemma PerformVolume(setting: Setting, plan: Plan, o: Observation, s: Site)
    requires Selected(setting, plan, s) && s.volume.None?
    ensures var s' := s.(volume := Some(CreatedVolume(setting)));
            Perform(setting, CreateVolume, plan, o, s) == Success((s', Observe(setting, s').value))
            && Selected(setting, plan, s')
  {
    hide Select, JudgeInstance, CreatedVolume;
  }

  lemma PerformInstance(setting: Setting, plan: Plan, o: Observation, s: Site)
    requires Selected(setting, plan, s) && s.instance.None? && plan.fingerprint in s.images
    ensures var s' := s.(instance := Some(CreatedInstance(setting, plan.fingerprint)));
            var inputs := setting.request.inputs;
            && Selected(setting, plan, s')
            && Perform(setting, CreateInstance, plan, o, s) ==
                 if !ValidSourceRoot(inputs.sourceRoot) then Failure(InvalidSourceRoot)
                 else if !Compatible(CreatedInstance(setting, plan.fingerprint), plan.fingerprint, inputs) then
                   Failure(Unverified)
                 else Success((s', Observe(setting, s').value))
  {
    hide Select, JudgeInstance, CreatedInstance, ValidSourceRoot;
  }

  /** The credentials that the preparation of the delivery leaves in the local files. */
  function Delivered(setting: Setting, plan: Plan, s: Site): Option<Credentials> {
    var prepared := Prepare(setting, UpdateInstance, plan, s);
    if prepared.Success? then prepared.value.credentials else None
  }

  lemma PreparedUpdate(setting: Setting, plan: Plan, s: Site)
    requires Prepare(setting, UpdateInstance, plan, s).Success?
    ensures Prepare(setting, UpdateInstance, plan, s).value == s.(credentials := Delivered(setting, plan, s))
  {
  }

  /** The request of the delivery, and what verifies it, once the credentials are in place. */
  lemma DeliverTo(setting: Setting, plan: Plan, s: Site, c: Credentials)
    requires Selected(setting, plan, s) && s.instance.Some? && s.credentials == Some(c)
    requires Compatible(s.instance.value, plan.fingerprint, setting.request.inputs)
    ensures var s' := s.(instance := Some(InstancePut(s.instance.value, Values(c))));
            var inputs := setting.request.inputs;
            && Observe(setting, s).Success? && Observe(setting, s').Success? && Selected(setting, plan, s')
            && Apply(setting, UpdateInstance, plan, Observe(setting, s).value, s) == Success(s')
            && (Verify(UpdateInstance, plan, Observe(setting, s').value, inputs) <==>
                  AdmitsCredentials(inputs.layout, Values(c)))
  {
    hide Select, JudgeInstance, InstancePut, Values, AdmitsCredentials, MatchesCredentials, CheckoutOf;
    GuardedUpdateFrame(s.instance.value, plan.fingerprint, setting.request.inputs, c);
  }

  lemma PerformUpdate(setting: Setting, plan: Plan, o: Observation, s: Site)
    requires Selected(setting, plan, s) && s.instance.Some?
    requires Compatible(s.instance.value, plan.fingerprint, setting.request.inputs)
    requires Prepare(setting, UpdateInstance, plan, s).Success? && Delivered(setting, plan, s).Some?
    ensures var c := Delivered(setting, plan, s).value;
            var put := InstancePut(s.instance.value, Values(c));
            var s' := s.(instance := Some(put), credentials := Some(c));
            && Selected(setting, plan, s')
            && Perform(setting, UpdateInstance, plan, o, s) ==
                 if AdmitsCredentials(setting.request.inputs.layout, Values(c)) then
                   Success((s', Observe(setting, s').value))
                 else Failure(Unverified)
  {
    var c := Delivered(setting, plan, s).value;
    PreparedUpdate(setting, plan, s);
    hide Select, Prepare, Delivered, JudgeInstance, InstancePut, Values, AdmitsCredentials, Apply, Verify, Observe,
         RequireContainer, Compatible;
    DeliverTo(setting, plan, s.(credentials := Some(c)), c);
  }

  // ----- all late actions -----

  /** The site when the late actions of its own plan are about to run. */
  ghost predicate LateReady(setting: Setting, plan: Plan, s: Site) {
    var inputs := setting.request.inputs;
    && setting.additions.Valid()
    && Selected(setting, plan, s) && plan.fingerprint in s.images
    && plan.network == s.network.None? && (s.network.Some? ==> NetworkFits(s.network.value, inputs.layout))
    && plan.volume == s.volume.None? && (s.volume.Some? ==> VolumeFits(s.volume.value, inputs.layout))
    && plan.instance == s.instance.None?
    && (s.instance.Some? ==> Compatible(s.instance.value, plan.fingerprint, inputs))
    && (plan.credentials == Generate <==> s.credentials.None?)
    && (plan.credentials == Generate ==> setting.request.roster.Some?)
    && (s.credentials.Some? ==>
          (plan.credentials == Roster <==>
             setting.request.roster.Some? && setting.request.roster.value != s.credentials.value.authorizedKeys))
    && (!plan.deliver ==>
          && s.instance.Some? && s.credentials.Some? && plan.credentials == Reuse
          && MatchesCredentials(s.instance.value.config, Values(s.credentials.value)))
    && s.pin == Some(plan.fingerprint)
    && (CheckoutOf(setting, s) == Operator || CheckoutOf(setting, s) == Present(true))
    && (setting.source.Content? ==>
          && ORCHESTRATOR in s.aliases && s.aliases[ORCHESTRATOR] == plan.fingerprint
          && Fitting(setting, plan.fingerprint, s.images[plan.fingerprint]))
  }

  /** The content is a container image for the target. */
  predicate Fitting(setting: Setting, fingerprint: string, image: StoredImage) {
    IsFingerprint(fingerprint) && image.kind == CONTAINER && image.architecture == setting.request.inputs.architecture
  }

  /** What a creation or a delivery needs of its inputs. */
  ghost predicate LateFeasible(setting: Setting, plan: Plan, s: Site) {
    var inputs := setting.request.inputs;
    && (plan.instance ==> ValidSourceRoot(inputs.sourceRoot) && AdmitsBaseImage(inputs.layout, plan.fingerprint))
    && (plan.deliver ==>
          && Delivered(setting, plan, s).Some?
          && AdmitsCredentials(inputs.layout, Values(Delivered(setting, plan, s).value)))
  }

  lemma CreatedNetworkFits(setting: Setting)
    requires setting.additions.Valid()
    ensures NetworkFits(CreatedNetwork(setting), setting.request.inputs.layout)
  {
  }

  lemma CreatedVolumeFits(setting: Setting)
    requires setting.additions.Valid()
    ensures VolumeFits(CreatedVolume(setting), setting.request.inputs.layout)
  {
  }

  /** An admissible layout sets no two credentials that collide. */
  lemma AdmittedCredentialsDoNotCollide(layout: Layout, values: ConfigMap)
    requires AdmitsCredentials(layout, values)
    ensures !Collides(ExpectedConfig(layout))
  {
    var expected := ExpectedConfig(layout);
    forall s | s in SUFFIXES ensures TEXT + s !in expected || BINARY + s !in expected {
      assert SUFFIXES[0] == NATS && SUFFIXES[1] == HOST && SUFFIXES[2] == AUTHORIZED_KEYS && SUFFIXES[3] == GATEWAY_KEY;
      var k := if s == GATEWAY_KEY then TEXT + GATEWAY_KEY else BINARY + s;
      assert k in OppositeKeys() && k !in expected.Keys;
    }
  }

  /** The site matches: observing it again leads to an empty plan. */
  ghost predicate Matches(setting: Setting, s: Site) {
    var observed := Observe(setting, s);
    && observed.Success?
    && PlanOf(observed.value, setting.request).Success?
    && IsEmpty(PlanOf(observed.value, setting.request).value)
  }

  /** A site ready for its late actions, with none of them left, matches. */
  lemma NothingLeft(setting: Setting, plan: Plan, s: Site)
    requires LateReady(setting, plan, s) && !plan.network && !plan.volume && !plan.instance && !plan.deliver
    ensures Matches(setting, s)
  {
    EmptyPlanMeansMatch(Observe(setting, s).value, setting.request);
    hide NetworkFits, VolumeFits, JudgeInstance, MatchesCredentials, IsFingerprint, PlanOf, IsEmpty, Values;
  }

  lemma DeliveryIsPrepared(setting: Setting, plan: Plan, s: Site)
    requires LateReady(setting, plan, s)
    ensures Prepare(setting, UpdateInstance, plan, s).Success? && Delivered(setting, plan, s).Some?
    ensures setting.request.roster.Some? ==>
      Delivered(setting, plan, s).value.authorizedKeys == setting.request.roster.value
  {
    hide Select, NetworkFits, VolumeFits, JudgeInstance, MatchesCredentials, Fitting, Values;
  }

  lemma AfterNetwork(setting: Setting, plan: Plan, s: Site)
    requires LateReady(setting, plan, s) && plan.network
    ensures LateReady(setting, plan.(network := false), s.(network := Some(CreatedNetwork(setting))))
  {
    CreatedNetworkFits(setting);
    hide Select, CreatedNetwork, NetworkFits, VolumeFits, JudgeInstance, MatchesCredentials, Fitting, Values;
  }

  lemma AfterVolume(setting: Setting, plan: Plan, s: Site)
    requires LateReady(setting, plan, s) && plan.volume
    ensures LateReady(setting, plan.(volume := false), s.(volume := Some(CreatedVolume(setting))))
  {
    CreatedVolumeFits(setting);
    hide Select, CreatedVolume, NetworkFits, VolumeFits, JudgeInstance, MatchesCredentials, Fitting, Values;
  }

  /** After the delivery nothing is left, whatever the instance was before. */
  lemma AfterUpdate(setting: Setting, plan: Plan, s: Site)
    requires LateReady(setting, plan, s) && !plan.network && !plan.volume && !plan.instance
    requires LateFeasible(setting, plan, s) && plan.deliver
    ensures var c := Delivered(setting, plan, s).value;
            Matches(setting, s.(instance := Some(InstancePut(s.instance.value, Values(c))), credentials := Some(c)))
  {
    hide Select, NetworkFits, VolumeFits, JudgeInstance, MatchesCredentials, Fitting, InstancePut, Values, AdmitsCredentials,
         Delivered, Prepare, IsFingerprint, Matches, ValidSourceRoot, AdmitsBaseImage;
    DeliveryIsPrepared(setting, plan, s);
    var c := Delivered(setting, plan, s).value;
    var put := InstancePut(s.instance.value, Values(c));
    var s' := s.(instance := Some(put), credentials := Some(c));
    GuardedUpdateFrame(s.instance.value, plan.fingerprint, setting.request.inputs, c);
    var done := plan.(credentials := Reuse, deliver := false);
    assert LateReady(setting, done, s');
    NothingLeft(setting, done, s');
  }

  lemma AfterInstance(setting: Setting, plan: Plan, s: Site)
    requires LateReady(setting, plan, s) && plan.instance
    requires Compatible(CreatedInstance(setting, plan.fingerprint), plan.fingerprint, setting.request.inputs)
    ensures LateReady(setting, plan.(instance := false),
                      s.(instance := Some(CreatedInstance(setting, plan.fingerprint))))
  {
    hide Select, CreatedInstance, NetworkFits, VolumeFits, JudgeInstance, MatchesCredentials, Fitting, Values;
  }

  /** Plans that approve the same checkout, images and credentials. */
  predicate SameRequests(plan: Plan, plan': Plan) {
    plan' == plan.(network := plan'.network, volume := plan'.volume, instance := plan'.instance)
  }

  lemma SamePerform(setting: Setting, a: Action, plan: Plan, plan': Plan, o: Observation, s: Site)
    requires SameRequests(plan, plan')
    ensures Perform(setting, a, plan, o, s) == Perform(setting, a, plan', o, s)
  {
    hide Observe, JudgeInstance, RequireContainer, MatchesCredentials, Values;
    assert Prepare(setting, a, plan, s) == Prepare(setting, a, plan', s);
    SameApply(setting, a, plan, plan');
    hide Apply, Prepare;
    assert forall o: Observation ::
      Verify(a, plan, o, setting.request.inputs) == Verify(a, plan', o, setting.request.inputs);
    hide Verify;
  }

  lemma SameApply(setting: Setting, a: Action, plan: Plan, plan': Plan)
    requires SameRequests(plan, plan')
    ensures forall o, s :: Apply(setting, a, plan, o, s) == Apply(setting, a, plan', o, s)
  {
    hide JudgeInstance, Values, AliasesElsewhere, CreatedNetwork, CreatedVolume, CreatedInstance;
  }

  /** What an action does depends on no other flag of its plan. */
  lemma {:induction false} OtherFlagsAreIrrelevant(setting: Setting, actions: seq<Action>, plan: Plan, plan': Plan,
                                                   o: Observation, s: Site)
    requires SameRequests(plan, plan')
    ensures PerformAll(setting, actions, plan, o, s) == PerformAll(setting, actions, plan', o, s)
  {
    hide Perform, SameRequests;
    if actions != [] {
      SamePerform(setting, actions[0], plan, plan', o, s);
      var next := Perform(setting, actions[0], plan, o, s);
      if next.Success? {
        OtherFlagsAreIrrelevant(setting, actions[1..], plan, plan', next.value.1, next.value.0);
      }
    }
  }

  /** What the late actions of a plan leave. */
  function LateDone(setting: Setting, plan: Plan, s: Site): Site {
    var instance := if plan.instance then Some(CreatedInstance(setting, plan.fingerprint)) else s.instance;
    var c := if plan.deliver then Delivered(setting, plan, s) else None;
    s.(network := if plan.network then Some(CreatedNetwork(setting)) else s.network,
       volume := if plan.volume then Some(CreatedVolume(setting)) else s.volume,
       instance := if instance.Some? && c.Some? then Some(InstancePut(instance.value, Values(c.value))) else instance,
       credentials := if c.Some? then c else s.credentials)
  }

  function Left(plan: Plan): nat {
    (if plan.network then 1 else 0) + (if plan.volume then 1 else 0) + (if plan.instance then 1 else 0)
  }

  /** The late actions succeed exactly if they are feasible, and the site then matches. */
  lemma {:induction false} LateConverges(setting: Setting, plan: Plan, o: Observation, s: Site)
    requires LateReady(setting, plan, s)
    ensures var done := PerformAll(setting, Late(plan), plan, o, s);
            && (done.Success? <==> LateFeasible(setting, plan, s))
            && (done.Success? ==> Matches(setting, done.value.0) && done.value.0 == LateDone(setting, plan, s))
    decreases Left(plan)
  {
    if plan.network {
      NetworkConverges(setting, plan, o, s);
    } else if plan.volume {
      VolumeConverges(setting, plan, o, s);
    } else if plan.instance {
      InstanceConverges(setting, plan, o, s);
    } else {
      UpdateConverges(setting, plan, o, s);
    }
  }

  lemma NetworkConverges(setting: Setting, plan: Plan, o: Observation, s: Site)
    requires LateReady(setting, plan, s) && plan.network
    ensures var done := PerformAll(setting, Late(plan), plan, o, s);
            && (done.Success? <==> LateFeasible(setting, plan, s))
            && (done.Success? ==> Matches(setting, done.value.0) && done.value.0 == LateDone(setting, plan, s))
    decreases Left(plan), 0
  {
    hide Perform, PerformAll, Matches, Delivered, AdmitsCredentials, NetworkFits, VolumeFits, JudgeInstance,
         MatchesCredentials, Select, CheckoutOf, Fitting, CreatedNetwork;
    var plan' := plan.(network := false);
    var s' := s.(network := Some(CreatedNetwork(setting)));
    var o' := Observe(setting, s').value;
    assert Late(plan) == If(true, CreateNetwork) + Late(plan');
    AfterNetwork(setting, plan, s);
    PerformNetwork(setting, plan, o, s);
    PerformIf(setting, true, CreateNetwork, Late(plan'), plan, o, s);
    OtherFlagsAreIrrelevant(setting, Late(plan'), plan, plan', o', s');
    LateConverges(setting, plan', o', s');
    SameDelivery(setting, plan, plan', s, s');
  }

  lemma VolumeConverges(setting: Setting, plan: Plan, o: Observation, s: Site)
    requires LateReady(setting, plan, s) && !plan.network && plan.volume
    ensures var done := PerformAll(setting, Late(plan), plan, o, s);
            && (done.Success? <==> LateFeasible(setting, plan, s))
            && (done.Success? ==> Matches(setting, done.value.0) && done.value.0 == LateDone(setting, plan, s))
    decreases Left(plan), 0
  {
    hide Perform, PerformAll, Matches, Delivered, AdmitsCredentials, NetworkFits, VolumeFits, JudgeInstance,
         MatchesCredentials, Select, CheckoutOf, Fitting, CreatedVolume;
    var plan' := plan.(volume := false);
    var s' := s.(volume := Some(CreatedVolume(setting)));
    var o' := Observe(setting, s').value;
    assert Late(plan) == If(true, CreateVolume) + Late(plan');
    AfterVolume(setting, plan, s);
    PerformVolume(setting, plan, o, s);
    PerformIf(setting, true, CreateVolume, Late(plan'), plan, o, s);
    OtherFlagsAreIrrelevant(setting, Late(plan'), plan, plan', o', s');
    LateConverges(setting, plan', o', s');
    SameDelivery(setting, plan, plan', s, s');
  }

  lemma SameDelivery(setting: Setting, plan: Plan, plan': Plan, s: Site, s': Site)
    requires plan'.credentials == plan.credentials && s'.credentials == s.credentials
    ensures Delivered(setting, plan', s') == Delivered(setting, plan, s)
  {
  }

  lemma SameLate(setting: Setting, plan: Plan, s: Site)
    requires plan.instance
    ensures LateDone(setting, plan.(instance := false),
                     s.(instance := Some(CreatedInstance(setting, plan.fingerprint)))) == LateDone(setting, plan, s)
  {
    hide CreatedInstance, CreatedNetwork, CreatedVolume, InstancePut, Values;
  }

  lemma InstanceConverges(setting: Setting, plan: Plan, o: Observation, s: Site)
    requires LateReady(setting, plan, s) && !plan.network && !plan.volume && plan.instance
    ensures var done := PerformAll(setting, Late(plan), plan, o, s);
            && (done.Success? <==> LateFeasible(setting, plan, s))
            && (done.Success? ==> Matches(setting, done.value.0) && done.value.0 == LateDone(setting, plan, s))
    decreases Left(plan), 0
  {
    hide LateDone;
    var inputs := setting.request.inputs;
    var plan' := plan.(instance := false);
    var created := CreatedInstance(setting, plan.fingerprint);
    var s' := s.(instance := Some(created));
    var o' := Observe(setting, s').value;
    assert plan.deliver;
    assert Late(plan) == If(true, CreateInstance) + Late(plan');
    PerformInstance(setting, plan, o, s);
    PerformIf(setting, true, CreateInstance, Late(plan'), plan, o, s);
    CreatedInstanceFits(setting, plan.fingerprint);
    DeliveryIsPrepared(setting, plan, s);
    SameDelivery(setting, plan, plan', s, s');
    var values := Values(Delivered(setting, plan, s).value);
    if AdmitsCredentials(inputs.layout, values) {
      AdmittedCredentialsDoNotCollide(inputs.layout, values);
    }
    if Compatible(created, plan.fingerprint, inputs) {
      SameLate(setting, plan, s);
      AfterInstance(setting, plan, s);
      OtherFlagsAreIrrelevant(setting, Late(plan'), plan, plan', o', s');
      LateConverges(setting, plan', o', s');
    }
    hide LateReady, PerformAll, Perform, Late, Matches, Delivered, AdmitsCredentials, Observe, CreatedInstance,
         Compatible, ValidSourceRoot, AdmitsBaseImage, Collides, ExpectedConfig;
  }

  lemma UpdateConverges(setting: Setting, plan: Plan, o: Observation, s: Site)
    requires LateReady(setting, plan, s) && !plan.network && !plan.volume && !plan.instance
    ensures var done := PerformAll(setting, Late(plan), plan, o, s);
            && (done.Success? <==> LateFeasible(setting, plan, s))
            && (done.Success? ==> Matches(setting, done.value.0) && done.value.0 == LateDone(setting, plan, s))
  {
    assert Late(plan) == If(plan.deliver, UpdateInstance) + [];
    PerformIf(setting, plan.deliver, UpdateInstance, [], plan, o, s);
    DeliveryIsPrepared(setting, plan, s);
    if plan.deliver {
      PerformUpdate(setting, plan, o, s);
      if LateFeasible(setting, plan, s) {
        AfterUpdate(setting, plan, s);
      }
    } else {
      NothingLeft(setting, plan, s);
    }
    hide Perform, Matches, Delivered, AdmitsCredentials, Observe, Compatible, ValidSourceRoot, AdmitsBaseImage;
  }
}
