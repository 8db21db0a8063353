/**
 The pure decisions of a configuration: the plan that one observation leads to,
 its split into approval gates, the actions it allows, and the verification of
 each action against a fresh observation.
 */
module Planner {
  import opened Wrappers
  import opened Installation

  /** Where the selected image comes from: local split content, or an image the store already holds. */
  datatype Kind = Split | Reference

  /** One point-in-time read of everything an installation depends on. */
  datatype Observation = Observation(
    kind: Kind, fingerprint: string, pin: Option<string>, image: Option<Image>, alias: Option<string>,
    aliased: Option<Image>, network: Option<Network>, volume: Option<Volume>, instance: Option<Instance>,
    credentials: Option<Credentials>, checkout: Checkout)

  datatype Replacement = Replacement(fingerprint: string, aliases: set<string>)
  datatype ImagePlan = ImagePlan(replace: Option<Replacement>, imports: bool, alias: bool)
  datatype CheckoutPlan = CheckoutPlan(commit: Commit, pin: bool)
  datatype CredentialsPlan = Generate | Roster | Reuse

  datatype Plan = Plan(
    fingerprint: string, checkout: Option<CheckoutPlan>, image: ImagePlan, pin: bool, network: bool, volume: bool,
    instance: bool, credentials: CredentialsPlan, deliver: bool)

  datatype Action =
    | MaterializeCheckout
    | DeleteImage
    | ImportImage
    | CreateAlias
    | CreateNetwork
    | CreateVolume
    | CreateInstance
    | UpdateInstance

  datatype Request = Request(inputs: Inputs, roster: Option<string>)

  // ----- the plan -----

  function Require(condition: bool, refusal: Refusal): Result<(), Refusal> {
    if condition then Success(()) else Failure(refusal)
  }

  predicate IsFingerprint(s: string) {
    |s| == 64 && forall i :: 0 <= i < 64 ==> '0' <= s[i] <= '9' || 'a' <= s[i] <= 'f'
  }

  predicate IsContainer(image: Image, fingerprint: string, architecture: string) {
    && IsFingerprint(image.fingerprint) && image.fingerprint == fingerprint && image.kind == CONTAINER
    && image.architecture == architecture
  }

  function RequireContainer(o: Observation, inputs: Inputs): Result<(), Refusal> {
    Require(o.image.Some? ==> IsContainer(o.image.value, o.fingerprint, inputs.architecture), ImageIncompatible)
  }

  function JudgeInstance(i: Instance, fingerprint: string, inputs: Inputs): Result<(), Refusal> {
    var _ :- Require(!Collides(i.config), CredentialCollision);
    var _ :- Require(ValidSourceRoot(inputs.sourceRoot), InvalidSourceRoot);
    Require(InstanceFits(i, fingerprint, inputs), IncompatibleInstance)
  }

  /** The image the managed alias targets. */
  function ManagedTarget(target: string, aliased: Option<Image>): Result<Image, Refusal> {
    var _ :- Require(IsFingerprint(target), AliasTargetInvalid);
    if aliased.None? || aliased.value.fingerprint != target then Failure(AliasTargetMissing) else Success(aliased.value)
  }

  function PlanImage(o: Observation, inputs: Inputs): Result<ImagePlan, Refusal> {
    if o.kind == Reference then Success(ImagePlan(None, false, false))
    else
      var _ :- RequireContainer(o, inputs);
      if o.alias.None? then Success(ImagePlan(None, o.image.None?, true))
      else
        var target :- ManagedTarget(o.alias.value, o.aliased);
        if o.alias.value == o.fingerprint then Success(ImagePlan(None, false, false))
        else Success(ImagePlan(Some(Replacement(target.fingerprint, target.aliases)), o.image.None?, true))
  }

  function PlanCredentials(o: Observation, roster: Option<string>): Result<CredentialsPlan, Refusal> {
    if o.credentials.Some? then
      Success(if roster.Some? && roster.value != o.credentials.value.authorizedKeys then Roster else Reuse)
    else
      var _ :- Require(roster.Some?, RosterRequired);
      var _ :- Require(o.instance.None? || !HasManagedCredentials(o.instance.value.config), CredentialRecoveryRequired);
      Success(Generate)
  }

  function PlanCheckout(checkout: Checkout): Result<Option<CheckoutPlan>, Refusal> {
    match checkout
    case Operator => Success(None)
    case Present(pinned) => if pinned then Success(None) else Failure(CheckoutConflict)
    case Absent(commit, pinned) => Success(Some(CheckoutPlan(commit, !pinned)))
  }

  /** The whole decision. Every incompatibility with retained state is a refusal. */
  function PlanOf(o: Observation, request: Request): Result<Plan, Refusal> {
    var inputs := request.inputs;
    var _ :- Require(o.network.Some? ==> NetworkFits(o.network.value, inputs.layout), IncompatibleNetwork);
    var _ :- Require(o.volume.Some? ==> VolumeFits(o.volume.value, inputs.layout), IncompatibleVolume);
    var _ :- if o.instance.Some? then JudgeInstance(o.instance.value, o.fingerprint, inputs) else Success(());
    var mode :- PlanCredentials(o, request.roster);
    var checkout :- PlanCheckout(o.checkout);
    var image :- PlanImage(o, inputs);
    Success(Plan(
      o.fingerprint, checkout, image, o.pin != Some(o.fingerprint), o.network.None?, o.volume.None?, o.instance.None?, mode,
      || o.instance.None? || o.credentials.None? || mode != Reuse
      || !MatchesCredentials(o.instance.value.config, Values(o.credentials.value))))
  }

  // ----- gates and actions -----

  /** The part of a replacement that only adds; none if one gate covers the plan. */
  function FirstGate(plan: Plan): Option<Plan> {
    if plan.image.replace.None? || !plan.image.imports then None
    else Some(Plan(plan.fingerprint, plan.checkout, ImagePlan(None, true, false), false, false, false, false, Reuse, false))
  }

  function If(condition: bool, action: Action): seq<Action> {
    if condition then [action] else []
  }

  function ActionsOf(plan: Plan): seq<Action> {
    If(plan.checkout.Some?, MaterializeCheckout)
    + If(plan.image.imports, ImportImage)
    + If(plan.image.replace.Some?, DeleteImage)
    + If(plan.image.alias, CreateAlias)
    + If(plan.network, CreateNetwork)
    + If(plan.volume, CreateVolume)
    + If(plan.instance, CreateInstance)
    + If(plan.deliver, UpdateInstance)
  }

  predicate IsImageAction(a: Action) {
    a == ImportImage || a == DeleteImage || a == CreateAlias
  }

  predicate IsEmpty(plan: Plan) {
    ActionsOf(plan) == [] && !plan.pin && plan.credentials == Reuse
  }

  // ----- verification -----

  predicate Compatible(i: Instance, fingerprint: string, inputs: Inputs) {
    JudgeInstance(i, fingerprint, inputs).Success?
  }

  /** The postcondition of one action. */
  predicate Verify(a: Action, plan: Plan, o: Observation, inputs: Inputs) {
    match a
    case MaterializeCheckout => o.checkout.Present?
    case DeleteImage =>
      plan.image.replace.Some? && (o.alias.None? || o.alias.value != plan.image.replace.value.fingerprint)
    case ImportImage => o.image.Some? && o.image.value.fingerprint == plan.fingerprint
    case CreateAlias => o.alias == Some(plan.fingerprint)
    case CreateNetwork => o.network.Some?
    case CreateVolume => o.volume.Some?
    case CreateInstance => o.instance.Some? && Compatible(o.instance.value, plan.fingerprint, inputs)
    case UpdateInstance =>
      && o.instance.Some? && Compatible(o.instance.value, plan.fingerprint, inputs) && o.credentials.Some?
      && MatchesCredentials(o.instance.value.config, Values(o.credentials.value))
  }

  // ----- what a plan means -----

  /** An empty plan means exactly that the whole installation matches. */
  lemma EmptyPlanMeansMatch(o: Observation, request: Request)
    ensures var inputs := request.inputs;
            (PlanOf(o, request).Success? && IsEmpty(PlanOf(o, request).value))
            <==>
            && o.network.Some? && NetworkFits(o.network.value, inputs.layout)
            && o.volume.Some? && VolumeFits(o.volume.value, inputs.layout)
            && o.instance.Some? && Compatible(o.instance.value, o.fingerprint, inputs)
            && o.credentials.Some? && (request.roster.Some? ==> request.roster.value == o.credentials.value.authorizedKeys)
            && MatchesCredentials(o.instance.value.config, Values(o.credentials.value))
            && (o.checkout == Operator || o.checkout == Present(true))
            && o.pin == Some(o.fingerprint)
            && (o.kind == Split ==>
                  && o.alias == Some(o.fingerprint) && IsFingerprint(o.fingerprint)
                  && o.aliased.Some? && o.aliased.value.fingerprint == o.fingerprint
                  && RequireContainer(o, inputs).Success?)
  {
    hide NetworkFits, VolumeFits, IsFingerprint, IsContainer, JudgeInstance, MatchesCredentials, HasManagedCredentials;
  }

  /**
   A plan that replaces an image names another image than the selected one, and no
   observed instance is based on it. Without an import left, the selected image
   was observed in the store and passed the container check.
   */
  lemma ReplacementIsSafe(o: Observation, request: Request)
    requires PlanOf(o, request).Success? && PlanOf(o, request).value.image.replace.Some?
    ensures var plan := PlanOf(o, request).value;
            var replaced := plan.image.replace.value.fingerprint;
            && plan.fingerprint == o.fingerprint != replaced
            && o.alias == Some(replaced)
            && (o.instance.Some? ==> BaseImage(o.instance.value.config) == o.fingerprint != replaced)
            && (plan.image.imports <==> o.image.None?)
            && (!plan.image.imports ==> IsContainer(o.image.value, o.fingerprint, request.inputs.architecture))
  {
    hide NetworkFits, VolumeFits, IsFingerprint, MatchesCredentials, HasManagedCredentials;
  }

  /** So a device that someone adds under such a name changes no plan, and an installation that matched still matches. */
  lemma InheritedDeviceKeepsPlan(o: Observation, request: Request, name: string, device: ConfigMap)
    requires o.instance.Some? && name in INHERITED && name !in o.instance.value.devices
    ensures var more := o.instance.value.(devices := o.instance.value.devices[name := device]);
            PlanOf(o.(instance := Some(more)), request) == PlanOf(o, request)
  {
    hide JudgeInstance, PlanImage, PlanCheckout, NetworkFits, VolumeFits, MatchesCredentials, Values, Require;
    var more := o.instance.value.(devices := o.instance.value.devices[name := device]);
    JudgedAlike(o.instance.value, name, device, o.fingerprint, request.inputs);
    PlannedAlike(o, more, request);
  }

  lemma JudgedAlike(i: Instance, name: string, device: ConfigMap, fingerprint: string, inputs: Inputs)
    requires name in INHERITED && name !in i.devices
    ensures JudgeInstance(i.(devices := i.devices[name := device]), fingerprint, inputs)
         == JudgeInstance(i, fingerprint, inputs)
  {
    InheritedDeviceIsOverlooked(i, name, device, fingerprint, inputs);
    hide InstanceFits, Collides, ValidSourceRoot;
  }

  /** A plan sees of an instance only its judgement and its configuration. */
  lemma PlannedAlike(o: Observation, i: Instance, request: Request)
    requires o.instance.Some? && i.config == o.instance.value.config
    requires JudgeInstance(i, o.fingerprint, request.inputs)
          == JudgeInstance(o.instance.value, o.fingerprint, request.inputs)
    ensures PlanOf(o.(instance := Some(i)), request) == PlanOf(o, request)
  {
    hide JudgeInstance, NetworkFits, VolumeFits, HasManagedCredentials, MatchesCredentials, Values, IsContainer,
         ManagedTarget;
  }

  /** The first gate only adds: it replaces nothing, and its actions are among those of the whole plan. */
  lemma FirstGateOnlyAdds(plan: Plan)
    requires FirstGate(plan).Some?
    ensures var gate := FirstGate(plan).value;
            && ActionsOf(gate) == If(plan.checkout.Some?, MaterializeCheckout) + [ImportImage]
            && ActionsOf(gate) <= ActionsOf(plan)
            && DeleteImage !in ActionsOf(gate) && CreateAlias !in ActionsOf(gate)
  {
  }

  // ----- the guarded update -----

  /**
   The frame of the guarded update: it leaves a compatible instance compatible and
   without a namespace collision exactly when the layout admits the credentials,
   and then the instance holds them.
   */
  lemma GuardedUpdateFrame(i: Instance, fingerprint: string, inputs: Inputs, credentials: Credentials)
    requires Compatible(i, fingerprint, inputs)
    ensures var values := Values(credentials);
            && MatchesCredentials(InstancePut(i, values).config, values)
            && (Compatible(InstancePut(i, values), fingerprint, inputs) <==> AdmitsCredentials(inputs.layout, values))
  {
    var values := Values(credentials);
    var put := InstancePut(i, values);
    var expected := ExpectedConfig(inputs.layout);
    UpdateSettings(i.config, expected, values);
    UpdateCollision(i.config, expected, values);
    UpdateKeepsBaseImage(i.config, values);
    hide MissingConfig, UnexpectedConfig, MissingDevices, MismatchedDevices, UnexpectedDevices, BaseImage, Values,
         ExpectedDevices, ExpectedConfig, ValidSourceRoot, Collides;
  }

  lemma UpdateKeepsBaseImage(config: ConfigMap, values: ConfigMap)
    requires values.Keys == CREDENTIAL_KEYS
    ensures BaseImage(config + values) == BaseImage(config)
  {
    hide CREDENTIAL_KEYS;
    CredentialKeyShapes();
    assert BASE_IMAGE[0] == 'v';
    assert BASE_IMAGE !in values.Keys;
  }

  /** The expected settings stay exactly if none of them is a credential of another value. */
  lemma UpdateSettings(config: ConfigMap, expected: ConfigMap, values: ConfigMap)
    requires values.Keys == CREDENTIAL_KEYS
    requires MissingConfig(config, expected) == {} && UnexpectedConfig(config, expected) == {}
    ensures UnexpectedConfig(config + values, expected) == {}
    ensures MissingConfig(config + values, expected) == {} <==>
      forall k :: k in values && k in expected ==> expected[k] == values[k]
  {
    hide CREDENTIAL_KEYS;
    var config' := config + values;
    ConfigJudgement(config, expected);
    ConfigJudgement(config', expected);
    forall k | k in values ensures k in CREDENTIAL_KEYS {
      assert k in values.Keys;
    }
    if forall k :: k in expected ==> k in config' && config'[k] == expected[k] {
      forall k | k in values && k in expected ensures expected[k] == values[k] {
        assert config'[k] == values[k];
      }
    }
  }

  /** Afterwards both namespaces hold a credential exactly if the layout sets one of the opposite keys. */
  lemma UpdateCollision(config: ConfigMap, expected: ConfigMap, values: ConfigMap)
    requires values.Keys == CREDENTIAL_KEYS
    requires MissingConfig(config, expected) == {} && UnexpectedConfig(config, expected) == {}
    ensures Collides(config + values) <==> !(expected.Keys !! OppositeKeys())
  {
    var config' := config + values;
    CredentialKeyShapes();
    ConfigJudgement(config, expected);
    hide CREDENTIAL_KEYS;
    forall k | k in OppositeKeys() ensures k in config' <==> k in expected {
      assert k !in values.Keys;
      assert !(VOLATILE <= k) && !(IMAGE_KEYS <= k) by {
        assert VOLATILE[0] == 'v' && IMAGE_KEYS[0] == 'i';
      }
    }
    CollisionByOpposite(config', values);
  }

  /** With every managed credential set, a collision is an opposite key. */
  lemma CollisionByOpposite(config: ConfigMap, values: ConfigMap)
    requires values.Keys == CREDENTIAL_KEYS && values.Keys <= config.Keys
    ensures Collides(config) <==> exists k :: k in OppositeKeys() && k in config
  {
    assert forall k :: k in CREDENTIAL_KEYS ==> k in config;
    if k :| k in OppositeKeys() && k in config {
      assert SUFFIXES[0] == NATS && SUFFIXES[1] == HOST && SUFFIXES[2] == AUTHORIZED_KEYS && SUFFIXES[3] == GATEWAY_KEY;
      var s := if k == BINARY + NATS then NATS else if k == BINARY + HOST then HOST
               else if k == BINARY + AUTHORIZED_KEYS then AUTHORIZED_KEYS else GATEWAY_KEY;
      assert s in SUFFIXES && TEXT + s in config && BINARY + s in config;
    }
    if s :| s in SUFFIXES && TEXT + s in config && BINARY + s in config {
      var k := if s == GATEWAY_KEY then TEXT + GATEWAY_KEY else BINARY + s;
      assert k in OppositeKeys() && k in config;
    }
  }
}
