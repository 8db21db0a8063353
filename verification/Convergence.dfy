/**
 The effect of each approved request on an Incus target that nobody else changes,
 one whole configuration run over it, and the theorem that the run converges.
 */
module Convergence {
  import opened Wrappers
  import opened Installation
  import opened Planner

  datatype StoredImage = StoredImage(architecture: string, kind: string)

  /** The target together with the local record and the local credential files. */
  datatype Site = Site(
    images: map<string, StoredImage>, aliases: map<string, string>, network: Option<Network>, volume: Option<Volume>,
    instance: Option<Instance>, cloned: bool, pin: Option<string>, restorePoint: Option<Commit>,
    credentials: Option<Credentials>)

  /** Staged split content and what its import yields, or a selector of a stored image. */
  datatype Source = Content(fingerprint: string, image: StoredImage) | Selector(name: string)

  /** The keys that Incus itself adds to what it creates. */
  datatype Additions = Additions(network: ConfigMap, volume: ConfigMap, instance: ConfigMap) {
    predicate Valid() {
      && (forall k :: k in network ==> VOLATILE <= k)
      && (forall k :: k in volume ==> VOLATILE <= k)
      && (forall k :: k in instance ==> (VOLATILE <= k || IMAGE_KEYS <= k) && k != BASE_IMAGE)
    }
  }

  /** What does not change during a run; `generated` holds the secrets that a first generation draws. */
  datatype Setting = Setting(
    request: Request, source: Source, managed: bool, head: Commit, generated: Credentials, additions: Additions)

  // ----- observation -----

  datatype Selection = Selection(fingerprint: string, image: Option<Image>, alias: Option<string>, aliased: Option<Image>)

  function ImageOf(images: map<string, StoredImage>, aliases: map<string, string>, fingerprint: string): Option<Image> {
    if fingerprint !in images then None
    else
      Some(Image(fingerprint, images[fingerprint].architecture, images[fingerprint].kind,
                 set a | a in aliases && aliases[a] == fingerprint))
  }

  function Select(setting: Setting, images: map<string, StoredImage>, aliases: map<string, string>, pin: Option<string>)
    : Result<Selection, Refusal>
  {
    match setting.source
    case Content(fingerprint, _) =>
      var alias := if ORCHESTRATOR in aliases then Some(aliases[ORCHESTRATOR]) else None;
      Success(Selection(fingerprint, ImageOf(images, aliases, fingerprint), alias,
                        if alias.None? then None else ImageOf(images, aliases, alias.value)))
    case Selector(name) =>
      var _ :- Require(IsFingerprint(name) || name in aliases, ImageNotFound);
      var fingerprint := if IsFingerprint(name) then name else aliases[name];
      var _ :- Require(IsFingerprint(fingerprint), AliasTargetInvalid);
      var _ :- Require(pin.None? || pin.value == fingerprint, PinConflict);
      var image := ImageOf(images, aliases, fingerprint);
      var _ :- Require(image.Some?, ImageNotFound);
      var _ :- Require(IsContainer(image.value, fingerprint, setting.request.inputs.architecture), ImageIncompatible);
      Success(Selection(fingerprint, image, None, None))
  }

  function CheckoutOf(setting: Setting, s: Site): Checkout {
    if !setting.managed then Operator
    else if s.cloned then Present(s.restorePoint.Some?)
    else Absent(if s.restorePoint.Some? then s.restorePoint.value else setting.head, s.restorePoint.Some?)
  }

  function Observe(setting: Setting, s: Site): Result<Observation, Refusal> {
    var selected :- Select(setting, s.images, s.aliases, s.pin);
    Success(Observation(
      if setting.source.Content? then Split else Reference, selected.fingerprint, s.pin, selected.image, selected.alias,
      selected.aliased, s.network, s.volume, s.instance, s.credentials, CheckoutOf(setting, s)))
  }

  // ----- one request for each action -----

  function CreatedNetwork(setting: Setting): Network {
    var layout := setting.request.inputs.layout;
    Network(layout.networkName, BRIDGE, "", true, CREATED, PROJECT, setting.additions.network + layout.networkConfig)
  }

  function CreatedVolume(setting: Setting): Volume {
    var layout := setting.request.inputs.layout;
    Volume(layout.volumeName, CUSTOM, FILESYSTEM, VOLUME_DESCRIPTION, PROJECT,
           setting.additions.volume + layout.volumeConfig)
  }

  function CreatedInstance(setting: Setting, fingerprint: string): Instance {
    var inputs := setting.request.inputs;
    Instance(ORCHESTRATOR, inputs.architecture, "", CONTAINER, STOPPED, STOPPED_CODE, PROJECT, false, false, [],
             (setting.additions.instance + ExpectedConfig(inputs.layout))[BASE_IMAGE := fingerprint],
             ExpectedDevices(inputs))
  }

  function AliasesElsewhere(aliases: map<string, string>, fingerprint: string): map<string, string> {
    map a | a in aliases && aliases[a] != fingerprint :: aliases[a]
  }

  /** Exactly one request; it is refused, or changes the target. */
  function Apply(setting: Setting, a: Action, plan: Plan, o: Observation, s: Site): Result<Site, Refusal> {
    match a
    case MaterializeCheckout =>
      var _ :- Require(setting.managed && plan.checkout.Some?, Defect);
      var _ :- Require(!s.cloned, RejectedByTarget);
      Success(s.(cloned := true))
    case ImportImage =>
      var _ :- Require(setting.source.Content? && setting.source.fingerprint == plan.fingerprint, Defect);
      var _ :- Require(plan.fingerprint !in s.images, RejectedByTarget);
      Success(s.(images := s.images[plan.fingerprint := setting.source.image]))
    case DeleteImage =>
      var _ :- Require(plan.image.replace.Some?, Defect);
      var replaced := plan.image.replace.value.fingerprint;
      var _ :- Require(replaced in s.images, RejectedByTarget);
      Success(s.(images := s.images - {replaced}, aliases := AliasesElsewhere(s.aliases, replaced)))
    case CreateAlias =>
      var _ :- Require(ORCHESTRATOR !in s.aliases && plan.fingerprint in s.images, RejectedByTarget);
      Success(s.(aliases := s.aliases[ORCHESTRATOR := plan.fingerprint]))
    case CreateNetwork =>
      var _ :- Require(s.network.None?, RejectedByTarget);
      Success(s.(network := Some(CreatedNetwork(setting))))
    case CreateVolume =>
      var _ :- Require(s.volume.None?, RejectedByTarget);
      Success(s.(volume := Some(CreatedVolume(setting))))
    case CreateInstance =>
      var _ :- Require(ValidSourceRoot(setting.request.inputs.sourceRoot), InvalidSourceRoot);
      var _ :- Require(s.instance.None? && plan.fingerprint in s.images, RejectedByTarget);
      Success(s.(instance := Some(CreatedInstance(setting, plan.fingerprint))))
    case UpdateInstance =>
      var _ :- Require(o.instance.Some?, Defect);
      var _ :- Require(o.credentials.Some?, CredentialSetRequired);
      var _ :- JudgeInstance(o.instance.value, plan.fingerprint, setting.request.inputs);
      var _ :- Require(s.instance == o.instance, RejectedByTarget);
      Success(s.(instance := Some(InstancePut(o.instance.value, Values(o.credentials.value)))))
  }

  // ----- one run -----

  /** The local writes that come before an action: the restore point, or the credential files. */
  function Prepare(setting: Setting, a: Action, plan: Plan, s: Site): Result<Site, Refusal> {
    if a == MaterializeCheckout then
      if plan.checkout.None? then Failure(Defect) else Success(s.(restorePoint := Some(plan.checkout.value.commit)))
    else if a == UpdateInstance && plan.credentials != Reuse then
      var roster := setting.request.roster;
      var _ :- Require(roster.Some?, Defect);
      if plan.credentials == Generate then
        Success(s.(credentials := Some(setting.generated.(authorizedKeys := roster.value))))
      else if s.credentials.None? then Failure(Defect)
      else Success(s.(credentials := Some(s.credentials.value.(authorizedKeys := roster.value))))
    else Success(s)
  }

  /** One action with its preparation, its request, and its verification by a fresh observation. */
  function Perform(setting: Setting, a: Action, plan: Plan, o: Observation, s: Site): Result<(Site, Observation), Refusal> {
    var prepared :- Prepare(setting, a, plan, s);
    var current :- if a == UpdateInstance then Observe(setting, prepared) else Success(o);
    var applied :- Apply(setting, a, plan, current, prepared);
    var observed :- Observe(setting, applied);
    var _ :- Require(Verify(a, plan, observed, setting.request.inputs), Unverified);
    var _ :- if a == ImportImage then RequireContainer(observed, setting.request.inputs) else Success(());
    Success((applied, observed))
  }

  function PerformAll(setting: Setting, actions: seq<Action>, plan: Plan, o: Observation, s: Site)
    : Result<(Site, Observation), Refusal>
  {
    if actions == [] then Success((s, o))
    else
      var next :- Perform(setting, actions[0], plan, o, s);
      PerformAll(setting, actions[1..], plan, next.1, next.0)
  }

  function Early(plan: Plan): seq<Action> {
    If(plan.checkout.Some?, MaterializeCheckout)
    + If(plan.image.imports, ImportImage)
    + If(plan.image.replace.Some?, DeleteImage)
    + If(plan.image.alias, CreateAlias)
  }

  function Late(plan: Plan): seq<Action> {
    If(plan.network, CreateNetwork)
    + If(plan.volume, CreateVolume)
    + If(plan.instance, CreateInstance)
    + If(plan.deliver, UpdateInstance)
  }

  function Pinned(plan: Plan, s: Site): Site {
    if plan.pin then s.(pin := Some(plan.fingerprint)) else s
  }

  /** The checkout and image actions, then the pin, then the rest. */
  function ApplyActions(setting: Setting, plan: Plan, o: Observation, s: Site): Result<(Site, Observation), Refusal> {
    var early :- PerformAll(setting, Early(plan), plan, o, s);
    PerformAll(setting, Late(plan), plan, early.1, Pinned(plan, early.0))
  }

  /** The site after a whole run whose gates are all approved, and the plan that it applied. */
  function Configure(setting: Setting, s: Site): Result<(Site, Plan), Refusal> {
    var observed :- Observe(setting, s);
    var full :- PlanOf(observed, setting.request);
    if IsEmpty(full) then Success((s, full))
    else
      var gated :- if FirstGate(full).Some? then ApplyActions(setting, FirstGate(full).value, observed, s)
                   else Success((s, observed));
      var remaining :- PlanOf(gated.1, setting.request);
      var applied :- ApplyActions(setting, remaining, gated.1, gated.0);
      var final :- Observe(setting, applied.0);
      var left :- PlanOf(final, setting.request);
      var _ :- Require(IsEmpty(left), Unverified);
      Success((applied.0, full))
  }

  lemma IfMembers(condition: bool, action: Action)
    ensures forall a :: a in If(condition, action) <==> condition && a == action
  {
  }

  /** The early actions are the checkout and the image actions, in their order, and the late ones are the rest. */
  lemma EarlyThenLate(plan: Plan)
    ensures ActionsOf(plan) == Early(plan) + Late(plan)
    ensures forall a :: a in Early(plan) ==> a == MaterializeCheckout || IsImageAction(a)
    ensures forall a :: a in Late(plan) ==> a != MaterializeCheckout && !IsImageAction(a)
  {
    hide If;
    IfMembers(plan.checkout.Some?, MaterializeCheckout);
    IfMembers(plan.image.imports, ImportImage);
    IfMembers(plan.image.replace.Some?, DeleteImage);
    IfMembers(plan.image.alias, CreateAlias);
    IfMembers(plan.network, CreateNetwork);
    IfMembers(plan.volume, CreateVolume);
    IfMembers(plan.instance, CreateInstance);
    IfMembers(plan.deliver, UpdateInstance);
  }
}
