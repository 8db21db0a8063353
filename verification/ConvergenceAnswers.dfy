/**
 Exactly when a whole configuration run succeeds, and exactly what it leaves, in terms
 of the site alone: without plans, gates, actions or their verification.
 */
module ConvergenceAnswers {
  import opened Wrappers
  import opened Installation
  import opened Planner
  import opened PlannerAnswers
  import opened Convergence
  import opened ConvergenceLate
  import opened ConvergenceRuns

  // ----- what a run is for -----

  /** The content that is staged, or the stored image that the selector names. */
  ghost predicate Chosen(setting: Setting, s: Site, fingerprint: string) {
    match setting.source
    case Content(staged, _) => fingerprint == staged
    case Selector(name) =>
      && (if IsDigest(name) then fingerprint == name else name in s.aliases && fingerprint == s.aliases[name])
      && IsDigest(fingerprint) && (s.pin.Some? ==> s.pin.value == fingerprint)
      && fingerprint in s.images
      && s.images[fingerprint] == StoredImage(setting.request.inputs.architecture, "container")
  }

  /** The credentials of the site; a first set is generated, and a roster replaces the authorized keys. */
  function Final(setting: Setting, s: Site): Credentials {
    var c := if s.credentials.Some? then s.credentials.value else setting.generated;
    if setting.request.roster.Some? then c.(authorizedKeys := setting.request.roster.value) else c
  }

  /** How an instance holds credentials: the private key as binary, the rest as text. */
  function Delivery(c: Credentials): ConfigMap {
    map["systemd.credential." + "nats-server.conf" := c.nats,
        "systemd.credential." + "qiln-host.env" := c.host,
        "systemd.credential." + "qiln-orchestrator-authorized-keys" := c.authorizedKeys,
        "systemd.credential-binary." + "qiln-ssh-gateway-host-key" := c.gatewayKey]
  }

  /** The layout sets no credential to another value, and none in the other namespace. */
  ghost predicate Admits(layout: Layout, c: Credentials) {
    && AskedConfig(layout) + Delivery(c) == Delivery(c) + AskedConfig(layout)
    && !HoldsTwice(AskedConfig(layout) + Delivery(c))
  }

  /** The staged content is or will be a usable image, and the managed alias can be moved to it. */
  ghost predicate CanStage(setting: Setting, s: Site, fingerprint: string)
    requires setting.source.Content?
  {
    && IsDigest(fingerprint)
    && (if fingerprint in s.images then s.images[fingerprint] else setting.source.image)
       == StoredImage(setting.request.inputs.architecture, "container")
    && ("qiln-orchestrator-dev" in s.aliases ==>
          IsDigest(s.aliases["qiln-orchestrator-dev"]) && s.aliases["qiln-orchestrator-dev"] in s.images)
  }

  /** Nothing in the site stands in the way of a run. */
  ghost predicate CanRun(setting: Setting, s: Site, fingerprint: string) {
    var inputs := setting.request.inputs;
    var asked := AskedConfig(inputs.layout);
    && Chosen(setting, s, fingerprint)
    && (setting.source.Content? ==> CanStage(setting, s, fingerprint))
    && (s.network.Some? ==> IsAskedNetwork(s.network.value, inputs.layout))
    && (s.volume.Some? ==> IsAskedVolume(s.volume.value, inputs.layout))
    && (s.instance.Some? ==> UsableInstance(s.instance.value, fingerprint, inputs))
    && (s.instance.None? ==>
          && IsUsableRoot(inputs.sourceRoot)
          && ("volatile.base_image" in asked ==> asked["volatile.base_image"] == fingerprint))
    && (s.credentials.None? ==>
          setting.request.roster.Some? && (s.instance.Some? ==> !HoldsCredential(s.instance.value.config)))
    && Admits(inputs.layout, Final(setting, s))
    && (setting.managed && s.cloned ==> s.restorePoint.Some?)
  }

  /** What the managed alias targets instead of the staged content. */
  function Superseded(setting: Setting, s: Site, fingerprint: string): set<string> {
    if setting.source.Content? && "qiln-orchestrator-dev" in s.aliases && s.aliases["qiln-orchestrator-dev"] != fingerprint then
      {s.aliases["qiln-orchestrator-dev"]}
    else {}
  }

  function StoredAfter(setting: Setting, s: Site, fingerprint: string): map<string, StoredImage> {
    (if setting.source.Content? && fingerprint !in s.images then s.images[fingerprint := setting.source.image] else s.images)
    - Superseded(setting, s, fingerprint)
  }

  function AliasesAfter(setting: Setting, s: Site, fingerprint: string): map<string, string> {
    if setting.source.Selector? then s.aliases
    else
      (map a | a in s.aliases && s.aliases[a] !in Superseded(setting, s, fingerprint) :: s.aliases[a])
      ["qiln-orchestrator-dev" := fingerprint]
  }

  function NetworkAfter(setting: Setting, s: Site): Network {
    var layout := setting.request.inputs.layout;
    if s.network.Some? then s.network.value
    else
      Network(layout.networkName, "bridge", "", true, "Created", "default", setting.additions.network + layout.networkConfig)
  }

  function VolumeAfter(setting: Setting, s: Site): Volume {
    var layout := setting.request.inputs.layout;
    if s.volume.Some? then s.volume.value
    else
      Volume(layout.volumeName, "custom", "filesystem", "Persistent PostgreSQL 18 data for qiln-orchestrator-dev", "default",
             setting.additions.volume + layout.volumeConfig)
  }

  function InstanceBefore(setting: Setting, s: Site, fingerprint: string): Instance {
    var inputs := setting.request.inputs;
    if s.instance.Some? then s.instance.value
    else
      Instance("qiln-orchestrator-dev", inputs.architecture, "", "container", "Stopped", 102, "default", false, false, [],
               (setting.additions.instance + AskedConfig(inputs.layout))["volatile.base_image" := fingerprint],
               AskedDevices(inputs))
  }

  /** What is missing was created, the credentials were delivered, and nothing else has changed. */
  function SiteAfter(setting: Setting, s: Site, fingerprint: string): Site {
    var instance := InstanceBefore(setting, s, fingerprint);
    var c := Final(setting, s);
    Site(StoredAfter(setting, s, fingerprint), AliasesAfter(setting, s, fingerprint), Some(NetworkAfter(setting, s)),
         Some(VolumeAfter(setting, s)), Some(instance.(config := instance.config + Delivery(c))), s.cloned || setting.managed,
         Some(fingerprint),
         if setting.managed && s.restorePoint.None? then Some(setting.head) else s.restorePoint, Some(c))
  }

  // ----- the selection -----

  lemma SelectedExactly(setting: Setting, s: Site)
    ensures Observe(setting, s).Success? <==> exists fingerprint :: Chosen(setting, s, fingerprint)
    ensures Observe(setting, s).Success? ==> Chosen(setting, s, Observe(setting, s).value.fingerprint)
    ensures forall f :: Chosen(setting, s, f) && Observe(setting, s).Success? ==> f == Observe(setting, s).value.fingerprint
  {
    match setting.source {
      case Content(staged, _) =>
        assert Chosen(setting, s, staged);
      case Selector(name) =>
        DigestExactly(name);
        if IsDigest(name) {
          SelectorExactly(setting, s, name, name);
        } else if name in s.aliases {
          DigestExactly(s.aliases[name]);
          SelectorExactly(setting, s, name, s.aliases[name]);
        }
        hide IsFingerprint, IsDigest, Chosen, Select, CheckoutOf;
        assert Observe(setting, s).Success? <==> Select(setting, s.images, s.aliases, s.pin).Success?;
    }
  }

  lemma SelectorExactly(setting: Setting, s: Site, name: string, fingerprint: string)
    requires setting.source == Selector(name)
    requires if IsDigest(name) then fingerprint == name else name in s.aliases && fingerprint == s.aliases[name]
    ensures var selected := Select(setting, s.images, s.aliases, s.pin);
            && (selected.Success? <==> Chosen(setting, s, fingerprint))
            && (selected.Success? ==> selected.value.fingerprint == fingerprint)
    ensures forall f :: Chosen(setting, s, f) ==> f == fingerprint
  {
    DigestExactly(name);
    DigestExactly(fingerprint);
    hide IsFingerprint, IsDigest;
  }

  /** Why a selector is refused. */
  lemma SelectionRefusalMeans(setting: Setting, s: Site)
    requires Observe(setting, s).Failure?
    ensures setting.source.Selector?
    ensures var name, e := setting.source.name, Observe(setting, s).error;
            if !IsDigest(name) && name !in s.aliases then e == ImageNotFound
            else
              var chosen := if IsDigest(name) then name else s.aliases[name];
              if !IsDigest(chosen) then e == AliasTargetInvalid
              else if s.pin.Some? && s.pin.value != chosen then e == PinConflict
              else if chosen !in s.images then e == ImageNotFound
              else
                && e == ImageIncompatible
                && s.images[chosen] != StoredImage(setting.request.inputs.architecture, "container")
  {
    var name := setting.source.name;
    DigestExactly(name);
    if name in s.aliases {
      DigestExactly(s.aliases[name]);
    }
    hide IsFingerprint, IsDigest;
  }

  // ----- the credentials -----

  lemma DeliveryExactly(c: Credentials)
    ensures Values(c) == Delivery(c) && Delivery(c).Keys == CREDENTIAL_KEYS
  {
  }

  lemma MergesAlike(expected: ConfigMap, values: ConfigMap)
    ensures expected + values == values + expected <==>
      forall k :: k in values && k in expected ==> expected[k] == values[k]
  {
    if expected + values == values + expected {
      forall k | k in values && k in expected ensures expected[k] == values[k] {
        assert (expected + values)[k] == (values + expected)[k];
      }
    }
  }

  lemma MergedCollision(expected: ConfigMap, values: ConfigMap)
    requires values.Keys == CREDENTIAL_KEYS
    ensures HoldsTwice(expected + values) <==> !(expected.Keys !! OppositeKeys())
  {
    HoldsExactly(expected + values);
    CollisionByOpposite(expected + values, values);
    CredentialKeyShapes();
    hide CREDENTIAL_KEYS, OppositeKeys, Collides, HoldsTwice;
    forall k | k in OppositeKeys() ensures k in expected + values <==> k in expected.Keys {
      assert k !in values.Keys;
    }
  }

  lemma AdmitsExactly(layout: Layout, c: Credentials)
    ensures AdmitsCredentials(layout, Values(c)) <==> Admits(layout, c)
  {
    ConfigAlike(layout);
    DeliveryExactly(c);
    MergesAlike(AskedConfig(layout), Delivery(c));
    MergedCollision(AskedConfig(layout), Delivery(c));
    hide ExpectedConfig, AskedConfig, Values, Delivery, OppositeKeys, HoldsTwice;
  }

  /** A usable instance that holds the credentials shows that its layout admits them. */
  lemma HeldIsAdmitted(i: Instance, fingerprint: string, inputs: Inputs, c: Credentials)
    requires UsableInstance(i, fingerprint, inputs) && Holds(i.config, c)
    ensures AdmitsCredentials(inputs.layout, Values(c))
  {
    var expected, values := AskedConfig(inputs.layout), Values(c);
    ConfigAlike(inputs.layout);
    DeliveryExactly(c);
    MatchesExactly(i.config, c);
    HoldsExactly(i.config);
    forall k | k in values ensures k in i.config && i.config[k] == values[k] {
    }
    forall k | k in expected ensures k in i.config && i.config[k] == expected[k] {
    }
    hide ExpectedConfig, AskedConfig, Values, Delivery, CREDENTIAL_KEYS, OppositeKeys, Collides, HoldsTwice, Holds,
         MatchesCredentials;
    assert values.Keys <= i.config.Keys;
    CollisionByOpposite(i.config, values);
    forall k | k in expected.Keys ensures k !in OppositeKeys() {
      assert k in i.config;
    }
  }

  lemma DeliveredExactly(setting: Setting, plan: Plan, s: Site)
    requires Planned(setting, plan, s)
    ensures Delivered(setting, plan, s) == Some(Final(setting, s))
  {
    PlanContains(Observe(setting, s).value, setting.request);
    PlannedExactly(Observe(setting, s).value, setting.request);
    hide PlanOf, Select, CheckoutOf, Holds, UsableInstance, IsAskedNetwork, IsAskedVolume, UsableImages, HoldsCredential;
  }

  // ----- when a run succeeds -----

  lemma StageExactly(setting: Setting, s: Site)
    requires setting.source.Content?
    ensures var o, inputs := Observe(setting, s).value, setting.request.inputs;
            Observe(setting, s).Success? &&
            (CanStage(setting, s, setting.source.fingerprint) <==>
               && UsableImages(o, inputs)
               && (o.image.None? && o.alias != Some(setting.source.fingerprint) ==> ContentFits(setting)))
  {
    DigestExactly(setting.source.fingerprint);
    hide IsFingerprint, IsDigest;
  }

  /** The site, as observed, leads to a plan exactly if it can be the start of a run but for what is judged later. */
  lemma PlanExists(setting: Setting, s: Site)
    requires Observe(setting, s).Success?
    ensures var o, inputs := Observe(setting, s).value, setting.request.inputs;
            PlanOf(o, setting.request).Success? <==>
              && (s.network.Some? ==> IsAskedNetwork(s.network.value, inputs.layout))
              && (s.volume.Some? ==> IsAskedVolume(s.volume.value, inputs.layout))
              && (s.instance.Some? ==> UsableInstance(s.instance.value, o.fingerprint, inputs))
              && (s.credentials.None? ==>
                    setting.request.roster.Some? && (s.instance.Some? ==> !HoldsCredential(s.instance.value.config)))
              && (setting.managed && s.cloned ==> s.restorePoint.Some?)
              && (setting.source.Content? ==> UsableImages(o, inputs))
  {
    var o := Observe(setting, s).value;
    PlannedExactly(o, setting.request);
    hide PlanOf, Select, IsAskedNetwork, IsAskedVolume, UsableInstance, HoldsCredential, UsableImages;
  }

  lemma FeasibleExactly(setting: Setting, plan: Plan, s: Site)
    requires Planned(setting, plan, s)
    ensures var o, inputs := Observe(setting, s).value, setting.request.inputs;
            var asked := AskedConfig(inputs.layout);
            Feasible(setting, plan, s) <==>
              && (setting.source.Content? && o.image.None? && o.alias != Some(o.fingerprint) ==> ContentFits(setting))
              && (s.instance.None? ==>
                    && IsUsableRoot(inputs.sourceRoot)
                    && ("volatile.base_image" in asked ==> asked["volatile.base_image"] == o.fingerprint))
              && Admits(inputs.layout, Final(setting, s))
  {
    var o, inputs := Observe(setting, s).value, setting.request.inputs;
    PlanContains(o, setting.request);
    PlannedExactly(o, setting.request);
    DeliveredExactly(setting, plan, s);
    ConfigAlike(inputs.layout);
    RootExactly(inputs.sourceRoot);
    AdmitsExactly(inputs.layout, Final(setting, s));
    if !plan.deliver {
      assert Final(setting, s) == s.credentials.value;
      HeldIsAdmitted(s.instance.value, o.fingerprint, inputs, s.credentials.value);
    }
    hide PlanOf, Select, CheckoutOf, Holds, UsableInstance, IsAskedNetwork, IsAskedVolume, UsableImages, HoldsCredential,
         AdmitsCredentials, Admits, Values, ExpectedConfig, AskedConfig, ValidSourceRoot, IsUsableRoot, ContentFits, Delivered,
         Final;
  }

  /** A site can be the start of a run exactly if it leads to a feasible plan. */
  lemma CanRunMeans(setting: Setting, s: Site)
    requires setting.additions.Valid() && Observe(setting, s).Success?
    ensures var o := Observe(setting, s).value;
            CanRun(setting, s, o.fingerprint) <==>
              PlanOf(o, setting.request).Success? && Feasible(setting, PlanOf(o, setting.request).value, s)
  {
    var o := Observe(setting, s).value;
    SelectedExactly(setting, s);
    PlanExists(setting, s);
    if setting.source.Content? {
      StageExactly(setting, s);
      assert o.fingerprint == setting.source.fingerprint;
    }
    if PlanOf(o, setting.request).Success? {
      assert Planned(setting, PlanOf(o, setting.request).value, s);
      FeasibleExactly(setting, PlanOf(o, setting.request).value, s);
    }
    hide Chosen, CanStage, IsAskedNetwork, IsAskedVolume, UsableInstance, HoldsCredential, UsableImages, Admits, AskedConfig,
         ContentFits, Observe, PlanOf, Feasible, IsUsableRoot, Final;
  }

  /** A run succeeds exactly if nothing in the site stands in its way. */
  lemma RunSucceedsExactly(setting: Setting, s: Site)
    requires setting.additions.Valid()
    ensures Configure(setting, s).Success? <==> exists fingerprint :: CanRun(setting, s, fingerprint)
  {
    SelectedExactly(setting, s);
    assert forall f :: CanRun(setting, s, f) ==> Chosen(setting, s, f);
    hide CanRun, Chosen, Feasible, PlanOf;
    if Observe(setting, s).Success? {
      CanRunMeans(setting, s);
      var r := PlanOf(Observe(setting, s).value, setting.request);
      if r.Success? {
        assert Planned(setting, r.value, s);
        hide Configure, Observe, Planned;
        ConfigurationConverges(setting, s, r.value);
      }
    }
  }

  lemma RunHasPlan(setting: Setting, s: Site)
    requires Configure(setting, s).Success?
    ensures Observe(setting, s).Success? && PlanOf(Observe(setting, s).value, setting.request).Success?
  {
    hide Observe, PlanOf, ApplyActions, IsEmpty, FirstGate;
  }

  /** What a successful run leaves. */
  lemma RunLeavesExactly(setting: Setting, s: Site)
    requires setting.additions.Valid() && Configure(setting, s).Success?
    ensures var s' := Configure(setting, s).value.0;
            s'.pin.Some? && CanRun(setting, s, s'.pin.value) && s' == SiteAfter(setting, s, s'.pin.value)
  {
    hide CanRun, SiteAfter, Feasible, RunDone, Matches, Configure;
    RunHasPlan(setting, s);
    CanRunMeans(setting, s);
    var o := Observe(setting, s).value;
    var plan := PlanOf(o, setting.request).value;
    assert Planned(setting, plan, s) && plan.fingerprint == o.fingerprint by {
      PlanContains(o, setting.request);
    }
    hide PlanOf, Observe, Planned;
    ConfigurationConverges(setting, s, plan);
    RunDoneExactly(setting, plan, s);
    PinAfter(setting, s, o.fingerprint);
  }

  lemma PinAfter(setting: Setting, s: Site, fingerprint: string)
    ensures SiteAfter(setting, s, fingerprint).pin == Some(fingerprint)
  {
  }

  lemma ImageFlags(setting: Setting, plan: Plan, s: Site)
    requires Planned(setting, plan, s)
    ensures setting.source.Selector? ==>
      plan.image == ImagePlan(None, false, false) && Superseded(setting, s, plan.fingerprint) == {}
    ensures setting.source.Content? ==>
      var replaced := Superseded(setting, s, plan.fingerprint);
      && (plan.image.imports <==> plan.fingerprint !in s.images)
      && (plan.image.alias <==> !(ORCHESTRATOR in s.aliases && s.aliases[ORCHESTRATOR] == plan.fingerprint))
      && replaced == (if plan.image.replace.Some? then {plan.image.replace.value.fingerprint} else {})
  {
    PlannedProspect(setting, plan, s);
    if setting.source.Content? {
      ContentPlan(setting, plan, s);
    }
    hide Planned, Prospect, Selected, PlanOf;
  }

  /** The aliases that are kept are those of other images; the managed one is moved if it must be. */
  lemma AliasesAfterExactly(setting: Setting, plan: Plan, s: Site)
    requires Planned(setting, plan, s)
    ensures ImagesDone(setting, plan, s).aliases == AliasesAfter(setting, s, plan.fingerprint)
  {
    ImageFlags(setting, plan, s);
    ManagedAlias();
    hide Planned, ORCHESTRATOR, Superseded;
    if setting.source.Content? {
      var replaced := Superseded(setting, s, plan.fingerprint);
      var aliases := map a | a in s.aliases && s.aliases[a] !in replaced :: s.aliases[a];
      if plan.image.replace.Some? {
        KeptElsewhere(s.aliases, replaced, plan.image.replace.value.fingerprint);
      } else {
        assert aliases == s.aliases;
      }
      hide AliasesElsewhere;
      if !plan.image.alias {
        assert s.aliases[ORCHESTRATOR := plan.fingerprint] == s.aliases;
      }
    }
  }

  lemma KeptElsewhere(aliases: map<string, string>, replaced: set<string>, fingerprint: string)
    requires replaced == {fingerprint}
    ensures (map a | a in aliases && aliases[a] !in replaced :: aliases[a]) == AliasesElsewhere(aliases, fingerprint)
  {
  }

  lemma ImagesAfterExactly(setting: Setting, plan: Plan, s: Site)
    requires Planned(setting, plan, s)
    ensures ImagesDone(setting, plan, s) == s.(images := StoredAfter(setting, s, plan.fingerprint),
                                               aliases := AliasesAfter(setting, s, plan.fingerprint))
  {
    ImageFlags(setting, plan, s);
    AliasesAfterExactly(setting, plan, s);
    hide Planned, ORCHESTRATOR, AliasesElsewhere, AliasesAfter, Superseded;
  }

  lemma ManagedAlias()
    ensures ORCHESTRATOR == "qiln-orchestrator-dev"
  {
  }

  lemma ImagesAreApart(setting: Setting, plan: Plan, s: Site, s': Site)
    requires s'.images == s.images && s'.aliases == s.aliases
    ensures ImagesDone(setting, plan, s')
         == s'.(images := ImagesDone(setting, plan, s).images, aliases := ImagesDone(setting, plan, s).aliases)
  {
    hide AliasesElsewhere;
  }

  lemma CheckoutAfter(setting: Setting, plan: Plan, s: Site)
    requires Planned(setting, plan, s)
    ensures Cloned(plan, s) == s.(
      cloned := s.cloned || setting.managed,
      restorePoint := if setting.managed && s.restorePoint.None? then Some(setting.head) else s.restorePoint)
  {
    PlannedProspect(setting, plan, s);
    hide Planned, Prospect, Selected, PlanOf, PlanImage;
  }

  lemma LateAfter(setting: Setting, plan: Plan, s: Site)
    requires plan.network == s.network.None? && plan.volume == s.volume.None? && plan.instance == s.instance.None?
    requires Delivered(setting, plan, s) == Some(Final(setting, s))
    requires !plan.deliver ==>
      && s.instance.Some? && s.credentials.Some? && Final(setting, s) == s.credentials.value
      && MatchesCredentials(s.instance.value.config, Values(s.credentials.value))
    ensures var i, c := InstanceBefore(setting, s, plan.fingerprint), Final(setting, s);
            LateDone(setting, plan, s) == s.(
              network := Some(NetworkAfter(setting, s)), volume := Some(VolumeAfter(setting, s)),
              instance := Some(i.(config := i.config + Delivery(c))), credentials := Some(c))
  {
    ConfigAlike(setting.request.inputs.layout);
    DevicesAlike(setting.request.inputs);
    DeliveryExactly(Final(setting, s));
    if !plan.deliver {
      MatchesExactly(s.instance.value.config, s.credentials.value);
      assert s.instance.value.config + Delivery(s.credentials.value) == s.instance.value.config;
    }
    hide ExpectedConfig, AskedConfig, ExpectedDevices, AskedDevices, Values, Delivery, Delivered, Final, Holds,
         MatchesCredentials;
  }

  lemma LateFlags(setting: Setting, plan: Plan, s: Site)
    requires Planned(setting, plan, s)
    ensures plan.network == s.network.None? && plan.volume == s.volume.None? && plan.instance == s.instance.None?
    ensures plan.pin <==> s.pin != Some(plan.fingerprint)
    ensures !plan.deliver ==>
      && s.instance.Some? && s.credentials.Some? && Final(setting, s) == s.credentials.value
      && MatchesCredentials(s.instance.value.config, Values(s.credentials.value))
  {
    PlannedProspect(setting, plan, s);
    hide Planned, Selected, PlanOf, PlanImage, Compatible, NetworkFits, VolumeFits, MatchesCredentials, Values;
  }

  lemma EarlyAfter(setting: Setting, plan: Plan, s: Site)
    requires Planned(setting, plan, s)
    ensures Pinned(plan, ImagesDone(setting, plan, Cloned(plan, s))) == s.(
      images := StoredAfter(setting, s, plan.fingerprint), aliases := AliasesAfter(setting, s, plan.fingerprint),
      cloned := s.cloned || setting.managed, pin := Some(plan.fingerprint),
      restorePoint := if setting.managed && s.restorePoint.None? then Some(setting.head) else s.restorePoint)
  {
    CheckoutAfter(setting, plan, s);
    ImagesAfterExactly(setting, plan, s);
    ImagesAreApart(setting, plan, s, Cloned(plan, s));
    LateFlags(setting, plan, s);
    hide Planned, Cloned, ImagesDone, StoredAfter, AliasesAfter, MatchesCredentials, Values;
  }

  lemma RunDoneExactly(setting: Setting, plan: Plan, s: Site)
    requires Planned(setting, plan, s)
    ensures RunDone(setting, plan, s) == SiteAfter(setting, s, plan.fingerprint)
  {
    var late := Pinned(plan, ImagesDone(setting, plan, Cloned(plan, s)));
    EarlyAfter(setting, plan, s);
    LateFlags(setting, plan, s);
    DeliveredExactly(setting, plan, s);
    hide Planned, Pinned, ImagesDone, Cloned, StoredAfter, AliasesAfter, Values, Delivery, MatchesCredentials, AskedConfig,
         AskedDevices;
    SameDelivery(setting, plan, plan, s, late);
    assert Final(setting, late) == Final(setting, s);
    hide Delivered, Final;
    LateAfter(setting, plan, late);
  }

  // ----- credentials survive -----

  /** With the local set absent, no run replaces a credential that an instance holds: there is no plan to begin with. */
  lemma LostSetStopsRun(setting: Setting, s: Site)
    requires s.credentials.None? && s.instance.Some? && HoldsCredential(s.instance.value.config)
    ensures Configure(setting, s).Failure?
    ensures Observe(setting, s).Success? ==> PlanOf(Observe(setting, s).value, setting.request).Failure?
  {
    if Observe(setting, s).Success? {
      LostCredentialsAreNotReplaced(Observe(setting, s).value, setting.request);
    }
    hide PlanOf, HoldsCredential;
  }

  /**
   A successful run keeps the secrets of a local set, of which it may replace the
   roster, and draws new ones only for an instance that held none. What an
   instance had besides its credentials, it still has.
   */
  lemma CredentialsSurvive(setting: Setting, s: Site)
    requires setting.additions.Valid() && Configure(setting, s).Success?
    ensures var s' := Configure(setting, s).value.0;
            && s'.credentials.Some? && s'.instance.Some? && Holds(s'.instance.value.config, s'.credentials.value)
            && var c, i := s'.credentials.value, s'.instance.value;
               && (s.credentials.Some? ==> c == s.credentials.value.(authorizedKeys := c.authorizedKeys))
               && (s.credentials.Some? && setting.request.roster.None? ==> c == s.credentials.value)
               && (s.credentials.None? ==> c == setting.generated.(authorizedKeys := c.authorizedKeys))
               && (s.credentials.None? && s.instance.Some? ==> !HoldsCredential(s.instance.value.config))
               && (setting.request.roster.Some? ==> c.authorizedKeys == setting.request.roster.value)
               && (s.instance.Some? ==>
                     && i == s.instance.value.(config := i.config)
                     && i.config - DELIVERED == s.instance.value.config - DELIVERED)
  {
    RunLeavesExactly(setting, s);
    var fingerprint := Configure(setting, s).value.0.pin.value;
    hide Configure;
    assert s.credentials.None? && s.instance.Some? ==> !HoldsCredential(s.instance.value.config);
    hide CanRun, SiteAfter, HoldsCredential;
    CredentialsAfter(setting, s, fingerprint);
  }

  lemma CredentialsAfter(setting: Setting, s: Site, fingerprint: string)
    ensures var s', c := SiteAfter(setting, s, fingerprint), Final(setting, s);
            && s'.credentials == Some(c) && s'.instance.Some? && Holds(s'.instance.value.config, c)
            && (s.credentials.Some? ==> c == s.credentials.value.(authorizedKeys := c.authorizedKeys))
            && (s.credentials.Some? && setting.request.roster.None? ==> c == s.credentials.value)
            && (s.credentials.None? ==> c == setting.generated.(authorizedKeys := c.authorizedKeys))
            && (setting.request.roster.Some? ==> c.authorizedKeys == setting.request.roster.value)
            && (s.instance.Some? ==>
                  var i := s'.instance.value;
                  && i == s.instance.value.(config := i.config)
                  && i.config - DELIVERED == s.instance.value.config - DELIVERED)
  {
    var i, c := InstanceBefore(setting, s, fingerprint), Final(setting, s);
    DeliveryHolds(i.config, c);
    hide StoredAfter, AliasesAfter, NetworkAfter, VolumeAfter, AskedConfig, AskedDevices, Delivery, Holds, DELIVERED;
  }

  lemma DeliveryHolds(config: ConfigMap, c: Credentials)
    ensures Holds(config + Delivery(c), c)
    ensures (config + Delivery(c)) - DELIVERED == config - DELIVERED
  {
    assert config + Delivery(c) + Delivery(c) == config + Delivery(c);
    assert Delivery(c).Keys == DELIVERED;
  }
}
