/**
 What the planner answers, in terms of what was observed: when there is a plan,
 what it contains, what each refusal means, and when an action counts as verified.
 */
module PlannerAnswers {
  import opened Wrappers
  import opened Installation
  import opened Planner
  import Characters

  // ----- resources as their creation leaves them -----

  /** Sixty-four lower-case hexadecimal digits. */
  predicate IsDigest(s: string) {
    |s| == 64 && forall i :: 0 <= i < |s| ==> s[i] in "0123456789abcdef"
  }

  /** The settings without the ones of the prefix that are not asked for. */
  function Without(config: ConfigMap, prefix: string, asked: ConfigMap): ConfigMap {
    map k | k in config && (k in asked || !(prefix <= k)) :: config[k]
  }

  /** The network that the layout asks for, but for volatile settings. */
  ghost predicate IsAskedNetwork(n: Network, layout: Layout) {
    && (n.project == "" || n.project == "default")
    && n == Network(layout.networkName, "bridge", "", true, "Created", n.project, n.config)
    && Without(n.config, "volatile.", layout.networkConfig) == layout.networkConfig
  }

  ghost predicate IsAskedVolume(v: Volume, layout: Layout) {
    && (v.project == "" || v.project == "default")
    && v == Volume(layout.volumeName, "custom", "filesystem", "Persistent PostgreSQL 18 data for qiln-orchestrator-dev",
                   v.project, v.config)
    && Without(v.config, "volatile.", layout.volumeConfig) == layout.volumeConfig
  }

  /** The settings of the layout, of which four are not the operator's to choose. */
  function AskedConfig(layout: Layout): ConfigMap {
    layout.limits + layout.config + map[
      "security.idmap.isolated" := "true", "security.nesting" := "false", "security.privileged" := "false",
      "raw.apparmor" :=
        "signal (send) peer=@{profile_name}//&unconfined,\nptrace (read) peer=@{profile_name}//&unconfined,"]
  }

  function AskedDevices(inputs: Inputs): Devices {
    var layout := inputs.layout;
    map["root" := map["type" := "disk", "path" := "/", "pool" := layout.pool],
        "eth0" := map["type" := "nic", "name" := "eth0", "network" := layout.networkName,
                      "security.mac_filtering" := "true", "security.ipv4_filtering" := "true",
                      "ipv4.address" := layout.ipv4Address],
        "postgres-data" := map["type" := "disk", "path" := "/var/lib/postgresql", "pool" := layout.pool,
                               "source" := layout.volumeName],
        "incus" := map["type" := "proxy", "bind" := "instance", "listen" := "unix:/run/qiln-incus.sock",
                       "connect" := "unix:/var/lib/incus/unix.socket", "uid" := "1000", "gid" := "1000", "mode" := "0600"],
        "source" := map["type" := "disk", "path" := "/opt/qiln", "source" := inputs.sourceRoot, "readonly" := "false",
                        "shift" := "true", "required" := "true"]]
  }

  /** The keys that deliver the four credentials. */
  const DELIVERED: set<string> := {
    "systemd.credential." + "nats-server.conf", "systemd.credential." + "qiln-host.env",
    "systemd.credential." + "qiln-orchestrator-authorized-keys", "systemd.credential-binary." + "qiln-ssh-gateway-host-key"}

  /** An absolute path below the root without a control character, and without white space at either end. */
  predicate IsUsableRoot(root: string) {
    && |root| > 1 && root[0] == '/' && !Characters.IsSpace(root[|root| - 1])
    && forall i :: 0 <= i < |root| ==> ' ' <= root[i] != '\U{007f}'
  }

  /** The instance that the inputs ask for, but for volatile, image and credential settings and inherited device names. */
  ghost predicate IsAskedInstance(i: Instance, fingerprint: string, inputs: Inputs) {
    var asked := AskedConfig(inputs.layout);
    && (i.project == "" || i.project == "default")
    && i == Instance("qiln-orchestrator-dev", inputs.architecture, "", "container", "Stopped", 102, i.project, false, false,
                     [], i.config, i.devices)
    && (forall k :: k in asked ==> k in i.config && i.config[k] == asked[k])
    && (forall k :: k in i.config ==> k in asked || "volatile." <= k || "image." <= k || k in DELIVERED)
    && fingerprint == (if "volatile.base_image" in i.config then i.config["volatile.base_image"] else "")
    && (forall d :: d in AskedDevices(inputs) ==> d in i.devices && i.devices[d] == AskedDevices(inputs)[d])
    && (forall d :: d in i.devices ==> d in AskedDevices(inputs) || d in INHERITED)
  }

  const CREDENTIALS := ["nats-server.conf", "qiln-host.env", "qiln-orchestrator-authorized-keys", "qiln-ssh-gateway-host-key"]

  /** Some credential is set as text or as binary. */
  ghost predicate HoldsCredential(config: ConfigMap) {
    exists n :: 0 <= n < 4 && ("systemd.credential." + CREDENTIALS[n] in config
                               || "systemd.credential-binary." + CREDENTIALS[n] in config)
  }

  /** Some credential is set both as text and as binary. */
  ghost predicate HoldsTwice(config: ConfigMap) {
    exists n :: 0 <= n < 4 && "systemd.credential." + CREDENTIALS[n] in config
                && "systemd.credential-binary." + CREDENTIALS[n] in config
  }

  /** The four credentials are set to these values, the private key as binary. */
  predicate Holds(config: ConfigMap, c: Credentials) {
    var expected := map[
      "systemd.credential." + "nats-server.conf" := c.nats, "systemd.credential." + "qiln-host.env" := c.host,
      "systemd.credential." + "qiln-orchestrator-authorized-keys" := c.authorizedKeys,
      "systemd.credential-binary." + "qiln-ssh-gateway-host-key" := c.gatewayKey];
    config + expected == config
  }

  ghost predicate UsableInstance(i: Instance, fingerprint: string, inputs: Inputs) {
    !HoldsTwice(i.config) && IsUsableRoot(inputs.sourceRoot) && IsAskedInstance(i, fingerprint, inputs)
  }

  predicate IsUsableImage(image: Image, fingerprint: string, inputs: Inputs) {
    IsDigest(fingerprint) && image == Image(fingerprint, inputs.architecture, "container", image.aliases)
  }

  // ----- the judgements -----

  lemma FitsExactly(actual: ConfigMap, expected: ConfigMap)
    ensures ConfigFits(actual, expected) <==> Without(actual, "volatile.", expected) == expected
  {
    var w := Without(actual, "volatile.", expected);
    if ConfigFits(actual, expected) {
      assert w == expected;
    }
    if w == expected {
      forall k | k in expected ensures k in actual && actual[k] == expected[k] {
        assert k in w;
      }
      forall k | k in actual && !(VOLATILE <= k) ensures k in expected {
        assert k in w;
      }
    }
  }

  lemma NetworkExactly(n: Network, layout: Layout)
    ensures NetworkFits(n, layout) <==> IsAskedNetwork(n, layout)
  {
    FitsExactly(n.config, layout.networkConfig);
  }

  lemma VolumeExactly(v: Volume, layout: Layout)
    ensures VolumeFits(v, layout) <==> IsAskedVolume(v, layout)
  {
    FitsExactly(v.config, layout.volumeConfig);
  }

  lemma ConfigAlike(layout: Layout)
    ensures ExpectedConfig(layout) == AskedConfig(layout)
  {
  }

  lemma DevicesAlike(inputs: Inputs)
    ensures ExpectedDevices(inputs) == AskedDevices(inputs)
  {
    var expected, asked := ExpectedDevices(inputs), AskedDevices(inputs);
    DisksAlike(inputs);
    PortsAlike(inputs);
    hide INCUS_DEVICE;
    assert expected.Keys == {"root", "eth0", "postgres-data", "incus", "source"} == asked.Keys;
  }

  lemma DisksAlike(inputs: Inputs)
    ensures var expected, asked := ExpectedDevices(inputs), AskedDevices(inputs);
            && expected["root"] == asked["root"] && expected["postgres-data"] == asked["postgres-data"]
            && expected["source"] == asked["source"]
  {
    hide INCUS_DEVICE;
  }

  lemma PortsAlike(inputs: Inputs)
    ensures var expected, asked := ExpectedDevices(inputs), AskedDevices(inputs);
            expected["eth0"] == asked["eth0"] && expected["incus"] == asked["incus"]
  {
  }

  lemma KeysAlike()
    ensures CREDENTIAL_KEYS == DELIVERED
    ensures SUFFIXES == CREDENTIALS
  {
  }

  lemma DigestExactly(s: string)
    ensures IsFingerprint(s) <==> IsDigest(s)
  {
    forall c: char ensures c in "0123456789abcdef" <==> '0' <= c <= '9' || 'a' <= c <= 'f' {
      HexDigits(c);
    }
    assert IsFingerprint(s) ==> forall i :: 0 <= i < |s| ==> s[i] in "0123456789abcdef";
  }

  lemma HexDigits(c: char)
    ensures c in "0123456789abcdef" <==> '0' <= c <= '9' || 'a' <= c <= 'f'
  {
    var digits := "0123456789abcdef";
    assert digits[0] == '0' && digits[1] == '1' && digits[2] == '2' && digits[3] == '3' && digits[4] == '4'
        && digits[5] == '5' && digits[6] == '6' && digits[7] == '7' && digits[8] == '8' && digits[9] == '9'
        && digits[10] == 'a' && digits[11] == 'b' && digits[12] == 'c' && digits[13] == 'd' && digits[14] == 'e'
        && digits[15] == 'f';
  }

  lemma RootExactly(root: string)
    ensures ValidSourceRoot(root) <==> IsUsableRoot(root)
  {
  }

  lemma HoldsExactly(config: ConfigMap)
    ensures HasManagedCredentials(config) <==> HoldsCredential(config)
    ensures Collides(config) <==> HoldsTwice(config)
  {
    KeysAlike();
    hide SUFFIXES, CREDENTIALS;
    assert |SUFFIXES| == 4 by { SuffixCount(); }
    if s :| s in SUFFIXES && (TEXT + s in config || BINARY + s in config) {
      var n :| 0 <= n < 4 && SUFFIXES[n] == s;
      assert TEXT + CREDENTIALS[n] in config || BINARY + CREDENTIALS[n] in config;
    }
    if s :| s in SUFFIXES && TEXT + s in config && BINARY + s in config {
      var n :| 0 <= n < 4 && SUFFIXES[n] == s;
      assert TEXT + CREDENTIALS[n] in config && BINARY + CREDENTIALS[n] in config;
    }
    if HoldsCredential(config) {
      var n :| 0 <= n < 4 && (TEXT + CREDENTIALS[n] in config || BINARY + CREDENTIALS[n] in config);
      assert CREDENTIALS[n] in SUFFIXES;
    }
    if HoldsTwice(config) {
      var n :| 0 <= n < 4 && TEXT + CREDENTIALS[n] in config && BINARY + CREDENTIALS[n] in config;
      assert CREDENTIALS[n] in SUFFIXES;
    }
  }

  lemma SuffixCount()
    ensures |SUFFIXES| == 4
  {
  }

  lemma MatchesExactly(config: ConfigMap, c: Credentials)
    ensures MatchesCredentials(config, Values(c)) <==> Holds(config, c)
  {
    KeysAlike();
    var expected := Values(c);
    if MatchesCredentials(config, expected) {
      assert config + expected == config;
    }
    if config + expected == config {
      forall k | k in expected ensures k in config && config[k] == expected[k] {
        assert k in config + expected;
      }
    }
  }

  lemma InstanceExactly(i: Instance, fingerprint: string, inputs: Inputs)
    ensures InstanceFits(i, fingerprint, inputs) <==> IsAskedInstance(i, fingerprint, inputs)
  {
    ConfigAlike(inputs.layout);
    DevicesAlike(inputs);
    KeysAlike();
    ConfigJudgement(i.config, ExpectedConfig(inputs.layout));
    DeviceJudgement(i.devices, ExpectedDevices(inputs));
    hide ExpectedConfig, AskedConfig, ExpectedDevices, AskedDevices, MissingConfig, UnexpectedConfig, MissingDevices,
         MismatchedDevices, UnexpectedDevices, INHERITED, CREDENTIAL_KEYS, DELIVERED;
  }

  lemma JudgementExactly(i: Instance, fingerprint: string, inputs: Inputs)
    ensures JudgeInstance(i, fingerprint, inputs).Success? <==> UsableInstance(i, fingerprint, inputs)
    ensures JudgeInstance(i, fingerprint, inputs) == Failure(CredentialCollision) <==> HoldsTwice(i.config)
    ensures JudgeInstance(i, fingerprint, inputs) == Failure(InvalidSourceRoot) ==> !IsUsableRoot(inputs.sourceRoot)
    ensures JudgeInstance(i, fingerprint, inputs) == Failure(IncompatibleInstance) ==>
      !IsAskedInstance(i, fingerprint, inputs)
    ensures JudgeInstance(i, fingerprint, inputs).Failure? ==>
      JudgeInstance(i, fingerprint, inputs).error in {CredentialCollision, InvalidSourceRoot, IncompatibleInstance}
  {
    HoldsExactly(i.config);
    RootExactly(inputs.sourceRoot);
    InstanceExactly(i, fingerprint, inputs);
    hide HoldsTwice, Collides, IsUsableRoot, ValidSourceRoot, InstanceFits, IsAskedInstance;
  }

  // ----- the plan -----

  /** Without local credentials a first set can be generated: there is a roster, and no set to be lost. */
  ghost predicate MayGenerate(o: Observation, request: Request) {
    request.roster.Some? && (o.instance.Some? ==> !HoldsCredential(o.instance.value.config))
  }

  /** The staged content can take the place of what the alias targets. */
  ghost predicate UsableImages(o: Observation, inputs: Inputs) {
    && (o.image.Some? ==> IsUsableImage(o.image.value, o.fingerprint, inputs))
    && (o.alias.Some? ==> IsDigest(o.alias.value) && o.aliased.Some? && o.aliased.value.fingerprint == o.alias.value)
  }

  lemma CredentialsPlanExactly(o: Observation, roster: Option<string>)
    ensures var r := PlanCredentials(o, roster);
            && (r == Failure(RosterRequired) <==> o.credentials.None? && roster.None?)
            && (r == Failure(CredentialRecoveryRequired) <==>
                  && o.credentials.None? && roster.Some? && o.instance.Some?
                  && HoldsCredential(o.instance.value.config))
            && (r.Failure? ==> r.error in {RosterRequired, CredentialRecoveryRequired})
  {
    if o.instance.Some? {
      HoldsExactly(o.instance.value.config);
    }
    hide HasManagedCredentials, HoldsCredential;
  }

  /** There is a plan exactly if nothing that was observed stands in its way. */
  lemma PlannedExactly(o: Observation, request: Request)
    ensures PlanOf(o, request).Success? <==>
      && (o.network.Some? ==> IsAskedNetwork(o.network.value, request.inputs.layout))
      && (o.volume.Some? ==> IsAskedVolume(o.volume.value, request.inputs.layout))
      && (o.instance.Some? ==> UsableInstance(o.instance.value, o.fingerprint, request.inputs))
      && (o.credentials.None? ==> MayGenerate(o, request))
      && o.checkout != Present(false)
      && (o.kind == Split ==> UsableImages(o, request.inputs))
  {
    if o.network.Some? {
      NetworkExactly(o.network.value, request.inputs.layout);
    }
    if o.volume.Some? {
      VolumeExactly(o.volume.value, request.inputs.layout);
    }
    if o.instance.Some? {
      JudgementExactly(o.instance.value, o.fingerprint, request.inputs);
    }
    CredentialsPlanExactly(o, request.roster);
    ImagePlanExactly(o, request.inputs);
    hide NetworkFits, VolumeFits, JudgeInstance, PlanCredentials, PlanImage, IsAskedNetwork, IsAskedVolume,
         UsableInstance, HoldsCredential, UsableImages, MatchesCredentials, Values;
  }

  lemma ImagePlanExactly(o: Observation, inputs: Inputs)
    ensures PlanImage(o, inputs).Success? <==> (o.kind == Split ==> UsableImages(o, inputs))
    ensures PlanImage(o, inputs).Failure? ==>
      var e := PlanImage(o, inputs).error;
      && (e == ImageIncompatible ==> o.image.Some? && !IsUsableImage(o.image.value, o.fingerprint, inputs))
      && (e == AliasTargetInvalid ==> o.alias.Some? && !IsDigest(o.alias.value))
      && (e == AliasTargetMissing ==>
            o.alias.Some? && (o.aliased.None? || o.aliased.value.fingerprint != o.alias.value))
      && e in {ImageIncompatible, AliasTargetInvalid, AliasTargetMissing}
  {
    DigestExactly(o.fingerprint);
    if o.alias.Some? {
      DigestExactly(o.alias.value);
    }
    hide IsFingerprint, IsDigest;
  }

  /** What the plan contains. */
  lemma PlanContains(o: Observation, request: Request)
    requires PlanOf(o, request).Success?
    ensures var plan := PlanOf(o, request).value;
            && plan.fingerprint == o.fingerprint
            && (plan.network <==> o.network.None?) && (plan.volume <==> o.volume.None?)
            && (plan.instance <==> o.instance.None?)
            && (plan.pin <==> !(o.pin.Some? && o.pin.value == o.fingerprint))
            && (plan.credentials == Generate <==> o.credentials.None?)
            && (plan.credentials == Roster <==>
                  && o.credentials.Some? && request.roster.Some?
                  && request.roster.value != o.credentials.value.authorizedKeys)
            && (plan.deliver <==>
                  !(&& o.instance.Some? && o.credentials.Some? && Holds(o.instance.value.config, o.credentials.value)
                    && (request.roster.Some? ==> request.roster.value == o.credentials.value.authorizedKeys)))
            && plan.checkout == (if o.checkout.Absent? then Some(CheckoutPlan(o.checkout.commit, !o.checkout.pinned))
                                 else None)
            && (plan.image.alias <==> o.kind == Split && !(o.alias.Some? && o.alias.value == o.fingerprint))
            && (plan.image.imports <==> plan.image.alias && o.image.None?)
            && (plan.image.replace.Some? <==> plan.image.alias && o.alias.Some?)
            && (plan.image.replace.Some? ==>
                  o.aliased.Some? && plan.image.replace.value == Replacement(o.alias.value, o.aliased.value.aliases))
  {
    if o.instance.Some? && o.credentials.Some? {
      MatchesExactly(o.instance.value.config, o.credentials.value);
    }
    hide NetworkFits, VolumeFits, JudgeInstance, HasManagedCredentials, MatchesCredentials, Holds, IsFingerprint, Values;
  }

  /** A local set that is lost while the instance still holds a credential is never replaced: there is no plan. */
  lemma LostCredentialsAreNotReplaced(o: Observation, request: Request)
    requires o.credentials.None? && o.instance.Some? && HoldsCredential(o.instance.value.config)
    ensures PlanOf(o, request).Failure?
    ensures && request.roster.Some? && UsableInstance(o.instance.value, o.fingerprint, request.inputs)
            && (o.network.Some? ==> IsAskedNetwork(o.network.value, request.inputs.layout))
            && (o.volume.Some? ==> IsAskedVolume(o.volume.value, request.inputs.layout))
            ==> PlanOf(o, request) == Failure(CredentialRecoveryRequired)
  {
    PlannedExactly(o, request);
    if o.network.Some? {
      NetworkExactly(o.network.value, request.inputs.layout);
    }
    if o.volume.Some? {
      VolumeExactly(o.volume.value, request.inputs.layout);
    }
    JudgementExactly(o.instance.value, o.fingerprint, request.inputs);
    CredentialsPlanExactly(o, request.roster);
    hide NetworkFits, VolumeFits, JudgeInstance, PlanCredentials, PlanCheckout, PlanImage, IsAskedNetwork, IsAskedVolume,
         UsableInstance, HoldsCredential, UsableImages, MatchesCredentials, Values;
  }

  /** A refusal comes from one of the judgements. */
  lemma RefusalComesFrom(o: Observation, request: Request)
    requires PlanOf(o, request).Failure?
    ensures var inputs, e := request.inputs, PlanOf(o, request).error;
            || (e == IncompatibleNetwork && o.network.Some? && !NetworkFits(o.network.value, inputs.layout))
            || (e == IncompatibleVolume && o.volume.Some? && !VolumeFits(o.volume.value, inputs.layout))
            || (o.instance.Some? && JudgeInstance(o.instance.value, o.fingerprint, inputs) == Failure(e))
            || PlanCredentials(o, request.roster) == Failure(e)
            || PlanCheckout(o.checkout) == Failure(e)
            || PlanImage(o, inputs) == Failure(e)
  {
    hide NetworkFits, VolumeFits, JudgeInstance, PlanCredentials, PlanCheckout, PlanImage, MatchesCredentials, Values;
  }

  /** What a refusal says of the target. */
  lemma TargetRefusalMeans(o: Observation, request: Request)
    requires PlanOf(o, request).Failure?
    ensures var inputs, e := request.inputs, PlanOf(o, request).error;
            && (e == IncompatibleNetwork ==> o.network.Some? && !IsAskedNetwork(o.network.value, inputs.layout))
            && (e == IncompatibleVolume ==> o.volume.Some? && !IsAskedVolume(o.volume.value, inputs.layout))
            && (e == CredentialCollision ==> o.instance.Some? && HoldsTwice(o.instance.value.config))
            && (e == InvalidSourceRoot ==> o.instance.Some? && !IsUsableRoot(inputs.sourceRoot))
            && (e == IncompatibleInstance ==>
                  o.instance.Some? && !IsAskedInstance(o.instance.value, o.fingerprint, inputs))
  {
    if o.network.Some? {
      NetworkExactly(o.network.value, request.inputs.layout);
    }
    if o.volume.Some? {
      VolumeExactly(o.volume.value, request.inputs.layout);
    }
    if o.instance.Some? {
      JudgementExactly(o.instance.value, o.fingerprint, request.inputs);
    }
    RefusalComesFrom(o, request);
    LocalRefusals(o, request);
    hide PlanOf, NetworkFits, VolumeFits, JudgeInstance, PlanCredentials, PlanCheckout, PlanImage, IsAskedNetwork,
         IsAskedVolume, IsAskedInstance, HoldsTwice, IsUsableRoot;
  }

  lemma LocalRefusals(o: Observation, request: Request)
    ensures var r := PlanCredentials(o, request.roster);
            r.Failure? ==> r.error in {RosterRequired, CredentialRecoveryRequired}
    ensures var r := PlanCheckout(o.checkout); r.Failure? ==> r.error == CheckoutConflict
    ensures var r := PlanImage(o, request.inputs);
            r.Failure? ==> r.error in {ImageIncompatible, AliasTargetInvalid, AliasTargetMissing}
  {
    CredentialsPlanExactly(o, request.roster);
    ImagePlanExactly(o, request.inputs);
    hide PlanCredentials, PlanImage;
  }

  /** What a refusal says of the local files, the checkout and the images. */
  lemma LocalRefusalMeans(o: Observation, request: Request)
    requires PlanOf(o, request).Failure?
    ensures var inputs, e := request.inputs, PlanOf(o, request).error;
            && (e == RosterRequired ==> o.credentials.None? && request.roster.None?)
            && (e == CredentialRecoveryRequired ==>
                  && o.credentials.None? && request.roster.Some? && o.instance.Some?
                  && HoldsCredential(o.instance.value.config))
            && (e == CheckoutConflict ==> o.checkout == Present(false))
            && (e == ImageIncompatible ==> o.image.Some? && !IsUsableImage(o.image.value, o.fingerprint, inputs))
            && (e == AliasTargetInvalid ==> o.alias.Some? && !IsDigest(o.alias.value))
            && (e == AliasTargetMissing ==>
                  o.alias.Some? && (o.aliased.None? || o.aliased.value.fingerprint != o.alias.value))
  {
    if o.instance.Some? {
      JudgementExactly(o.instance.value, o.fingerprint, request.inputs);
    }
    RefusalComesFrom(o, request);
    LocalRefusals(o, request);
    CredentialsPlanExactly(o, request.roster);
    ImagePlanExactly(o, request.inputs);
    hide PlanOf, NetworkFits, VolumeFits, JudgeInstance, PlanCredentials, PlanImage, HoldsCredential, IsUsableImage, IsDigest;
  }

  // ----- gates and actions -----

  /** The actions of a plan are those that it asks for. */
  lemma ActionsExactly(plan: Plan, a: Action)
    ensures a in ActionsOf(plan) <==>
      match a
      case MaterializeCheckout => plan.checkout.Some?
      case ImportImage => plan.image.imports
      case DeleteImage => plan.image.replace.Some?
      case CreateAlias => plan.image.alias
      case CreateNetwork => plan.network
      case CreateVolume => plan.volume
      case CreateInstance => plan.instance
      case UpdateInstance => plan.deliver
  {
    InIf(plan.checkout.Some?, MaterializeCheckout, a);
    InIf(plan.image.imports, ImportImage, a);
    InIf(plan.image.replace.Some?, DeleteImage, a);
    InIf(plan.image.alias, CreateAlias, a);
    InIf(plan.network, CreateNetwork, a);
    InIf(plan.volume, CreateVolume, a);
    InIf(plan.instance, CreateInstance, a);
    InIf(plan.deliver, UpdateInstance, a);
    hide If;
  }

  lemma InIf(condition: bool, action: Action, a: Action)
    ensures a in If(condition, action) <==> condition && a == action
  {
  }

  /** An import comes before the deletion it replaces, which frees the alias; the instance comes after what it uses. */
  function Place(a: Action): nat {
    match a
    case MaterializeCheckout => 1
    case ImportImage => 2
    case DeleteImage => 3
    case CreateAlias => 4
    case CreateNetwork => 5
    case CreateVolume => 6
    case CreateInstance => 7
    case UpdateInstance => 8
  }

  ghost predicate InOrder(actions: seq<Action>, last: nat) {
    && (forall i, j :: 0 <= i < j < |actions| ==> Place(actions[i]) < Place(actions[j]))
    && (forall i :: 0 <= i < |actions| ==> Place(actions[i]) <= last)
  }

  lemma NextInOrder(before: seq<Action>, last: nat, condition: bool, a: Action)
    requires InOrder(before, last) && Place(a) == last + 1
    ensures InOrder(before + If(condition, a), last + 1)
  {
    hide Place;
  }

  lemma ActionsInOrder(plan: Plan)
    ensures var actions := ActionsOf(plan);
            forall i, j :: 0 <= i < j < |actions| ==> Place(actions[i]) < Place(actions[j])
  {
    hide InOrder, If;
    var early := ImagesInOrder(plan);
    var a5 := early + If(plan.network, CreateNetwork);
    var a6 := a5 + If(plan.volume, CreateVolume);
    NextInOrder(early, 4, plan.network, CreateNetwork);
    NextInOrder(a5, 5, plan.volume, CreateVolume);
    NextInOrder(a6, 6, plan.instance, CreateInstance);
    NextInOrder(a6 + If(plan.instance, CreateInstance), 7, plan.deliver, UpdateInstance);
    Ordered(ActionsOf(plan));
  }

  lemma FirstInOrder(condition: bool)
    ensures InOrder(If(condition, MaterializeCheckout), 1)
  {
  }

  lemma ImagesInOrder(plan: Plan) returns (early: seq<Action>)
    ensures early == If(plan.checkout.Some?, MaterializeCheckout) + If(plan.image.imports, ImportImage)
                     + If(plan.image.replace.Some?, DeleteImage) + If(plan.image.alias, CreateAlias)
    ensures InOrder(early, 4)
  {
    hide InOrder, If;
    var a1 := If(plan.checkout.Some?, MaterializeCheckout);
    var a2 := a1 + If(plan.image.imports, ImportImage);
    var a3 := a2 + If(plan.image.replace.Some?, DeleteImage);
    FirstInOrder(plan.checkout.Some?);
    NextInOrder(a1, 1, plan.image.imports, ImportImage);
    NextInOrder(a2, 2, plan.image.replace.Some?, DeleteImage);
    NextInOrder(a3, 3, plan.image.alias, CreateAlias);
    early := a3 + If(plan.image.alias, CreateAlias);
  }

  lemma Ordered(actions: seq<Action>)
    requires InOrder(actions, 8)
    ensures forall i, j :: 0 <= i < j < |actions| ==> Place(actions[i]) < Place(actions[j])
  {
  }

  /** A plan has a gate of its own for what it only adds exactly if it replaces an image by one that it imports. */
  lemma FirstGateExactly(plan: Plan)
    ensures FirstGate(plan).Some? <==> plan.image.replace.Some? && plan.image.imports
    ensures FirstGate(plan).Some? ==>
      FirstGate(plan).value == Plan(plan.fingerprint, plan.checkout, ImagePlan(None, true, false), false, false, false, false,
                                    Reuse, false)
  {
  }

  // ----- verification -----

  /** When an action counts as verified. */
  lemma VerifiedExactly(a: Action, plan: Plan, o: Observation, inputs: Inputs)
    ensures Verify(a, plan, o, inputs) <==>
      match a
      case MaterializeCheckout => o.checkout == Present(true) || o.checkout == Present(false)
      case ImportImage => o.image.Some? && o.image.value.fingerprint == plan.fingerprint
      case DeleteImage =>
        plan.image.replace.Some? && (o.alias.Some? ==> plan.image.replace.value.fingerprint != o.alias.value)
      case CreateAlias => o.alias.Some? && o.alias.value == plan.fingerprint
      case CreateNetwork => !o.network.None?
      case CreateVolume => !o.volume.None?
      case CreateInstance => o.instance.Some? && UsableInstance(o.instance.value, plan.fingerprint, inputs)
      case UpdateInstance =>
        && o.instance.Some? && UsableInstance(o.instance.value, plan.fingerprint, inputs)
        && o.credentials.Some? && Holds(o.instance.value.config, o.credentials.value)
  {
    if o.instance.Some? {
      JudgementExactly(o.instance.value, plan.fingerprint, inputs);
      if o.credentials.Some? {
        MatchesExactly(o.instance.value.config, o.credentials.value);
      }
    }
    hide JudgeInstance, UsableInstance, MatchesCredentials, Holds, Values;
  }

  /** What was verified is not planned again for the same content while the roster stays. */
  lemma VerifiedIsNotPlanned(a: Action, plan: Plan, o: Observation, inputs: Inputs)
    requires Verify(a, plan, o, inputs) && a != DeleteImage && o.fingerprint == plan.fingerprint
    requires PlanOf(o, Request(inputs, None)).Success?
    ensures a !in ActionsOf(PlanOf(o, Request(inputs, None)).value)
  {
    PlanContains(o, Request(inputs, None));
    VerifiedExactly(a, plan, o, inputs);
    ActionsExactly(PlanOf(o, Request(inputs, None)).value, a);
    hide PlanOf, Verify, ActionsOf, UsableInstance, Holds;
  }
}
