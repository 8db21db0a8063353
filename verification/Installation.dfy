/**
 What an installation consists of: the resources an Incus target reports, the
 local credential set, the managed checkout, and the judgement of each against
 the layout. Configuration maps keep their string keys, because the judgement
 depends on key prefixes.
 */
module Installation {
  import opened Wrappers
  import opened Characters

  type ConfigMap = map<string, string>
  type Devices = map<string, ConfigMap>
  type Commit = string

  datatype Refusal =
    | InvalidSourceRoot
    | IncompatibleNetwork
    | IncompatibleVolume
    | IncompatibleInstance
    | CredentialCollision
    | RosterRequired
    | CredentialRecoveryRequired
    | CheckoutConflict
    | ImageIncompatible
    | AliasTargetInvalid
    | AliasTargetMissing
    | PinConflict
    | ImageNotFound
    | CredentialSetRequired
    | Defect
    | RejectedByTarget
    | Unverified

  datatype Image = Image(fingerprint: string, architecture: string, kind: string, aliases: set<string>)

  datatype Network = Network(
    name: string, kind: string, description: string, managed: bool, status: string, project: string, config: ConfigMap)

  datatype Volume = Volume(
    name: string, kind: string, contentType: string, description: string, project: string, config: ConfigMap)

  datatype Instance = Instance(
    name: string, architecture: string, description: string, kind: string, status: string, statusCode: int,
    project: string, ephemeral: bool, stateful: bool, profiles: seq<string>, config: ConfigMap, devices: Devices)

  datatype Layout = Layout(
    pool: string, networkName: string, networkConfig: ConfigMap, volumeName: string, volumeConfig: ConfigMap,
    ipv4Address: string, limits: ConfigMap, config: ConfigMap)

  datatype Inputs = Inputs(architecture: string, layout: Layout, sourceRoot: string)

  datatype Credentials = Credentials(authorizedKeys: string, nats: string, host: string, gatewayKey: string)

  datatype Checkout = Operator | Present(pinned: bool) | Absent(commit: Commit, pinned: bool)

  // ----- constants -----

  const ORCHESTRATOR := "qiln-orchestrator-dev"
  const PROJECT := "default"
  const CONTAINER := "container"
  const STOPPED := "Stopped"
  const STOPPED_CODE := 102
  const CREATED := "Created"
  const BRIDGE := "bridge"
  const CUSTOM := "custom"
  const FILESYSTEM := "filesystem"
  const VOLUME_DESCRIPTION := "Persistent PostgreSQL 18 data for qiln-orchestrator-dev"
  const GUEST_MOUNT := "/var/lib/postgresql"
  const SOURCE_MOUNT := "/opt/qiln"
  const VOLATILE := "volatile."
  const IMAGE_KEYS := "image."
  const BASE_IMAGE := "volatile.base_image"

  const APPARMOR :=
    "signal (send) peer=@{profile_name}//&unconfined,\nptrace (read) peer=@{profile_name}//&unconfined,"

  const ORCHESTRATOR_CONFIG: ConfigMap := map[
    "security.idmap.isolated" := "true",
    "security.nesting" := "false",
    "security.privileged" := "false",
    "raw.apparmor" := APPARMOR]

  const INCUS_DEVICE: ConfigMap := map[
    "type" := "proxy", "bind" := "instance", "listen" := "unix:/run/qiln-incus.sock",
    "connect" := "unix:/var/lib/incus/unix.socket", "uid" := "1000", "gid" := "1000", "mode" := "0600"]

  const TEXT := "systemd.credential."
  const BINARY := "systemd.credential-binary."

  const NATS := "nats-server.conf"
  const HOST := "qiln-host.env"
  const AUTHORIZED_KEYS := "qiln-orchestrator-authorized-keys"
  const GATEWAY_KEY := "qiln-ssh-gateway-host-key"

  const SUFFIXES := [NATS, HOST, AUTHORIZED_KEYS, GATEWAY_KEY]

  const CREDENTIAL_KEYS := {TEXT + NATS, TEXT + HOST, TEXT + AUTHORIZED_KEYS, BINARY + GATEWAY_KEY}

  /** Members that every plain object inherits, so that an index finds them defined. */
  const INHERITED := {
    "constructor", "__defineGetter__", "__defineSetter__", "hasOwnProperty", "__lookupGetter__", "__lookupSetter__",
    "isPrototypeOf", "propertyIsEnumerable", "toString", "valueOf", "__proto__", "toLocaleString"}

  // ----- networks and volumes -----

  /** Every expected setting holds, and nothing else is set but volatile keys. */
  predicate ConfigFits(actual: ConfigMap, expected: ConfigMap) {
    && (forall k :: k in expected ==> k in actual && actual[k] == expected[k])
    && (forall k :: k in actual ==> k in expected || VOLATILE <= k)
  }

  predicate ManagedProject(project: string) {
    project == "" || project == PROJECT
  }

  predicate NetworkFits(n: Network, layout: Layout) {
    && n.name == layout.networkName && n.kind == BRIDGE && n.description == "" && n.managed && n.status == CREATED
    && ManagedProject(n.project) && ConfigFits(n.config, layout.networkConfig)
  }

  predicate VolumeFits(v: Volume, layout: Layout) {
    && v.name == layout.volumeName && v.kind == CUSTOM && v.contentType == FILESYSTEM
    && v.description == VOLUME_DESCRIPTION && ManagedProject(v.project) && ConfigFits(v.config, layout.volumeConfig)
  }

  // ----- instances -----

  predicate IsControl(c: char) {
    c <= '\U{001f}' || c == '\U{007f}'
  }

  /** An absolute path other than the root, without surrounding space or control characters. */
  predicate ValidSourceRoot(root: string) {
    && |root| > 1 && root[0] == '/' && IsTrimmed(root)
    && forall i :: 0 <= i < |root| ==> !IsControl(root[i])
  }

  function ExpectedConfig(layout: Layout): ConfigMap {
    layout.limits + layout.config + ORCHESTRATOR_CONFIG
  }

  function ExpectedDevices(inputs: Inputs): Devices {
    var layout := inputs.layout;
    map["root" := map["type" := "disk", "pool" := layout.pool, "path" := "/"],
        "eth0" := map["type" := "nic", "name" := "eth0", "network" := layout.networkName,
                      "ipv4.address" := layout.ipv4Address, "security.ipv4_filtering" := "true",
                      "security.mac_filtering" := "true"],
        "postgres-data" := map["type" := "disk", "pool" := layout.pool, "source" := layout.volumeName,
                               "path" := GUEST_MOUNT],
        "incus" := INCUS_DEVICE,
        "source" := map["type" := "disk", "source" := inputs.sourceRoot, "path" := SOURCE_MOUNT, "readonly" := "false",
                        "shift" := "true", "required" := "true"]]
  }

  /** The expected settings that are missing or different. */
  function MissingConfig(actual: ConfigMap, expected: ConfigMap): set<string> {
    set k | k in expected && (k !in actual || actual[k] != expected[k])
  }

  /** Set keys that are not expected, volatile, of the image, or a managed credential. */
  function UnexpectedConfig(actual: ConfigMap, expected: ConfigMap): set<string> {
    set k | k in actual && k !in expected && !(VOLATILE <= k) && !(IMAGE_KEYS <= k) && k !in CREDENTIAL_KEYS
  }

  function BaseImage(config: ConfigMap): string {
    if BASE_IMAGE in config then config[BASE_IMAGE] else ""
  }

  function MissingDevices(actual: Devices, expected: Devices): set<string> {
    set d | d in expected && d !in actual
  }

  function MismatchedDevices(actual: Devices, expected: Devices): set<string> {
    set d | d in expected && d in actual && actual[d] != expected[d]
  }

  /** A name that plain objects inherit is found in the expected devices, so it never counts as unexpected. */
  function UnexpectedDevices(actual: Devices, expected: Devices): set<string> {
    set d | d in actual && d !in expected && d !in INHERITED
  }

  predicate InstanceFits(i: Instance, fingerprint: string, inputs: Inputs) {
    var config, devices := ExpectedConfig(inputs.layout), ExpectedDevices(inputs);
    && i.name == ORCHESTRATOR && i.architecture == inputs.architecture && i.description == "" && i.kind == CONTAINER
    && i.status == STOPPED && i.statusCode == STOPPED_CODE && ManagedProject(i.project) && !i.ephemeral && !i.stateful
    && i.profiles == []
    && MissingConfig(i.config, config) == {} && UnexpectedConfig(i.config, config) == {}
    && BaseImage(i.config) == fingerprint
    && MissingDevices(i.devices, devices) == {} && MismatchedDevices(i.devices, devices) == {}
    && UnexpectedDevices(i.devices, devices) == {}
  }

  // ----- credentials -----

  /** Exactly what the instance must hold. */
  function Values(c: Credentials): ConfigMap {
    map[TEXT + NATS := c.nats, TEXT + HOST := c.host, TEXT + AUTHORIZED_KEYS := c.authorizedKeys,
        BINARY + GATEWAY_KEY := c.gatewayKey]
  }

  predicate Collides(config: ConfigMap) {
    exists s :: s in SUFFIXES && TEXT + s in config && BINARY + s in config
  }

  predicate HasManagedCredentials(config: ConfigMap) {
    exists s :: s in SUFFIXES && (TEXT + s in config || BINARY + s in config)
  }

  predicate MatchesCredentials(config: ConfigMap, values: ConfigMap) {
    forall k :: k in values ==> k in config && config[k] == values[k]
  }

  /** The guarded update: the instance as read, with the credential values replaced. */
  function InstancePut(i: Instance, values: ConfigMap): Instance {
    i.(config := i.config + values)
  }

  // ----- what the judgements mean -----

  /** The five devices are as expected, and any other device has an inherited name. */
  lemma DeviceJudgement(actual: Devices, expected: Devices)
    ensures
      MissingDevices(actual, expected) == {} && MismatchedDevices(actual, expected) == {}
      && UnexpectedDevices(actual, expected) == {}
      <==>
      (forall d :: d in expected ==> d in actual && actual[d] == expected[d]) && actual.Keys - expected.Keys <= INHERITED
  {
    forall d | d in expected && MissingDevices(actual, expected) == {} && MismatchedDevices(actual, expected) == {}
      ensures d in actual && actual[d] == expected[d]
    {
      assert d !in MissingDevices(actual, expected) && d !in MismatchedDevices(actual, expected);
    }
    forall d | d in actual.Keys - expected.Keys && UnexpectedDevices(actual, expected) == {} ensures d in INHERITED {
      assert d !in UnexpectedDevices(actual, expected);
    }
  }

  /** A device added under an inherited name changes nothing that the judgement compares. */
  lemma AddedDeviceUnseen(actual: Devices, expected: Devices, name: string, device: ConfigMap)
    requires name in INHERITED && name !in expected
    ensures var more := actual[name := device];
            && MissingDevices(more, expected) == MissingDevices(actual, expected)
            && MismatchedDevices(more, expected) == MismatchedDevices(actual, expected)
            && UnexpectedDevices(more, expected) == UnexpectedDevices(actual, expected)
  {
  }

  /** The judgement of an instance overlooks a device that is added to it under an inherited name. */
  lemma InheritedDeviceIsOverlooked(i: Instance, name: string, device: ConfigMap, fingerprint: string, inputs: Inputs)
    requires name in INHERITED && name !in i.devices
    ensures var more := i.(devices := i.devices[name := device]);
            && more.devices.Keys == i.devices.Keys + {name}
            && (InstanceFits(more, fingerprint, inputs) <==> InstanceFits(i, fingerprint, inputs))
  {
    InheritedNotExpected(inputs, name);
    AddedDeviceUnseen(i.devices, ExpectedDevices(inputs), name, device);
    hide ExpectedDevices, MissingDevices, MismatchedDevices, UnexpectedDevices, MissingConfig, UnexpectedConfig;
  }

  lemma InheritedNotExpected(inputs: Inputs, name: string)
    requires name in INHERITED
    ensures name !in ExpectedDevices(inputs)
  {
    assert ExpectedDevices(inputs).Keys == {"root", "eth0", "postgres-data", "incus", "source"};
    assert name[0] in "c_hptvi";
  }

  lemma ConfigJudgement(actual: ConfigMap, expected: ConfigMap)
    ensures
      MissingConfig(actual, expected) == {} <==> forall k :: k in expected ==> k in actual && actual[k] == expected[k]
    ensures
      UnexpectedConfig(actual, expected) == {} <==>
      forall k :: k in actual ==> k in expected || VOLATILE <= k || IMAGE_KEYS <= k || k in CREDENTIAL_KEYS
  {
    forall k | k in expected && MissingConfig(actual, expected) == {} ensures k in actual && actual[k] == expected[k] {
      assert k !in MissingConfig(actual, expected);
    }
    forall k | k in actual && UnexpectedConfig(actual, expected) == {}
      ensures k in expected || VOLATILE <= k || IMAGE_KEYS <= k || k in CREDENTIAL_KEYS
    {
      assert k !in UnexpectedConfig(actual, expected);
    }
  }

  /** The keys that would put a delivered credential in both namespaces. */
  function OppositeKeys(): set<string> {
    {BINARY + NATS, BINARY + HOST, BINARY + AUTHORIZED_KEYS, TEXT + GATEWAY_KEY}
  }

  /** The layout sets no credential to another value, and none in the opposite namespace. */
  predicate AdmitsCredentials(layout: Layout, values: ConfigMap) {
    var expected := ExpectedConfig(layout);
    && expected.Keys !! OppositeKeys()
    && forall k :: k in values && k in expected ==> expected[k] == values[k]
  }

  lemma TextKey(s: string)
    ensures |TEXT + s| > 18 && (TEXT + s)[0] == 's' && (TEXT + s)[18] == '.'
  {
  }

  lemma BinaryKey(s: string)
    ensures |BINARY + s| > 18 && (BINARY + s)[0] == 's' && (BINARY + s)[18] == '-'
  {
  }

  lemma SameNamespace(prefix: string, a: string, b: string)
    requires a != b
    ensures prefix + a != prefix + b
  {
    assert (prefix + a)[|prefix|..] == a && (prefix + b)[|prefix|..] == b;
  }

  lemma GatewayKeyIsOther()
    ensures GATEWAY_KEY !in {NATS, HOST, AUTHORIZED_KEYS}
  {
    assert GATEWAY_KEY[0] != NATS[0];
    assert GATEWAY_KEY[5] != HOST[5];
    assert GATEWAY_KEY[5] != AUTHORIZED_KEYS[5];
  }

  /** No credential key of either namespace is a volatile or image key, and no opposite key is a managed one. */
  lemma CredentialKeyShapes()
    ensures forall k :: k in CREDENTIAL_KEYS + OppositeKeys() ==> |k| > 18 && k[0] == 's'
    ensures CREDENTIAL_KEYS !! OppositeKeys()
  {
    hide TEXT, BINARY, NATS, HOST, AUTHORIZED_KEYS, GATEWAY_KEY;
    GatewayKeyIsOther();
    TextKey(NATS);
    TextKey(HOST);
    TextKey(AUTHORIZED_KEYS);
    TextKey(GATEWAY_KEY);
    BinaryKey(NATS);
    BinaryKey(HOST);
    BinaryKey(AUTHORIZED_KEYS);
    BinaryKey(GATEWAY_KEY);
    SameNamespace(TEXT, GATEWAY_KEY, NATS);
    SameNamespace(TEXT, GATEWAY_KEY, HOST);
    SameNamespace(TEXT, GATEWAY_KEY, AUTHORIZED_KEYS);
    SameNamespace(BINARY, GATEWAY_KEY, NATS);
    SameNamespace(BINARY, GATEWAY_KEY, HOST);
    SameNamespace(BINARY, GATEWAY_KEY, AUTHORIZED_KEYS);
  }
}
