/** Machine specifications: the identity, ports, role and configuration of one
    database server of a service (boltkit/server/__init__.py, lines 43-98). */
module MachineSpecs {
  import opened Wrappers
  import opened Settings

  /** Which spec class a spec belongs to: `Neo4jMachineSpec` itself (a
      standalone server), `Neo4jCoreMachineSpec` or `Neo4jReplicaMachineSpec`. */
  datatype Role = Standalone | Core | Replica

  /** A (host, port) pair, as the `Address` tuple compares them. */
  datatype Address = Address(host: string, port: int)

  datatype Spec = Spec(name: string, serviceName: string, boltPort: int, httpPort: int,
                       role: Role, config: Dict)

  const AdvertisedAddressKey := "dbms.connector.bolt.advertised_address"
  const ModeKey := "dbms.mode"

  /** The class-level defaults every spec starts from. */
  function BaseConfig(): (d: Dict)
    ensures Distinct(d)
  {
    [
      Setting("dbms.backup.enabled", "false"),
      Setting("dbms.memory.heap.initial_size", "300m"),
      Setting("dbms.memory.heap.max_size", "500m"),
      Setting("dbms.memory.pagecache.size", "50m"),
      Setting("dbms.transaction.bookmark_ready_timeout", "5s")
    ]
  }

  function DigitChar(d: nat): (c: char)
    requires d < 10
    ensures '0' <= c <= '9'
  {
    (48 + d) as char
  }

  /** Python's `str()` of a non-negative integer. */
  function NatToString(n: nat): (s: string)
    ensures 1 <= |s| && (n < 10 <==> |s| == 1)
    ensures forall i :: 0 <= i < |s| ==> '0' <= s[i] <= '9'
    decreases n
  {
    if n < 10 then [DigitChar(n)] else NatToString(n / 10) + [DigitChar(n % 10)]
  }

  /** Python's `str()` of an integer. */
  function IntToString(n: int): string {
    if n < 0 then "-" + NatToString(-n) else NatToString(n)
  }

  /** Distinct numbers are written differently. */
  lemma {:induction false} NatToStringInjective(a: nat, b: nat)
    requires NatToString(a) == NatToString(b)
    ensures a == b
  {
    if 10 <= a {
      var s := NatToString(a);
      assert s[..|s| - 1] == NatToString(a / 10);
      assert s[..|s| - 1] == NatToString(b / 10);
      NatToStringInjective(a / 10, b / 10);
      assert DigitChar(a % 10) == s[|s| - 1] == DigitChar(b % 10);
    }
  }

  lemma IntToStringInjective(a: int, b: int)
    requires IntToString(a) == IntToString(b)
    ensures a == b
  {
    assert IntToString(a)[0] == '-' <==> a < 0;
    assert IntToString(b)[0] == '-' <==> b < 0;
    if a < 0 {
      assert IntToString(a)[1..] == NatToString(-a);
      assert IntToString(b)[1..] == NatToString(-b);
      NatToStringInjective(-a, -b);
    } else {
      NatToStringInjective(a, b);
    }
  }

  /** The `dbms.mode` the Core and Replica constructors force. */
  function ForcedMode(role: Role): Option<string> {
    match role
    case Standalone => None
    case Core => Some("CORE")
    case Replica => Some("READ_REPLICA")
  }

  /** The caller's dict after the Core/Replica constructor has written its
      mode into it (`config["dbms.mode"] = ...`). */
  function RoleOverrides(role: Role, config: Dict): Dict
    requires Distinct(config)
  {
    if ForcedMode(role).Some? then Put(config, ModeKey, ForcedMode(role).value) else config
  }

  function AdvertisedAddress(boltPort: int): string {
    "localhost:" + IntToString(boltPort)
  }

  /** Where each setting of a new spec comes from, highest priority first: the
      forced mode, then the caller's entries, then the advertised address,
      then the class defaults. */
  ghost function Layered(role: Role, boltPort: int, config: Dict, k: string): Option<string> {
    if k == ModeKey && ForcedMode(role).Some? then ForcedMode(role)
    else if Get(config, k).Some? then Get(config, k)
    else if k == AdvertisedAddressKey then Some(AdvertisedAddress(boltPort))
    else Get(BaseConfig(), k)
  }

  /** Constructing a spec: its own copy of the defaults, the bolt advertised
      address, then the caller's entries (with the role's mode) on top. */
  function NewSpec(name: string, serviceName: string, boltPort: int, httpPort: int,
                   role: Role, config: Dict): (s: Spec)
    requires Distinct(config)
    ensures s.name == name && s.serviceName == serviceName && s.role == role
    ensures s.boltPort == boltPort && s.httpPort == httpPort
    ensures Distinct(s.config)
  {
    var own := Put(BaseConfig(), AdvertisedAddressKey, AdvertisedAddress(boltPort));
    Spec(name, serviceName, boltPort, httpPort, role, Update(own, RoleOverrides(role, config)))
  }

  /** Each setting of a new spec comes from the highest layer that has it. */
  lemma NewSpecConfig(name: string, serviceName: string, boltPort: int, httpPort: int,
                      role: Role, config: Dict, k: string)
    requires Distinct(config)
    ensures Get(NewSpec(name, serviceName, boltPort, httpPort, role, config).config, k) ==
            Layered(role, boltPort, config, k)
  {
  }

  /** `fq_name`: the container and host name of the spec's machine. */
  function FqName(s: Spec): string {
    s.name + "." + s.serviceName
  }

  /** `discovery_address`: where a core advertises itself to its peers. */
  function DiscoveryAddress(s: Spec): string {
    s.name + "." + s.serviceName + ":5000"
  }

  /** `bolt_address`. */
  function BoltAddress(s: Spec): Address {
    Address("localhost", s.boltPort)
  }

  /** Within one service, the fully-qualified name determines the short name. */
  lemma FqNameInjective(s: Spec, t: Spec)
    requires s.serviceName == t.serviceName && FqName(s) == FqName(t)
    ensures s.name == t.name
  {
    assert |s.name| == |t.name|;
    assert FqName(s)[..|s.name|] == s.name;
    assert FqName(t)[..|t.name|] == t.name;
  }

  /** The discovery address is the fully-qualified name on port 5000. */
  lemma DiscoveryAddressIsFqName(s: Spec)
    ensures DiscoveryAddress(s) == FqName(s) + ":5000"
  {
  }
}
