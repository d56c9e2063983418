/** The fixed slots of a cluster: seven core specs and ten replica specs with
    names and ports assigned by index, and the checks on the requested shape
    (boltkit/server/__init__.py, lines 505-565). */
module Allocation {
  import opened Wrappers
  import opened Settings
  import opened MachineSpecs

  const MinCores: nat := 3
  const MaxCores: nat := 7
  const MinReplicas: nat := 0
  const MaxReplicas: nat := 10

  const StandaloneBoltPort := 7687
  const StandaloneHttpPort := 7474
  const ClusterBoltPort := 17601
  const ClusterHttpPort := 17401

  const FormationSizeKey := "causal_clustering.minimum_core_cluster_size_at_formation"
  const RuntimeSizeKey := "causal_clustering.minimum_core_cluster_size_at_runtime"

  /** `_port_range(base, count)`: `range(base, base + count)`. */
  function PortRange(base: int, count: nat): (r: seq<int>)
    ensures |r| == count
    ensures forall i :: 0 <= i < count ==> r[i] == base + i
    ensures forall p :: p in r <==> base <= p < base + count
    ensures forall i, j :: 0 <= i < j < |r| ==> r[i] < r[j]
    ensures count > 0 ==> r[0] == base
  {
    var r := seq(count, i requires 0 <= i < count => base + i);
    assert forall p :: base <= p < base + count ==> p in r by {
      forall p | base <= p < base + count ensures p in r {
        assert r[p - base] == p;
      }
    }
    r
  }

  /** `ceil(stop / 10) * 10`, computed on integers: the least multiple of ten
      that is not below `stop`. */
  function RoundUpTo10(stop: int): (r: int)
    ensures r % 10 == 0
    ensures stop <= r < stop + 10
  {
    ((stop + 9) / 10) * 10
  }

  /** Python's `x or default` for a port or a count, with 0 standing for
      both `None` and `0`. */
  function OrDefault(x: int, default: int): int {
    if x == 0 then default else x
  }

  /** `chr(97 + i)`: a, b, c, ... */
  function CoreName(i: nat): string requires i < 26 { [(97 + i) as char] }

  /** `chr(48 + i)`: 0, 1, 2, ... */
  function ReplicaName(i: nat): string requires i < 10 { [(48 + i) as char] }

  /** The caller's config plus the two cluster-size settings every core
      carries; the count is written out in decimal. */
  function CoreConfig(config: Dict, nCores: nat): Dict
    requires Distinct(config)
  {
    Put(Put(config, FormationSizeKey, NatToString(nCores)), RuntimeSizeKey, NatToString(MinCores))
  }

  /** Core slot i: named `chr(97 + i)`, on the i-th port of each core
      range. */
  function CoreSpec(serviceName: string, boltBase: int, httpBase: int, nCores: nat, config: Dict, i: nat): Spec
    requires Distinct(config) && i < MaxCores
  {
    NewSpec(CoreName(i), serviceName, PortRange(boltBase, MaxCores)[i], PortRange(httpBase, MaxCores)[i],
            Core, CoreConfig(config, nCores))
  }

  /** `free_core_machine_specs` as first built: core slot i is named
      `chr(97 + i)` and takes port `base + i`. */
  function CoreSpecs(serviceName: string, boltBase: int, httpBase: int, nCores: nat, config: Dict): (r: seq<Spec>)
    requires Distinct(config)
    ensures |r| == MaxCores
    ensures forall i :: 0 <= i < MaxCores ==>
      && r[i].name == CoreName(i) && r[i].serviceName == serviceName && r[i].role == Core
      && r[i].boltPort == boltBase + i && r[i].httpPort == httpBase + i
  {
    seq(MaxCores, i requires 0 <= i < MaxCores => CoreSpec(serviceName, boltBase, httpBase, nCores, config, i))
  }

  /** Replica slot i: named `chr(48 + i)`, on the i-th port of each replica
      range. */
  function ReplicaSpec(serviceName: string, boltBase: int, httpBase: int, config: Dict, i: nat): Spec
    requires Distinct(config) && i < MaxReplicas
  {
    NewSpec(ReplicaName(i), serviceName, PortRange(RoundUpTo10(boltBase + MaxCores), MaxReplicas)[i],
            PortRange(RoundUpTo10(httpBase + MaxCores), MaxReplicas)[i], Replica, config)
  }

  /** `free_replica_machine_specs` as first built: replica slot i is named
      `chr(48 + i)`; its ports start at the first multiple of ten at or above
      the end of the core range. */
  function ReplicaSpecs(serviceName: string, boltBase: int, httpBase: int, config: Dict): (r: seq<Spec>)
    requires Distinct(config)
    ensures |r| == MaxReplicas
    ensures forall i :: 0 <= i < MaxReplicas ==>
      && r[i].name == ReplicaName(i) && r[i].serviceName == serviceName && r[i].role == Replica
      && r[i].boltPort == RoundUpTo10(boltBase + MaxCores) + i
      && r[i].httpPort == RoundUpTo10(httpBase + MaxCores) + i
  {
    seq(MaxReplicas, i requires 0 <= i < MaxReplicas => ReplicaSpec(serviceName, boltBase, httpBase, config, i))
  }

  /** Every core spec runs in CORE mode and carries the formation size
      asked for and the runtime minimum of three, whatever the caller's
      config says. */
  lemma CoreSpecsConfig(serviceName: string, boltBase: int, httpBase: int, nCores: nat, config: Dict, i: nat)
    requires Distinct(config) && i < MaxCores
    ensures Distinct(CoreSpecs(serviceName, boltBase, httpBase, nCores, config)[i].config)
    ensures Get(CoreSpecs(serviceName, boltBase, httpBase, nCores, config)[i].config, ModeKey) == Some("CORE")
    ensures Get(CoreSpecs(serviceName, boltBase, httpBase, nCores, config)[i].config, FormationSizeKey)
            == Some(NatToString(nCores))
    ensures Get(CoreSpecs(serviceName, boltBase, httpBase, nCores, config)[i].config, RuntimeSizeKey)
            == Some(NatToString(MinCores))
  {
    var cfg := CoreConfig(config, nCores);
    var bolt, http := PortRange(boltBase, MaxCores)[i], PortRange(httpBase, MaxCores)[i];
    NewSpecConfig(CoreName(i), serviceName, bolt, http, Core, cfg, ModeKey);
    NewSpecConfig(CoreName(i), serviceName, bolt, http, Core, cfg, FormationSizeKey);
    NewSpecConfig(CoreName(i), serviceName, bolt, http, Core, cfg, RuntimeSizeKey);
  }

  /** Every replica spec runs in READ_REPLICA mode. */
  lemma ReplicaSpecsConfig(serviceName: string, boltBase: int, httpBase: int, config: Dict, i: nat)
    requires Distinct(config) && i < MaxReplicas
    ensures Distinct(ReplicaSpecs(serviceName, boltBase, httpBase, config)[i].config)
    ensures Get(ReplicaSpecs(serviceName, boltBase, httpBase, config)[i].config, ModeKey) == Some("READ_REPLICA")
  {
    var bolt := PortRange(RoundUpTo10(boltBase + MaxCores), MaxReplicas)[i];
    var http := PortRange(RoundUpTo10(httpBase + MaxCores), MaxReplicas)[i];
    NewSpecConfig(ReplicaName(i), serviceName, bolt, http, Replica, config, ModeKey);
  }

  /** No two specs share a name, a bolt port or an HTTP port. */
  ghost predicate SpecsDisjoint(t: seq<Spec>) {
    forall i, j :: 0 <= i < j < |t| ==>
      t[i].name != t[j].name && t[i].boltPort != t[j].boltPort && t[i].httpPort != t[j].httpPort
  }

  /** The shape of a cluster's two spec tables. */
  ghost predicate Tables(cores: seq<Spec>, replicas: seq<Spec>, serviceName: string) {
    && |cores| == MaxCores && |replicas| == MaxReplicas
    && (forall i :: 0 <= i < |cores| ==> cores[i].role == Core && cores[i].serviceName == serviceName)
    && (forall i :: 0 <= i < |replicas| ==> replicas[i].role == Replica && replicas[i].serviceName == serviceName)
    && SpecsDisjoint(cores + replicas)
  }

  /** Slots named and numbered by index, as the two tables are, never clash. */
  lemma IndexedSlotsDisjoint(cores: seq<Spec>, replicas: seq<Spec>, serviceName: string,
                             boltBase: int, httpBase: int)
    requires |cores| == MaxCores && |replicas| == MaxReplicas
    requires forall i :: 0 <= i < MaxCores ==>
      && cores[i].name == CoreName(i) && cores[i].serviceName == serviceName && cores[i].role == Core
      && cores[i].boltPort == boltBase + i && cores[i].httpPort == httpBase + i
    requires forall i :: 0 <= i < MaxReplicas ==>
      && replicas[i].name == ReplicaName(i) && replicas[i].serviceName == serviceName
      && replicas[i].role == Replica
      && replicas[i].boltPort == RoundUpTo10(boltBase + MaxCores) + i
      && replicas[i].httpPort == RoundUpTo10(httpBase + MaxCores) + i
    ensures Tables(cores, replicas, serviceName)
    ensures forall i, j :: 0 <= i < MaxCores && 0 <= j < MaxReplicas ==>
      cores[i].boltPort < replicas[j].boltPort && cores[i].httpPort < replicas[j].httpPort
  {
    var t := cores + replicas;
    forall i, j | 0 <= i < j < |t|
      ensures t[i].name != t[j].name && t[i].boltPort != t[j].boltPort && t[i].httpPort != t[j].httpPort
    {
      if j < MaxCores {
        assert t[i].name[0] == (97 + i) as char && t[j].name[0] == (97 + j) as char;
      } else if i < MaxCores {
        assert t[i].name[0] == (97 + i) as char && t[j].name[0] == (48 + j - MaxCores) as char;
      } else {
        assert t[i].name[0] == (48 + i - MaxCores) as char && t[j].name[0] == (48 + j - MaxCores) as char;
      }
    }
  }

  /** The allocation scheme keeps all seventeen slots apart, and puts every
      replica port above every core port. */
  lemma AllocationDisjoint(serviceName: string, boltBase: int, httpBase: int, nCores: nat, config: Dict)
    requires Distinct(config)
    ensures Tables(CoreSpecs(serviceName, boltBase, httpBase, nCores, config),
                   ReplicaSpecs(serviceName, boltBase, httpBase, config), serviceName)
    ensures forall i, j :: 0 <= i < MaxCores && 0 <= j < MaxReplicas ==>
      && CoreSpecs(serviceName, boltBase, httpBase, nCores, config)[i].boltPort
         < ReplicaSpecs(serviceName, boltBase, httpBase, config)[j].boltPort
      && CoreSpecs(serviceName, boltBase, httpBase, nCores, config)[i].httpPort
         < ReplicaSpecs(serviceName, boltBase, httpBase, config)[j].httpPort
  {
    IndexedSlotsDisjoint(CoreSpecs(serviceName, boltBase, httpBase, nCores, config),
                         ReplicaSpecs(serviceName, boltBase, httpBase, config),
                         serviceName, boltBase, httpBase);
  }

  datatype ShapeError = TooFewOrManyCores | TooFewOrManyReplicas

  datatype Shape = Shape(cores: nat, replicas: nat)

  /** `Neo4jService(...)` builds a cluster exactly when `n_cores` is truthy. */
  predicate IsCluster(nCores: int) {
    nCores != 0
  }

  /** The count checks of the cluster constructor, after `n or minimum`. */
  function CheckShape(nCores: int, nReplicas: int): (r: Result<Shape, ShapeError>)
    ensures r.Success? <==>
      MinCores <= OrDefault(nCores, MinCores) <= MaxCores && MinReplicas <= nReplicas <= MaxReplicas
    ensures r.Success? ==> r.value == Shape(OrDefault(nCores, MinCores), OrDefault(nReplicas, MinReplicas))
    ensures r == Failure(TooFewOrManyReplicas) ==> MinCores <= OrDefault(nCores, MinCores) <= MaxCores
  {
    var cores := OrDefault(nCores, MinCores);
    var replicas := OrDefault(nReplicas, MinReplicas);
    if !(MinCores <= cores <= MaxCores) then Failure(TooFewOrManyCores)
    else if !(MinReplicas <= replicas <= MaxReplicas) then Failure(TooFewOrManyReplicas)
    else Success(Shape(cores, replicas))
  }
}
